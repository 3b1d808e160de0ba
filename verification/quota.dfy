/** Concurrent-connection quotas: who counts, for whom, and how much. */
module Quota {
  import opened Models
  import opened Text
  import opened Totals
  import opened Owner
  import opened Router

  /** A row is active when its state says so, or failing that when its end lies ahead. */
  ghost predicate ProfileActive(row: ProfileRow, now: int) {
    Contains(Lower(TrimSpace(row.state)), "active") || (row.endTime.Some? && row.endTime.value > now)
  }

  ghost predicate HasActive(rows: seq<ProfileRow>, now: int) {
    exists i :: 0 <= i < |rows| && ProfileActive(rows[i], now)
  }

  method IsProfileActive(row: ProfileRow, now: int) returns (active: bool)
    ensures active <==> ProfileActive(row, now)
  {
    active := FindSubstring(Lower(TrimSpace(row.state)), "active");
    if !active && row.endTime.Some? {
      active := row.endTime.value > now;
    }
  }

  /** The six letters of "active", each in either case, from position i on. */
  ghost predicate SpelledAt(s: string, i: int) {
    0 <= i && i + 6 <= |s| && forall k :: 0 <= k < 6 ==> s[i + k] == "active"[k] || s[i + k] == "ACTIVE"[k]
  }

  lemma SpelledIsFound(s: string, i: int)
    ensures SpelledAt(s, i) <==> At(Lower(s), "active", i)
  {
    if 0 <= i && i + 6 <= |s| {
      var piece := Lower(s)[i..i + 6];
      assert forall k :: 0 <= k < 6 ==> piece[k] == LowerChar(s[i + k]);
      assert forall k :: 0 <= k < 6 ==>
        (LowerChar(s[i + k]) == "active"[k] <==> s[i + k] == "active"[k] || s[i + k] == "ACTIVE"[k]);
      assert piece == "active" <==> forall k :: 0 <= k < 6 ==> piece[k] == "active"[k];
    }
  }

  /** Trimming neither hides nor makes an occurrence. */
  lemma SpelledInTrimmed(s: string, i: int)
    ensures SpelledAt(s, i) <==> SpelledAt(TrimSpace(s), i - (|s| - |TrimLeft(s)|))
  {
    var t, a := TrimSpace(s), |s| - |TrimLeft(s)|;
    TrimSpaceExact(s);
    hide TrimSpace, TrimLeft;
    assert forall k :: 0 <= k < |t| ==> t[k] == s[a..a + |t|][k] == s[a + k];
    if SpelledAt(s, i) {
      assert "active"[0] == 'a' && "ACTIVE"[0] == 'A' && "active"[5] == 'e' && "ACTIVE"[5] == 'E';
      assert !IsSpace(s[i + 0]) && !IsSpace(s[i + 5]);
      assert a <= i && i + 5 < a + |t|;
    }
  }

  /** A row is active exactly when its state reads "active" somewhere, in any case, or its end has not come yet. */
  lemma ActiveExactly(row: ProfileRow, now: int)
    ensures ProfileActive(row, now) <==>
              (exists i :: SpelledAt(row.state, i)) || (row.endTime.Some? && now < row.endTime.value)
  {
    var s, t := row.state, TrimSpace(row.state);
    var a := |s| - |TrimLeft(s)|;
    hide Lower, TrimSpace, TrimLeft, SpelledAt;
    if i :| SpelledAt(s, i) {
      SpelledInTrimmed(s, i);
      SpelledIsFound(t, i - a);
    }
    if i :| At(Lower(t), "active", i) {
      SpelledIsFound(t, i);
      SpelledInTrimmed(s, i + a);
    }
  }

  /** Unless the router calls it active, a row is active exactly up to the instant before its end. */
  lemma RunsUntilEnd(row: ProfileRow, now: int)
    requires !StateActive(row.state)
    ensures ProfileActive(row, now) <==> row.endTime.Some? && now < row.endTime.value
  {
    hide ProfileActive, SpelledAt;
    ActiveExactly(row, now);
    if i :| SpelledAt(row.state, i) {
      SpelledIsFound(row.state, i);
    }
  }

  method UserHasActiveProfile(rows: seq<ProfileRow>, now: int) returns (active: bool)
    ensures active <==> HasActive(rows, now)
  {
    for i := 0 to |rows|
      invariant forall k :: 0 <= k < i ==> !ProfileActive(rows[k], now)
    {
      active := IsProfileActive(rows[i], now);
      if active {
        return;
      }
    }
    active := false;
  }

  predicate CheckAdd(used: int, quota: int, newShared: int) {
    used + newShared <= quota
  }

  predicate CheckIncrease(used: int, quota: int, oldShared: int, newShared: int) {
    used - oldShared + newShared <= quota
  }

  // ---------------------------------------------------------------- scans over a user list

  datatype ScopeStats = ScopeStats(vpnUsers: int, connections: int)

  const ZERO := ScopeStats(0, 0)

  function Plus(a: ScopeStats, b: ScopeStats): ScopeStats {
    ScopeStats(a.vpnUsers + b.vpnUsers, a.connections + b.connections)
  }

  /** How rows are read; None is a failed read. */
  type ProfilesFn = string -> Option<seq<ProfileRow>>

  ghost predicate Counts(u: User, fn: ProfilesFn, now: int) {
    !u.disabled && fn(u.name).Some? && HasActive(fn(u.name).value, now)
  }

  function One(u: User): ScopeStats {
    ScopeStats(1, u.sharedUsers)
  }

  /** The stats of one owner (0 for orphans) over a user list. */
  ghost function ScopeOf(reg: Registry, id: int, users: seq<User>, fn: ProfilesFn, now: int): ScopeStats {
    if users == [] then ZERO
    else
      var rest, u := ScopeOf(reg, id, users[..|users| - 1], fn, now), users[|users| - 1];
      if Resolve(reg, u.name, u.comment) == id && Counts(u, fn, now) then Plus(rest, One(u)) else rest
  }

  ghost function ScopeOfAll(users: seq<User>, fn: ProfilesFn, now: int): ScopeStats {
    if users == [] then ZERO
    else
      var rest, u := ScopeOfAll(users[..|users| - 1], fn, now), users[|users| - 1];
      if Counts(u, fn, now) then Plus(rest, One(u)) else rest
  }

  ghost predicate ReadFails(reg: Registry, id: int, users: seq<User>, fn: ProfilesFn) {
    exists u :: u in users && Resolve(reg, u.name, u.comment) == id && !u.disabled && fn(u.name) == None
  }

  ghost predicate AnyReadFails(users: seq<User>, fn: ProfilesFn) {
    exists u :: u in users && !u.disabled && fn(u.name) == None
  }

  method UsedForManager(reg: Registry, managerID: int, users: seq<User>, fn: ProfilesFn, now: int)
    returns (used: Option<int>)
    requires IdsNonzero(reg.managers)
    ensures used == if ReadFails(reg, managerID, users, fn) then None
                    else Some(ScopeOf(reg, managerID, users, fn, now).connections)
  {
    var sum := 0;
    for i := 0 to |users|
      invariant !ReadFails(reg, managerID, users[..i], fn)
      invariant sum == ScopeOf(reg, managerID, users[..i], fn, now).connections
    {
      var u := users[i];
      assert users[..i + 1] == users[..i] + [u];
      var id := ResolveOwner(reg, u.name, u.comment);
      if id != managerID || u.disabled {
        continue;
      }
      var rows := fn(u.name);
      if rows.None? {
        assert u in users;
        return None;
      }
      var active := UserHasActiveProfile(rows.value, now);
      if active {
        sum := sum + u.sharedUsers;
      }
    }
    assert users[..|users|] == users;
    used := Some(sum);
  }

  datatype Aggregate = Aggregate(total: ScopeStats, orphan: ScopeStats, byManager: map<int, ScopeStats>)

  /** Go's map read: the zero value when absent. */
  function StatsOf(m: map<int, ScopeStats>, id: int): ScopeStats {
    if id in m then m[id] else ZERO
  }

  /** One pass for every owner at once agrees with the per-owner scans. */
  method AggregateByOwner(reg: Registry, users: seq<User>, fn: ProfilesFn, now: int) returns (r: Option<Aggregate>)
    requires IdsNonzero(reg.managers)
    ensures r.None? <==> AnyReadFails(users, fn)
    ensures r.Some? ==>
              && r.value.total == ScopeOfAll(users, fn, now)
              && r.value.orphan == ScopeOf(reg, 0, users, fn, now)
              && (forall id :: id != 0 ==> StatsOf(r.value.byManager, id) == ScopeOf(reg, id, users, fn, now))
              && 0 !in r.value.byManager
  {
    var total, orphan := ZERO, ZERO;
    var byManager: map<int, ScopeStats> := map[];
    for i := 0 to |users|
      invariant !AnyReadFails(users[..i], fn)
      invariant total == ScopeOfAll(users[..i], fn, now)
      invariant orphan == ScopeOf(reg, 0, users[..i], fn, now)
      invariant forall id :: id != 0 ==> StatsOf(byManager, id) == ScopeOf(reg, id, users[..i], fn, now)
      invariant 0 !in byManager
    {
      var u := users[i];
      assert users[..i + 1][..i] == users[..i];
      assert users[..i + 1] == users[..i] + [u];
      var ownerID := ResolveOwner(reg, u.name, u.comment);
      if u.disabled {
        continue;
      }
      var rows := fn(u.name);
      if rows.None? {
        assert u in users;
        return None;
      }
      var active := UserHasActiveProfile(rows.value, now);
      if !active {
        continue;
      }
      total := Plus(total, One(u));
      if ownerID == 0 {
        orphan := Plus(orphan, One(u));
        continue;
      }
      byManager := byManager[ownerID := Plus(StatsOf(byManager, ownerID), One(u))];
    }
    assert users[..|users|] == users;
    r := Some(Aggregate(total, orphan, byManager));
  }

  // ---------------------------------------------------------------- nothing is lost between the rows

  /** The dashboard's rows: one per manager of the registry. */
  ghost function SumOfRows(reg: Registry, n: nat, users: seq<User>, fn: ProfilesFn, now: int): ScopeStats
    requires n <= |reg.managers|
  {
    if n == 0 then ZERO
    else Plus(SumOfRows(reg, n - 1, users, fn, now), ScopeOf(reg, reg.managers[n - 1].id, users, fn, now))
  }

  lemma {:induction false} RowsOfNobody(reg: Registry, n: nat, users: seq<User>, fn: ProfilesFn, now: int)
    requires n <= |reg.managers| && |users| == 0
    ensures SumOfRows(reg, n, users, fn, now) == ZERO
  {
    if n > 0 {
      RowsOfNobody(reg, n - 1, users, fn, now);
    }
  }

  lemma ScopesOfNobody(reg: Registry, users: seq<User>, fn: ProfilesFn, now: int)
    requires |users| == 0
    ensures ScopeOfAll(users, fn, now) == ScopeOf(reg, 0, users, fn, now) == ZERO
  {
  }

  lemma NothingPlusNothing()
    ensures Plus(ZERO, ZERO) == ZERO
  {
  }

  lemma {:induction false} NobodyAddsUp(reg: Registry, users: seq<User>, fn: ProfilesFn, now: int)
    requires |users| == 0
    ensures ScopeOfAll(users, fn, now) ==
              Plus(ScopeOf(reg, 0, users, fn, now), SumOfRows(reg, |reg.managers|, users, fn, now))
  {
    hide ScopeOf, ScopeOfAll, SumOfRows, Plus;
    NothingPlusNothing();
    ScopesOfNobody(reg, users, fn, now);
    RowsOfNobody(reg, |reg.managers|, users, fn, now);
  }

  lemma {:induction false} RowsAfterOneMore(reg: Registry, n: nat, users: seq<User>, u: User, fn: ProfilesFn, now: int)
    requires n <= |reg.managers| && IdsDistinct(reg.managers)
    ensures var owned := exists i :: 0 <= i < n && reg.managers[i].id == Resolve(reg, u.name, u.comment);
            SumOfRows(reg, n, users + [u], fn, now) ==
              if owned && Counts(u, fn, now) then Plus(SumOfRows(reg, n, users, fn, now), One(u))
              else SumOfRows(reg, n, users, fn, now)
  {
    assert (users + [u])[..|users|] == users;
    if n > 0 {
      RowsAfterOneMore(reg, n - 1, users, u, fn, now);
    }
  }

  lemma ResolveIsListed(reg: Registry, name: string, comment: string)
    requires IdsNonzero(reg.managers)
    ensures var id := Resolve(reg, name, comment);
            id == 0 || exists i :: 0 <= i < |reg.managers| && reg.managers[i].id == id
  {
    var j := ByNameFound(reg.managers, reg.separator, name);
    var k := ByCommentFound(reg.managers, comment);
  }

  lemma OwnedIffNotOrphan(reg: Registry, name: string, comment: string)
    requires IdsNonzero(reg.managers)
    ensures (exists i :: 0 <= i < |reg.managers| && reg.managers[i].id == Resolve(reg, name, comment))
       <==> Resolve(reg, name, comment) != 0
  {
    ResolveIsListed(reg, name, comment);
  }

  lemma ScopeAfterOneMore(reg: Registry, id: int, users: seq<User>, u: User, fn: ProfilesFn, now: int)
    ensures ScopeOf(reg, id, users + [u], fn, now) ==
              if Resolve(reg, u.name, u.comment) == id && Counts(u, fn, now)
              then Plus(ScopeOf(reg, id, users, fn, now), One(u)) else ScopeOf(reg, id, users, fn, now)
    ensures ScopeOfAll(users + [u], fn, now) ==
              if Counts(u, fn, now) then Plus(ScopeOfAll(users, fn, now), One(u)) else ScopeOfAll(users, fn, now)
  {
    assert (users + [u])[..|users|] == users;
  }

  /** Total = orphans + the displayed manager rows, for users and for connections. */
  lemma {:induction false} DisplayedRowsAddUp(reg: Registry, users: seq<User>, fn: ProfilesFn, now: int)
    requires IdsNonzero(reg.managers) && IdsDistinct(reg.managers)
    ensures ScopeOfAll(users, fn, now) ==
              Plus(ScopeOf(reg, 0, users, fn, now), SumOfRows(reg, |reg.managers|, users, fn, now))
  {
    if users == [] {
      NobodyAddsUp(reg, users, fn, now);
    } else {
      var front, u := users[..|users| - 1], users[|users| - 1];
      assert front + [u] == users;
      DisplayedRowsAddUp(reg, front, fn, now);
      DisplayedRowsStep(reg, front, u, fn, now);
    }
  }

  lemma DisplayedRowsStep(reg: Registry, users: seq<User>, u: User, fn: ProfilesFn, now: int)
    requires IdsNonzero(reg.managers) && IdsDistinct(reg.managers)
    requires ScopeOfAll(users, fn, now) ==
              Plus(ScopeOf(reg, 0, users, fn, now), SumOfRows(reg, |reg.managers|, users, fn, now))
    ensures ScopeOfAll(users + [u], fn, now) ==
              Plus(ScopeOf(reg, 0, users + [u], fn, now), SumOfRows(reg, |reg.managers|, users + [u], fn, now))
  {
    RowsAfterOneMore(reg, |reg.managers|, users, u, fn, now);
    ScopeAfterOneMore(reg, 0, users, u, fn, now);
    OwnedIffNotOrphan(reg, u.name, u.comment);
  }

  // ---------------------------------------------------------------- usage as a total over the router

  ghost function Charge(reg: Registry, id: int, r: RouterState, now: int, name: string): int
    requires name in r.users
  {
    var u := r.users[name];
    if Resolve(reg, name, u.comment) == id && !u.disabled && HasActive(Rows(r, name), now) then u.sharedUsers else 0
  }

  ghost function Charges(reg: Registry, id: int, r: RouterState, now: int): map<string, int> {
    map name | name in r.users :: Charge(reg, id, r, now, name)
  }

  /** The connections a manager uses. */
  ghost function Used(reg: Registry, id: int, r: RouterState, now: int): int {
    Total(Charges(reg, id, r, now))
  }

  ghost function Names(users: seq<User>): seq<string> {
    seq(|users|, i requires 0 <= i < |users| => users[i].name)
  }

  /** Reading rows straight from a router state never fails. */
  function ReadRows(profiles: map<string, seq<ProfileRow>>): ProfilesFn {
    name => Some(if name in profiles then profiles[name] else [])
  }

  lemma {:induction false} ScanIsListTotal(reg: Registry, id: int, r: RouterState, now: int, users: seq<User>)
    requires forall i :: 0 <= i < |users| ==> users[i].name in r.users && r.users[users[i].name] == users[i]
    ensures forall n :: n in Names(users) ==> n in Charges(reg, id, r, now)
    ensures ScopeOf(reg, id, users, ReadRows(r.profiles), now).connections
         == ListTotal(Charges(reg, id, r, now), Names(users))
  {
    if users != [] {
      var front := users[..|users| - 1];
      ScanIsListTotal(reg, id, r, now, front);
      assert Names(users)[..|users| - 1] == Names(front);
    }
  }

  /** The scan computes the total, in whatever order the router lists its users. */
  lemma ScanIsUsed(reg: Registry, id: int, r: RouterState, now: int, users: seq<User>)
    requires WellFormed(r) && Lists(users, r.users)
    ensures ScopeOf(reg, id, users, ReadRows(r.profiles), now).connections == Used(reg, id, r, now)
  {
    forall i | 0 <= i < |users|
      ensures users[i].name in r.users && r.users[users[i].name] == users[i]
    {
      assert users[i] in users;
    }
    ScanIsListTotal(reg, id, r, now, users);
    var names, m := Names(users), Charges(reg, id, r, now);
    forall n
      ensures n in names <==> n in m
    {
      if n in m {
        assert r.users[n] in users;
        var i :| 0 <= i < |users| && users[i] == r.users[n];
        assert names[i] == n;
      }
    }
    ListTotalIsTotal(m, names);
  }

  /** The users an owner is charged for. */
  ghost function ChargedUsers(reg: Registry, id: int, r: RouterState, now: int): set<string> {
    set name | name in r.users && Resolve(reg, name, r.users[name].comment) == id && !r.users[name].disabled &&
               HasActive(Rows(r, name), now)
  }

  function Among(charged: set<string>, names: seq<string>): set<string> {
    set name | name in charged && name in names
  }

  lemma AmongGrows(charged: set<string>, names: seq<string>, name: string)
    requires name !in names
    ensures |Among(charged, names + [name])| == |Among(charged, names)| + if name in charged then 1 else 0
  {
    assert Among(charged, names + [name]) == Among(charged, names) + (if name in charged then {name} else {});
  }

  /** A scan counts as many users as the owner is charged for. */
  lemma ScanCountsUsers(reg: Registry, id: int, r: RouterState, now: int, users: seq<User>)
    requires WellFormed(r) && Lists(users, r.users)
    ensures ScopeOf(reg, id, users, ReadRows(r.profiles), now).vpnUsers == |ChargedUsers(reg, id, r, now)|
  {
    ScanCountsPrefix(reg, id, r, now, users);
    forall name | name in r.users
      ensures name in Names(users)
    {
      var i :| 0 <= i < |users| && users[i] == r.users[name];
      assert Names(users)[i] == name;
    }
    hide ScopeOf, HasActive, Resolve;
    assert Among(ChargedUsers(reg, id, r, now), Names(users)) == ChargedUsers(reg, id, r, now);
  }

  lemma {:induction false} ScanCountsPrefix(reg: Registry, id: int, r: RouterState, now: int, users: seq<User>)
    requires forall i :: 0 <= i < |users| ==> users[i].name in r.users && r.users[users[i].name] == users[i]
    requires forall i, j :: 0 <= i < j < |users| ==> users[i].name != users[j].name
    ensures ScopeOf(reg, id, users, ReadRows(r.profiles), now).vpnUsers ==
              |Among(ChargedUsers(reg, id, r, now), Names(users))|
  {
    hide Among, HasActive, Resolve;
    if users == [] {
      assert Names(users) == [];
      NobodyAmong(reg, id, r, now);
    } else {
      var rest, u := users[..|users| - 1], users[|users| - 1];
      ScanCountsPrefix(reg, id, r, now, rest);
      AmongGrows(ChargedUsers(reg, id, r, now), Names(rest), u.name);
      assert Names(users) == Names(rest) + [u.name];
    }
  }

  lemma NobodyAmong(reg: Registry, id: int, r: RouterState, now: int)
    ensures Among(ChargedUsers(reg, id, r, now), []) == {}
  {
  }
}
