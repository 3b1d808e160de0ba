/** The router as the panel sees it: users and their profile rows, with the semantics of the reference client. */
module Router {
  import opened Models
  import opened Text

  datatype User = User(id: string, name: string, password: string, sharedUsers: int, comment: string, disabled: bool)

  datatype ProfileRow = ProfileRow(id: string, user: string, profile: string, state: string, endTime: Option<int>)

  datatype RouterState = RouterState(
    users: map<string, User>, profiles: map<string, seq<ProfileRow>>, nextID: nat, defined: set<string>)

  datatype Error = NotFound | NameTaken | ProfileMissing | ActiveProfile | Unavailable

  datatype Outcome = Done | Failed(error: Error)

  const THIRTY_DAYS := 30 * 24 * 3600

  /** The router's own notion of an active row: the state text contains "active". */
  ghost predicate StateActive(state: string) {
    Contains(Lower(state), "active")
  }

  lemma ActiveIsActive()
    ensures StateActive("active")
  {
    var s := Lower("active");
    assert s == "active";
    assert At(s, "active", 0);
  }

  lemma ExpiredIsNot()
    ensures !StateActive("expired")
  {
    var s := Lower("expired");
    assert |s| == 7 && s[0] == 'e' && s[1] == 'x';
    forall i
      ensures !At(s, "active", i)
    {
      assert 0 <= i <= 1 ==> s[i..i + 6][0] == s[i] != 'a';
    }
  }

  function Rows(r: RouterState, name: string): seq<ProfileRow> {
    if name in r.profiles then r.profiles[name] else []
  }

  function UserID(n: nat): string {
    "*" + Decimal(n)
  }

  function RowID(n: nat): string {
    "*p" + Decimal(n)
  }

  // ---------------------------------------------------------------- what each operation means

  function AddUser(r: RouterState, name: string, password: string, comment: string, sharedUsers: int, disabled: bool)
    : (RouterState, Outcome)
  {
    if name in r.users then (r, Failed(NameTaken))
    else
      var user := User(UserID(r.nextID), name, password, sharedUsers, comment, disabled);
      (r.(users := r.users[name := user], nextID := r.nextID + 1), Done)
  }

  function GetOr<T>(o: Option<T>, default: T): T {
    match o
    case None => default
    case Some(v) => v
  }

  function SetUser(r: RouterState, name: string, password: Option<string>, sharedUsers: Option<int>, comment: string,
                   disabled: Option<bool>): (RouterState, Outcome)
  {
    if name !in r.users then (r, Failed(NotFound))
    else
      var u := r.users[name];
      var changed := u.(password := GetOr(password, u.password), sharedUsers := GetOr(sharedUsers, u.sharedUsers),
                        comment := comment, disabled := GetOr(disabled, u.disabled));
      (r.(users := r.users[name := changed]), Done)
  }

  function RemoveUser(r: RouterState, name: string): (RouterState, Outcome) {
    if name !in r.users then (r, Failed(NotFound))
    else (r.(users := r.users - {name}, profiles := r.profiles - {name}), Done)
  }

  ghost function Expire(row: ProfileRow): ProfileRow {
    if StateActive(row.state) then row.(state := "expired") else row
  }

  ghost function ExpireAll(rows: seq<ProfileRow>): seq<ProfileRow> {
    seq(|rows|, i requires 0 <= i < |rows| => Expire(rows[i]))
  }

  ghost function AddUserProfile(r: RouterState, user: string, profile: string, now: int): (RouterState, Outcome) {
    if profile !in r.defined then (r, Failed(ProfileMissing))
    else if user !in r.users then (r, Failed(NotFound))
    else
      var row := ProfileRow(RowID(r.nextID), user, profile, "active", Some(now + THIRTY_DAYS));
      (r.(profiles := r.profiles[user := ExpireAll(Rows(r, user)) + [row]], nextID := r.nextID + 1), Done)
  }

  predicate RowAt(r: RouterState, name: string, i: int) {
    name in r.profiles && 0 <= i < |r.profiles[name]|
  }

  predicate RowNamed(r: RouterState, name: string, i: int, id: string) {
    RowAt(r, name, i) && r.profiles[name][i].id == id
  }

  ghost function RemoveUserProfile(r: RouterState, id: string): (RouterState, Outcome) {
    if exists name, i :: RowNamed(r, name, i, id) then
      var name, i :| RowNamed(r, name, i, id);
      var rows := r.profiles[name];
      if StateActive(rows[i].state) then (r, Failed(ActiveProfile))
      else (r.(profiles := r.profiles[name := rows[..i] + rows[i + 1..]]), Done)
    else (r, Failed(NotFound))
  }

  // ---------------------------------------------------------------- invariants

  ghost predicate IdsKnown(r: RouterState) {
    forall name, i :: RowAt(r, name, i) ==> exists k: nat :: k < r.nextID && r.profiles[name][i].id == RowID(k)
  }

  ghost predicate IdsUnique(r: RouterState) {
    forall n1, i1, n2, i2 :: RowAt(r, n1, i1) && RowNamed(r, n2, i2, r.profiles[n1][i1].id) ==> n1 == n2 && i1 == i2
  }

  ghost predicate OneActive(rows: seq<ProfileRow>) {
    forall i, j :: 0 <= i < j < |rows| ==> !(StateActive(rows[i].state) && StateActive(rows[j].state))
  }

  /** What every reachable router state satisfies. */
  ghost predicate WellFormed(r: RouterState) {
    && (forall name :: name in r.users ==> r.users[name].name == name)
    && r.profiles.Keys <= r.users.Keys
    && (forall name, i :: RowAt(r, name, i) ==> r.profiles[name][i].user == name)
    && IdsKnown(r) && IdsUnique(r)
    && (forall name :: name in r.profiles ==> OneActive(r.profiles[name]))
  }

  function InitialRouter(): RouterState {
    RouterState(map[], map[], 1, {"profile-open-2M-30d"})
  }

  datatype Write =
    | WAdd(name: string, password: string, comment: string, sharedUsers: int, disabled: bool)
    | WSet(name: string, newPassword: Option<string>, newShared: Option<int>, comment: string,
           newDisabled: Option<bool>)
    | WRemove(name: string)
    | WAddProfile(user: string, profile: string, now: int)
    | WRemoveProfile(rowID: string)

  ghost function ApplyWrite(r: RouterState, w: Write): (RouterState, Outcome) {
    match w
    case WAdd(name, password, comment, sharedUsers, disabled) =>
      AddUser(r, name, password, comment, sharedUsers, disabled)
    case WSet(name, password, sharedUsers, comment, disabled) =>
      SetUser(r, name, password, sharedUsers, comment, disabled)
    case WRemove(name) => RemoveUser(r, name)
    case WAddProfile(user, profile, now) => AddUserProfile(r, user, profile, now)
    case WRemoveProfile(rowID) => RemoveUserProfile(r, rowID)
  }

  ghost function RunWrites(r: RouterState, ws: seq<Write>): RouterState
    decreases |ws|
  {
    if ws == [] then r else RunWrites(ApplyWrite(r, ws[0]).0, ws[1..])
  }

  lemma AddUserKeeps(r: RouterState, name: string, password: string, comment: string, shared: int, disabled: bool)
    requires WellFormed(r)
    ensures WellFormed(AddUser(r, name, password, comment, shared, disabled).0)
  {
    var r' := AddUser(r, name, password, comment, shared, disabled).0;
    assert r'.profiles == r.profiles;
    assert forall n, i :: RowAt(r', n, i) == RowAt(r, n, i);
    assert forall n, i, id :: RowNamed(r', n, i, id) == RowNamed(r, n, i, id);
  }

  lemma SetUserKeeps(r: RouterState, name: string, password: Option<string>, shared: Option<int>, comment: string,
                     disabled: Option<bool>)
    requires WellFormed(r)
    ensures WellFormed(SetUser(r, name, password, shared, comment, disabled).0)
  {
    var r' := SetUser(r, name, password, shared, comment, disabled).0;
    assert forall n, i :: RowAt(r', n, i) == RowAt(r, n, i);
    assert forall n, i, id :: RowNamed(r', n, i, id) == RowNamed(r, n, i, id);
  }

  lemma RemoveUserKeeps(r: RouterState, name: string)
    requires WellFormed(r)
    ensures WellFormed(RemoveUser(r, name).0)
  {
    var r' := RemoveUser(r, name).0;
    assert forall n, i :: RowAt(r', n, i) ==> RowAt(r, n, i) && r'.profiles[n] == r.profiles[n];
    assert forall n, i, id :: RowNamed(r', n, i, id) ==> RowNamed(r, n, i, id);
  }

  lemma FreshRowID(r: RouterState, name: string, i: int)
    requires IdsKnown(r) && RowAt(r, name, i)
    ensures r.profiles[name][i].id != RowID(r.nextID)
  {
    var k: nat :| k < r.nextID && r.profiles[name][i].id == RowID(k);
    if RowID(k) == RowID(r.nextID) {
      assert Decimal(k) == RowID(k)[2..] == RowID(r.nextID)[2..] == Decimal(r.nextID);
      DecimalInjective(k, r.nextID);
    }
  }

  lemma AddUserProfileKeeps(r: RouterState, user: string, profile: string, now: int)
    requires WellFormed(r)
    ensures WellFormed(AddUserProfile(r, user, profile, now).0)
  {
    var r' := AddUserProfile(r, user, profile, now).0;
    if r' != r {
      AddedRows(r, user, profile, now);
      AddedRowsUnique(r, r', user);
      AddedOneActive(r, user, profile, now);
    }
  }

  lemma AddedRows(r: RouterState, user: string, profile: string, now: int)
    requires WellFormed(r) && AddUserProfile(r, user, profile, now).1 == Done
    ensures var r' := AddUserProfile(r, user, profile, now).0;
            forall n, i :: RowAt(r', n, i) ==> AddedOrOld(r, r', user, n, i)
  {
    var r' := AddUserProfile(r, user, profile, now).0;
    forall n, i | RowAt(r', n, i)
      ensures AddedOrOld(r, r', user, n, i)
    {
      if Old(r, user, n, i) {
        assert RowAt(r, n, i);
        FreshRowID(r, n, i);
      }
    }
  }

  lemma AddedOneActive(r: RouterState, user: string, profile: string, now: int)
    requires WellFormed(r) && AddUserProfile(r, user, profile, now).1 == Done
    ensures var r' := AddUserProfile(r, user, profile, now).0;
            forall n :: n in r'.profiles ==> OneActive(r'.profiles[n])
  {
    var r' := AddUserProfile(r, user, profile, now).0;
    var rows := r'.profiles[user];
    ExpiredIsNot();
    assert forall i :: 0 <= i < |rows| - 1 ==> rows[i] == Expire(Rows(r, user)[i]) && !StateActive(rows[i].state);
    assert forall n :: n in r'.profiles && n != user ==> n in r.profiles && r'.profiles[n] == r.profiles[n];
  }

  /** The row (n, i) was there before the new row of this user was appended. */
  predicate Old(r: RouterState, user: string, n: string, i: int) {
    n != user || i < |Rows(r, user)|
  }

  ghost predicate AddedOrOld(r: RouterState, r': RouterState, user: string, n: string, i: int)
    requires RowAt(r', n, i)
  {
    var row := r'.profiles[n][i];
    && row.user == n
    && if Old(r, user, n, i) then RowAt(r, n, i) && row.id == r.profiles[n][i].id && row.id != RowID(r.nextID)
       else n == user && i == |Rows(r, user)| && row.id == RowID(r.nextID)
  }

  lemma AddedRowsUnique(r: RouterState, r': RouterState, user: string)
    requires IdsKnown(r) && IdsUnique(r) && r'.nextID == r.nextID + 1
    requires forall n, i :: RowAt(r', n, i) ==> AddedOrOld(r, r', user, n, i)
    ensures IdsKnown(r') && IdsUnique(r')
  {
    forall n1, i1, n2, i2 | RowAt(r', n1, i1) && RowNamed(r', n2, i2, r'.profiles[n1][i1].id)
      ensures n1 == n2 && i1 == i2
    {
      assert AddedOrOld(r, r', user, n1, i1) && AddedOrOld(r, r', user, n2, i2);
      if Old(r, user, n1, i1) && Old(r, user, n2, i2) {
        assert RowNamed(r, n2, i2, r.profiles[n1][i1].id);
      }
    }
    forall n, i | RowAt(r', n, i)
      ensures exists k: nat :: k < r'.nextID && r'.profiles[n][i].id == RowID(k)
    {
      assert AddedOrOld(r, r', user, n, i);
      if Old(r, user, n, i) {
        var k: nat :| k < r.nextID && r.profiles[n][i].id == RowID(k);
      }
    }
  }

  /** Removing a row by id takes out exactly that row, if it is not active, and keeps the order of the rest. */
  lemma RemoveRowExact(r: RouterState, name: string, i: int)
    requires WellFormed(r) && RowAt(r, name, i)
    ensures var rows := r.profiles[name];
            RemoveUserProfile(r, rows[i].id) ==
              if StateActive(rows[i].state) then (r, Failed(ActiveProfile))
              else (r.(profiles := r.profiles[name := rows[..i] + rows[i + 1..]]), Done)
  {
    var id := r.profiles[name][i].id;
    assert RowNamed(r, name, i, id);
    forall n, k | RowNamed(r, n, k, id)
      ensures n == name && k == i
    {
    }
  }

  lemma RemoveUserProfileKeeps(r: RouterState, id: string)
    requires WellFormed(r)
    ensures WellFormed(RemoveUserProfile(r, id).0)
  {
    if exists name, i :: RowNamed(r, name, i, id) {
      var name, i :| RowNamed(r, name, i, id);
      RemoveRowExact(r, name, i);
      var r' := RemoveUserProfile(r, id).0;
      if r' != r {
        RemovedRowsKeep(r, r', name, i);
      }
    }
  }

  /** Where a row of the shortened list was before. */
  function OldIndex(n: string, k: int, name: string, i: int): int {
    if n == name && k >= i then k + 1 else k
  }

  lemma RemovedRowsKeep(r: RouterState, r': RouterState, name: string, i: int)
    requires WellFormed(r) && RowAt(r, name, i)
    requires var rows := r.profiles[name]; r' == r.(profiles := r.profiles[name := rows[..i] + rows[i + 1..]])
    ensures WellFormed(r')
  {
    forall n, k | RowAt(r', n, k)
      ensures RowAt(r, n, OldIndex(n, k, name, i)) && r'.profiles[n][k] == r.profiles[n][OldIndex(n, k, name, i)]
    {
    }
    forall n1, i1, n2, i2 | RowAt(r', n1, i1) && RowNamed(r', n2, i2, r'.profiles[n1][i1].id)
      ensures n1 == n2 && i1 == i2
    {
      var k1, k2 := OldIndex(n1, i1, name, i), OldIndex(n2, i2, name, i);
      assert RowAt(r, n1, k1) && RowNamed(r, n2, k2, r.profiles[n1][k1].id);
    }
    forall n | n in r'.profiles
      ensures OneActive(r'.profiles[n])
    {
      assert OneActive(r.profiles[n]);
      assert forall k :: 0 <= k < |r'.profiles[n]| ==> RowAt(r', n, k);
    }
  }

  lemma WriteKeeps(r: RouterState, w: Write)
    requires WellFormed(r)
    ensures WellFormed(ApplyWrite(r, w).0)
  {
    match w
    case WAdd(name, password, comment, sharedUsers, disabled) =>
      AddUserKeeps(r, name, password, comment, sharedUsers, disabled);
    case WSet(name, password, sharedUsers, comment, disabled) =>
      SetUserKeeps(r, name, password, sharedUsers, comment, disabled);
    case WRemove(name) => RemoveUserKeeps(r, name);
    case WAddProfile(user, profile, now) => AddUserProfileKeeps(r, user, profile, now);
    case WRemoveProfile(rowID) => RemoveUserProfileKeeps(r, rowID);
  }

  /** Every run of router writes, failing ones included, keeps the router well formed. */
  lemma {:induction false} RunKeeps(r: RouterState, ws: seq<Write>)
    requires WellFormed(r)
    ensures WellFormed(RunWrites(r, ws))
    decreases |ws|
  {
    if ws != [] {
      WriteKeeps(r, ws[0]);
      RunKeeps(ApplyWrite(r, ws[0]).0, ws[1..]);
    }
  }

  /** A failed write changes nothing. */
  lemma FailedWriteChangesNothing(r: RouterState, w: Write)
    ensures ApplyWrite(r, w).1.Failed? ==> ApplyWrite(r, w).0 == r
  {
  }

  /** A missing row is reported as such. */
  lemma RemoveRowMissing(r: RouterState, id: string)
    ensures RemoveUserProfile(r, id) == (r, Failed(NotFound)) <==> forall name, i :: !RowNamed(r, name, i, id)
  {
  }

  /** Users' ids come from the counter, and no two users share one. */
  ghost predicate UserIdsOk(r: RouterState) {
    && (forall n :: n in r.users ==> exists k: nat :: k < r.nextID && r.users[n].id == "*" + Decimal(k))
    && (forall n, m :: n in r.users && m in r.users && r.users[n].id == r.users[m].id ==> n == m)
  }

  lemma WriteKeepsUserIds(r: RouterState, w: Write)
    requires UserIdsOk(r)
    ensures UserIdsOk(ApplyWrite(r, w).0)
  {
    match w
    case WAdd(name, password, comment, sharedUsers, disabled) =>
      AddKeepsUserIds(r, name, password, comment, sharedUsers, disabled);
    case _ => OldUserIds(r, ApplyWrite(r, w).0);
  }

  /** No user is new, and each keeps its id. */
  lemma OldUserIds(r: RouterState, r': RouterState)
    requires UserIdsOk(r) && r.nextID <= r'.nextID
    requires forall n :: n in r'.users ==> n in r.users && r'.users[n].id == r.users[n].id
    ensures UserIdsOk(r')
  {
    forall n | n in r'.users
      ensures exists k: nat :: k < r'.nextID && r'.users[n].id == "*" + Decimal(k)
    {
      var k: nat :| k < r.nextID && r.users[n].id == "*" + Decimal(k);
      assert k < r'.nextID && r'.users[n].id == "*" + Decimal(k);
    }
  }

  lemma AddKeepsUserIds(r: RouterState, name: string, password: string, comment: string, shared: int, disabled: bool)
    requires UserIdsOk(r)
    ensures UserIdsOk(AddUser(r, name, password, comment, shared, disabled).0)
  {
    hide Decimal;
    var r' := AddUser(r, name, password, comment, shared, disabled).0;
    forall n | n in r'.users
      ensures exists k: nat :: k < r'.nextID && r'.users[n].id == "*" + Decimal(k)
    {
      if r' == r || n != name {
        var k: nat :| k < r.nextID && r.users[n].id == "*" + Decimal(k);
        assert k < r'.nextID && r'.users[n].id == "*" + Decimal(k);
      } else {
        assert r'.users[n].id == "*" + Decimal(r.nextID);
      }
    }
    forall n | n in r.users && name !in r.users
      ensures r.users[n].id != r'.users[name].id
    {
      FreshUserId(r, n);
    }
  }

  lemma FreshUserId(r: RouterState, n: string)
    requires UserIdsOk(r) && n in r.users
    ensures r.users[n].id != "*" + Decimal(r.nextID)
  {
    var k: nat :| k < r.nextID && r.users[n].id == "*" + Decimal(k);
    assert ("*" + Decimal(k))[1..] == Decimal(k) && ("*" + Decimal(r.nextID))[1..] == Decimal(r.nextID);
    if Decimal(k) == Decimal(r.nextID) {
      DecimalInjective(k, r.nextID);
    }
  }

  /** Over every run of writes, users keep distinct ids from the counter. */
  lemma {:induction false} RunKeepsUserIds(r: RouterState, ws: seq<Write>)
    requires UserIdsOk(r)
    ensures UserIdsOk(RunWrites(r, ws))
    decreases |ws|
  {
    if ws != [] {
      WriteKeepsUserIds(r, ws[0]);
      RunKeepsUserIds(ApplyWrite(r, ws[0]).0, ws[1..]);
    }
  }

  // ---------------------------------------------------------------- listings

  /** A listing of a user table: each user once, in some order. */
  ghost predicate Lists(list: seq<User>, users: map<string, User>) {
    && (forall i, j :: 0 <= i < j < |list| ==> list[i].name != list[j].name)
    && (forall u :: u in list ==> u.name in users && users[u.name] == u)
    && (forall name :: name in users ==> users[name] in list)
  }
}
