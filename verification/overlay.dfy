/** The loops of the renewal overlay: which row of each user is current, and what is shown for it. */
module Overlay {
  import opened Totals
  import opened Router
  import opened Tables
  import opened Steps
  import opened Heal

  /** The renewal page's two sums. */
  datatype Summary = Summary(unsettled: int, all: int)

  function LiveSharedUsers(mtMap: map<string, int>, name: string, fallback: int): int {
    if name in mtMap then mtMap[name] else fallback
  }

  ghost predicate SharedUsersByName(users: map<string, User>, mtMap: map<string, int>) {
    mtMap == map name | name in users :: users[name].sharedUsers
  }

  method MikrotikSharedUsersByName(list: seq<User>, ghost users: map<string, User>) returns (mtMap: map<string, int>)
    requires Lists(list, users) && forall name :: name in users ==> users[name].name == name
    ensures SharedUsersByName(users, mtMap)
  {
    mtMap := map[];
    for i := 0 to |list|
      invariant forall name :: name in mtMap <==> exists k :: 0 <= k < i && list[k].name == name
      invariant forall k :: 0 <= k < i ==> mtMap[list[k].name] == list[k].sharedUsers
    {
      mtMap := mtMap[list[i].name := list[i].sharedUsers];
    }
    forall name | name in users
      ensures name in mtMap && mtMap[name] == users[name].sharedUsers
    {
      var k :| 0 <= k < |list| && list[k] == users[name];
    }
    forall name | name in mtMap
      ensures name in users
    {
      var k :| 0 <= k < |list| && list[k].name == name;
      assert list[k] in list;
    }
  }

  predicate UnsettledNamed(rows: seq<RenewalSharedUsersRow>, name: string, k: int) {
    0 <= k < |rows| && !rows[k].settled && rows[k].name == name
  }

  ghost predicate FirstUnsettled(rows: seq<RenewalSharedUsersRow>, name: string, k: int) {
    UnsettledNamed(rows, name, k) && forall j :: 0 <= j < k ==> !UnsettledNamed(rows, name, j)
  }

  ghost predicate IsLatestMap(rows: seq<RenewalSharedUsersRow>, latest: map<string, int>) {
    && (forall name, k :: UnsettledNamed(rows, name, k) ==> name in latest)
    && (forall name :: name in latest ==> exists k :: FirstUnsettled(rows, name, k) && latest[name] == rows[k].id)
  }

  /** For each name, the id of its first unsettled row in the listing. */
  method LatestUnsettledPerUser(rows: seq<RenewalSharedUsersRow>) returns (latest: map<string, int>)
    ensures IsLatestMap(rows, latest)
  {
    latest := map[];
    for i := 0 to |rows|
      invariant forall name, k :: UnsettledNamed(rows, name, k) && k < i ==> name in latest
      invariant forall name :: name in latest ==>
                  exists k :: k < i && FirstUnsettled(rows, name, k) && latest[name] == rows[k].id
    {
      if rows[i].settled {
        continue;
      }
      if rows[i].name !in latest {
        assert FirstUnsettled(rows, rows[i].name, i);
        latest := latest[rows[i].name := rows[i].id];
      }
    }
  }

  predicate IsPicked(latest: map<string, int>, row: RenewalSharedUsersRow) {
    !row.settled && row.name in latest && latest[row.name] == row.id
  }

  function PickOf(rows: seq<RenewalSharedUsersRow>, latest: map<string, int>): set<int> {
    set k | 0 <= k < |rows| && IsPicked(latest, rows[k]) :: rows[k].id
  }

  lemma PickOfRow(db: Db, f: Filter, rows: seq<RenewalSharedUsersRow>, latest: map<string, int>, i: int)
    requires IsRenewalListing(db, f, rows) && IsLatestMap(rows, latest)
    ensures i in PickOf(rows, latest) <==> Visible(db, f, i) && IsPicked(latest, RowOf(db, i))
  {
    if i in PickOf(rows, latest) {
      var k :| 0 <= k < |rows| && IsPicked(latest, rows[k]) && rows[k].id == i;
    }
    if Visible(db, f, i) && IsPicked(latest, RowOf(db, i)) {
      assert i in IdsOf(rows);
      var k :| 0 <= k < |rows| && IdsOf(rows)[k] == i;
      assert rows[k].id == i;
    }
  }

  /** A row of the ledger that is picked even though it may not be in the listing's page is still a listed one. */
  lemma PickedIsVisible(db: Db, f: Filter, rows: seq<RenewalSharedUsersRow>, latest: map<string, int>, i: int, now: int)
    requires DbOk(db, now) && IsRenewalListing(db, f, rows) && IsLatestMap(rows, latest)
    requires i in db.acts && db.acts[i].metaID in db.metas
    ensures i in PickOf(rows, latest) <==> IsPicked(latest, RowOf(db, i))
  {
    PickOfRow(db, f, rows, latest, i);
    if IsPicked(latest, RowOf(db, i)) {
      var name := RowOf(db, i).name;
      var k :| FirstUnsettled(rows, name, k) && latest[name] == rows[k].id;
      assert Visible(db, f, rows[k].id);
    }
  }

  /** The rows the loop treats as current are a valid pick: one per listed user, none newer by instant. */
  lemma PickIsValid(db: Db, f: Filter, rows: seq<RenewalSharedUsersRow>, latest: map<string, int>, now: int)
    requires DbOk(db, now) && IsRenewalListing(db, f, rows) && IsLatestMap(rows, latest)
    ensures ValidPick(db, f, PickOf(rows, latest))
  {
    var pick := PickOf(rows, latest);
    forall i | i in pick
      ensures PickFor(db, f, pick, i)
    {
      PickOfRow(db, f, rows, latest, i);
      PickedLeads(db, f, rows, latest, i, now);
      forall j | j in pick && j in db.acts && db.acts[j].metaID == db.acts[i].metaID
        ensures j == i
      {
        PickOfRow(db, f, rows, latest, j);
      }
    }
    forall i | Visible(db, f, i) && !db.acts[i].settled
      ensures HasPick(db, pick, db.acts[i].metaID)
    {
      RowIndex(db, f, rows, i);
      var k :| 0 <= k < |rows| && rows[k] == RowOf(db, i);
      assert UnsettledNamed(rows, rows[k].name, k);
      var first :| FirstUnsettled(rows, rows[k].name, first) && latest[rows[k].name] == rows[first].id;
      var p := rows[first].id;
      PickOfRow(db, f, rows, latest, p);
      assert p in pick && db.acts[p].metaID == db.acts[i].metaID;
    }
  }

  lemma RowIndex(db: Db, f: Filter, rows: seq<RenewalSharedUsersRow>, i: int)
    requires IsRenewalListing(db, f, rows) && Visible(db, f, i)
    ensures exists k :: 0 <= k < |rows| && rows[k] == RowOf(db, i)
  {
    assert i in IdsOf(rows);
    var k :| 0 <= k < |rows| && IdsOf(rows)[k] == i;
    assert rows[k].id == i;
  }

  lemma PickedLeads(db: Db, f: Filter, rows: seq<RenewalSharedUsersRow>, latest: map<string, int>, i: int, now: int)
    requires DbOk(db, now) && IsRenewalListing(db, f, rows) && IsLatestMap(rows, latest)
    requires Visible(db, f, i) && IsPicked(latest, RowOf(db, i))
    ensures forall j :: VisibleUnsettledOf(db, f, db.acts[i].metaID, j) ==> db.acts[j].createdAt <= db.acts[i].createdAt
  {
    hide DbOk;
    var name := RowOf(db, i).name;
    var first :| FirstUnsettled(rows, name, first) && latest[name] == rows[first].id;
    forall j | VisibleUnsettledOf(db, f, db.acts[i].metaID, j)
      ensures db.acts[j].createdAt <= db.acts[i].createdAt
    {
      RowIndex(db, f, rows, j);
      var k :| 0 <= k < |rows| && rows[k] == RowOf(db, j);
      assert UnsettledNamed(rows, name, k);
      assert first <= k && rows[k].id == j && rows[first].id == i;
    }
  }

  /** What the loop computes for one row is what the listing shows for it. */
  lemma RowShown(w: World, f: Filter, rows: seq<RenewalSharedUsersRow>, latest: map<string, int>,
                 mtMap: map<string, int>, i: int)
    requires Valid(w) && IsRenewalListing(w.db, f, rows) && IsLatestMap(rows, latest)
    requires SharedUsersByName(w.router.users, mtMap) && i in w.db.acts
    ensures w.db.acts[i].metaID in w.db.metas
    ensures var row := RowOf(w.db, i);
            Shown(w, PickOf(rows, latest), i) ==
              if IsPicked(latest, row) then LiveSharedUsers(mtMap, row.name, row.sharedUsers) else row.sharedUsers
  {
    PickedIsVisible(w.db, f, rows, latest, i, w.now);
  }

  /** The running sums of the loop. */
  ghost function SumShown(m: map<int, int>, rows: seq<RenewalSharedUsersRow>, n: int): int
    requires 0 <= n <= |rows|
  {
    if n == 0 then 0
    else SumShown(m, rows, n - 1) + if rows[n - 1].id in m then m[rows[n - 1].id] else 0
  }

  lemma {:induction false} SumIsListTotal(m: map<int, int>, rows: seq<RenewalSharedUsersRow>, n: int)
    requires 0 <= n <= |rows| && forall k :: 0 <= k < |rows| ==> rows[k].id in m
    ensures forall k :: k in IdsOf(rows)[..n] ==> k in m
    ensures SumShown(m, rows, n) == ListTotal(m, IdsOf(rows)[..n])
  {
    if n > 0 {
      SumIsListTotal(m, rows, n - 1);
      assert IdsOf(rows)[..n][..n - 1] == IdsOf(rows)[..n - 1];
    }
  }

  /** Summing over the listing sums over the visible rows. */
  lemma SumIsTotal(db: Db, f: Filter, rows: seq<RenewalSharedUsersRow>, m: map<int, int>)
    requires IsRenewalListing(db, f, rows) && forall i :: i in m <==> Visible(db, f, i)
    ensures SumShown(m, rows, |rows|) == Total(m)
  {
    hide Total, Visible, RowOf;
    SumIsListTotal(m, rows, |rows|);
    var ids := IdsOf(rows);
    assert ids[..|rows|] == ids;
    forall i
      ensures i in ids <==> i in m
    {
      if i in ids {
        var k :| 0 <= k < |ids| && ids[k] == i;
        assert rows[k].id == i;
      }
    }
    ListTotalIsTotal(m, ids);
  }

  /** The sum of the first n listed rows as shown: all of them, or the unsettled ones. */
  ghost function SumOf(w: World, pick: set<int>, rows: seq<RenewalSharedUsersRow>, n: int, all: bool): int
    requires 0 <= n <= |rows|
  {
    if n == 0 then 0
    else SumOf(w, pick, rows, n - 1, all) +
           if rows[n - 1].id in w.db.acts && (all || !rows[n - 1].settled) then Shown(w, pick, rows[n - 1].id) else 0
  }

  ghost predicate SumsSoFar(w: World, pick: set<int>, rows: seq<RenewalSharedUsersRow>, n: int, unsettledSum: int,
                            allSum: int)
    requires 0 <= n <= |rows|
  {
    allSum == SumOf(w, pick, rows, n, true) && unsettledSum == SumOf(w, pick, rows, n, false)
  }

  lemma SumsStep(w: World, pick: set<int>, rows: seq<RenewalSharedUsersRow>, n: int, unsettledSum: int, allSum: int)
    requires 0 <= n < |rows| && SumsSoFar(w, pick, rows, n, unsettledSum, allSum)
    ensures rows[n].id in w.db.acts ==>
              var su := Shown(w, pick, rows[n].id);
              SumsSoFar(w, pick, rows, n + 1, if rows[n].settled then unsettledSum else unsettledSum + su, allSum + su)
  {
  }

  lemma {:induction false} SumOfIsSumShown(w: World, f: Filter, rows: seq<RenewalSharedUsersRow>, pick: set<int>,
                                           n: int)
    requires IsRenewalListing(w.db, f, rows) && 0 <= n <= |rows|
    ensures SumOf(w, pick, rows, n, true) == SumShown(ShownAll(w, f, pick), rows, n)
    ensures SumOf(w, pick, rows, n, false) == SumShown(ShownUnsettled(w, f, pick), rows, n)
  {
    if n > 0 {
      assert rows[n - 1] == RowOf(w.db, rows[n - 1].id);
      hide IsRenewalListing, Visible, Shown;
      SumOfIsSumShown(w, f, rows, pick, n - 1);
    }
  }

  lemma SumsAreTotals(w: World, f: Filter, rows: seq<RenewalSharedUsersRow>, pick: set<int>)
    requires IsRenewalListing(w.db, f, rows)
    ensures SumOf(w, pick, rows, |rows|, true) == Total(ShownAll(w, f, pick))
    ensures SumOf(w, pick, rows, |rows|, false) == Total(ShownUnsettled(w, f, pick))
  {
    SumOfIsSumShown(w, f, rows, pick, |rows|);
    SumIsTotal(w.db, f, rows, ShownAll(w, f, pick));
    SumIsTotal(w.db, f, rows, ShownUnsettled(w, f, pick));
  }

  /** A listed row shows what is stored when nothing is picked. */
  lemma ListedRowStored(w: World, f: Filter, rows: seq<RenewalSharedUsersRow>, n: int)
    requires IsRenewalListing(w.db, f, rows) && 0 <= n < |rows|
    ensures rows[n].id in w.db.acts && rows[n].sharedUsers == Shown(w, {}, rows[n].id)
  {
    assert rows[n] == RowOf(w.db, rows[n].id);
  }

  /** Plain sums of the stored values. */
  method SumStored(ghost w: World, ghost f: Filter, rows: seq<RenewalSharedUsersRow>) returns (sums: Summary)
    requires IsRenewalListing(w.db, f, rows)
    ensures sums == Summary(Total(ShownUnsettled(w, f, {})), Total(ShownAll(w, f, {})))
  {
    hide IsRenewalListing, Shown, ShownAll, ShownUnsettled, Total;
    var unsettledSum, allSum := 0, 0;
    for n := 0 to |rows|
      invariant SumsSoFar(w, {}, rows, n, unsettledSum, allSum)
    {
      ListedRowStored(w, f, rows, n);
      SumsStep(w, {}, rows, n, unsettledSum, allSum);
      allSum := allSum + rows[n].sharedUsers;
      if !rows[n].settled {
        unsettledSum := unsettledSum + rows[n].sharedUsers;
      }
    }
    SumsAreTotals(w, f, rows, {});
    sums := Summary(unsettledSum, allSum);
  }
}
