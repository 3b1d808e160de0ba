/** Healing on read: which rows the renewal overlay takes from the router, and what it shows. */
module Heal {
  import opened Models
  import opened Totals
  import opened Tables
  import opened Steps
  import opened Agreement

  // ---------------------------------------------------------------- what is shown

  /** The shared users a listing shows for a row. */
  function Shown(w: World, pick: set<int>, i: int): int
    requires i in w.db.acts
  {
    if i in pick then Live(w, i) else w.db.acts[i].sharedUsers
  }

  function ShownAll(w: World, f: Filter, pick: set<int>): map<int, int> {
    map i | i in w.db.acts && Visible(w.db, f, i) :: Shown(w, pick, i)
  }

  function ShownUnsettled(w: World, f: Filter, pick: set<int>): map<int, int> {
    map i | i in w.db.acts && Visible(w.db, f, i) :: if w.db.acts[i].settled then 0 else Shown(w, pick, i)
  }

  /** The sums SQL computes over the stored rows. */
  ghost function StoredSum(db: Db, f: Filter): int {
    Total(map i | i in db.acts && Visible(db, f, i) :: db.acts[i].sharedUsers)
  }

  ghost function StoredUnsettledSum(db: Db, f: Filter): int {
    Total(map i | i in db.acts && Visible(db, f, i) :: if db.acts[i].settled then 0 else db.acts[i].sharedUsers)
  }

  /** What one row adds to a listing's sums. */
  function Seen(db: Db, f: Filter, i: int): int
    requires i in db.acts
  {
    if Visible(db, f, i) then db.acts[i].sharedUsers else 0
  }

  function SeenOpen(db: Db, f: Filter, i: int): int
    requires i in db.acts
  {
    if Visible(db, f, i) && !db.acts[i].settled then db.acts[i].sharedUsers else 0
  }

  lemma StoredSumsOver(db: Db, f: Filter)
    ensures StoredSum(db, f) == Total(map i | i in db.acts :: Seen(db, f, i))
    ensures StoredUnsettledSum(db, f) == Total(map i | i in db.acts :: SeenOpen(db, f, i))
  {
    hide Total;
    TotalPads(map i | i in db.acts && Visible(db, f, i) :: db.acts[i].sharedUsers,
              map i | i in db.acts :: Seen(db, f, i));
    TotalPads(map i | i in db.acts && Visible(db, f, i) :: if db.acts[i].settled then 0 else db.acts[i].sharedUsers,
              map i | i in db.acts :: SeenOpen(db, f, i));
  }

  /** Two adjoining date ranges, the first ending where the second begins, add up to both together. */
  lemma RangesAddUp(db: Db, f: Filter, t: int)
    requires f.from.None? && f.to.None?
    ensures StoredSum(db, f.(to := Some(t))) + StoredSum(db, f.(from := Some(t + 1))) == StoredSum(db, f)
    ensures StoredUnsettledSum(db, f.(to := Some(t))) + StoredUnsettledSum(db, f.(from := Some(t + 1))) ==
              StoredUnsettledSum(db, f)
  {
    var a, b := f.(to := Some(t)), f.(from := Some(t + 1));
    StoredSumsOver(db, a);
    StoredSumsOver(db, b);
    StoredSumsOver(db, f);
    RangeShares(db, f, t);
    hide Total, Seen, SeenOpen, StoredSum, StoredUnsettledSum;
    TotalPlus(map i | i in db.acts :: Seen(db, a, i), map i | i in db.acts :: Seen(db, b, i),
              map i | i in db.acts :: Seen(db, f, i));
    TotalPlus(map i | i in db.acts :: SeenOpen(db, a, i), map i | i in db.acts :: SeenOpen(db, b, i),
              map i | i in db.acts :: SeenOpen(db, f, i));
  }

  lemma RangeShares(db: Db, f: Filter, t: int)
    requires f.from.None? && f.to.None?
    ensures var a, b := f.(to := Some(t)), f.(from := Some(t + 1));
            forall i :: i in db.acts ==>
              && Seen(db, f, i) == Seen(db, a, i) + Seen(db, b, i)
              && SeenOpen(db, f, i) == SeenOpen(db, a, i) + SeenOpen(db, b, i)
  {
    hide InScope;
  }

  /** Every picked row's value reaches the ledger. */
  ghost predicate WritesLand(w: World, pick: set<int>, lost: set<int>) {
    forall i :: i in pick && i in w.db.acts ==> (i !in lost && Live(w, i) > 0) || Live(w, i) == w.db.acts[i].sharedUsers
  }

  /** What is shown is what is stored afterwards, for every row, exactly when the writes land. */
  lemma ShownIsStored(w: World, pick: set<int>, lost: set<int>)
    ensures (forall i :: i in w.db.acts ==> Shown(w, pick, i) == HealRows(w, pick, lost).db.acts[i].sharedUsers)
       <==> WritesLand(w, pick, lost)
  {
    if WritesLand(w, pick, lost) {
      forall i | i in w.db.acts
        ensures Shown(w, pick, i) == HealRows(w, pick, lost).db.acts[i].sharedUsers
      {
      }
    } else {
      var i :| i in pick && i in w.db.acts &&
               !((i !in lost && Live(w, i) > 0) || Live(w, i) == w.db.acts[i].sharedUsers);
      assert Shown(w, pick, i) != HealRows(w, pick, lost).db.acts[i].sharedUsers;
    }
  }

  /** The live summary equals the sums over the ledger after healing. */
  lemma SummaryIsPostState(w: World, f: Filter, pick: set<int>, lost: set<int>)
    requires WritesLand(w, pick, lost)
    ensures var db' := HealRows(w, pick, lost).db;
            && Total(ShownAll(w, f, pick)) == StoredSum(db', f)
            && Total(ShownUnsettled(w, f, pick)) == StoredUnsettledSum(db', f)
  {
    var db' := HealRows(w, pick, lost).db;
    ShownIsStored(w, pick, lost);
    assert forall i :: i in w.db.acts ==> (Visible(db', f, i) <==> Visible(w.db, f, i));
    assert ShownAll(w, f, pick) == map i | i in db'.acts && Visible(db', f, i) :: db'.acts[i].sharedUsers;
    assert ShownUnsettled(w, f, pick) ==
      map i | i in db'.acts && Visible(db', f, i) :: if db'.acts[i].settled then 0 else db'.acts[i].sharedUsers;
  }

  // ---------------------------------------------------------------- when the picked row is the current one

  /** A visible unsettled row that no other visible unsettled row of its user beats by instant. */
  ghost predicate Leads(db: Db, f: Filter, m: int, i: int) {
    && VisibleUnsettledOf(db, f, m, i)
    && forall j :: VisibleUnsettledOf(db, f, m, j) ==> db.acts[j].createdAt <= db.acts[i].createdAt
  }

  lemma NewestExists(db: Db, m: int, k: int, now: int) returns (i: int)
    requires DbOk(db, now) && UnsettledOf(db, m, k)
    ensures Newest(db, m, i)
  {
    var s := set j | j in db.acts && UnsettledOf(db, m, j);
    assert k in s && s != {};
    i := LatestOf(db.acts, s);
  }

  lemma LeaderExists(db: Db, f: Filter, m: int, k: int, now: int)
    requires DbOk(db, now) && VisibleUnsettledOf(db, f, m, k)
    ensures exists i :: Leads(db, f, m, i)
  {
    var s := set j | j in db.acts && VisibleUnsettledOf(db, f, m, j);
    assert k in s && s != {};
    var i := LatestOf(db.acts, s);
    assert Leads(db, f, m, i) by {
      forall j | VisibleUnsettledOf(db, f, m, j)
        ensures db.acts[j].createdAt <= db.acts[i].createdAt
      {
        assert j in s;
      }
    }
  }

  ghost function Leader(db: Db, f: Filter, m: int): int {
    if exists i :: Leads(db, f, m, i) then var i :| Leads(db, f, m, i); i else 0
  }

  /** A pick that treats a given leading row as its user's current one. */
  lemma PickWith(db: Db, f: Filter, m: int, p: int, now: int) returns (pick: set<int>)
    requires DbOk(db, now) && Leads(db, f, m, p)
    ensures ValidPick(db, f, pick) && p in pick
  {
    pick := set i | i in db.acts && Leads(db, f, db.acts[i].metaID, i)
                    && i == if db.acts[i].metaID == m then p else Leader(db, f, db.acts[i].metaID);
    forall i | Visible(db, f, i) && !db.acts[i].settled
      ensures HasPick(db, pick, db.acts[i].metaID)
    {
      var n := db.acts[i].metaID;
      assert VisibleUnsettledOf(db, f, n, i);
      LeaderExists(db, f, n, i, now);
      var k := if n == m then p else Leader(db, f, n);
      assert Leads(db, f, n, k) && k in pick;
    }
    forall i | i in pick
      ensures PickFor(db, f, pick, i)
    {
      assert Leads(db, f, db.acts[i].metaID, i);
    }
  }

  /** No other visible unsettled row of the user shares the row's instant. */
  ghost predicate Untied(db: Db, f: Filter, m: int, n: int)
    requires n in db.acts
  {
    forall j :: VisibleUnsettledOf(db, f, m, j) && db.acts[j].createdAt == db.acts[n].createdAt ==> j == n
  }

  /**
   * The overlay treats a user's newest unsettled row as current, however the listing breaks ties, exactly when
   * that row is visible and no visible sibling shares its instant.
   */
  lemma PickIsNewest(db: Db, f: Filter, m: int, k: int, n: int, now: int)
    requires DbOk(db, now) && VisibleUnsettledOf(db, f, m, k) && Newest(db, m, n)
    ensures (forall pick, p :: ValidPick(db, f, pick) && p in pick && p in db.acts && db.acts[p].metaID == m ==> p == n)
       <==> Visible(db, f, n) && Untied(db, f, m, n)
  {
    if Visible(db, f, n) && Untied(db, f, m, n) {
      forall pick, p | ValidPick(db, f, pick) && p in pick && p in db.acts && db.acts[p].metaID == m
        ensures p == n
      {
        assert PickFor(db, f, pick, p);
        assert VisibleUnsettledOf(db, f, m, n) && VisibleUnsettledOf(db, f, m, p);
      }
    } else {
      LeaderExists(db, f, m, k, now);
      var p :| Leads(db, f, m, p);
      if Visible(db, f, n) {
        p :| VisibleUnsettledOf(db, f, m, p) && db.acts[p].createdAt == db.acts[n].createdAt && p != n;
        forall j | VisibleUnsettledOf(db, f, m, j)
          ensures db.acts[j].createdAt <= db.acts[p].createdAt
        {
          assert j != n ==> Before(db.acts[j], db.acts[n]);
        }
      }
      var pick := PickWith(db, f, m, p, now);
      assert ValidPick(db, f, pick) && p in pick && db.acts[p].metaID == m && p != n;
    }
  }

  /** Without an upper bound the newest unsettled row of every listed user is visible. */
  lemma NoUpperBoundSeesNewest(db: Db, f: Filter, m: int, k: int, n: int, now: int)
    requires DbOk(db, now) && f.to.None? && VisibleUnsettledOf(db, f, m, k) && Newest(db, m, n)
    ensures Visible(db, f, n)
  {
    assert k != n ==> Before(db.acts[k], db.acts[n]);
  }

  // ---------------------------------------------------------------- the ledger afterwards

  /** Every listed user's newest unsettled row is visible and untied. */
  ghost predicate CurrentRowsClear(db: Db, f: Filter) {
    forall m, k, n :: VisibleUnsettledOf(db, f, m, k) && Newest(db, m, n) ==> Visible(db, f, n) && Untied(db, f, m, n)
  }

  /** A listed user's current row. */
  ghost predicate CurrentRow(db: Db, f: Filter, i: int) {
    i in db.acts && Visible(db, f, i) && Newest(db, db.acts[i].metaID, i)
  }

  lemma PicksAreCurrentRows(db: Db, f: Filter, pick: set<int>, i: int, now: int)
    requires DbOk(db, now) && ValidPick(db, f, pick) && CurrentRowsClear(db, f)
    ensures i in pick <==> CurrentRow(db, f, i)
  {
    if i in pick {
      assert PickFor(db, f, pick, i);
      var m := db.acts[i].metaID;
      assert VisibleUnsettledOf(db, f, m, i);
      var n := NewestExists(db, m, i, now);
      PickIsNewest(db, f, m, i, n, now);
    }
    if CurrentRow(db, f, i) {
      var m := db.acts[i].metaID;
      assert VisibleUnsettledOf(db, f, m, i) && HasPick(db, pick, m);
      var p :| p in pick && p in db.acts && db.acts[p].metaID == m;
      PickIsNewest(db, f, m, i, i, now);
    }
  }

  /** After a heal exactly the listed users' current rows hold the live value; every other row is untouched. */
  lemma HealedLedger(w: World, f: Filter, pick: set<int>)
    requires Valid(w) && ValidPick(w.db, f, pick) && CurrentRowsClear(w.db, f)
    requires forall i :: i in pick && i in w.db.acts ==> Live(w, i) > 0
    ensures var w' := HealRows(w, pick, {});
            && w' == w.(db := w.db.(acts := w'.db.acts)) && w'.db.acts.Keys == w.db.acts.Keys
            && forall i :: i in w.db.acts ==>
                 w'.db.acts[i] ==
                   if CurrentRow(w.db, f, i) then w.db.acts[i].(sharedUsers := Live(w, i)) else w.db.acts[i]
  {
    forall i | i in w.db.acts
      ensures i in pick <==> CurrentRow(w.db, f, i)
    {
      PicksAreCurrentRows(w.db, f, pick, i, w.now);
    }
  }

  /** What the router says of a row's user; None when the user is not there. */
  ghost predicate RouterSays(w: World, i: int, says: Option<int>)
    requires i in w.db.acts
  {
    var m := w.db.acts[i].metaID;
    && m in w.db.metas
    && (if w.db.metas[m].name in w.router.users then says == Some(w.router.users[w.db.metas[m].name].sharedUsers)
        else says == None)
  }

  /**
   * After a heal with no lost write, from any world: every picked row whose user is on the router shows the router's
   * value and, when that is positive, holds it; every other row shows and holds what was stored.
   */
  lemma HealedValues(w: World, f: Filter, pick: set<int>, i: int, says: Option<int>)
    requires Valid(w) && ValidPick(w.db, f, pick) && i in w.db.acts && RouterSays(w, i, says)
    ensures var acts' := HealRows(w, pick, {}).db.acts;
            && i in acts'
            && (i in pick && says.Some? ==> Shown(w, pick, i) == says.value)
            && (i in pick && says.Some? && says.value > 0 ==> acts'[i].sharedUsers == says.value)
            && (i !in pick || says.None? ==> Shown(w, pick, i) == acts'[i].sharedUsers == w.db.acts[i].sharedUsers)
            && (i in pick && says.Some? && says.value <= 0 ==> acts'[i].sharedUsers == w.db.acts[i].sharedUsers)
            && acts'[i] == w.db.acts[i].(sharedUsers := acts'[i].sharedUsers)
  {
  }

  /** In particular for every listed user's current row, when current rows are visible and untied. */
  lemma CurrentRowsHealed(w: World, f: Filter, pick: set<int>, i: int, says: Option<int>)
    requires Valid(w) && ValidPick(w.db, f, pick) && CurrentRowsClear(w.db, f)
    requires i in w.db.acts && RouterSays(w, i, says)
    ensures var acts' := HealRows(w, pick, {}).db.acts;
            && i in acts'
            && acts'[i].sharedUsers == (if CurrentRow(w.db, f, i) && says.Some? && says.value > 0 then says.value
                                        else w.db.acts[i].sharedUsers)
            && Shown(w, pick, i) == (if CurrentRow(w.db, f, i) && says.Some? then says.value
                                     else w.db.acts[i].sharedUsers)
  {
    PicksAreCurrentRows(w.db, f, pick, i, w.now);
    HealedValues(w, f, pick, i, says);
  }

  /** Settled listings and a router that cannot be listed leave the ledger alone; a lost write leaves its row. */
  lemma HealSpares(w: World, f: Filter, pick: set<int>, lost: set<int>, listDown: bool)
    ensures f.settled.OnlySettled? || listDown ==> Heal(w, f, pick, lost, listDown).0 == w
    ensures var w' := Heal(w, f, pick, lost, listDown).0;
            && w' == w.(db := w.db.(acts := w'.db.acts)) && w'.db.acts.Keys == w.db.acts.Keys
            && forall i :: i in w.db.acts && (i in lost || w.db.acts[i].settled) ==> w'.db.acts[i] == w.db.acts[i]
  {
    forall i | i in w.db.acts && i in pick && ValidPick(w.db, f, pick)
      ensures !w.db.acts[i].settled
    {
      PickedVisible(w.db, f, pick, i);
    }
  }

  /** A heal leaves alone what its listing leaves out: users billed elsewhere or not searched for, and other dates. */
  lemma HealStaysInListing(w: World, f: Filter, pick: set<int>, lost: set<int>, listDown: bool, i: int)
    requires i in w.db.acts && w.db.acts[i].metaID in w.db.metas
    requires var row, user := w.db.acts[i], w.db.metas[w.db.acts[i].metaID];
             || (f.scope.InOneScope? &&
                 user.managerID != match f.scope.scope { case Orphans => None case OfManager(id) => Some(id) })
             || !f.query(user)
             || (f.from.Some? && row.createdAt < f.from.value)
             || (f.to.Some? && f.to.value < row.createdAt)
    ensures i in Heal(w, f, pick, lost, listDown).0.db.acts
    ensures Heal(w, f, pick, lost, listDown).0.db.acts[i] == w.db.acts[i]
  {
    if ValidPick(w.db, f, pick) && i in pick {
      PickedVisible(w.db, f, pick, i);
    }
  }

  /** Of one user's rows a heal changes one at most, ties or not. */
  lemma HealOneRowEach(w: World, f: Filter, pick: set<int>, lost: set<int>, listDown: bool, i: int, j: int)
    requires i in w.db.acts && j in w.db.acts && w.db.acts[i].metaID == w.db.acts[j].metaID
    ensures var acts' := Heal(w, f, pick, lost, listDown).0.db.acts;
            && i in acts' && j in acts'
            && (acts'[i] != w.db.acts[i] && acts'[j] != w.db.acts[j] ==> i == j)
  {
    if ValidPick(w.db, f, pick) && i in pick && j in pick {
      assert PickFor(w.db, f, pick, i);
    }
  }

  /** The detail view lists one user's whole ledger, settled or not. */
  lemma DetailIsLedger(db: Db, m: int, i: int, now: int)
    requires DbOk(db, now)
    ensures Visible(db, DetailFilter(m), i) <==> i in db.acts && db.acts[i].metaID == m
  {
  }

  lemma PickedVisible(db: Db, f: Filter, pick: set<int>, i: int)
    requires ValidPick(db, f, pick) && i in pick
    ensures Visible(db, f, i) && !db.acts[i].settled
  {
    assert PickFor(db, f, pick, i);
  }

  lemma HealKeepsQueries(w: World, pick: set<int>, lost: set<int>, f: Filter)
    ensures var db' := HealRows(w, pick, lost).db;
            && (forall i :: Visible(db', f, i) <==> Visible(w.db, f, i))
            && (forall m, i :: UnsettledOf(db', m, i) <==> UnsettledOf(w.db, m, i))
            && (forall m, i :: Newest(db', m, i) <==> Newest(w.db, m, i))
  {
    var db' := HealRows(w, pick, lost).db;
    forall m, i
      ensures UnsettledOf(db', m, i) <==> UnsettledOf(w.db, m, i)
      ensures Newest(db', m, i) <==> Newest(w.db, m, i)
    {
      assert forall k :: UnsettledOf(db', m, k) <==> UnsettledOf(w.db, m, k);
      SameNewest(w.db, db', m, i);
    }
  }

  /** A second heal against the same router changes nothing, whichever pick it makes. */
  lemma HealTwice(w: World, f: Filter, pick: set<int>, again: set<int>, lost: set<int>)
    requires Valid(w) && ValidPick(w.db, f, pick) && CurrentRowsClear(w.db, f)
    requires forall i :: i in pick && i in w.db.acts ==> Live(w, i) > 0
    requires ValidPick(HealRows(w, pick, {}).db, f, again)
    ensures var w' := HealRows(w, pick, {}); HealRows(w', again, lost) == w' && again == pick
  {
    var w' := HealRows(w, pick, {});
    SamePickAgain(w, f, pick, again);
    forall i | i in w'.db.acts
      ensures HealedRow(w', again, lost, i) == w'.db.acts[i]
    {
      assert Live(w', i) == if i in pick then Live(w, i) else Live(w', i);
    }
    assert HealRows(w', again, lost).db.acts == w'.db.acts;
  }

  lemma SamePickAgain(w: World, f: Filter, pick: set<int>, again: set<int>)
    requires Valid(w) && ValidPick(w.db, f, pick) && CurrentRowsClear(w.db, f)
    requires ValidPick(HealRows(w, pick, {}).db, f, again)
    ensures again == pick
  {
    var w' := HealRows(w, pick, {});
    HealRowsValid(w, pick, {});
    HealKeepsQueries(w, pick, {}, f);
    ClearAgain(w.db, w'.db, f);
    forall i
      ensures i in again <==> i in pick
    {
      PicksAreCurrentRows(w.db, f, pick, i, w.now);
      PicksAreCurrentRows(w'.db, f, again, i, w.now);
    }
  }

  lemma ClearAgain(db: Db, db': Db, f: Filter)
    requires CurrentRowsClear(db, f) && db'.acts.Keys == db.acts.Keys
    requires forall i :: Visible(db', f, i) <==> Visible(db, f, i)
    requires forall m, i :: UnsettledOf(db', m, i) <==> UnsettledOf(db, m, i)
    requires forall m, i :: Newest(db', m, i) <==> Newest(db, m, i)
    requires forall i :: i in db.acts ==> db'.acts[i].createdAt == db.acts[i].createdAt
    ensures CurrentRowsClear(db', f)
  {
    forall m, k, n | VisibleUnsettledOf(db', f, m, k) && Newest(db', m, n)
      ensures Visible(db', f, n) && Untied(db', f, m, n)
    {
      assert VisibleUnsettledOf(db, f, m, k) && Newest(db, m, n);
      forall j | VisibleUnsettledOf(db', f, m, j) && db'.acts[j].createdAt == db'.acts[n].createdAt
        ensures j == n
      {
        assert VisibleUnsettledOf(db, f, m, j);
      }
    }
  }

  /** Every row the overlay may treat as current holds the live value, or a live value the ledger would reject. */
  ghost predicate LeadersFollow(w: World, f: Filter) {
    forall m, i :: Leads(w.db, f, m, i) ==> Live(w, i) <= 0 || Live(w, i) == w.db.acts[i].sharedUsers
  }

  /** A heal writes nothing, whichever rows it picks, exactly when all possible current rows follow the router. */
  lemma HealQuietExactly(w: World, f: Filter)
    requires Valid(w)
    ensures (forall pick :: ValidPick(w.db, f, pick) ==> HealRows(w, pick, {}) == w) <==> LeadersFollow(w, f)
  {
    if LeadersFollow(w, f) {
      forall pick | ValidPick(w.db, f, pick)
        ensures HealRows(w, pick, {}) == w
      {
        FollowedPickQuiet(w, f, pick);
      }
    } else {
      var m, i :| Leads(w.db, f, m, i) && Live(w, i) > 0 && Live(w, i) != w.db.acts[i].sharedUsers;
      var pick := PickWith(w.db, f, m, i, w.now);
      assert HealRows(w, pick, {}).db.acts[i] != w.db.acts[i];
      assert ValidPick(w.db, f, pick) && HealRows(w, pick, {}) != w;
    }
  }

  lemma FollowedPickQuiet(w: World, f: Filter, pick: set<int>)
    requires LeadersFollow(w, f) && ValidPick(w.db, f, pick)
    ensures HealRows(w, pick, {}) == w
  {
    forall i | i in w.db.acts
      ensures HealedRow(w, pick, {}, i) == w.db.acts[i]
    {
      if i in pick {
        assert PickFor(w.db, f, pick, i);
        assert Leads(w.db, f, w.db.acts[i].metaID, i);
      }
    }
    SameRows(HealRows(w, pick, {}).db.acts, w.db.acts);
  }

  /**
   * While the ledger follows the router and the current rows are visible and untied, a heal writes nothing and the
   * live summary is the stored one.
   */
  lemma HealIsQuiet(w: World, f: Filter, pick: set<int>, lost: set<int>)
    requires Valid(w) && Agree(w) && ValidPick(w.db, f, pick) && CurrentRowsClear(w.db, f)
    ensures HealRows(w, pick, lost) == w
    ensures Total(ShownAll(w, f, pick)) == StoredSum(w.db, f)
    ensures Total(ShownUnsettled(w, f, pick)) == StoredUnsettledSum(w.db, f)
  {
    forall i | i in pick && i in w.db.acts
      ensures Live(w, i) == w.db.acts[i].sharedUsers
    {
      PicksAreCurrentRows(w.db, f, pick, i, w.now);
      var m := w.db.acts[i].metaID;
      assert Newest(w.db, m, i);
      assert w.db.metas[m].name in w.router.users ==> OnRouter(w, m);
    }
    assert HealRows(w, pick, lost).db.acts == w.db.acts;
    SummaryIsPostState(w, f, pick, lost);
  }
}
