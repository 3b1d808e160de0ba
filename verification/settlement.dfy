/** The algebra of settling: closing a scope's ledger up to an anchor row. */
module Settlement {
  import opened Models
  import opened Totals
  import Router
  import opened Tables
  import opened Steps
  import opened Heal

  ghost predicate Anchors(db: Db, scope: Scope, a: int) {
    a in db.acts && InScope(db, db.acts[a], scope)
  }

  function SettledIds(db: Db): set<int> {
    set i | i in db.acts && db.acts[i].settled
  }

  /** The later of two rows in ledger order. */
  function Later(db: Db, a: int, b: int): int
    requires a in db.acts && b in db.acts
  {
    if Before(db.acts[a], db.acts[b]) then b else a
  }

  /** A row apart from who settled it and when. */
  function Core(a: Activation): Activation {
    a.(settledAt := None, settledBy := None)
  }

  /** Exactly the chosen rows change, and only in their settlement fields; everything else is as before. */
  lemma SettleExact(db: Db, admin: int, scope: Scope, a: int, now: int)
    requires Anchors(db, scope, a)
    ensures var db' := SettleThrough(db, admin, scope, a, now).0;
            && db' == db.(acts := db'.acts) && db'.acts.Keys == db.acts.Keys
            && SettledIds(db') == SettledIds(db) + SettleIds(db, scope, db.acts[a])
            && (forall i :: i in db.acts && i !in SettleIds(db, scope, db.acts[a]) ==> db'.acts[i] == db.acts[i])
            && (forall i :: i in SettleIds(db, scope, db.acts[a]) ==>
                  !db.acts[i].settled && db'.acts[i] == Settled(db.acts[i], admin, now))
            && SettleThrough(db, admin, scope, a, now).1 == Some(|SettledIds(db')| - |SettledIds(db)|)
            && !exists i :: i in SettleIds(db, scope, db.acts[a]) && i in SettledIds(db)
  {
    var db' := SettleThrough(db, admin, scope, a, now).0;
    var chosen := SettleIds(db, scope, db.acts[a]);
    assert chosen * SettledIds(db) == {};
    assert SettledIds(db') == SettledIds(db) + chosen;
  }

  /** One row after one settlement. */
  lemma SettleRow(db: Db, admin: int, scope: Scope, a: int, now: int, i: int)
    requires Anchors(db, scope, a) && i in db.acts
    ensures var db' := SettleThrough(db, admin, scope, a, now).0;
            && db'.metas == db.metas && i in db'.acts
            && Core(db'.acts[i]) ==
                 Core(db.acts[i]).(settled := db.acts[i].settled ||
                                              (InScope(db, db.acts[i], scope) && Through(db.acts[i], db.acts[a])))
  {
  }

  /**
   * Settling through a and then b closes what one settlement through the later of them closes, and the counts add up.
   */
  lemma SettleTwice(db: Db, admin1: int, now1: int, admin2: int, now2: int, scope: Scope, a: int, b: int)
    requires forall i :: i in db.acts ==> db.acts[i].id == i
    requires Anchors(db, scope, a) && Anchors(db, scope, b)
    ensures var (db1, n1) := SettleThrough(db, admin1, scope, a, now1);
            var (db2, n2) := SettleThrough(db1, admin2, scope, b, now2);
            var (once, n) := SettleThrough(db, admin2, scope, Later(db, a, b), now2);
            && n1.Some? && n2.Some? && n.Some? && n1.value + n2.value == n.value
            && db2.acts.Keys == once.acts.Keys
            && (forall i :: i in db2.acts ==> Core(db2.acts[i]) == Core(once.acts[i]))
            && SettledIds(db2) == SettledIds(once)
  {
    var c := Later(db, a, b);
    var db1 := SettleThrough(db, admin1, scope, a, now1).0;
    SettleRow(db, admin1, scope, a, now1, b);
    var db2 := SettleThrough(db1, admin2, scope, b, now2).0;
    var once := SettleThrough(db, admin2, scope, c, now2).0;
    forall i | i in db.acts
      ensures i in db2.acts && i in once.acts && Core(db2.acts[i]) == Core(once.acts[i])
    {
      SettleRow(db, admin1, scope, a, now1, i);
      SettleRow(db1, admin2, scope, b, now2, i);
      SettleRow(db, admin2, scope, c, now2, i);
    }
    SettledAlike(db2, once);
    SettleCounts(db, admin1, scope, a, now1);
    SettleCounts(db1, admin2, scope, b, now2);
    SettleCounts(db, admin2, scope, c, now2);
  }

  lemma SettledAlike(x: Db, y: Db)
    requires x.acts.Keys == y.acts.Keys
    requires forall i :: i in x.acts ==> Core(x.acts[i]) == Core(y.acts[i])
    ensures SettledIds(x) == SettledIds(y)
  {
    forall i | i in x.acts
      ensures x.acts[i].settled == y.acts[i].settled
    {
      assert Core(x.acts[i]).settled == Core(y.acts[i]).settled;
    }
  }

  lemma SettleCounts(db: Db, admin: int, scope: Scope, a: int, now: int)
    requires Anchors(db, scope, a)
    ensures var (db', n) := SettleThrough(db, admin, scope, a, now);
            db'.acts.Keys == db.acts.Keys && n == Some(|SettledIds(db')| - |SettledIds(db)|)
  {
    SettleExact(db, admin, scope, a, now);
  }

  /** Settling again through the same row changes nothing and reports zero. */
  lemma SettleAgain(db: Db, admin1: int, now1: int, admin2: int, now2: int, scope: Scope, a: int)
    requires Anchors(db, scope, a)
    ensures var db1 := SettleThrough(db, admin1, scope, a, now1).0;
            SettleThrough(db1, admin2, scope, a, now2) == (db1, Some(0))
  {
    var db1 := SettleThrough(db, admin1, scope, a, now1).0;
    NothingLeft(db, admin1, scope, a, now1);
    SameSet(SettleIds(db1, scope, db1.acts[a]), {});
    SameRows(SettleThrough(db1, admin2, scope, a, now2).0.acts, db1.acts);
  }

  lemma NothingLeft(db: Db, admin: int, scope: Scope, a: int, now: int)
    requires Anchors(db, scope, a)
    ensures var db1 := SettleThrough(db, admin, scope, a, now).0;
            Anchors(db1, scope, a) && forall i :: !ToSettle(db1, scope, db1.acts[a], i)
  {
    SettleRow(db, admin, scope, a, now, a);
    var db1 := SettleThrough(db, admin, scope, a, now).0;
    forall i
      ensures !ToSettle(db1, scope, db1.acts[a], i)
    {
      if i in db.acts {
        SettleRow(db, admin, scope, a, now, i);
      }
    }
  }

  /** What one row adds to a scope's settled, or unsettled, total. */
  function Share(db: Db, scope: Scope, settled: bool, i: int): int
    requires i in db.acts
  {
    if InScope(db, db.acts[i], scope) && db.acts[i].settled == settled then db.acts[i].sharedUsers else 0
  }

  ghost function ScopeTotal(db: Db, scope: Scope, settled: bool): int {
    Total(map i | i in db.acts :: Share(db, scope, settled, i))
  }

  /** The connections a settlement moves, seen from scope s. */
  function MovedShare(db: Db, scope: Scope, a: int, s: Scope, i: int): int
    requires a in db.acts && i in db.acts
  {
    if s == scope && ToSettle(db, scope, db.acts[a], i) then db.acts[i].sharedUsers else 0
  }

  ghost function Moved(db: Db, scope: Scope, a: int, s: Scope): int
    requires a in db.acts
  {
    Total(map i | i in db.acts :: MovedShare(db, scope, a, s, i))
  }

  lemma ShareAfter(db: Db, admin: int, now: int, scope: Scope, a: int, s: Scope, i: int)
    requires Anchors(db, scope, a) && i in db.acts
    ensures var db' := SettleThrough(db, admin, scope, a, now).0;
            && i in db'.acts
            && Share(db', s, true, i) == Share(db, s, true, i) + MovedShare(db, scope, a, s, i)
            && Share(db, s, false, i) == Share(db', s, false, i) + MovedShare(db, scope, a, s, i)
  {
    SettleRow(db, admin, scope, a, now, i);
    var db' := SettleThrough(db, admin, scope, a, now).0;
    assert Core(db'.acts[i]).sharedUsers == db.acts[i].sharedUsers && Core(db'.acts[i]).metaID == db.acts[i].metaID;
    assert InScope(db', db'.acts[i], s) == InScope(db, db.acts[i], s);
    assert InScope(db, db.acts[i], s) && InScope(db, db.acts[i], scope) ==> s == scope;
  }

  /** Connections move from the scope's unsettled total to its settled total; no other scope sees any change. */
  lemma SettleConserves(db: Db, admin: int, now: int, scope: Scope, a: int, s: Scope)
    requires Anchors(db, scope, a)
    ensures var db' := SettleThrough(db, admin, scope, a, now).0;
            && ScopeTotal(db', s, true) == ScopeTotal(db, s, true) + Moved(db, scope, a, s)
            && ScopeTotal(db', s, false) == ScopeTotal(db, s, false) - Moved(db, scope, a, s)
            && (s != scope ==> Moved(db, scope, a, s) == 0)
  {
    var db' := SettleThrough(db, admin, scope, a, now).0;
    var moved := map i | i in db.acts :: MovedShare(db, scope, a, s, i);
    forall i | i in db.acts
      ensures i in db'.acts
      ensures Share(db', s, true, i) == Share(db, s, true, i) + moved[i]
      ensures Share(db, s, false, i) == Share(db', s, false, i) + moved[i]
    {
      ShareAfter(db, admin, now, scope, a, s, i);
    }
    assert db'.acts.Keys == db.acts.Keys;
    TotalPlus(map i | i in db.acts :: Share(db, s, true, i), moved, map i | i in db'.acts :: Share(db', s, true, i));
    TotalPlus(map i | i in db'.acts :: Share(db', s, false, i), moved, map i | i in db.acts :: Share(db, s, false, i));
    if s != scope {
      TotalZero(moved);
    }
  }

  // ---------------------------------------------------------------- which anchors count

  /** The manager a scope stands for; the orphans have none. */
  function ManagerOf(scope: Scope): Option<int> {
    match scope
    case Orphans => None
    case OfManager(id) => Some(id)
  }

  /**
   * A settlement is refused exactly when the anchor does not exist or its user is billed elsewhere, and then nothing
   * changes; otherwise it closes the open rows of the users billed there up to the anchor, and no other.
   */
  lemma SettleDecides(w: World, admin: int, scope: Scope, a: int)
    requires Valid(w)
    ensures var (w', reply) := Settle(w, admin, scope, a);
            && (reply == Refused(NotInScope) <==>
                  a !in w.db.acts || w.db.metas[w.db.acts[a].metaID].managerID != ManagerOf(scope))
            && (reply.Refused? ==> reply == Refused(NotInScope) && w' == w)
            && (reply.Ok? ==> w' == w.(db := w.db.(acts := w'.db.acts)) && w'.db.acts.Keys == w.db.acts.Keys)
    ensures forall i :: i in w.db.acts && Settle(w, admin, scope, a).1.Ok? ==>
              var row, anchor := w.db.acts[i], w.db.acts[a];
              Settle(w, admin, scope, a).0.db.acts[i] ==
                if !row.settled && w.db.metas[row.metaID].managerID == ManagerOf(scope) &&
                   (row.createdAt < anchor.createdAt || (row.createdAt == anchor.createdAt && i <= a))
                then row.(settled := true, settledAt := Some(w.now), settledBy := Some(admin)) else row
  {
    hide Router.WellFormed, ManagersOk;
    assert a in w.db.acts ==> w.db.acts[a].metaID in w.db.metas;
  }

  // ---------------------------------------------------------------- what the renewal page of a scope adds up

  /** All rows of a scope: every instant, every user. */
  function WholeScope(scope: Scope, settled: SettledFilter): Filter {
    Filter(InOneScope(scope), settled, None, None, (m: Meta) => true)
  }

  /** The page's sums of a scope are its settled and unsettled totals, which a settlement shifts and never changes. */
  lemma ScopeSums(w: World, scope: Scope)
    requires Valid(w)
    ensures StoredSum(w.db, WholeScope(scope, AllRows)) ==
              ScopeTotal(w.db, scope, true) + ScopeTotal(w.db, scope, false)
    ensures StoredUnsettledSum(w.db, WholeScope(scope, AllRows)) == ScopeTotal(w.db, scope, false)
    ensures StoredSum(w.db, WholeScope(scope, OnlySettled)) == ScopeTotal(w.db, scope, true)
    ensures StoredSum(w.db, WholeScope(scope, OnlyUnsettled)) == ScopeTotal(w.db, scope, false)
  {
    hide Valid, StoredSum, StoredUnsettledSum, ScopeTotal, WholeScope;
    ScopeSumsAll(w, scope);
    ScopeSumsOne(w, scope, true);
    ScopeSumsOne(w, scope, false);
  }

  lemma ScopeSumsAll(w: World, scope: Scope)
    requires Valid(w)
    ensures StoredSum(w.db, WholeScope(scope, AllRows)) ==
              ScopeTotal(w.db, scope, true) + ScopeTotal(w.db, scope, false)
    ensures StoredUnsettledSum(w.db, WholeScope(scope, AllRows)) == ScopeTotal(w.db, scope, false)
  {
    StoredSumsOver(w.db, WholeScope(scope, AllRows));
    SeenIsShare(w, scope);
    hide Total, Seen, SeenOpen, Share, WholeScope, Valid, StoredSum, StoredUnsettledSum;
    var acts := w.db.acts;
    assert (map i | i in acts :: SeenOpen(w.db, WholeScope(scope, AllRows), i)) ==
           (map i | i in acts :: Share(w.db, scope, false, i));
    TotalPlus(map i | i in acts :: Share(w.db, scope, true, i), map i | i in acts :: Share(w.db, scope, false, i),
              map i | i in acts :: Seen(w.db, WholeScope(scope, AllRows), i));
  }

  lemma ScopeSumsOne(w: World, scope: Scope, settled: bool)
    requires Valid(w)
    ensures StoredSum(w.db, WholeScope(scope, if settled then OnlySettled else OnlyUnsettled)) ==
              ScopeTotal(w.db, scope, settled)
  {
    var f := WholeScope(scope, if settled then OnlySettled else OnlyUnsettled);
    StoredSumsOver(w.db, f);
    SeenIsShare(w, scope);
    hide Total, Seen, Share, WholeScope, Valid, StoredSum;
    assert (map i | i in w.db.acts :: Seen(w.db, f, i)) == (map i | i in w.db.acts :: Share(w.db, scope, settled, i));
  }

  lemma SeenIsShare(w: World, scope: Scope)
    requires Valid(w)
    ensures forall i :: i in w.db.acts ==>
              && Seen(w.db, WholeScope(scope, AllRows), i) ==
                   Share(w.db, scope, true, i) + Share(w.db, scope, false, i)
              && SeenOpen(w.db, WholeScope(scope, AllRows), i) == Share(w.db, scope, false, i)
              && Seen(w.db, WholeScope(scope, OnlySettled), i) == Share(w.db, scope, true, i)
              && Seen(w.db, WholeScope(scope, OnlyUnsettled), i) == Share(w.db, scope, false, i)
  {
    hide Router.WellFormed, ManagersOk;
  }
}
