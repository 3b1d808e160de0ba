/** The panel database as tables, with the constraints of its schema; every operation is one SQL statement. */
module Tables {
  import opened Models
  import opened Text
  import opened Owner

  /** Managers are never deleted, so they stay in id order. */
  datatype Db = Db(
    managers: seq<Manager>, nextManagerID: int,
    metas: map<int, Meta>, nextMetaID: int,
    acts: map<int, Activation>, nextActID: int)

  function EmptyDb(): Db {
    Db([], 1, map[], 1, map[], 1)
  }

  /** The ledger's order: creation instant, then id. */
  predicate Before(a: Activation, b: Activation) {
    a.createdAt < b.createdAt || (a.createdAt == b.createdAt && a.id < b.id)
  }

  lemma SameSet(a: set<int>, b: set<int>)
    requires forall k :: k in a <==> k in b
    ensures a == b
  {
    forall k | k in a
      ensures k in b
    {
    }
    forall k | k in b
      ensures k in a
    {
    }
  }

  lemma SameRows(a: map<int, Activation>, b: map<int, Activation>)
    requires forall k :: k in a <==> k in b
    requires forall k :: k in a && k in b ==> a[k] == b[k]
    ensures a == b
  {
    SameSet(a.Keys, b.Keys);
    forall k | k in a
      ensures a[k] == b[k]
    {
    }
  }

  lemma NonEmpty(s: set<int>)
    requires s != {}
    ensures exists k :: k in s
  {
    assert (forall k :: k !in s) ==> s == {};
  }

  /** Every nonempty set of rows has a last one in ledger order. */
  lemma {:induction false} LatestOf(acts: map<int, Activation>, s: set<int>) returns (i: int)
    requires s != {} && forall k :: k in s ==> k in acts && acts[k].id == k
    ensures i in s && forall j :: j in s && j != i ==> Before(acts[j], acts[i])
    decreases |s|
  {
    NonEmpty(s);
    var k :| k in s;
    if s == {k} {
      i := k;
    } else {
      var rest := s - {k};
      assert s == rest + {k} && rest != {};
      i := LatestOf(acts, rest);
      if Before(acts[i], acts[k]) {
        i := k;
      }
    }
  }

  ghost predicate ManagersOk(db: Db) {
    && (forall i :: 0 <= i < |db.managers| ==> 0 < db.managers[i].id < db.nextManagerID && db.managers[i].quota > 0)
    && (forall i, j :: 0 <= i < j < |db.managers| ==> db.managers[i].id < db.managers[j].id)
    && (forall i, j :: NamesApart(db.managers, i, j))
  }

  /** UNIQUE COLLATE NOCASE, on user names and on slugs. */
  predicate NamesApart(managers: seq<Manager>, i: int, j: int) {
    0 <= i < j < |managers| ==>
      && !SameNoCase(managers[i].username, managers[j].username) && !SameNoCase(managers[i].slug, managers[j].slug)
  }

  ghost predicate MetasOk(db: Db) {
    && (forall m :: m in db.metas ==> db.metas[m].id == m && 0 < m < db.nextMetaID)
    && (forall m, n :: m in db.metas && n in db.metas && db.metas[m].name == db.metas[n].name ==> m == n)
    && (forall m :: RefOk(db, m))
  }

  /** A row's manager exists. */
  predicate RefOk(db: Db, m: int) {
    m in db.metas ==> ManagerRefOk(db, db.metas[m].managerID)
  }

  ghost predicate ActsOk(db: Db, now: int) {
    forall i :: i in db.acts ==>
      && db.acts[i].id == i && 0 < i < db.nextActID
      && db.acts[i].sharedUsers > 0
      && db.acts[i].metaID in db.metas
      && db.acts[i].createdAt <= now
  }

  /** What the schema and the clock guarantee of every database state. */
  ghost predicate DbOk(db: Db, now: int) {
    0 < db.nextManagerID && 0 < db.nextMetaID && 0 < db.nextActID && ManagersOk(db) && MetasOk(db) && ActsOk(db, now)
  }

  // ---------------------------------------------------------------- managers

  predicate SameNoCase(a: string, b: string) {
    Lower(a) == Lower(b)
  }

  predicate ManagerClash(db: Db, username: string, slug: string) {
    exists m :: m in db.managers && (SameNoCase(m.username, username) || SameNoCase(m.slug, slug))
  }

  /** The inserted id, or None when a constraint fails. */
  function InsertManager(db: Db, username: string, slug: string, quota: int): (Db, Option<int>) {
    if quota <= 0 || ManagerClash(db, username, slug) then (db, None)
    else
      var id := db.nextManagerID;
      (db.(managers := db.managers + [Manager(id, username, slug, quota)], nextManagerID := id + 1), Some(id))
  }

  function FindManager(managers: seq<Manager>, id: int): (found: Option<Manager>)
    ensures found.Some? ==> found.value in managers && found.value.id == id
    ensures found.None? ==> forall m :: m in managers ==> m.id != id
  {
    if managers == [] then None
    else if managers[0].id == id then Some(managers[0])
    else FindManager(managers[1..], id)
  }

  function WithQuota(m: Manager, id: int, quota: int): Manager {
    if m.id == id then m.(quota := quota) else m
  }

  function WithQuotas(managers: seq<Manager>, id: int, quota: int): seq<Manager> {
    seq(|managers|, i requires 0 <= i < |managers| => WithQuota(managers[i], id, quota))
  }

  function SetQuota(db: Db, id: int, quota: int): Db {
    if quota <= 0 then db else db.(managers := WithQuotas(db.managers, id, quota))
  }

  // ---------------------------------------------------------------- user metadata

  predicate MetaNamed(db: Db, m: int, name: string) {
    m in db.metas && db.metas[m].name == name
  }

  predicate NameKnown(db: Db, name: string) {
    exists m :: m in db.metas && MetaNamed(db, m, name)
  }

  predicate ManagerRefOk(db: Db, managerID: Option<int>) {
    managerID.None? || FindManager(db.managers, managerID.value).Some?
  }

  function InsertMeta(db: Db, name: string, managerID: Option<int>, contact: Option<string>, notes: Option<string>)
    : (Db, Option<int>)
  {
    if NameKnown(db, name) || !ManagerRefOk(db, managerID) then (db, None)
    else
      var id := db.nextMetaID;
      (db.(metas := db.metas[id := Meta(id, name, managerID, contact, notes)], nextMetaID := id + 1), Some(id))
  }

  function Keep<T>(new_: Option<T>, old_: Option<T>): Option<T> {
    if new_.Some? then new_ else old_
  }

  function UpdateMeta(db: Db, id: int, contact: Option<string>, notes: Option<string>, managerID: Option<int>): Db {
    if id !in db.metas || !ManagerRefOk(db, managerID) then db
    else
      var m := db.metas[id];
      db.(metas := db.metas[id := m.(contact := Keep(contact, m.contact), notes := Keep(notes, m.notes),
                                     managerID := Keep(managerID, m.managerID))])
  }

  /** Deleting a user's row cascades to its activations. */
  function DeleteMeta(db: Db, id: int): Db {
    db.(metas := db.metas - {id}, acts := map i | i in db.acts && db.acts[i].metaID != id :: db.acts[i])
  }

  // ---------------------------------------------------------------- the ledger

  function InsertActivation(db: Db, metaID: int, profile: string, sharedUsers: int, endTime: Option<int>, now: int): Db
  {
    if sharedUsers <= 0 || metaID !in db.metas then db
    else
      var id := db.nextActID;
      var a := Activation(id, metaID, profile, sharedUsers, false, None, None, endTime, now);
      db.(acts := db.acts[id := a], nextActID := id + 1)
  }

  predicate UnsettledOf(db: Db, metaID: int, i: int) {
    i in db.acts && db.acts[i].metaID == metaID && !db.acts[i].settled
  }

  /** The row an ORDER BY created_at DESC, id DESC LIMIT 1 over a user's unsettled rows selects. */
  predicate Newest(db: Db, metaID: int, i: int) {
    && UnsettledOf(db, metaID, i)
    && forall j :: j in db.acts && UnsettledOf(db, metaID, j) && j != i ==> Before(db.acts[j], db.acts[i])
  }

  /** The CHECK constraint rejects values that are not positive. */
  function UpdateNewest(db: Db, metaID: int, sharedUsers: int): Db {
    if sharedUsers <= 0 then db
    else db.(acts := map i | i in db.acts ::
                       if Newest(db, metaID, i) then db.acts[i].(sharedUsers := sharedUsers) else db.acts[i])
  }

  function UpdateActivation(db: Db, id: int, sharedUsers: int): Db {
    if sharedUsers <= 0 || id !in db.acts then db
    else db.(acts := db.acts[id := db.acts[id].(sharedUsers := sharedUsers)])
  }

  /** Billing scopes: one manager's users, or the users of none. */
  datatype Scope = Orphans | OfManager(id: int)

  predicate InScope(db: Db, a: Activation, scope: Scope) {
    && a.metaID in db.metas
    && db.metas[a.metaID].managerID == match scope { case Orphans => None case OfManager(id) => Some(id) }
  }

  predicate Through(a: Activation, anchor: Activation) {
    a.createdAt < anchor.createdAt || (a.createdAt == anchor.createdAt && a.id <= anchor.id)
  }

  predicate ToSettle(db: Db, scope: Scope, anchor: Activation, i: int) {
    i in db.acts && !db.acts[i].settled && InScope(db, db.acts[i], scope) && Through(db.acts[i], anchor)
  }

  function SettleIds(db: Db, scope: Scope, anchor: Activation): set<int> {
    set i | i in db.acts && ToSettle(db, scope, anchor, i)
  }

  function Settled(a: Activation, adminID: int, now: int): Activation {
    a.(settled := true, settledAt := Some(now), settledBy := Some(adminID))
  }

  /** Closes the scope's unsettled rows up to the anchor; the count, or None when the anchor is not in the scope. */
  function SettleThrough(db: Db, adminID: int, scope: Scope, actID: int, now: int): (Db, Option<int>) {
    if actID !in db.acts || !InScope(db, db.acts[actID], scope) then (db, None)
    else
      var anchor := db.acts[actID];
      var acts := map i | i in db.acts ::
                    if ToSettle(db, scope, anchor, i) then Settled(db.acts[i], adminID, now) else db.acts[i];
      (db.(acts := acts), Some(|SettleIds(db, scope, anchor)|))
  }

  // ---------------------------------------------------------------- each statement keeps the schema

  lemma {:induction false} FindAppended(managers: seq<Manager>, m: Manager, id: int)
    ensures FindManager(managers + [m], id) ==
              if FindManager(managers, id).Some? then FindManager(managers, id)
              else if m.id == id then Some(m) else None
  {
    if managers == [] {
      assert managers + [m] == [m];
    } else {
      assert (managers + [m])[1..] == managers[1..] + [m];
      FindAppended(managers[1..], m, id);
    }
  }

  lemma {:induction false} FindWithQuota(managers: seq<Manager>, id: int, quota: int, k: int)
    ensures var changed := WithQuotas(managers, id, quota);
            && Infos(changed) == Infos(managers)
            && FindManager(changed, k) ==
                 match FindManager(managers, k) { case None => None case Some(m) => Some(WithQuota(m, id, quota)) }
  {
    if managers != [] {
      assert WithQuotas(managers, id, quota)[1..] == WithQuotas(managers[1..], id, quota);
      FindWithQuota(managers[1..], id, quota, k);
    }
  }

  /** Rows keep valid references when they keep their managers, and no manager goes. */
  lemma SameRefs(db: Db, db': Db)
    requires forall id :: FindManager(db.managers, id).Some? ==> FindManager(db'.managers, id).Some?
    requires forall m :: m in db'.metas ==> m in db.metas && db'.metas[m].managerID == db.metas[m].managerID
    requires forall m :: RefOk(db, m)
    ensures forall m :: RefOk(db', m)
  {
    forall m
      ensures RefOk(db', m)
    {
      assert RefOk(db, m);
    }
  }

  lemma InsertManagerOk(db: Db, username: string, slug: string, quota: int, now: int)
    requires DbOk(db, now)
    ensures DbOk(InsertManager(db, username, slug, quota).0, now)
  {
    if quota > 0 && !ManagerClash(db, username, slug) {
      var db', m := InsertManager(db, username, slug, quota).0, Manager(db.nextManagerID, username, slug, quota);
      forall id | FindManager(db.managers, id).Some?
        ensures FindManager(db'.managers, id).Some?
      {
        FindAppended(db.managers, m, id);
      }
      SameRefs(db, db');
      forall i, j
        ensures NamesApart(db'.managers, i, j)
      {
        assert NamesApart(db.managers, i, j);
        assert 0 <= i < |db.managers| ==> db.managers[i] in db.managers;
      }
    }
  }

  lemma SetQuotaOk(db: Db, id: int, quota: int, now: int)
    requires DbOk(db, now)
    ensures DbOk(SetQuota(db, id, quota), now)
  {
    var db' := SetQuota(db, id, quota);
    forall k | FindManager(db.managers, k).Some?
      ensures FindManager(db'.managers, k).Some?
    {
      FindWithQuota(db.managers, id, quota, k);
    }
    SameRefs(db, db');
    QuotasKeepNames(db.managers, id, quota);
  }

  lemma QuotasKeepNames(managers: seq<Manager>, id: int, quota: int)
    requires forall i, j :: NamesApart(managers, i, j)
    ensures forall i, j :: NamesApart(WithQuotas(managers, id, quota), i, j)
  {
    hide SameNoCase;
    forall i, j
      ensures NamesApart(WithQuotas(managers, id, quota), i, j)
    {
      assert NamesApart(managers, i, j);
    }
  }

  lemma InsertMetaOk(db: Db, name: string, managerID: Option<int>, contact: Option<string>, notes: Option<string>,
                     now: int)
    requires DbOk(db, now)
    ensures DbOk(InsertMeta(db, name, managerID, contact, notes).0, now)
  {
    var db' := InsertMeta(db, name, managerID, contact, notes).0;
    forall m, n | m in db'.metas && n in db'.metas && db'.metas[m].name == db'.metas[n].name
      ensures m == n
    {
      assert m in db.metas ==> (MetaNamed(db, m, name) <==> db.metas[m].name == name);
      assert n in db.metas ==> (MetaNamed(db, n, name) <==> db.metas[n].name == name);
    }
    forall m
      ensures RefOk(db', m)
    {
      assert RefOk(db, m);
    }
  }

  lemma UpdateMetaOk(db: Db, id: int, contact: Option<string>, notes: Option<string>, managerID: Option<int>, now: int)
    requires DbOk(db, now)
    ensures DbOk(UpdateMeta(db, id, contact, notes, managerID), now)
  {
    forall m
      ensures RefOk(UpdateMeta(db, id, contact, notes, managerID), m)
    {
      assert RefOk(db, m);
    }
  }

  lemma DeleteMetaOk(db: Db, id: int, now: int)
    requires DbOk(db, now)
    ensures DbOk(DeleteMeta(db, id), now)
  {
    SameRefs(db, DeleteMeta(db, id));
  }

  lemma InsertActivationOk(db: Db, metaID: int, profile: string, shared: int, endTime: Option<int>, now: int)
    requires DbOk(db, now)
    ensures DbOk(InsertActivation(db, metaID, profile, shared, endTime, now), now)
  {
    SameRefs(db, InsertActivation(db, metaID, profile, shared, endTime, now));
  }

  lemma UpdateNewestOk(db: Db, metaID: int, shared: int, now: int)
    requires DbOk(db, now)
    ensures DbOk(UpdateNewest(db, metaID, shared), now)
  {
    SameRefs(db, UpdateNewest(db, metaID, shared));
  }

  lemma UpdateActivationOk(db: Db, id: int, shared: int, now: int)
    requires DbOk(db, now)
    ensures DbOk(UpdateActivation(db, id, shared), now)
  {
    SameRefs(db, UpdateActivation(db, id, shared));
  }

  lemma SettleThroughOk(db: Db, adminID: int, scope: Scope, actID: int, now: int)
    requires DbOk(db, now)
    ensures DbOk(SettleThrough(db, adminID, scope, actID, now).0, now)
  {
    SameRefs(db, SettleThrough(db, adminID, scope, actID, now).0);
  }

  // ---------------------------------------------------------------- reading queries

  datatype SettledFilter = OnlySettled | AllRows | OnlyUnsettled

  datatype ScopeFilter = AnyScope | InOneScope(scope: Scope)

  /** A renewal listing's WHERE clause; the LIKE search is an arbitrary predicate on the user's row. */
  datatype Filter = Filter(scope: ScopeFilter, settled: SettledFilter, from: Option<int>, to: Option<int>,
                           query: Meta -> bool)

  predicate Visible(db: Db, f: Filter, i: int) {
    && i in db.acts && db.acts[i].metaID in db.metas
    && (f.scope.InOneScope? ==> InScope(db, db.acts[i], f.scope.scope))
    && (f.settled.OnlySettled? ==> db.acts[i].settled)
    && (f.settled.OnlyUnsettled? ==> !db.acts[i].settled)
    && (f.from.Some? ==> db.acts[i].createdAt >= f.from.value)
    && (f.to.Some? ==> db.acts[i].createdAt <= f.to.value)
    && f.query(db.metas[db.acts[i].metaID])
  }

  predicate VisibleUnsettledOf(db: Db, f: Filter, m: int, i: int) {
    Visible(db, f, i) && UnsettledOf(db, m, i)
  }

  /** The columns a listing returns. */
  datatype RenewalSharedUsersRow = RenewalSharedUsersRow(id: int, name: string, sharedUsers: int, settled: bool)

  function RowOf(db: Db, i: int): RenewalSharedUsersRow
    requires i in db.acts && db.acts[i].metaID in db.metas
  {
    RenewalSharedUsersRow(i, db.metas[db.acts[i].metaID].name, db.acts[i].sharedUsers, db.acts[i].settled)
  }

  function IdsOf(rows: seq<RenewalSharedUsersRow>): seq<int> {
    seq(|rows|, k requires 0 <= k < |rows| => rows[k].id)
  }

  /** An answer of the listing query: each visible row once, newest instant first, ties in any order. */
  ghost predicate IsRenewalListing(db: Db, f: Filter, rows: seq<RenewalSharedUsersRow>) {
    && (forall a, b :: 0 <= a < b < |rows| ==> rows[a].id != rows[b].id)
    && (forall a :: 0 <= a < |rows| ==> Visible(db, f, rows[a].id) && rows[a] == RowOf(db, rows[a].id))
    && (forall i :: Visible(db, f, i) ==> i in IdsOf(rows))
    && (forall a, b :: 0 <= a < b < |rows| ==> db.acts[rows[a].id].createdAt >= db.acts[rows[b].id].createdAt)
  }
}
