/** Settled rows are history: they never change, and in each scope they come first. */
module Frozen {
  import opened Models
  import opened Owner
  import opened Router
  import opened Tables
  import opened Steps
  import opened Acceptance

  // ---------------------------------------------------------------- how a row may change

  /** A settled row stays as it is; an unsettled one may change its shared users and may become settled. */
  predicate RowEvolves(a: Activation, b: Activation) {
    if a.settled then b == a
    else b.(sharedUsers := 0, settled := false, settledAt := None, settledBy := None) ==
         a.(sharedUsers := 0, settled := false, settledAt := None, settledBy := None)
  }

  /** Later ledgers keep every settled row they still hold, and never reuse an id. */
  ghost predicate Evolves(db: Db, db': Db) {
    && db.nextActID <= db'.nextActID
    && forall i :: i in db'.acts ==>
         if i in db.acts then RowEvolves(db.acts[i], db'.acts[i]) else db.nextActID <= i
  }

  lemma EvolvesTransitive(a: Db, b: Db, c: Db)
    requires Evolves(a, b) && Evolves(b, c)
    requires forall i :: i in a.acts ==> i < a.nextActID
    ensures Evolves(a, c)
  {
    forall i | i in c.acts
      ensures if i in a.acts then RowEvolves(a.acts[i], c.acts[i]) else a.nextActID <= i
    {
      if i !in b.acts {
        assert b.nextActID <= i;
      }
    }
  }

  lemma OpsEvolve(db: Db, now: int, m: int, name: string, managerID: Option<int>, contact: Option<string>,
                  notes: Option<string>, shared: int)
    requires DbOk(db, now)
    ensures Evolves(db, db)
    ensures Evolves(db, InsertMeta(db, name, managerID, contact, notes).0)
    ensures Evolves(db, UpdateMeta(db, m, contact, notes, managerID))
    ensures Evolves(db, UpdateNewest(db, m, shared))
    ensures Evolves(db, DeleteMeta(db, m))
  {
  }

  lemma RecordEvolves(db: Db, r: RouterState, name: string, m: int, profile: string, shared: int, rowsDown: bool,
                      activationDown: bool, now: int)
    requires DbOk(db, now)
    ensures Evolves(db, Record(db, r, name, m, profile, shared, rowsDown, activationDown, now))
  {
  }

  lemma FinishCreateEvolves(w: World, name: string, managerID: Option<int>, req: CreateReq, f: CreateFaults)
    requires Valid(w)
    ensures Evolves(w.db, FinishCreate(w, name, managerID, req, f).0.db)
  {
    hide Evolves, FinishCreate;
    TailDb(w, name, managerID, req, f);
    OpsEvolve(w.db, w.now, 0, name, managerID, req.contact, req.notes, 0);
    if InsertMeta(w.db, name, managerID, req.contact, req.notes).1.Some? {
      NewRowEvolves(w, name, managerID, req, f);
    }
  }

  /** What happens to the ledger once the new row is there. */
  lemma NewRowEvolves(w: World, name: string, managerID: Option<int>, req: CreateReq, f: CreateFaults)
    requires Valid(w) && InsertMeta(w.db, name, managerID, req.contact, req.notes).1.Some?
    ensures var (db1, m) := InsertMeta(w.db, name, managerID, req.contact, req.notes);
            Evolves(w.db, DeleteMeta(db1, m.value)) && Evolves(w.db, TailRecord(w, db1, name, m.value, req, f))
  {
    assert forall i :: i in w.db.acts ==> i < w.db.nextActID;
    hide Evolves, DbOk, InsertMeta, DeleteMeta, Record;
    var (db1, m) := InsertMeta(w.db, name, managerID, req.contact, req.notes);
    InsertMetaOk(w.db, name, managerID, req.contact, req.notes, w.now);
    OpsEvolve(w.db, w.now, 0, name, managerID, req.contact, req.notes, 0);
    OpsEvolve(db1, w.now, m.value, name, managerID, req.contact, req.notes, 0);
    var profile := ProfileOf(w.cfg, req);
    var r2 := AddUserProfile(w.router, name, profile, w.now).0;
    RecordEvolves(db1, r2, name, m.value, profile, req.sharedUsers, f.rowsDown, f.activationDown, w.now);
    EvolvesTransitive(w.db, db1, DeleteMeta(db1, m.value));
    EvolvesTransitive(w.db, db1, TailRecord(w, db1, name, m.value, req, f));
  }

  lemma PatchEvolves(w: World, m: int, req: PatchReq, f: PatchFaults)
    requires Valid(w)
    ensures Evolves(w.db, Patch(w, m, req, f).0.db)
  {
    var shared := GetOr(req.sharedUsers, 0);
    var db1 := UpdateNewest(w.db, m, shared);
    UpdateNewestOk(w.db, m, shared, w.now);
    OpsEvolve(w.db, w.now, m, "", req.syncManager, req.contact, req.notes, shared);
    OpsEvolve(db1, w.now, m, "", req.syncManager, req.contact, req.notes, shared);
    EvolvesTransitive(w.db, db1, UpdateMeta(db1, m, req.contact, req.notes, req.syncManager));
  }

  lemma CreationEvolves(w: World, e: Event)
    requires Valid(w) && (e.ECreate? || e.EOrphan?)
    ensures Evolves(w.db, Step(w, e).db)
  {
    hide Evolves, FinishCreate, AddReached, CreationName, CreationComment;
    CreationShape(w, e);
    if AddReached(w, e) {
      var name, comment, req := CreationName(w, e), CreationComment(w, e), e.createReq;
      AddUserKeeps(w.router, name, req.password.value, comment, req.sharedUsers, req.disabled);
      FinishCreateEvolves(AfterAdd(w, name, comment, req), name, CreationOwner(e), req, e.createFaults);
    } else {
      OpsEvolve(w.db, w.now, 0, "", None, None, None, 0);
    }
  }

  lemma AssignEvolves(w: World, m: int, profile: string, f: AssignFaults)
    requires Valid(w)
    ensures Evolves(w.db, Assign(w, m, profile, f).0.db)
  {
    hide Evolves, Record, AddUserProfile;
    OpsEvolve(w.db, w.now, 0, "", None, None, None, 0);
    if OnRouter(w, m) {
      var u := w.router.users[w.db.metas[m].name];
      RecordEvolves(w.db, AddUserProfile(w.router, u.name, profile, w.now).0, u.name, m, profile, u.sharedUsers,
                    f.rowsDown, f.activationDown, w.now);
    }
  }

  lemma DeleteEvolves(w: World, m: int, removeDown: bool, metaDown: bool)
    requires Valid(w)
    ensures Evolves(w.db, Delete(w, m, removeDown, metaDown).0.db)
  {
    hide Evolves, DeleteMeta;
    OpsEvolve(w.db, w.now, m, "", None, None, None, 0);
  }

  lemma DeleteByNameEvolves(w: World, name: string, removeDown: bool, metaDown: bool)
    requires Valid(w)
    ensures Evolves(w.db, DeleteByName(w, name, removeDown, metaDown).0.db)
  {
    hide Evolves, Delete;
    var m := MetaByName(w.db, name);
    if m.Some? {
      DeleteEvolves(w, m.value, removeDown, metaDown);
    } else {
      OpsEvolve(w.db, w.now, 0, "", None, None, None, 0);
    }
  }

  lemma AdoptEvolves(w: World, name: string, asManager: Option<int>, getDown: bool, metaDown: bool)
    requires Valid(w)
    ensures Evolves(w.db, Adopt(w, name, asManager, getDown, metaDown).0.db)
  {
    OpsEvolve(w.db, w.now, 0, "", None, None, None, 0);
  }

  lemma SettleEvolves(w: World, adminID: int, scope: Scope, actID: int)
    requires Valid(w)
    ensures Evolves(w.db, Settle(w, adminID, scope, actID).0.db)
  {
  }

  /** The ledger is not touched. */
  lemma KeepsActsEvolves(w: World, db': Db)
    requires Valid(w) && db'.acts == w.db.acts && db'.nextActID == w.db.nextActID
    ensures Evolves(w.db, db')
  {
  }

  lemma HealEvolves(w: World, f: Filter, pick: set<int>, lost: set<int>, listDown: bool)
    requires Valid(w)
    ensures Evolves(w.db, Heal(w, f, pick, lost, listDown).0.db)
  {
    hide ValidPick;
    KeepsActsEvolves(w, w.db);
    forall i | i in w.db.acts && i in pick
      ensures RowEvolves(w.db.acts[i], HealedRow(w, pick, lost, i)) || !ValidPick(w.db, f, pick)
    {
      if ValidPick(w.db, f, pick) {
        PickedIsOpen(w.db, f, pick, i);
      }
    }
  }

  lemma PickedIsOpen(db: Db, f: Filter, pick: set<int>, i: int)
    requires ValidPick(db, f, pick) && i in pick
    ensures i in db.acts && !db.acts[i].settled
  {
    assert PickFor(db, f, pick, i);
  }

  lemma StepEvolves(w: World, e: Event)
    requires Valid(w)
    ensures Evolves(w.db, Step(w, e).db)
  {
    hide Valid, Evolves, CreateVPN, CreateOrphan, Patch, Assign, Delete, DeleteByName, Adopt, Settle, Heal;
    match e
    case ECreate(_, _, _) => CreationEvolves(w, e);
    case EOrphan(_, _) => CreationEvolves(w, e);
    case EPatch(m, req, f) => PatchEvolves(w, m, req, f);
    case EAssign(m, profile, f) => AssignEvolves(w, m, profile, f);
    case ERemoveRow(_, _) => KeepsActsEvolves(w, Step(w, e).db);
    case EDelete(m, removeDown, metaDown) => DeleteEvolves(w, m, removeDown, metaDown);
    case EDeleteByName(name, removeDown, metaDown) => DeleteByNameEvolves(w, name, removeDown, metaDown);
    case EAdopt(name, asManager, getDown, metaDown) => AdoptEvolves(w, name, asManager, getDown, metaDown);
    case ESettle(adminID, scope, actID) => SettleEvolves(w, adminID, scope, actID);
    case EManager(_, _, _, _) => KeepsActsEvolves(w, Step(w, e).db);
    case EQuota(_, _, _) => KeepsActsEvolves(w, Step(w, e).db);
    case EHeal(f, pick, lost, down) => HealEvolves(w, f, pick, lost, down);
    case ETick(_) => KeepsActsEvolves(w, Step(w, e).db);
    case EOutside(_) => KeepsActsEvolves(w, Step(w, e).db);
  }

  /**
   * Over every run, with outside router edits and failing calls, a settled row is unchanged for as long as it exists.
   */
  lemma {:induction false} SettledRowsFrozen(w: World, es: seq<Event>)
    requires Valid(w)
    ensures Evolves(w.db, Run(w, es).db)
    ensures forall i :: i in w.db.acts && w.db.acts[i].settled && i in Run(w, es).db.acts ==>
                          Run(w, es).db.acts[i] == w.db.acts[i]
    decreases |es|
  {
    if es != [] {
      StepEvolves(w, es[0]);
      StepValid(w, es[0]);
      SettledRowsFrozen(Step(w, es[0]), es[1..]);
      EvolvesTransitive(w.db, Step(w, es[0]).db, Run(w, es).db);
    }
  }

  // ---------------------------------------------------------------- settled rows come first

  /** The scope a row is billed in. */
  function BilledTo(db: Db, i: int): Option<int>
    requires i in db.acts && db.acts[i].metaID in db.metas
  {
    db.metas[db.acts[i].metaID].managerID
  }

  /** i is settled, j is not, and both are billed in the same scope. */
  ghost predicate Pair(db: Db, i: int, j: int) {
    && i in db.acts && j in db.acts && db.acts[i].metaID in db.metas && db.acts[j].metaID in db.metas
    && BilledTo(db, i) == BilledTo(db, j) && db.acts[i].settled && !db.acts[j].settled
  }

  /** In each scope, all settled rows precede all unsettled rows in ledger order. */
  ghost predicate SettledFirst(db: Db) {
    forall i, j :: Pair(db, i, j) ==> Before(db.acts[i], db.acts[j])
  }

  /** Operations that keep every row's scope, instant and id, and settle nothing, keep the order. */
  lemma KeepsOrder(db: Db, db': Db)
    requires SettledFirst(db)
    requires forall i :: i in db'.acts && db'.acts[i].metaID in db'.metas ==>
               && i in db.acts && db.acts[i].metaID in db.metas && db'.acts[i].id == db.acts[i].id
               && db'.acts[i].createdAt == db.acts[i].createdAt && db'.acts[i].settled == db.acts[i].settled
               && BilledTo(db', i) == BilledTo(db, i)
    ensures SettledFirst(db')
  {
    forall i, j | Pair(db', i, j)
      ensures Before(db'.acts[i], db'.acts[j])
    {
      assert Pair(db, i, j);
    }
  }

  lemma InsertMetaKeepsOrder(db: Db, name: string, managerID: Option<int>, contact: Option<string>,
                             notes: Option<string>, now: int)
    requires DbOk(db, now) && SettledFirst(db)
    ensures SettledFirst(InsertMeta(db, name, managerID, contact, notes).0)
  {
    KeepsOrder(db, InsertMeta(db, name, managerID, contact, notes).0);
  }

  lemma DeleteMetaKeepsOrder(db: Db, m: int, now: int)
    requires DbOk(db, now) && SettledFirst(db)
    ensures SettledFirst(DeleteMeta(db, m))
  {
    KeepsOrder(db, DeleteMeta(db, m));
  }

  /** A new row is the last of the whole ledger. */
  lemma RecordKeepsOrder(db: Db, r: RouterState, name: string, m: int, profile: string, shared: int, rowsDown: bool,
                         activationDown: bool, now: int)
    requires DbOk(db, now) && SettledFirst(db)
    ensures SettledFirst(Record(db, r, name, m, profile, shared, rowsDown, activationDown, now))
  {
    var db' := Record(db, r, name, m, profile, shared, rowsDown, activationDown, now);
    forall i, j | Pair(db', i, j)
      ensures Before(db'.acts[i], db'.acts[j])
    {
      if j in db.acts {
        assert Pair(db, i, j);
      }
    }
  }

  /** What a settlement closes precedes what it leaves open in the same scope. */
  lemma ClosedBeforeOpen(db: Db, scope: Scope, anchor: Activation, i: int, j: int)
    requires ToSettle(db, scope, anchor, i) && j in db.acts && !db.acts[j].settled && !ToSettle(db, scope, anchor, j)
    requires db.acts[j].metaID in db.metas && BilledTo(db, i) == BilledTo(db, j)
    ensures Before(db.acts[i], db.acts[j])
  {
  }

  lemma SettleKeepsOrder(db: Db, adminID: int, scope: Scope, actID: int, now: int)
    requires DbOk(db, now) && SettledFirst(db)
    ensures SettledFirst(SettleThrough(db, adminID, scope, actID, now).0)
  {
    if actID in db.acts {
      var db' := SettleThrough(db, adminID, scope, actID, now).0;
      var anchor := db.acts[actID];
      forall i, j | Pair(db', i, j)
        ensures Before(db'.acts[i], db'.acts[j])
      {
        if db.acts[i].settled {
          assert Pair(db, i, j);
        } else {
          ClosedBeforeOpen(db, scope, anchor, i, j);
        }
      }
    }
  }

  lemma FinishCreateKeepsOrder(w: World, name: string, managerID: Option<int>, req: CreateReq, f: CreateFaults)
    requires Valid(w) && SettledFirst(w.db)
    ensures SettledFirst(FinishCreate(w, name, managerID, req, f).0.db)
  {
    hide DbOk, SettledFirst, FinishCreate, InsertMeta, DeleteMeta, Record;
    TailDb(w, name, managerID, req, f);
    var (db1, m) := InsertMeta(w.db, name, managerID, req.contact, req.notes);
    InsertMetaOk(w.db, name, managerID, req.contact, req.notes, w.now);
    InsertMetaKeepsOrder(w.db, name, managerID, req.contact, req.notes, w.now);
    if m.Some? {
      DeleteMetaKeepsOrder(db1, m.value, w.now);
      var profile := ProfileOf(w.cfg, req);
      RecordKeepsOrder(db1, AddUserProfile(w.router, name, profile, w.now).0, name, m.value, profile, req.sharedUsers,
                       f.rowsDown, f.activationDown, w.now);
    }
  }

  // ---------------------------------------------------------------- the one step that can break it

  /** The patch writes a manager id that moves the user's rows into another scope. */
  ghost predicate Moves(w: World, m: int, req: PatchReq, f: PatchFaults) {
    && PatchReaches(w, m, req, f) && !f.metaDown && req.syncManager.Some?
    && w.db.metas[m].managerID != req.syncManager
  }

  /** Rows of the moved user and rows already billed to the target fit together. */
  ghost predicate Interleaves(db: Db, m: int, target: Option<int>) {
    forall i, j :: i in db.acts && j in db.acts && db.acts[i].metaID == m && db.acts[j].metaID in db.metas &&
                   db.acts[j].metaID != m && BilledTo(db, j) == target ==>
      && (db.acts[i].settled && !db.acts[j].settled ==> Before(db.acts[i], db.acts[j]))
      && (db.acts[j].settled && !db.acts[i].settled ==> Before(db.acts[j], db.acts[i]))
  }

  ghost predicate ResyncGuard(w: World, e: Event) {
    e.EPatch? && Moves(w, e.m, e.patchReq, e.patchFaults) ==> Interleaves(w.db, e.m, e.patchReq.syncManager)
  }

  /** Before two users' ledgers meet in one scope. */
  lemma MoveNeedsInterleaving(db: Db, m: int, contact: Option<string>, notes: Option<string>, target: Option<int>,
                              now: int)
    requires DbOk(db, now) && SettledFirst(db)
    requires m in db.metas && target.Some? && db.metas[m].managerID != target && ManagerRefOk(db, target)
    ensures SettledFirst(UpdateMeta(db, m, contact, notes, target)) <==> Interleaves(db, m, target)
  {
    var db' := UpdateMeta(db, m, contact, notes, target);
    if Interleaves(db, m, target) {
      forall i, j | Pair(db', i, j)
        ensures Before(db'.acts[i], db'.acts[j])
      {
        if (db.acts[i].metaID == m) == (db.acts[j].metaID == m) {
          assert Pair(db, i, j);
        }
      }
    } else {
      var i, j :| i in db.acts && j in db.acts && db.acts[i].metaID == m && db.acts[j].metaID in db.metas &&
                  db.acts[j].metaID != m && BilledTo(db, j) == target &&
                  ((db.acts[i].settled && !db.acts[j].settled && !Before(db.acts[i], db.acts[j])) ||
                   (db.acts[j].settled && !db.acts[i].settled && !Before(db.acts[j], db.acts[i])));
      assert Pair(db', i, j) || Pair(db', j, i);
    }
  }

  /** The ledger between a patch's two database writes. */
  function AfterLedgerWrite(db: Db, m: int, req: PatchReq, f: PatchFaults): Db {
    if req.sharedUsers.Some? && !f.ledgerDown then UpdateNewest(db, m, req.sharedUsers.value) else db
  }

  lemma LedgerWriteOrder(db: Db, m: int, req: PatchReq, f: PatchFaults, now: int)
    requires DbOk(db, now) && SettledFirst(db)
    ensures var db1 := AfterLedgerWrite(db, m, req, f);
            && DbOk(db1, now) && SettledFirst(db1) && db1.metas == db.metas && db1.managers == db.managers
            && (Interleaves(db1, m, req.syncManager) <==> Interleaves(db, m, req.syncManager))
  {
    hide DbOk, SettledFirst, Interleaves, Newest;
    UpdateNewestOk(db, m, GetOr(req.sharedUsers, 0), now);
    KeepsOrder(db, AfterLedgerWrite(db, m, req, f));
    SameInterleaving(db, AfterLedgerWrite(db, m, req, f), m, req.syncManager);
  }

  lemma SameInterleaving(db: Db, db': Db, m: int, target: Option<int>)
    requires db'.metas == db.metas && db'.acts.Keys == db.acts.Keys
    requires forall i :: i in db.acts ==> db'.acts[i] == db.acts[i].(sharedUsers := db'.acts[i].sharedUsers)
    ensures Interleaves(db', m, target) <==> Interleaves(db, m, target)
  {
  }

  lemma PatchOrder(w: World, m: int, req: PatchReq, f: PatchFaults)
    requires Valid(w) && SettledFirst(w.db)
    ensures SettledFirst(Patch(w, m, req, f).0.db) <==>
              (Moves(w, m, req, f) ==> Interleaves(w.db, m, req.syncManager))
  {
    hide WellFormed, DbOk, SettledFirst, Interleaves, PatchRefusal, PatchedComment, UpdateNewest;
    var db1 := AfterLedgerWrite(w.db, m, req, f);
    LedgerWriteOrder(w.db, m, req, f, w.now);
    PatchAccepted(w, m, req, f);
    if Patch(w, m, req, f).1.Ok? {
      assert Patch(w, m, req, f).0.db == UpdateMeta(db1, m, req.contact, req.notes, req.syncManager);
      if Moves(w, m, req, f) {
        SyncRefOk(w, m, req, f);
        MoveNeedsInterleaving(db1, m, req.contact, req.notes, req.syncManager, w.now);
      } else {
        KeepsOrder(db1, UpdateMeta(db1, m, req.contact, req.notes, req.syncManager));
      }
    } else {
      assert Patch(w, m, req, f).0.db == db1 || Patch(w, m, req, f).0.db == w.db;
    }
  }

  lemma InfosIds(managers: seq<Manager>, id: int)
    ensures FindManager(managers, id).Some? <==> exists i :: 0 <= i < |managers| && Infos(managers)[i].id == id
  {
    if FindManager(managers, id).Some? {
      var i :| 0 <= i < |managers| && managers[i] == FindManager(managers, id).value;
      assert Infos(managers)[i].id == id;
    }
    forall i | 0 <= i < |managers| && Infos(managers)[i].id == id
      ensures FindManager(managers, id).Some?
    {
      assert managers[i] in managers;
    }
  }

  lemma RegistryOk(db: Db)
    requires ManagersOk(db)
    ensures IdsNonzero(Infos(db.managers)) && IdsDistinct(Infos(db.managers))
  {
  }

  /** The manager id a patch writes is the resolved owner's, so it refers to a manager. */
  lemma SyncRefOk(w: World, m: int, req: PatchReq, f: PatchFaults)
    requires Valid(w) && Patch(w, m, req, f).1.Ok? && req.syncManager.Some?
    ensures ManagerRefOk(w.db, req.syncManager)
  {
    var u := w.router.users[w.db.metas[m].name];
    RegistryOk(w.db);
    Quota.ResolveIsListed(Reg(w), u.name, u.comment);
    InfosIds(w.db.managers, req.syncManager.value);
  }

  lemma CreationOrder(w: World, e: Event)
    requires Valid(w) && SettledFirst(w.db) && (e.ECreate? || e.EOrphan?)
    ensures SettledFirst(Step(w, e).db)
  {
    hide SettledFirst, FinishCreate, AddReached, CreationName, CreationComment;
    CreationShape(w, e);
    if AddReached(w, e) {
      var name, comment, req := CreationName(w, e), CreationComment(w, e), e.createReq;
      AddUserKeeps(w.router, name, req.password.value, comment, req.sharedUsers, req.disabled);
      FinishCreateKeepsOrder(AfterAdd(w, name, comment, req), name, CreationOwner(e), req, e.createFaults);
    }
  }

  lemma AssignOrder(w: World, m: int, profile: string, f: AssignFaults)
    requires Valid(w) && SettledFirst(w.db)
    ensures SettledFirst(Assign(w, m, profile, f).0.db)
  {
    hide SettledFirst, Record, AddUserProfile;
    if OnRouter(w, m) {
      var u := w.router.users[w.db.metas[m].name];
      RecordKeepsOrder(w.db, AddUserProfile(w.router, u.name, profile, w.now).0, u.name, m, profile, u.sharedUsers,
                       f.rowsDown, f.activationDown, w.now);
    }
  }

  lemma DeleteOrder(w: World, m: int, removeDown: bool, metaDown: bool)
    requires Valid(w) && SettledFirst(w.db)
    ensures SettledFirst(Delete(w, m, removeDown, metaDown).0.db)
  {
    hide SettledFirst, DeleteMeta;
    DeleteMetaKeepsOrder(w.db, m, w.now);
  }

  lemma DeleteByNameOrder(w: World, name: string, removeDown: bool, metaDown: bool)
    requires Valid(w) && SettledFirst(w.db)
    ensures SettledFirst(DeleteByName(w, name, removeDown, metaDown).0.db)
  {
    hide SettledFirst, Delete;
    var m := MetaByName(w.db, name);
    if m.Some? {
      DeleteOrder(w, m.value, removeDown, metaDown);
    }
  }

  lemma AdoptOrder(w: World, name: string, asManager: Option<int>, getDown: bool, metaDown: bool)
    requires Valid(w) && SettledFirst(w.db)
    ensures SettledFirst(Adopt(w, name, asManager, getDown, metaDown).0.db)
  {
    hide SettledFirst, InsertMeta;
    if name in w.router.users {
      var u := w.router.users[name];
      InsertMetaKeepsOrder(w.db, name, OwnerRef(Resolve(Reg(w), u.name, u.comment)), None, None, w.now);
    }
  }

  lemma SettleOrder(w: World, adminID: int, scope: Scope, actID: int)
    requires Valid(w) && SettledFirst(w.db)
    ensures SettledFirst(Settle(w, adminID, scope, actID).0.db)
  {
    hide SettledFirst, SettleThrough;
    SettleKeepsOrder(w.db, adminID, scope, actID, w.now);
  }

  lemma HealOrder(w: World, f: Filter, pick: set<int>, lost: set<int>, listDown: bool)
    requires SettledFirst(w.db)
    ensures SettledFirst(Heal(w, f, pick, lost, listDown).0.db)
  {
    hide ValidPick;
    KeepsOrder(w.db, Heal(w, f, pick, lost, listDown).0.db);
  }

  /** Scopes and ledger are not touched. */
  lemma SameLedgerOrder(db: Db, db': Db)
    requires SettledFirst(db) && db'.metas == db.metas && db'.acts == db.acts
    ensures SettledFirst(db')
  {
    KeepsOrder(db, db');
  }

  /** Every step keeps settled rows first, exactly when a patch that moves a user to another scope fits its rows. */
  lemma StepOrder(w: World, e: Event)
    requires Valid(w) && SettledFirst(w.db)
    ensures SettledFirst(Step(w, e).db) <==> ResyncGuard(w, e)
  {
    hide Valid, SettledFirst, Moves, Interleaves, CreateVPN, CreateOrphan, Patch, Assign, Delete, DeleteByName, Adopt,
      Settle, Heal;
    match e
    case ECreate(_, _, _) => CreationOrder(w, e);
    case EOrphan(_, _) => CreationOrder(w, e);
    case EPatch(m, req, f) => PatchOrder(w, m, req, f);
    case EAssign(m, profile, f) => AssignOrder(w, m, profile, f);
    case ERemoveRow(_, _) => SameLedgerOrder(w.db, Step(w, e).db);
    case EDelete(m, removeDown, metaDown) => DeleteOrder(w, m, removeDown, metaDown);
    case EDeleteByName(name, removeDown, metaDown) => DeleteByNameOrder(w, name, removeDown, metaDown);
    case EAdopt(name, asManager, getDown, metaDown) => AdoptOrder(w, name, asManager, getDown, metaDown);
    case ESettle(adminID, scope, actID) => SettleOrder(w, adminID, scope, actID);
    case EManager(_, _, _, _) => SameLedgerOrder(w.db, Step(w, e).db);
    case EQuota(_, _, _) => SameLedgerOrder(w.db, Step(w, e).db);
    case EHeal(f, pick, lost, down) => HealOrder(w, f, pick, lost, down);
    case ETick(_) =>
    case EOutside(_) =>
  }

  ghost predicate GuardedRun(w: World, es: seq<Event>)
    decreases |es|
  {
    es == [] || (ResyncGuard(w, es[0]) && GuardedRun(Step(w, es[0]), es[1..]))
  }

  /** Over every run whose patches pass the guard, settled rows precede unsettled ones in every scope. */
  lemma {:induction false} SettledRowsFirst(w: World, es: seq<Event>)
    requires Valid(w) && SettledFirst(w.db) && GuardedRun(w, es)
    ensures SettledFirst(Run(w, es).db)
    decreases |es|
  {
    if es != [] {
      StepOrder(w, es[0]);
      StepValid(w, es[0]);
      SettledRowsFirst(Step(w, es[0]), es[1..]);
    }
  }
}
