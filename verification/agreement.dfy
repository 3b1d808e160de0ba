/** The current row of every user's ledger follows the router, over every run of panel steps. */
module Agreement {
  import opened Models
  import opened Router
  import opened Tables
  import opened Steps
  import opened Acceptance

  /** Each router user's newest unsettled row holds exactly the router's shared users. */
  ghost predicate Agree(w: World) {
    forall m, i :: OnRouter(w, m) && Newest(w.db, m, i) ==>
      w.db.acts[i].sharedUsers == w.router.users[w.db.metas[m].name].sharedUsers
  }

  // ---------------------------------------------------------------- how statements move the newest row

  /** Rows of one user that look alike have the same newest row. */
  lemma SameNewest(db: Db, db': Db, m: int, i: int)
    requires forall k :: UnsettledOf(db', m, k) <==> UnsettledOf(db, m, k)
    requires forall k :: UnsettledOf(db', m, k) && UnsettledOf(db, m, k) ==>
               db'.acts[k].createdAt == db.acts[k].createdAt && db'.acts[k].id == db.acts[k].id
    ensures Newest(db', m, i) <==> Newest(db, m, i)
  {
    if Newest(db', m, i) {
      forall j | j in db.acts && UnsettledOf(db, m, j) && j != i
        ensures Before(db.acts[j], db.acts[i])
      {
        assert UnsettledOf(db', m, j);
      }
    }
    if Newest(db, m, i) {
      forall j | j in db'.acts && UnsettledOf(db', m, j) && j != i
        ensures Before(db'.acts[j], db'.acts[i])
      {
        assert UnsettledOf(db, m, j);
      }
    }
  }

  lemma NewestUnique(db: Db, m: int, i: int, j: int)
    requires Newest(db, m, j)
    ensures Newest(db, m, i) ==> i == j
  {
  }

  /** A recorded activation is its user's newest row; other users' rows do not notice. */
  lemma RecordNewest(db: Db, r: RouterState, name: string, m: int, profile: string, shared: int, rowsDown: bool,
                     activationDown: bool, now: int, n: int, i: int)
    requires DbOk(db, now)
    ensures var db' := Record(db, r, name, m, profile, shared, rowsDown, activationDown, now);
            && db'.metas == db.metas
            && (Newest(db', n, i) ==>
                  if n == m && db' != db then db'.acts[i].sharedUsers == shared
                  else Newest(db, n, i) && db'.acts[i] == db.acts[i])
  {
    var db' := Record(db, r, name, m, profile, shared, rowsDown, activationDown, now);
    if db' != db {
      if n == m {
        assert Newest(db', m, db.nextActID);
        NewestUnique(db', m, i, db.nextActID);
      } else {
        SameNewest(db, db', n, i);
      }
    }
  }

  /** A settlement closes a user's newest row only together with all of the user's older ones. */
  lemma SettleNewest(db: Db, adminID: int, scope: Scope, actID: int, now: int, m: int, i: int)
    requires DbOk(db, now)
    ensures var db' := SettleThrough(db, adminID, scope, actID, now).0;
            Newest(db', m, i) ==> Newest(db, m, i) && db'.acts[i] == db.acts[i]
  {
    var db' := SettleThrough(db, adminID, scope, actID, now).0;
    if Newest(db', m, i) && db' != db {
      forall j | j in db.acts && UnsettledOf(db, m, j) && j != i
        ensures Before(db.acts[j], db.acts[i])
      {
        if !UnsettledOf(db', m, j) {
          assert ToSettle(db, scope, db.acts[actID], j) && !ToSettle(db, scope, db.acts[actID], i);
        } else {
          assert Before(db'.acts[j], db'.acts[i]);
        }
      }
    }
  }

  lemma UpdateNewestNewest(db: Db, m: int, shared: int, n: int, i: int)
    ensures Newest(UpdateNewest(db, m, shared), n, i) <==> Newest(db, n, i)
    ensures Newest(db, n, i) ==>
              UpdateNewest(db, m, shared).acts[i].sharedUsers ==
                if n == m && shared > 0 then shared else db.acts[i].sharedUsers
  {
    SameNewest(db, UpdateNewest(db, m, shared), n, i);
    if Newest(db, n, i) && n != m {
      assert db.acts[i].metaID == n;
    }
  }

  lemma NoRowsNoNewest(db: Db, m: int, i: int, now: int)
    requires DbOk(db, now) && m !in db.metas
    ensures !Newest(db, m, i)
  {
  }

  // ---------------------------------------------------------------- creation

  /** A row that survived an earlier user of this name happens to hold the new user's value. */
  ghost predicate StaleRowsFit(db: Db, name: string, shared: int) {
    forall m, i :: MetaNamed(db, m, name) && Newest(db, m, i) ==> db.acts[i].sharedUsers == shared
  }

  /** The world after the router's AddUser. */
  ghost predicate Added(w: World, w1: World, name: string, shared: int) {
    && name !in w.router.users && name in w1.router.users && w1.router.users[name].sharedUsers == shared
    && w1.router.users == w.router.users[name := w1.router.users[name]]
    && w1.db == w.db && w1.now == w.now && w1.cfg == w.cfg
  }

  /**
   * The tail keeps agreement unless the compensating call fails over stale rows of another value; such rows make the
   * insert clash, so the creation is refused for certain.
   */
  lemma FinishCreateAgrees(w: World, w1: World, name: string, managerID: Option<int>, req: CreateReq, f: CreateFaults)
    requires Valid(w) && Valid(w1) && Agree(w) && Added(w, w1, name, req.sharedUsers)
    ensures var w2 := FinishCreate(w1, name, managerID, req, f).0;
            Agree(w2) <==> (f.undoUserDown ==> StaleRowsFit(w.db, name, req.sharedUsers))
  {
    var (w2, reply) := FinishCreate(w1, name, managerID, req, f);
    TailAccepted(w1, name, managerID, req, f);
    if reply.Ok? {
      CreatedAgrees(w, w1, name, managerID, req, f);
      assert forall m :: m in w.db.metas ==> !MetaNamed(w.db, m, name);
    } else {
      RefusedLedger(w1, name, managerID, req, f);
      if f.undoUserDown {
        LeftBehindAgrees(w, w2, name, req.sharedUsers);
      } else {
        assert w2.router.users == w.router.users;
        SameLedgerAgrees(w, w2);
      }
    }
  }

  /** The database differs at most in user rows that have no activations. */
  ghost predicate SameLedger(db: Db, db': Db) {
    && db'.acts == db.acts
    && (forall m :: m in db.metas ==> m in db'.metas && db'.metas[m] == db.metas[m])
    && (forall m, i :: m in db'.metas && m !in db.metas ==> !UnsettledOf(db, m, i))
  }

  lemma RefusedLedger(w: World, name: string, managerID: Option<int>, req: CreateReq, f: CreateFaults)
    requires Valid(w) && FinishCreate(w, name, managerID, req, f).1.Refused?
    ensures var w2 := FinishCreate(w, name, managerID, req, f).0;
            && SameLedger(w.db, w2.db)
            && w2.router == if f.undoUserDown then w.router else RemoveUser(w.router, name).0
  {
    hide WellFormed, NameKnown, ManagerRefOk, AddUserProfile, RemoveUser, Record;
    var (db1, m) := InsertMeta(w.db, name, managerID, req.contact, req.notes);
    if m.Some? {
      assert forall i :: i in w.db.acts ==> w.db.acts[i].metaID in w.db.metas && w.db.acts[i].metaID != m.value;
      assert DeleteMeta(db1, m.value).acts == w.db.acts;
      assert DeleteMeta(db1, m.value).metas == w.db.metas;
    }
  }

  lemma SameLedgerNewest(db: Db, db': Db, m: int, i: int)
    requires SameLedger(db, db')
    ensures Newest(db', m, i) <==> Newest(db, m, i)
  {
    SameNewest(db, db', m, i);
  }

  lemma SameLedgerAgrees(w: World, w': World)
    requires Agree(w) && SameLedger(w.db, w'.db) && w'.router.users == w.router.users
    ensures Agree(w')
  {
    forall m, i | OnRouter(w', m) && Newest(w'.db, m, i)
      ensures w'.db.acts[i].sharedUsers == w'.router.users[w'.db.metas[m].name].sharedUsers
    {
      SameLedgerNewest(w.db, w'.db, m, i);
      assert UnsettledOf(w.db, m, i);
      assert OnRouter(w, m);
    }
  }

  lemma LeftBehindAgrees(w: World, w': World, name: string, shared: int)
    requires Agree(w) && SameLedger(w.db, w'.db)
    requires name !in w.router.users && name in w'.router.users && w'.router.users[name].sharedUsers == shared
    requires w'.router.users == w.router.users[name := w'.router.users[name]]
    ensures Agree(w') <==> StaleRowsFit(w.db, name, shared)
  {
    forall m, i
      ensures Newest(w'.db, m, i) <==> Newest(w.db, m, i)
    {
      SameLedgerNewest(w.db, w'.db, m, i);
    }
    if StaleRowsFit(w.db, name, shared) {
      forall m, i | OnRouter(w', m) && Newest(w'.db, m, i)
        ensures w'.db.acts[i].sharedUsers == w'.router.users[w'.db.metas[m].name].sharedUsers
      {
        assert UnsettledOf(w.db, m, i);
        if w.db.metas[m].name == name {
          assert MetaNamed(w.db, m, name);
        } else {
          assert OnRouter(w, m);
        }
      }
    }
    if Agree(w') {
      forall m, i | MetaNamed(w.db, m, name) && Newest(w.db, m, i)
        ensures w.db.acts[i].sharedUsers == shared
      {
        assert OnRouter(w', m) && Newest(w'.db, m, i);
      }
    }
  }

  lemma CreatedAgrees(w: World, w1: World, name: string, managerID: Option<int>, req: CreateReq, f: CreateFaults)
    requires Valid(w) && Valid(w1) && Agree(w) && Added(w, w1, name, req.sharedUsers)
    requires FinishCreate(w1, name, managerID, req, f).1.Ok?
    ensures Agree(FinishCreate(w1, name, managerID, req, f).0)
  {
    var w2 := FinishCreate(w1, name, managerID, req, f).0;
    var (db1, m) := InsertMeta(w1.db, name, managerID, req.contact, req.notes);
    InsertMetaOk(w1.db, name, managerID, req.contact, req.notes, w.now);
    var profile := ProfileOf(w1.cfg, req);
    var r2 := AddUserProfile(w1.router, name, profile, w1.now).0;
    forall n, i | OnRouter(w2, n) && Newest(w2.db, n, i)
      ensures w2.db.acts[i].sharedUsers == w2.router.users[w2.db.metas[n].name].sharedUsers
    {
      if req.assign {
        RecordNewest(db1, r2, name, m.value, profile, req.sharedUsers, f.rowsDown, f.activationDown, w1.now, n, i);
      }
      if n == m.value {
        assert w2.db.metas[n].name == name;
        SameNewest(w.db, db1, n, i);
        NoRowsNoNewest(w.db, n, i, w.now);
      } else {
        SameNewest(w.db, db1, n, i);
        assert w2.db.metas[n] == w.db.metas[n];
        assert MetaNamed(w.db, n, w.db.metas[n].name);
        assert OnRouter(w, n);
      }
    }
  }

  // ---------------------------------------------------------------- patching

  /** The ledger write goes through, or there is nothing to write. */
  ghost predicate PatchKeepsUp(w: World, m: int, req: PatchReq, f: PatchFaults) {
    PatchReaches(w, m, req, f) && req.sharedUsers.Some? ==>
      forall i :: Newest(w.db, m, i) ==>
        (req.sharedUsers.value > 0 && !f.ledgerDown) || req.sharedUsers.value == w.db.acts[i].sharedUsers
  }

  lemma PatchAgrees(w: World, m: int, req: PatchReq, f: PatchFaults)
    requires Valid(w) && Agree(w)
    ensures Agree(Patch(w, m, req, f).0) <==> PatchKeepsUp(w, m, req, f)
  {
    if PatchReaches(w, m, req, f) {
      var u := w.router.users[w.db.metas[m].name];
      var w' := Patch(w, m, req, f).0;
      assert w'.router == SetUser(w.router, u.name, req.password, req.sharedUsers, PatchedComment(w, u),
                                  req.disabled).0;
      var written := req.sharedUsers.Some? && !f.ledgerDown && req.sharedUsers.value > 0;
      forall n, i
        ensures OnRouter(w', n) <==> OnRouter(w, n)
        ensures n in w.db.metas ==> n in w'.db.metas && w'.db.metas[n].name == w.db.metas[n].name
        ensures Newest(w'.db, n, i) <==> Newest(w.db, n, i)
        ensures Newest(w.db, n, i) ==>
                  w'.db.acts[i].sharedUsers ==
                    if n == m && written then req.sharedUsers.value else w.db.acts[i].sharedUsers
      {
        PatchRows(w, m, u, req, f, n, i);
      }
      forall n | OnRouter(w, n)
        ensures w'.router.users[w.db.metas[n].name].sharedUsers ==
                  if n == m then GetOr(req.sharedUsers, u.sharedUsers)
                  else w.router.users[w.db.metas[n].name].sharedUsers
      {
      }
      if Agree(w') {
        forall i | Newest(w.db, m, i) && req.sharedUsers.Some?
          ensures written || req.sharedUsers.value == w.db.acts[i].sharedUsers
        {
          assert OnRouter(w', m) && Newest(w'.db, m, i);
        }
      }
    }
  }

  lemma PatchRows(w: World, m: int, u: User, req: PatchReq, f: PatchFaults, n: int, i: int)
    requires Valid(w) && m in w.db.metas && u.name in w.router.users
    ensures var w' := PatchWrites(w, m, u, req, f).0;
            var written := req.sharedUsers.Some? && !f.ledgerDown && req.sharedUsers.value > 0;
            && (OnRouter(w', n) <==> OnRouter(w, n))
            && (n in w.db.metas ==> n in w'.db.metas && w'.db.metas[n].name == w.db.metas[n].name)
            && (Newest(w'.db, n, i) <==> Newest(w.db, n, i))
            && (Newest(w.db, n, i) ==>
                  w'.db.acts[i].sharedUsers ==
                    if n == m && written then req.sharedUsers.value else w.db.acts[i].sharedUsers)
  {
    var w' := PatchWrites(w, m, u, req, f).0;
    var db1 := if req.sharedUsers.Some? && !f.ledgerDown then UpdateNewest(w.db, m, req.sharedUsers.value) else w.db;
    UpdateNewestNewest(w.db, m, GetOr(req.sharedUsers, 0), n, i);
    assert w'.db.acts == db1.acts;
    SameNewest(db1, w'.db, n, i);
  }

  // ---------------------------------------------------------------- the other steps

  lemma AssignAgrees(w: World, m: int, profile: string, f: AssignFaults)
    requires Valid(w) && Agree(w)
    ensures Agree(Assign(w, m, profile, f).0)
  {
    var w' := Assign(w, m, profile, f).0;
    if Assign(w, m, profile, f).1.Ok? {
      var u := w.router.users[w.db.metas[m].name];
      var r1 := AddUserProfile(w.router, u.name, profile, w.now).0;
      forall n, i | OnRouter(w', n) && Newest(w'.db, n, i)
        ensures w'.db.acts[i].sharedUsers == w'.router.users[w'.db.metas[n].name].sharedUsers
      {
        RecordNewest(w.db, r1, u.name, m, profile, u.sharedUsers, f.rowsDown, f.activationDown, w.now, n, i);
        assert OnRouter(w, n);
      }
    }
  }

  lemma FewerUsersAgree(w: World, w': World)
    requires Agree(w) && w'.db == w.db
    requires forall name :: name in w'.router.users ==>
               name in w.router.users && w'.router.users[name].sharedUsers == w.router.users[name].sharedUsers
    ensures Agree(w')
  {
    assert forall m :: OnRouter(w', m) ==> OnRouter(w, m);
  }

  lemma DeleteAgrees(w: World, m: int, removeDown: bool, metaDown: bool)
    requires Valid(w) && Agree(w)
    ensures Agree(Delete(w, m, removeDown, metaDown).0)
  {
    var w' := Delete(w, m, removeDown, metaDown).0;
    forall n, i | OnRouter(w', n) && Newest(w'.db, n, i)
      ensures w'.db.acts[i].sharedUsers == w'.router.users[w'.db.metas[n].name].sharedUsers
    {
      assert OnRouter(w, n);
      if w'.db != w.db {
        assert n != m;
        SameNewest(w.db, w'.db, n, i);
      }
    }
  }

  lemma SettleAgrees(w: World, adminID: int, scope: Scope, actID: int)
    requires Valid(w) && Agree(w)
    ensures Agree(Settle(w, adminID, scope, actID).0)
  {
    var w' := Settle(w, adminID, scope, actID).0;
    forall m, i | OnRouter(w', m) && Newest(w'.db, m, i)
      ensures w'.db.acts[i].sharedUsers == w'.router.users[w'.db.metas[m].name].sharedUsers
    {
      SettleNewest(w.db, adminID, scope, actID, w.now, m, i);
      assert OnRouter(w, m);
    }
  }

  /** Healing never harms a current row, whatever the filter and however ties are broken. */
  lemma HealAgrees(w: World, pick: set<int>, lost: set<int>)
    requires Valid(w) && Agree(w)
    ensures Agree(HealRows(w, pick, lost))
  {
    var w' := HealRows(w, pick, lost);
    forall m, i | OnRouter(w', m) && Newest(w'.db, m, i)
      ensures w'.db.acts[i].sharedUsers == w'.router.users[w'.db.metas[m].name].sharedUsers
    {
      SameNewest(w.db, w'.db, m, i);
      assert OnRouter(w, m);
    }
  }

  // ---------------------------------------------------------------- every step, every run

  lemma DeleteByNameAgrees(w: World, name: string, removeDown: bool, metaDown: bool)
    requires Valid(w) && Agree(w)
    ensures Agree(DeleteByName(w, name, removeDown, metaDown).0)
  {
    hide Agree, Valid, Delete;
    var m := MetaByName(w.db, name);
    if m.Some? {
      DeleteAgrees(w, m.value, removeDown, metaDown);
    } else {
      FewerUsersAgree(w, DeleteByName(w, name, removeDown, metaDown).0);
    }
  }

  lemma AdoptAgrees(w: World, name: string, asManager: Option<int>, getDown: bool, metaDown: bool)
    requires Valid(w) && Agree(w)
    ensures Agree(Adopt(w, name, asManager, getDown, metaDown).0)
  {
    hide Agree;
    SameLedgerAgrees(w, Adopt(w, name, asManager, getDown, metaDown).0);
  }

  lemma RemoveRowAgrees(w: World, rowID: string, down: bool)
    requires Agree(w)
    ensures Agree(RemoveRow(w, rowID, down).0)
  {
    hide Agree;
    FewerUsersAgree(w, RemoveRow(w, rowID, down).0);
  }

  lemma CreateManagerAgrees(w: World, username: string, slug: string, quota: int, slugsListed: bool)
    requires Agree(w)
    ensures Agree(CreateManager(w, username, slug, quota, slugsListed).0)
  {
    hide Agree;
    SameLedgerAgrees(w, CreateManager(w, username, slug, quota, slugsListed).0);
  }

  lemma PatchQuotaAgrees(w: World, id: int, quota: int, usageDown: bool)
    requires Agree(w)
    ensures Agree(PatchQuota(w, id, quota, usageDown).0)
  {
    hide Agree;
    SameLedgerAgrees(w, PatchQuota(w, id, quota, usageDown).0);
  }

  lemma HealStepAgrees(w: World, f: Filter, pick: set<int>, lost: set<int>, listDown: bool)
    requires Valid(w) && Agree(w)
    ensures Agree(Heal(w, f, pick, lost, listDown).0)
  {
    hide Agree, Valid, HealRows, ValidPick;
    HealAgrees(w, pick, lost);
  }

  // ---------------------------------------------------------------- every step, every run

  /** What a step needs to keep the ledger following the router; most need nothing. */
  ghost predicate LedgerGuard(w: World, e: Event) {
    match e
    case ECreate(_, _, _) => CreationGuard(w, e)
    case EOrphan(_, _) => CreationGuard(w, e)
    case EPatch(m, req, f) => PatchKeepsUp(w, m, req, f)
    case _ => true
  }

  /** A creation that gets past the router's AddUser and cannot take the user back must not meet stale rows. */
  ghost predicate CreationGuard(w: World, e: Event)
    requires e.ECreate? || e.EOrphan?
  {
    AddReached(w, e) && e.createFaults.undoUserDown ==> StaleRowsFit(w.db, CreationName(w, e), e.createReq.sharedUsers)
  }

  lemma CreateAgrees(w: World, e: Event)
    requires Valid(w) && Agree(w) && (e.ECreate? || e.EOrphan?)
    ensures Agree(Step(w, e)) <==> CreationGuard(w, e)
  {
    hide Agree, StaleRowsFit, FinishCreate, CreationName, CreationComment;
    CreationShape(w, e);
    if AddReached(w, e) {
      var name, req := CreationName(w, e), e.createReq;
      var w1 := AfterAdd(w, name, CreationComment(w, e), req);
      AddUserKeeps(w.router, name, req.password.value, CreationComment(w, e), req.sharedUsers, req.disabled);
      FinishCreateAgrees(w, w1, name, CreationOwner(e), req, e.createFaults);
    }
  }

  /**
   * Every panel step keeps the ledger following the router exactly when its guard holds: a patch whose ledger
   * write fails or is not positive breaks it, and so can a creation whose compensation fails; nothing else can.
   */
  lemma StepAgrees(w: World, e: Event)
    requires Valid(w) && Agree(w) && !e.EOutside?
    ensures Agree(Step(w, e)) <==> LedgerGuard(w, e)
  {
    hide Agree, Valid, CreationGuard, PatchKeepsUp, Patch, Assign, RemoveRow, Delete, DeleteByName, Adopt, Settle,
      CreateManager, PatchQuota, Heal;
    match e
    case ECreate(_, _, _) => CreateAgrees(w, e);
    case EOrphan(_, _) => CreateAgrees(w, e);
    case EPatch(m, req, f) => PatchAgrees(w, m, req, f);
    case EAssign(m, profile, f) => AssignAgrees(w, m, profile, f);
    case ERemoveRow(rowID, down) => RemoveRowAgrees(w, rowID, down);
    case EDelete(m, removeDown, metaDown) => DeleteAgrees(w, m, removeDown, metaDown);
    case EDeleteByName(name, removeDown, metaDown) => DeleteByNameAgrees(w, name, removeDown, metaDown);
    case EAdopt(name, asManager, getDown, metaDown) => AdoptAgrees(w, name, asManager, getDown, metaDown);
    case ESettle(adminID, scope, actID) => SettleAgrees(w, adminID, scope, actID);
    case EManager(username, slug, quota, listed) => CreateManagerAgrees(w, username, slug, quota, listed);
    case EQuota(id, quota, down) => PatchQuotaAgrees(w, id, quota, down);
    case EHeal(f, pick, lost, down) => HealStepAgrees(w, f, pick, lost, down);
    case ETick(_) => FewerUsersAgree(w, Step(w, e));
  }

  ghost predicate GuardedStep(w: World, e: Event) {
    !e.EOutside? && LedgerGuard(w, e)
  }

  ghost predicate GuardedRun(w: World, es: seq<Event>)
    decreases |es|
  {
    if es == [] then true else GuardedStep(w, es[0]) && GuardedRun(Step(w, es[0]), es[1..])
  }

  /** In every world a guarded run of panel steps reaches, the ledger follows the router. */
  lemma {:induction false} LedgerFollowsRouter(w: World, es: seq<Event>)
    requires Valid(w) && Agree(w)
    ensures GuardedRun(w, es) ==> Agree(Run(w, es))
    decreases |es|
  {
    if es != [] && GuardedRun(w, es) {
      StepAgrees(w, es[0]);
      StepValid(w, es[0]);
      LedgerFollowsRouter(Step(w, es[0]), es[1..]);
    }
  }

  /** Patches with positive values that reach the ledger, and creations whose compensation works, meet the guard. */
  predicate Orderly(e: Event) {
    match e
    case ECreate(_, _, f) => !f.undoUserDown
    case EOrphan(_, f) => !f.undoUserDown
    case EPatch(_, req, f) => (req.sharedUsers.Some? ==> req.sharedUsers.value > 0) && !f.ledgerDown
    case EOutside(_) => false
    case _ => true
  }

  /** From an empty panel, every run of orderly steps leaves the ledger following the router. */
  lemma {:induction false} OrderlyRunsAgree(w: World, es: seq<Event>)
    requires Valid(w) && Agree(w) && forall e :: e in es ==> Orderly(e)
    ensures Agree(Run(w, es))
    decreases |es|
  {
    if es != [] {
      var e := es[0];
      assert Orderly(e);
      StepAgrees(w, e);
      StepValid(w, e);
      OrderlyRunsAgree(Step(w, e), es[1..]);
    }
  }
}
