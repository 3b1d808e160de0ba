/** The creation saga: router user, certificate, database row, profile; a failed creation is undone. */
module Saga {
  import opened Models
  import opened Router
  import opened Tables
  import opened Steps
  import opened Acceptance
  import Agreement

  /** Router users, profile rows and every table are as before; only id counters may have moved. */
  ghost predicate Restored(w: World, w': World) {
    && w'.router.users == w.router.users && w'.router.profiles == w.router.profiles
    && w'.db.managers == w.db.managers && w'.db.metas == w.db.metas && w'.db.acts == w.db.acts
    && w'.now == w.now
  }

  /**
   * The tail after a refusal: the user is gone unless its removal failed, and a row is left only if its deletion
   * failed.
   */
  lemma RefusedTail(w: World, name: string, comment: string, managerID: Option<int>, req: CreateReq, f: CreateFaults)
    requires Valid(w) && name !in w.router.users && req.password.Some?
    requires FinishCreate(AfterAdd(w, name, comment, req), name, managerID, req, f).1.Refused?
    ensures var w2 := FinishCreate(AfterAdd(w, name, comment, req), name, managerID, req, f).0;
            && (!f.undoUserDown ==> w2.router.users == w.router.users)
            && (f.undoUserDown ==> w2.router == AfterAdd(w, name, comment, req).router)
            && w2.router.profiles == w.router.profiles
            && w2.db.managers == w.db.managers && w2.db.acts == w.db.acts && w2.now == w.now
            && (!f.undoMetaDown ==> w2.db.metas == w.db.metas)
            && w2.db.metas - {w.db.nextMetaID} == w.db.metas
  {
    var w1 := AfterAdd(w, name, comment, req);
    AddUserKeeps(w.router, name, req.password.value, comment, req.sharedUsers, req.disabled);
    assert name !in w.router.profiles;
    assert RemoveUser(w1.router, name).0.users == w.router.users;
    assert RemoveUser(w1.router, name).0.profiles == w.router.profiles;
    Agreement.RefusedLedger(w1, name, managerID, req, f);
    var (db1, m) := InsertMeta(w.db, name, managerID, req.contact, req.notes);
    assert w.db.nextMetaID !in w.db.metas;
    assert w.db.metas - {w.db.nextMetaID} == w.db.metas;
    if m.Some? {
      assert DeleteMeta(db1, m.value).metas == w.db.metas;
      assert db1.metas - {w.db.nextMetaID} == w.db.metas;
    }
  }

  /**
   * A creation that fails at any point after the router accepted the user is undone when the compensating calls
   * succeed: users, profile rows and every table equal the state before.
   */
  lemma FailedCreationUndone(w: World, e: Event)
    requires Valid(w) && (e.ECreate? || e.EOrphan?) && Respond(w, e).1.Refused?
    requires !e.createFaults.undoUserDown && !e.createFaults.undoMetaDown
    ensures Restored(w, Step(w, e))
  {
    hide AfterAdd, FinishCreate, AddReached, CreationName, CreationComment;
    CreationShape(w, e);
    if AddReached(w, e) {
      RefusedTail(w, CreationName(w, e), CreationComment(w, e), CreationOwner(e), e.createReq, e.createFaults);
    }
  }

  /**
   * Whatever fails, compensation included, no creation touches a user, or the rows of a user, that was there before.
   */
  lemma CreationSparesOthers(w: World, e: Event, name: string)
    requires Valid(w) && (e.ECreate? || e.EOrphan?) && name in w.router.users
    ensures var w' := Step(w, e);
            && name in w'.router.users && w'.router.users[name] == w.router.users[name]
            && Rows(w'.router, name) == Rows(w.router, name)
            && (name == CreationName(w, e) ==> w' == w && Respond(w, e).1.Refused?)
  {
    hide AddReached, CreationName, CreationComment;
    CreationShape(w, e);
    if AddReached(w, e) {
      var w1 := AfterAdd(w, CreationName(w, e), CreationComment(w, e), e.createReq);
      assert name != CreationName(w, e);
      TailSparesOthers(w1, CreationName(w, e), CreationOwner(e), e.createReq, e.createFaults, name);
    }
  }

  lemma TailSparesOthers(w: World, created: string, managerID: Option<int>, req: CreateReq, f: CreateFaults,
                         name: string)
    requires name in w.router.users && name != created
    ensures var w' := FinishCreate(w, created, managerID, req, f).0;
            && name in w'.router.users && w'.router.users[name] == w.router.users[name]
            && Rows(w'.router, name) == Rows(w.router, name)
  {
    hide FinishCreate;
    TailShape(w, created, managerID, req, f);
  }

  /**
   * The restore of profile rows rests on the router's invariant: without it, exactly the rows that were already
   * filed under the new name are lost.
   */
  lemma RestoreNeedsNoStrayRows(w: World, name: string, comment: string, managerID: Option<int>, req: CreateReq,
                                f: CreateFaults)
    requires name !in w.router.users && req.password.Some? && f.certFails && !f.undoUserDown
    ensures var w2 := FinishCreate(AfterAdd(w, name, comment, req), name, managerID, req, f).0;
            w2.router.users == w.router.users &&
            (w2.router.profiles == w.router.profiles <==> name !in w.router.profiles)
  {
    var r2 := FinishCreate(AfterAdd(w, name, comment, req), name, managerID, req, f).0.router;
    assert r2.users == w.router.users;
    assert r2.profiles == w.router.profiles - {name};
    if name in w.router.profiles {
      assert name !in r2.profiles;
    }
  }

  /** The creation was refused but its router user is still there. */
  ghost predicate LeftBehind(w: World, e: Event) {
    && Respond(w, e).1.Refused? && CreationName(w, e) !in w.router.users
    && CreationName(w, e) in Step(w, e).router.users
  }

  /**
   * A creation leaves its user behind exactly when it got past AddUser, failed later, and could not take the user
   * back; such a user has no profile rows and so no active profile.
   */
  lemma LeftBehindExactly(w: World, e: Event)
    requires Valid(w) && (e.ECreate? || e.EOrphan?)
    ensures LeftBehind(w, e) <==> AddReached(w, e) && !CreateAccepted(w, e) && e.createFaults.undoUserDown
    ensures LeftBehind(w, e) ==> CreationName(w, e) !in Step(w, e).router.profiles
  {
    hide FinishCreate, AddReached, CreationName, CreationComment, TailPasses;
    CreationShape(w, e);
    CreationAccepted(w, e);
    if AddReached(w, e) && !CreateAccepted(w, e) {
      RefusedTail(w, CreationName(w, e), CreationComment(w, e), CreationOwner(e), e.createReq, e.createFaults);
      assert CreationName(w, e) !in w.router.profiles;
    }
  }

  /** The user and the row of metadata of a successful creation, as requested. */
  ghost predicate CreatedTogether(w: World, w': World, m: int, name: string, comment: string, managerID: Option<int>,
                                  req: CreateReq) {
    && m == w.db.nextMetaID && m !in w.db.metas && m in w'.db.metas
    && w'.db.metas[m] == Meta(m, name, managerID, req.contact, req.notes) && w'.db.metas - {m} == w.db.metas
    && name !in w.router.users && name in w'.router.users && w'.router.users - {name} == w.router.users
    && var u := w'.router.users[name];
       && u.name == name && Some(u.password) == req.password && u.comment == comment
       && u.sharedUsers == req.sharedUsers && u.disabled == req.disabled
  }

  /** With a profile, the user's only row is an active one of the requested profile, else the default, for 30 days. */
  ghost predicate CreatedRow(w: World, w': World, name: string, req: CreateReq) {
    var rows := Rows(w'.router, name);
    && (!req.assign ==> rows == [])
    && (req.assign ==>
          && |rows| == 1 && rows[0].user == name && rows[0].state == "active"
          && rows[0].endTime == Some(w.now + 2592000)
          && (req.profileName.Some? && req.profileName.value != "" ==> rows[0].profile == req.profileName.value)
          && (req.profileName.None? || req.profileName.value == "" ==> rows[0].profile == w.cfg.defaultProfile))
  }

  /** The creation's ledger: nothing without a profile, otherwise one unsettled row of what was assigned. */
  ghost predicate CreatedLedger(w: World, db': Db, m: int, req: CreateReq, f: CreateFaults) {
    if req.assign && !f.activationDown then
      var i := w.db.nextActID;
      && i in db'.acts && db'.acts - {i} == w.db.acts && Newest(db', m, i)
      && var a := db'.acts[i];
         && a.id == i && a.sharedUsers == req.sharedUsers && a.createdAt == w.now
         && a.settledAt == a.settledBy == None && a.endTime == (if f.rowsDown then None else Some(w.now + 2592000))
         && (req.profileName.Some? && req.profileName.value != "" ==> a.profile == req.profileName.value)
         && (req.profileName.None? || req.profileName.value == "" ==> a.profile == w.cfg.defaultProfile)
    else db'.acts == w.db.acts
  }

  /** A successful creation leaves both stores with the same user, the same value, the right scope and the profile. */
  lemma CreationOutcome(w: World, e: Event)
    requires Valid(w) && (e.ECreate? || e.EOrphan?) && Respond(w, e).1.Ok?
    ensures var w', m := Step(w, e), Respond(w, e).1.id;
            && CreatedTogether(w, w', m, CreationName(w, e), CreationComment(w, e), CreationOwner(e), e.createReq)
            && CreatedRow(w, w', CreationName(w, e), e.createReq)
            && CreatedLedger(w, w'.db, m, e.createReq, e.createFaults)
  {
    hide CreatedTogether, CreatedRow, CreatedLedger, AddReached, FinishCreate, CreationName, CreationComment;
    CreationShape(w, e);
    TailOutcome(w, CreationName(w, e), CreationComment(w, e), CreationOwner(e), e.createReq, e.createFaults);
  }

  lemma TailOutcome(w: World, name: string, comment: string, managerID: Option<int>, req: CreateReq, f: CreateFaults)
    requires Valid(w) && name !in w.router.users && req.password.Some? && 1 <= req.sharedUsers
    requires FinishCreate(AfterAdd(w, name, comment, req), name, managerID, req, f).1.Ok?
    ensures var (w', reply) := FinishCreate(AfterAdd(w, name, comment, req), name, managerID, req, f);
            && CreatedTogether(w, w', reply.id, name, comment, managerID, req) && CreatedRow(w, w', name, req)
            && CreatedLedger(w, w'.db, reply.id, req, f)
  {
    hide CreatedTogether, CreatedRow, CreatedLedger;
    TailTogether(w, name, comment, managerID, req, f);
    TailRow(w, name, comment, managerID, req, f);
    TailLedger(w, name, comment, managerID, req, f);
  }

  lemma TailTogether(w: World, name: string, comment: string, managerID: Option<int>, req: CreateReq, f: CreateFaults)
    requires Valid(w) && name !in w.router.users && req.password.Some?
    requires FinishCreate(AfterAdd(w, name, comment, req), name, managerID, req, f).1.Ok?
    ensures var (w', reply) := FinishCreate(AfterAdd(w, name, comment, req), name, managerID, req, f);
            CreatedTogether(w, w', reply.id, name, comment, managerID, req)
  {
    hide FinishCreate, WellFormed, NameKnown, ManagerRefOk, ManagersOk, ActsOk, ExpireAll, FirstActiveEnd;
    var w1 := AfterAdd(w, name, comment, req);
    TailWorld(w1, name, managerID, req, f);
    var db1 := InsertMeta(w.db, name, managerID, req.contact, req.notes).0;
    assert db1.metas - {w.db.nextMetaID} == w.db.metas;
    assert w1.router.users - {name} == w.router.users;
  }

  lemma TailRow(w: World, name: string, comment: string, managerID: Option<int>, req: CreateReq, f: CreateFaults)
    requires Valid(w) && name !in w.router.users && req.password.Some?
    requires FinishCreate(AfterAdd(w, name, comment, req), name, managerID, req, f).1.Ok?
    ensures CreatedRow(w, FinishCreate(AfterAdd(w, name, comment, req), name, managerID, req, f).0, name, req)
  {
    var w1 := AfterAdd(w, name, comment, req);
    assert name !in w.router.profiles;
    hide FinishCreate, WellFormed, DbOk, InsertMeta, Record;
    TailWorld(w1, name, managerID, req, f);
    FirstRow(w1.router, name, ProfileOf(w.cfg, req), w.now);
    hide AddUserProfile;
  }

  lemma TailLedger(w: World, name: string, comment: string, managerID: Option<int>, req: CreateReq, f: CreateFaults)
    requires Valid(w) && name !in w.router.users && req.password.Some? && 1 <= req.sharedUsers
    requires FinishCreate(AfterAdd(w, name, comment, req), name, managerID, req, f).1.Ok?
    ensures var (w', reply) := FinishCreate(AfterAdd(w, name, comment, req), name, managerID, req, f);
            CreatedLedger(w, w'.db, reply.id, req, f)
  {
    var w1 := AfterAdd(w, name, comment, req);
    assert name !in w.router.profiles;
    TailWorld(w1, name, managerID, req, f);
    hide FinishCreate, WellFormed, NameKnown, ManagerRefOk, AddUserProfile, TailRecord;
    if req.assign {
      hide CreatedLedger, DbOk;
      RecordedTail(w, w1, name, managerID, req, f);
    }
  }

  lemma RecordedTail(w: World, w1: World, name: string, managerID: Option<int>, req: CreateReq, f: CreateFaults)
    requires DbOk(w.db, w.now) && w1 == w.(router := w1.router) && Rows(w1.router, name) == []
    requires req.assign && 1 <= req.sharedUsers
    requires AddUserProfile(w1.router, name, ProfileOf(w.cfg, req), w.now).1 == Done
    requires InsertMeta(w.db, name, managerID, req.contact, req.notes).1.Some?
    ensures var (db1, m) := InsertMeta(w.db, name, managerID, req.contact, req.notes);
            CreatedLedger(w, TailRecord(w1, db1, name, m.value, req, f), m.value, req, f)
  {
    var profile := ProfileOf(w.cfg, req);
    var (db1, m) := InsertMeta(w.db, name, managerID, req.contact, req.notes);
    var rows := Rows(AddUserProfile(w1.router, name, profile, w.now).0, name);
    assert w.db.nextActID !in w.db.acts && w.db.nextMetaID !in w.db.metas;
    assert forall i :: i in w.db.acts ==> w.db.acts[i].metaID != w.db.nextMetaID;
    FirstRow(w1.router, name, profile, w.now);
    var end := FirstActiveEnd(if f.rowsDown then [] else rows, w.now);
    assert end == if f.rowsDown then None else Some(w.now + 2592000);
    hide DbOk, NameKnown, ManagerRefOk, AddUserProfile, Newest, FirstActiveEnd, Rows;
    if !f.activationDown {
      FirstActivation(db1, m.value, profile, req.sharedUsers, end, w.now);
    }
  }

  /** The first profile of a user without rows. */
  lemma FirstRow(r: RouterState, name: string, profile: string, now: int)
    requires Rows(r, name) == []
    ensures var (r2, o) := AddUserProfile(r, name, profile, now);
            o == Done ==>
              && r2.users == r.users
              && Rows(r2, name) == [ProfileRow(RowID(r.nextID), name, profile, "active", Some(now + 2592000))]
              && FirstActiveEnd(Rows(r2, name), now) == Some(now + 2592000)
  {
  }

  /** The first activation of a user without activations is the newest. */
  lemma FirstActivation(db: Db, m: int, profile: string, shared: int, endTime: Option<int>, now: int)
    requires shared > 0 && m in db.metas && db.nextActID !in db.acts
    requires forall i :: i in db.acts ==> db.acts[i].metaID != m
    ensures var (db', i) := (InsertActivation(db, m, profile, shared, endTime, now), db.nextActID);
            && i in db'.acts && db'.acts - {i} == db.acts && Newest(db', m, i)
            && db'.acts[i] == Activation(i, m, profile, shared, false, None, None, endTime, now)
  {
  }
}
