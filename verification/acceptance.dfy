/** Which requests are accepted, told from the state before them and the calls that fail. */
module Acceptance {
  import opened Models
  import opened Text
  import opened Owner
  import opened Router
  import opened Quota
  import opened Tables
  import opened Steps

  // ---------------------------------------------------------------- creation

  /** The router name a creation event uses. */
  function CreationName(w: World, e: Event): string {
    match e
    case ECreate(id, req, _) =>
      var mgr := FindManager(w.db.managers, id);
      if mgr.Some? then mgr.value.slug + w.cfg.separator + req.localName else ""
    case EOrphan(req, _) => TrimSpace(req.localName)
    case _ => ""
  }

  /** The manager a creation is for. */
  function CreationOwner(e: Event): Option<int> {
    if e.ECreate? then Some(e.managerID) else None
  }

  function CreationComment(w: World, e: Event): string {
    if e.ECreate? && FindManager(w.db.managers, e.managerID).Some?
    then "panel=" + FindManager(w.db.managers, e.managerID).value.slug else ""
  }

  /** The checks before the router's AddUser pass, and the call goes through. */
  ghost predicate ChecksPass(w: World, e: Event) {
    match e
    case ECreate(id, req, f) =>
      var mgr := FindManager(w.db.managers, id);
      && mgr.Some? && |req.localName| <= w.cfg.localMaxLen && req.password.Some?
      && 1 <= req.sharedUsers <= w.cfg.sharedUsersMax
      && !f.usageDown && (req.assign ==> UsedBy(w, id) + req.sharedUsers <= mgr.value.quota) && !f.addDown
    case EOrphan(req, f) =>
      && CreationName(w, e) != "" && |CreationName(w, e)| <= 32 && req.password.Some?
      && 1 <= req.sharedUsers <= w.cfg.sharedUsersMax && !f.addDown
    case _ => false
  }

  /** And the router takes the user. */
  ghost predicate AddReached(w: World, e: Event) {
    ChecksPass(w, e) && CreationName(w, e) !in w.router.users
  }

  /** The world right after the router's AddUser. */
  ghost function AfterAdd(w: World, name: string, comment: string, req: CreateReq): World
    requires req.password.Some?
  {
    w.(router := AddUser(w.router, name, req.password.value, comment, req.sharedUsers, req.disabled).0)
  }

  /** A creation either stops before the router is touched, or adds a free name and goes on to the common tail. */
  lemma CreationShape(w: World, e: Event)
    requires e.ECreate? || e.EOrphan?
    ensures !AddReached(w, e) ==> Step(w, e) == w && Respond(w, e).1.Refused?
    ensures AddReached(w, e) ==>
              && e.createReq.password.Some? && CreationName(w, e) !in w.router.users
              && 1 <= e.createReq.sharedUsers <= w.cfg.sharedUsersMax
              && Respond(w, e) == FinishCreate(AfterAdd(w, CreationName(w, e), CreationComment(w, e), e.createReq),
                                               CreationName(w, e), CreationOwner(e), e.createReq, e.createFaults)
  {
    hide FinishCreate, UsedBy, TrimSpace;
    if e.ECreate? && FindManager(w.db.managers, e.managerID).Some? {
      var slug := FindManager(w.db.managers, e.managerID).value.slug;
      assert CreatedName(w.cfg.separator, slug, e.createReq.localName) == CreationName(w, e);
    }
  }

  /** Exactly these creations are refused for the name, and exactly these for the quota. */
  lemma CreationRefusedBecause(w: World, e: Event)
    requires e.ECreate? || e.EOrphan?
    ensures Respond(w, e).1 == Refused(Taken) <==> ChecksPass(w, e) && CreationName(w, e) in w.router.users
    ensures Respond(w, e).1 == Refused(QuotaExceeded) <==>
              && e.ECreate? && e.createReq.assign && FindManager(w.db.managers, e.managerID).Some?
              && |e.createReq.localName| <= w.cfg.localMaxLen && e.createReq.password.Some?
              && 1 <= e.createReq.sharedUsers <= w.cfg.sharedUsersMax && !e.createFaults.usageDown
              && UsedBy(w, e.managerID) + e.createReq.sharedUsers > FindManager(w.db.managers, e.managerID).value.quota
    ensures Respond(w, e).1 == Refused(NoSuchManager) <==> e.ECreate? && FindManager(w.db.managers, e.managerID).None?
  {
    CreationShape(w, e);
    if AddReached(w, e) {
      TailRefusals(AfterAdd(w, CreationName(w, e), CreationComment(w, e), e.createReq), CreationName(w, e),
                   CreationOwner(e), e.createReq, e.createFaults);
    }
    hide FinishCreate, UsedBy, TrimSpace, AfterAdd;
    if e.ECreate? && FindManager(w.db.managers, e.managerID).Some? {
      var slug := FindManager(w.db.managers, e.managerID).value.slug;
      assert CreatedName(w.cfg.separator, slug, e.createReq.localName) == CreationName(w, e);
    }
  }

  lemma TailRefusals(w: World, name: string, managerID: Option<int>, req: CreateReq, f: CreateFaults)
    ensures var reply := FinishCreate(w, name, managerID, req, f).1;
            reply.Refused? ==> reply.why !in {Taken, QuotaExceeded, NoSuchManager}
  {
    hide NameKnown, ManagerRefOk, AddUserProfile, RemoveUser, Record;
  }

  /** The calls after AddUser all succeed. */
  ghost predicate TailPasses(w: World, name: string, managerID: Option<int>, req: CreateReq, f: CreateFaults) {
    && !f.certFails && !f.metaDown && !NameKnown(w.db, name) && ManagerRefOk(w.db, managerID)
    && (req.assign && req.profileName.Some? && req.profileName.value != "" ==>
          !f.profileDown && req.profileName.value in w.router.defined)
    && (req.assign && (req.profileName.None? || req.profileName.value == "") ==>
          !f.profileDown && w.cfg.defaultProfile in w.router.defined)
  }

  lemma TailAccepted(w: World, name: string, managerID: Option<int>, req: CreateReq, f: CreateFaults)
    requires name in w.router.users
    ensures FinishCreate(w, name, managerID, req, f).1.Ok? <==> TailPasses(w, name, managerID, req, f)
  {
  }

  ghost predicate CreateAccepted(w: World, e: Event)
    requires e.ECreate? || e.EOrphan?
  {
    AddReached(w, e) && TailPasses(w, CreationName(w, e), CreationOwner(e), e.createReq, e.createFaults)
  }

  /** A creation succeeds exactly when its checks pass and its calls go through. */
  lemma CreationAccepted(w: World, e: Event)
    requires e.ECreate? || e.EOrphan?
    ensures Respond(w, e).1.Ok? <==> CreateAccepted(w, e)
  {
    CreationShape(w, e);
    if AddReached(w, e) {
      TailAccepted(AfterAdd(w, CreationName(w, e), CreationComment(w, e), e.createReq), CreationName(w, e),
                   CreationOwner(e), e.createReq, e.createFaults);
    }
  }

  // ---------------------------------------------------------------- the other guarded steps

  /** The new value fits the owner's quota, as far as the handler looks; with an owner it needs the usage. */
  ghost predicate QuotaAllows(w: World, u: User, shared: int, f: PatchFaults) {
    var mgr := FindManager(w.db.managers, Resolve(Reg(w), u.name, u.comment));
    mgr.Some? ==>
      && !f.usageDown
      && (f.rowsDown || !HasActive(Rows(w.router, u.name), w.now) ||
          UsedBy(w, mgr.value.id) - u.sharedUsers + shared <= mgr.value.quota)
  }

  /** The checks of a patch pass, and the router takes it. */
  ghost predicate PatchReaches(w: World, m: int, req: PatchReq, f: PatchFaults) {
    && m in w.db.metas && w.db.metas[m].name in w.router.users && !f.getDown && !req.badPassword && !f.setDown
    && var u := w.router.users[w.db.metas[m].name];
       && (req.sharedUsers.Some? ==> QuotaAllows(w, u, req.sharedUsers.value, f))
       && (req.syncManager.Some? ==>
             var owner := Resolve(Reg(w), u.name, u.comment); owner != 0 && owner == req.syncManager.value)
  }

  /** A patch either stops at a failed check, or goes on to its writes. */
  lemma PatchShape(w: World, m: int, req: PatchReq, f: PatchFaults)
    ensures PatchReaches(w, m, req, f) ==>
              Patch(w, m, req, f) == PatchWrites(w, m, w.router.users[w.db.metas[m].name], req, f)
    ensures !PatchReaches(w, m, req, f) ==> Patch(w, m, req, f).0 == w && Patch(w, m, req, f).1.Refused?
  {
    hide PatchWrites, HasActive, UsedBy, Resolve;
  }

  lemma PatchAccepted(w: World, m: int, req: PatchReq, f: PatchFaults)
    ensures Patch(w, m, req, f).1.Ok? <==> PatchReaches(w, m, req, f) && !f.metaDown
  {
    PatchShape(w, m, req, f);
    hide PatchReaches, Patch;
  }

  /** Exactly these patches are refused for the quota, for want of an owner, and for naming another manager. */
  lemma PatchRefusedBecause(w: World, m: int, req: PatchReq, f: PatchFaults)
    requires OnRouter(w, m) && !f.getDown && !req.badPassword
    ensures var u, reply := w.router.users[w.db.metas[m].name], Patch(w, m, req, f).1;
            var owner := Resolve(Reg(w), u.name, u.comment);
            var mgr := FindManager(w.db.managers, owner);
            var allowed := req.sharedUsers.Some? ==> QuotaAllows(w, u, req.sharedUsers.value, f);
            && (reply == Refused(QuotaExceeded) <==> req.sharedUsers.Some? && mgr.Some? && !f.usageDown && !allowed)
            && (reply == Refused(OrphanNoOwner) <==> allowed && req.syncManager.Some? && owner == 0)
            && (reply == Refused(OwnerDbMismatch) <==>
                  allowed && req.syncManager.Some? && owner != 0 && owner != req.syncManager.value)
  {
    hide HasActive, UsedBy, Resolve;
  }

  ghost predicate AssignReaches(w: World, m: int, profile: string, f: AssignFaults) {
    && OnRouter(w, m) && !f.getDown && !f.addDown && profile in w.router.defined
    && Resolve(Reg(w), w.router.users[w.db.metas[m].name].name, w.router.users[w.db.metas[m].name].comment) != 0
  }

  /** A renewal succeeds exactly for an owned user on the router and a defined profile. */
  lemma AssignAccepted(w: World, m: int, profile: string, f: AssignFaults)
    requires WellFormed(w.router)
    ensures Assign(w, m, profile, f).1.Ok? <==> AssignReaches(w, m, profile, f)
  {
  }

  /** The checks of a new manager pass, and no constraint of the table fails. */
  predicate ManagerReaches(w: World, username: string, slug: string, quota: int, slugsListed: bool) {
    && quota >= 1 && (slugsListed ==> !SlugOverlaps(slug, Infos(w.db.managers), 0))
    && !ManagerClash(w.db, username, slug)
  }

  lemma ManagerAccepted(w: World, username: string, slug: string, quota: int, slugsListed: bool)
    ensures CreateManager(w, username, slug, quota, slugsListed).1.Ok?
       <==> ManagerReaches(w, username, slug, quota, slugsListed)
  {
  }
}
