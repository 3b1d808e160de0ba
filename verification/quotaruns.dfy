/** Quota safety over whole runs: which steps can exceed a quota, and exactly when. */
module QuotaRuns {
  import opened Models
  import opened Text
  import opened Totals
  import opened Owner
  import opened Router
  import opened Quota
  import opened Tables
  import opened Steps
  import opened Acceptance
  import Saga
  import Frozen

  /** No manager uses more than its quota. */
  ghost predicate Safe(w: World) {
    forall id :: FindManager(w.db.managers, id).Some? ==> UsedBy(w, id) <= FindManager(w.db.managers, id).value.quota
  }

  /** Nobody's shared users are negative, so taking a user away never raises a total. */
  ghost predicate Nonnegative(r: RouterState) {
    forall name :: name in r.users ==> r.users[name].sharedUsers >= 0
  }

  ghost predicate SlugsFree(w: World) {
    PrefixFree(Infos(w.db.managers))
  }

  // ---------------------------------------------------------------- how usage moves

  lemma OneUserChanged(reg: Registry, id: int, r: RouterState, r': RouterState, now: int, name: string)
    requires name in r.users && r'.users.Keys == r.users.Keys
    requires forall n :: n in r.users && n != name ==> r'.users[n] == r.users[n] && Rows(r', n) == Rows(r, n)
    ensures Used(reg, id, r', now) ==
              Used(reg, id, r, now) - Charge(reg, id, r, now, name) + Charge(reg, id, r', now, name)
  {
    TotalUpdate(Charges(reg, id, r, now), name, Charge(reg, id, r', now, name));
    assert Charges(reg, id, r', now) == Charges(reg, id, r, now)[name := Charge(reg, id, r', now, name)];
  }

  lemma OneUserAdded(reg: Registry, id: int, r: RouterState, r': RouterState, now: int, name: string)
    requires name !in r.users && r'.users.Keys == r.users.Keys + {name}
    requires forall n :: n in r.users ==> r'.users[n] == r.users[n] && Rows(r', n) == Rows(r, n)
    ensures Used(reg, id, r', now) == Used(reg, id, r, now) + Charge(reg, id, r', now, name)
  {
    TotalAdd(Charges(reg, id, r, now), name, Charge(reg, id, r', now, name));
    assert Charges(reg, id, r', now) == Charges(reg, id, r, now)[name := Charge(reg, id, r', now, name)];
  }

  lemma OneUserRemoved(reg: Registry, id: int, r: RouterState, now: int, name: string)
    requires name in r.users
    ensures Used(reg, id, RemoveUser(r, name).0, now) == Used(reg, id, r, now) - Charge(reg, id, r, now, name)
  {
    TotalRemove(Charges(reg, id, r, now), name);
    assert Charges(reg, id, RemoveUser(r, name).0, now) == Charges(reg, id, r, now) - {name};
  }

  lemma UsedDependsOnRouter(reg: Registry, id: int, r: RouterState, r': RouterState, now: int)
    requires r'.users == r.users && r'.profiles == r.profiles
    ensures Used(reg, id, r', now) == Used(reg, id, r, now)
  {
    assert Charges(reg, id, r', now) == Charges(reg, id, r, now);
  }

  /** When users only lose activity, or are claimed by fewer owners, no usage grows. */
  lemma UsedShrinks(reg: Registry, reg': Registry, id: int, r: RouterState, r': RouterState, now: int, now': int)
    requires Nonnegative(r) && r'.users == r.users
    requires forall n :: n in r.users ==>
               && (HasActive(Rows(r', n), now') ==> HasActive(Rows(r, n), now))
               && (Resolve(reg', n, r.users[n].comment) == id ==> Resolve(reg, n, r.users[n].comment) == id)
    ensures Used(reg', id, r', now') <= Used(reg, id, r, now)
  {
    TotalMonotone(Charges(reg', id, r', now'), Charges(reg, id, r, now));
  }

  /** Time only ends activity. */
  lemma ActivityExpires(rows: seq<ProfileRow>, now: int, later: int)
    requires now <= later && HasActive(rows, later)
    ensures HasActive(rows, now)
  {
    var i :| 0 <= i < |rows| && ProfileActive(rows[i], later);
    assert ProfileActive(rows[i], now);
  }

  lemma NewRowIsActive(r: RouterState, user: string, profile: string, now: int)
    requires AddUserProfile(r, user, profile, now).1 == Done
    ensures HasActive(Rows(AddUserProfile(r, user, profile, now).0, user), now)
  {
    var rows := Rows(AddUserProfile(r, user, profile, now).0, user);
    assert rows[|rows| - 1].endTime == Some(now + THIRTY_DAYS);
    assert ProfileActive(rows[|rows| - 1], now);
  }

  lemma RowRemovalOnlyEnds(r: RouterState, rowID: string, n: string, now: int)
    requires WellFormed(r) && HasActive(Rows(RemoveUserProfile(r, rowID).0, n), now)
    ensures HasActive(Rows(r, n), now)
  {
    var r' := RemoveUserProfile(r, rowID).0;
    var k :| 0 <= k < |Rows(r', n)| && ProfileActive(Rows(r', n)[k], now);
    if r' != r {
      var name, i :| RowNamed(r, name, i, rowID);
      RemoveRowExact(r, name, i);
      var old_ := OldIndex(n, k, name, i);
      assert 0 <= old_ < |Rows(r, n)| && Rows(r', n)[k] == Rows(r, n)[old_];
      assert ProfileActive(Rows(r, n)[old_], now);
    }
  }

  // ---------------------------------------------------------------- owners

  lemma OwnerIsManager(w: World, name: string, comment: string)
    requires Valid(w)
    ensures Resolve(Reg(w), name, comment) != 0 <==> FindManager(w.db.managers, Resolve(Reg(w), name, comment)).Some?
  {
    Frozen.RegistryOk(w.db);
    ResolveIsListed(Reg(w), name, comment);
    Frozen.InfosIds(w.db.managers, Resolve(Reg(w), name, comment));
  }

  lemma FoundAt(managers: seq<Manager>, id: int) returns (j: int)
    requires FindManager(managers, id).Some?
    ensures 0 <= j < |managers| && managers[j] == FindManager(managers, id).value
    ensures Infos(managers)[j] == ManagerInfo(id, managers[j].slug)
  {
    j :| 0 <= j < |managers| && managers[j] == FindManager(managers, id).value;
  }

  /** With prefix-free slugs a created name belongs to its creator. */
  lemma CreatedOwner(w: World, mgr: Manager, local: string, comment: string)
    requires Valid(w) && SlugsFree(w) && FindManager(w.db.managers, mgr.id) == Some(mgr)
    ensures Resolve(Reg(w), CreatedName(w.cfg.separator, mgr.slug, local), comment) == mgr.id
  {
    var j := FoundAt(w.db.managers, mgr.id);
    Frozen.RegistryOk(w.db);
    CreatedNamesResolve(Infos(w.db.managers), w.cfg.separator, j);
    assert Infos(w.db.managers)[j].slug == mgr.slug;
  }

  /** A patch leaves ownership alone. */
  lemma PatchedOwner(w: World, u: User)
    requires Valid(w)
    ensures Resolve(Reg(w), u.name, PatchedComment(w, u)) == Resolve(Reg(w), u.name, u.comment)
  {
    var owner := Resolve(Reg(w), u.name, u.comment);
    OwnerIsManager(w, u.name, u.comment);
    if owner != 0 {
      var j := FoundAt(w.db.managers, owner);
      Frozen.RegistryOk(w.db);
      PatchPreservesOwner(Reg(w), u.name, u.comment, j);
    }
  }

  /** A second patch writes the comment the first one wrote. */
  lemma PatchedCommentFixed(w: World, u: User)
    requires Valid(w)
    ensures PatchedComment(w, u.(comment := PatchedComment(w, u))) == PatchedComment(w, u)
  {
    PatchedOwner(w, u);
  }

  // ---------------------------------------------------------------- creation

  /** What a successful creation adds to an owner's usage. */
  ghost function CreationCharge(w: World, name: string, comment: string, req: CreateReq, reply: Reply, id: int): int {
    if reply.Ok? && req.assign && !req.disabled && Resolve(Reg(w), name, comment) == id then req.sharedUsers else 0
  }

  lemma RefusedUsage(w: World, name: string, comment: string, managerID: Option<int>, req: CreateReq,
                     f: CreateFaults, id: int)
    requires Valid(w) && name !in w.router.users && req.password.Some?
    requires FinishCreate(AfterAdd(w, name, comment, req), name, managerID, req, f).1.Refused?
    ensures var w2 := FinishCreate(AfterAdd(w, name, comment, req), name, managerID, req, f).0;
            Used(Reg(w), id, w2.router, w.now) == UsedBy(w, id)
  {
    var w2 := FinishCreate(AfterAdd(w, name, comment, req), name, managerID, req, f).0;
    Saga.RefusedTail(w, name, comment, managerID, req, f);
    assert name !in w.router.profiles;
    if f.undoUserDown {
      assert Rows(w2.router, name) == [];
      OneUserAdded(Reg(w), id, w.router, w2.router, w.now, name);
    } else {
      UsedDependsOnRouter(Reg(w), id, w.router, w2.router, w.now);
    }
  }

  lemma AcceptedRouter(w: World, name: string, comment: string, managerID: Option<int>, req: CreateReq, f: CreateFaults)
    requires Valid(w) && name !in w.router.users && req.password.Some?
    requires FinishCreate(AfterAdd(w, name, comment, req), name, managerID, req, f).1.Ok?
    ensures var w1 := AfterAdd(w, name, comment, req);
            var r2 := FinishCreate(w1, name, managerID, req, f).0.router;
            && r2.users == w1.router.users && (HasActive(Rows(r2, name), w.now) <==> req.assign)
            && forall n :: n in w.router.users ==> Rows(r2, n) == Rows(w.router, n)
  {
    var w1 := AfterAdd(w, name, comment, req);
    assert name !in w.router.profiles;
    if req.assign {
      NewRowIsActive(w1.router, name, ProfileOf(w.cfg, req), w.now);
    } else {
      assert Rows(w1.router, name) == [];
    }
  }

  lemma AcceptedUsage(w: World, name: string, comment: string, managerID: Option<int>, req: CreateReq,
                      f: CreateFaults, id: int)
    requires Valid(w) && name !in w.router.users && req.password.Some?
    requires FinishCreate(AfterAdd(w, name, comment, req), name, managerID, req, f).1.Ok?
    ensures var (w2, reply) := FinishCreate(AfterAdd(w, name, comment, req), name, managerID, req, f);
            Used(Reg(w), id, w2.router, w.now) == UsedBy(w, id) + CreationCharge(w, name, comment, req, reply, id)
  {
    AcceptedRouter(w, name, comment, managerID, req, f);
    var r2 := FinishCreate(AfterAdd(w, name, comment, req), name, managerID, req, f).0.router;
    OneUserAdded(Reg(w), id, w.router, r2, w.now, name);
  }

  lemma CreationKeeps(w: World, name: string, comment: string, managerID: Option<int>, req: CreateReq, f: CreateFaults)
    requires req.password.Some?
    ensures var w2 := FinishCreate(AfterAdd(w, name, comment, req), name, managerID, req, f).0;
            && w2.db.managers == w.db.managers && w2.cfg == w.cfg && w2.now == w.now
            && (Nonnegative(w.router) && req.sharedUsers >= 0 ==> Nonnegative(w2.router))
  {
    hide FinishCreate;
    TailShape(AfterAdd(w, name, comment, req), name, managerID, req, f);
  }

  lemma CreationUsage(w: World, name: string, comment: string, managerID: Option<int>, req: CreateReq,
                      f: CreateFaults, id: int)
    requires Valid(w) && name !in w.router.users && req.password.Some?
    ensures var (w2, reply) := FinishCreate(AfterAdd(w, name, comment, req), name, managerID, req, f);
            && UsedBy(w2, id) == UsedBy(w, id) + CreationCharge(w, name, comment, req, reply, id)
            && w2.db.managers == w.db.managers
            && (Nonnegative(w.router) && req.sharedUsers >= 0 ==> Nonnegative(w2.router))
  {
    CreationKeeps(w, name, comment, managerID, req, f);
    if FinishCreate(AfterAdd(w, name, comment, req), name, managerID, req, f).1.Refused? {
      RefusedUsage(w, name, comment, managerID, req, f, id);
    } else {
      AcceptedUsage(w, name, comment, managerID, req, f, id);
    }
  }

  /** An orphan whose name or absence of a token still resolves to a manager is charged to that manager unchecked. */
  ghost predicate OrphanGuard(w: World, e: Event)
    requires e.EOrphan?
  {
    var owner := FindManager(w.db.managers, Resolve(Reg(w), TrimSpace(e.createReq.localName), ""));
    CreateAccepted(w, e) && e.createReq.assign && !e.createReq.disabled && owner.Some? ==>
      CheckAdd(UsedBy(w, owner.value.id), owner.value.quota, e.createReq.sharedUsers)
  }

  lemma CreateQuota(w: World, e: Event)
    requires Valid(w) && SlugsFree(w) && Safe(w) && Nonnegative(w.router) && e.ECreate?
    ensures Safe(Step(w, e)) && Nonnegative(Step(w, e).router)
  {
    var req := e.createReq;
    CreationShape(w, e);
    if AddReached(w, e) {
      var mgr := FindManager(w.db.managers, e.managerID).value;
      var name, comment := CreatedName(w.cfg.separator, mgr.slug, req.localName), PanelComment(mgr.slug);
      CreatedOwner(w, mgr, req.localName, comment);
      forall id | FindManager(w.db.managers, id).Some?
        ensures UsedBy(Step(w, e), id) <= FindManager(w.db.managers, id).value.quota
      {
        CreationUsage(w, name, comment, Some(mgr.id), req, e.createFaults, id);
      }
      CreationUsage(w, name, comment, Some(mgr.id), req, e.createFaults, 0);
    }
  }

  lemma OrphanQuota(w: World, e: Event)
    requires Valid(w) && Safe(w) && Nonnegative(w.router) && e.EOrphan?
    ensures Safe(Step(w, e)) && Nonnegative(Step(w, e).router) <==> OrphanGuard(w, e)
  {
    var req, name := e.createReq, TrimSpace(e.createReq.localName);
    CreationShape(w, e);
    CreationAccepted(w, e);
    if AddReached(w, e) {
      forall id
        ensures UsedBy(Step(w, e), id) == UsedBy(w, id) + CreationCharge(w, name, "", req, Respond(w, e).1, id)
      {
        CreationUsage(w, name, "", None, req, e.createFaults, id);
      }
      CreationUsage(w, name, "", None, req, e.createFaults, 0);
      OwnerIsManager(w, name, "");
      var owner := FindManager(w.db.managers, Resolve(Reg(w), name, ""));
      if Safe(Step(w, e)) && owner.Some? {
        assert UsedBy(Step(w, e), owner.value.id) <= owner.value.quota;
      }
    }
  }

  // ---------------------------------------------------------------- patching

  /** The user ends up enabled with an active profile, and the code's own increase check did not cover it. */
  ghost predicate Unchecked(w: World, u: User, req: PatchReq, f: PatchFaults) {
    && HasActive(Rows(w.router, u.name), w.now) && !GetOr(req.disabled, u.disabled)
    && (u.disabled || (req.sharedUsers.Some? && f.rowsDown))
  }

  /** Re-enabling a user, or patching while the profile rows cannot be read, needs room that nobody checks. */
  ghost predicate PatchGuard(w: World, m: int, req: PatchReq, f: PatchFaults) {
    PatchReaches(w, m, req, f) ==>
      var u := w.router.users[w.db.metas[m].name];
      var owner := FindManager(w.db.managers, Resolve(Reg(w), u.name, u.comment));
      && (req.sharedUsers.Some? ==> req.sharedUsers.value >= 0)
      && (owner.Some? && Unchecked(w, u, req, f) ==>
            CheckIncrease(UsedBy(w, owner.value.id), owner.value.quota, if u.disabled then 0 else u.sharedUsers,
                          GetOr(req.sharedUsers, u.sharedUsers)))
  }

  lemma PatchUsage(w: World, m: int, req: PatchReq, f: PatchFaults, id: int)
    requires Valid(w) && PatchReaches(w, m, req, f)
    ensures var u := w.router.users[w.db.metas[m].name];
            var w' := Patch(w, m, req, f).0;
            var counted := Resolve(Reg(w), u.name, u.comment) == id && HasActive(Rows(w.router, u.name), w.now);
            && w'.db.managers == w.db.managers
            && UsedBy(w', id) == UsedBy(w, id)
                 - (if counted && !u.disabled then u.sharedUsers else 0)
                 + (if counted && !GetOr(req.disabled, u.disabled) then GetOr(req.sharedUsers, u.sharedUsers) else 0)
  {
    hide DbOk, PatchRefusal, PatchedComment, IdsKnown, IdsUnique;
    var u := w.router.users[w.db.metas[m].name];
    var w' := Patch(w, m, req, f).0;
    PatchShape(w, m, req, f);
    assert w'.router == SetUser(w.router, u.name, req.password, req.sharedUsers, PatchedComment(w, u), req.disabled).0;
    PatchedOwner(w, u);
    OneUserChanged(Reg(w), id, w.router, w'.router, w.now, u.name);
  }

  lemma PatchQuotaSafe(w: World, m: int, req: PatchReq, f: PatchFaults)
    requires Valid(w) && Safe(w) && Nonnegative(w.router)
    ensures Safe(Patch(w, m, req, f).0) && Nonnegative(Patch(w, m, req, f).0.router) <==> PatchGuard(w, m, req, f)
  {
    PatchShape(w, m, req, f);
    hide DbOk, Patch, PatchedComment, UsedBy, IdsKnown, IdsUnique, UpdateNewest, UpdateMeta;
    if PatchReaches(w, m, req, f) {
      var u := w.router.users[w.db.metas[m].name];
      var w' := Patch(w, m, req, f).0;
      var owner := FindManager(w.db.managers, Resolve(Reg(w), u.name, u.comment));
      assert w'.router.users == w.router.users[u.name := w'.router.users[u.name]];
      assert w'.router.users[u.name].sharedUsers == GetOr(req.sharedUsers, u.sharedUsers);
      OwnerIsManager(w, u.name, u.comment);
      assert Nonnegative(w'.router) <==> (req.sharedUsers.Some? ==> req.sharedUsers.value >= 0) by {
        assert Nonnegative(w'.router) ==> w'.router.users[u.name].sharedUsers >= 0;
      }
      forall id | FindManager(w.db.managers, id).Some? && owner != FindManager(w.db.managers, id)
        ensures UsedBy(w', id) == UsedBy(w, id)
      {
        PatchUsage(w, m, req, f, id);
      }
      PatchUsage(w, m, req, f, 0);
      if owner.Some? {
        PatchUsage(w, m, req, f, owner.value.id);
        OwnerDecides(w, w', owner.value);
      }
    }
  }

  /** When only one manager's usage moves, safety is that manager's. */
  lemma OwnerDecides(w: World, w': World, owner: Manager)
    requires Safe(w) && w'.db.managers == w.db.managers && FindManager(w.db.managers, owner.id) == Some(owner)
    requires forall id :: FindManager(w.db.managers, id).Some? && Some(owner) != FindManager(w.db.managers, id) ==>
               UsedBy(w', id) == UsedBy(w, id)
    ensures Safe(w') <==> UsedBy(w', owner.id) <= owner.quota
  {
  }

  // ---------------------------------------------------------------- renewing

  /** A renewal of an enabled user that is not active needs room that nobody checks. */
  ghost predicate AssignGuard(w: World, m: int, profile: string, f: AssignFaults) {
    AssignReaches(w, m, profile, f) ==>
      var u := w.router.users[w.db.metas[m].name];
      var owner := FindManager(w.db.managers, Resolve(Reg(w), u.name, u.comment));
      owner.Some? && !u.disabled && !HasActive(Rows(w.router, u.name), w.now) ==>
        CheckAdd(UsedBy(w, owner.value.id), owner.value.quota, u.sharedUsers)
  }

  lemma AssignUsage(w: World, m: int, profile: string, f: AssignFaults, id: int)
    requires Valid(w) && AssignReaches(w, m, profile, f)
    ensures var u := w.router.users[w.db.metas[m].name];
            var w' := Assign(w, m, profile, f).0;
            && w'.db.managers == w.db.managers && w'.router.users == w.router.users
            && UsedBy(w', id) == UsedBy(w, id) +
                 (if Resolve(Reg(w), u.name, u.comment) == id && !u.disabled
                  && !HasActive(Rows(w.router, u.name), w.now)
                  then u.sharedUsers else 0)
  {
    var u := w.router.users[w.db.metas[m].name];
    var w' := Assign(w, m, profile, f).0;
    NewRowIsActive(w.router, u.name, profile, w.now);
    OneUserChanged(Reg(w), id, w.router, w'.router, w.now, u.name);
  }

  lemma AssignQuota(w: World, m: int, profile: string, f: AssignFaults)
    requires Valid(w) && Safe(w) && Nonnegative(w.router)
    ensures Safe(Assign(w, m, profile, f).0) && Nonnegative(Assign(w, m, profile, f).0.router)
       <==> AssignGuard(w, m, profile, f)
  {
    AssignAccepted(w, m, profile, f);
    if AssignReaches(w, m, profile, f) {
      var u := w.router.users[w.db.metas[m].name];
      var w' := Assign(w, m, profile, f).0;
      var owner := FindManager(w.db.managers, Resolve(Reg(w), u.name, u.comment));
      OwnerIsManager(w, u.name, u.comment);
      forall id | FindManager(w.db.managers, id).Some? && owner != FindManager(w.db.managers, id)
        ensures UsedBy(w', id) == UsedBy(w, id)
      {
        AssignUsage(w, m, profile, f, id);
      }
      AssignUsage(w, m, profile, f, owner.value.id);
      OwnerDecides(w, w', owner.value);
    }
  }

  // ---------------------------------------------------------------- deleting, expiring

  lemma RemovalQuota(w: World, name: string, w': World)
    requires Safe(w) && Nonnegative(w.router) && WellFormed(w.router)
    requires w'.router == RemoveUser(w.router, name).0 && w'.db.managers == w.db.managers && w'.now == w.now
    requires w'.cfg == w.cfg
    ensures Safe(w') && Nonnegative(w'.router)
  {
    if name in w.router.users {
      forall id
        ensures UsedBy(w', id) <= UsedBy(w, id)
      {
        OneUserRemoved(Reg(w), id, w.router, w.now, name);
      }
    }
  }

  lemma ShrinkingQuota(w: World, w': World)
    requires Safe(w) && Nonnegative(w.router)
    requires w'.router.users == w.router.users && w'.db.managers == w.db.managers && w'.cfg == w.cfg
    requires forall n :: n in w.router.users && HasActive(Rows(w'.router, n), w'.now) ==>
               HasActive(Rows(w.router, n), w.now)
    ensures Safe(w') && Nonnegative(w'.router)
  {
    forall id
      ensures UsedBy(w', id) <= UsedBy(w, id)
    {
      UsedShrinks(Reg(w), Reg(w), id, w.router, w'.router, w.now, w'.now);
    }
  }

  lemma SameUsage(w: World, w': World)
    requires w'.router == w.router && w'.db.managers == w.db.managers && w'.now == w.now && w'.cfg == w.cfg
    ensures Safe(w') <==> Safe(w)
  {
    assert forall id :: UsedBy(w', id) == UsedBy(w, id);
  }

  // ---------------------------------------------------------------- managers

  /**
   * Users a new slug takes over: unowned by name, and either named by the new pattern or unclaimed but for its token.
   */
  ghost predicate Captures(w: World, slug: string, name: string, comment: string) {
    var ms := Infos(w.db.managers);
    && ByName(ms, w.cfg.separator, name) == 0
    && (HasPrefix(name, Pattern(w.cfg.separator, slug))
        || (ByComment(ms, comment) == 0 && CommentMatches(comment, slug)))
  }

  ghost function CapturedCharge(w: World, slug: string, name: string): int
    requires name in w.router.users
  {
    var u := w.router.users[name];
    var counted := Captures(w, slug, name, u.comment) && !u.disabled && HasActive(Rows(w.router, name), w.now);
    if counted then u.sharedUsers else 0
  }

  /** The connections a new manager starts with. */
  ghost function Inherited(w: World, slug: string): int {
    Total(map name | name in w.router.users :: CapturedCharge(w, slug, name))
  }

  lemma {:induction false} ByNameAppend(ms: seq<ManagerInfo>, m: ManagerInfo, separator: string, name: string)
    requires IdsNonzero(ms) && m.id != 0
    ensures ByName(ms + [m], separator, name) ==
              if ByName(ms, separator, name) != 0 then ByName(ms, separator, name)
              else if HasPrefix(name, Pattern(separator, m.slug)) then m.id else 0
  {
    if ms == [] {
      assert ms + [m] == [m];
    } else {
      assert (ms + [m])[1..] == ms[1..] + [m];
      ByNameAppend(ms[1..], m, separator, name);
    }
  }

  lemma {:induction false} ByCommentAppend(ms: seq<ManagerInfo>, m: ManagerInfo, comment: string)
    requires IdsNonzero(ms) && m.id != 0
    ensures ByComment(ms + [m], comment) ==
              if ByComment(ms, comment) != 0 then ByComment(ms, comment)
              else if CommentMatches(comment, m.slug) then m.id else 0
  {
    if ms == [] {
      assert ms + [m] == [m];
    } else {
      assert (ms + [m])[1..] == ms[1..] + [m];
      ByCommentAppend(ms[1..], m, comment);
    }
  }

  /** A new manager takes exactly the users its slug captures, and nobody else gains any. */
  lemma NewManagerResolve(w: World, w': World, m: Manager, name: string, comment: string, id: int)
    requires Valid(w) && w'.cfg == w.cfg && w'.db.managers == w.db.managers + [m] && m.id == w.db.nextManagerID
    ensures Resolve(Reg(w'), name, comment) == m.id <==> Captures(w, m.slug, name, comment)
    ensures id != m.id && id != 0 && Resolve(Reg(w'), name, comment) == id ==> Resolve(Reg(w), name, comment) == id
  {
    var ms, info := Infos(w.db.managers), ManagerInfo(m.id, m.slug);
    assert Infos(w'.db.managers) == ms + [info];
    Frozen.RegistryOk(w.db);
    ByNameAppend(ms, info, w.cfg.separator, name);
    ByCommentAppend(ms, info, comment);
    var i := ByNameFound(ms, w.cfg.separator, name);
    var j := ByCommentFound(ms, comment);
  }

  ghost predicate ManagerGuard(w: World, e: Event)
    requires e.EManager?
  {
    ManagerReaches(w, e.username, e.slug, e.quota, e.slugsListed) ==> Inherited(w, e.slug) <= e.quota
  }

  lemma ManagerQuota(w: World, e: Event)
    requires Valid(w) && Safe(w) && Nonnegative(w.router) && e.EManager?
    ensures Safe(Step(w, e)) <==> ManagerGuard(w, e)
  {
    hide WellFormed, DbOk, UsedBy, Inherited, SlugOverlaps, ManagerClash;
    ManagerAccepted(w, e.username, e.slug, e.quota, e.slugsListed);
    if ManagerReaches(w, e.username, e.slug, e.quota, e.slugsListed) {
      var w', m := Step(w, e), Manager(w.db.nextManagerID, e.username, e.slug, e.quota);
      assert w'.db.managers == w.db.managers + [m];
      NewManagerUsage(w, w', m);
      forall id
        ensures FindManager(w'.db.managers, id) ==
                  if FindManager(w.db.managers, id).Some? then FindManager(w.db.managers, id)
                  else if m.id == id then Some(m) else None
      {
        FindAppended(w.db.managers, m, id);
      }
      if Safe(w') {
        assert FindManager(w'.db.managers, m.id) == Some(m);
      }
      forall id | FindManager(w.db.managers, id).Some?
        ensures UsedBy(w', id) <= UsedBy(w, id)
      {
        OldManagerUsage(w, w', m, id);
      }
    } else {
      SameUsage(w, Step(w, e));
    }
  }

  lemma NewManagerUsage(w: World, w': World, m: Manager)
    requires Valid(w) && w'.cfg == w.cfg && w'.db.managers == w.db.managers + [m] && m.id == w.db.nextManagerID
    requires w'.router == w.router && w'.now == w.now
    ensures UsedBy(w', m.id) == Inherited(w, m.slug)
    ensures FindManager(w.db.managers, m.id).None?
  {
    forall name | name in w.router.users
      ensures Charge(Reg(w'), m.id, w.router, w.now, name) == CapturedCharge(w, m.slug, name)
    {
      NewManagerResolve(w, w', m, name, w.router.users[name].comment, 0);
    }
    assert Charges(Reg(w'), m.id, w.router, w.now) ==
        map name | name in w.router.users :: CapturedCharge(w, m.slug, name);
    assert forall x :: x in w.db.managers ==> x.id < m.id;
  }

  lemma OldManagerUsage(w: World, w': World, m: Manager, id: int)
    requires Valid(w) && Nonnegative(w.router) && FindManager(w.db.managers, id).Some?
    requires w'.cfg == w.cfg && w'.db.managers == w.db.managers + [m] && m.id == w.db.nextManagerID
    requires w'.router == w.router && w'.now == w.now
    ensures UsedBy(w', id) <= UsedBy(w, id)
  {
    assert id != 0 && id != m.id by {
      assert FindManager(w.db.managers, id).value in w.db.managers;
    }
    forall n | n in w.router.users
      ensures Resolve(Reg(w'), n, w.router.users[n].comment) == id ==>
                Resolve(Reg(w), n, w.router.users[n].comment) == id
    {
      NewManagerResolve(w, w', m, n, w.router.users[n].comment, id);
    }
    UsedShrinks(Reg(w), Reg(w'), id, w.router, w.router, w.now, w.now);
  }

  lemma QuotaPatchShape(w: World, id: int, quota: int, k: int)
    ensures var w' := w.(db := SetQuota(w.db, id, quota));
            && Infos(w'.db.managers) == Infos(w.db.managers)
            && UsedBy(w', k) == UsedBy(w, k)
            && (FindManager(w'.db.managers, k).Some? ==>
                  && FindManager(w.db.managers, k).Some?
                  && FindManager(w'.db.managers, k).value.quota ==
                       if k == id && quota > 0 then quota else FindManager(w.db.managers, k).value.quota)
  {
    FindWithQuota(w.db.managers, id, quota, k);
  }

  lemma QuotaPatchSafe(w: World, id: int, quota: int, usageDown: bool)
    requires Safe(w)
    ensures Safe(PatchQuota(w, id, quota, usageDown).0)
  {
    if PatchQuota(w, id, quota, usageDown).1.Ok? {
      var w' := w.(db := SetQuota(w.db, id, quota));
      assert PatchQuota(w, id, quota, usageDown).0 == w';
      forall k | FindManager(w'.db.managers, k).Some?
        ensures UsedBy(w', k) <= FindManager(w'.db.managers, k).value.quota
      {
        QuotaPatchShape(w, id, quota, k);
      }
    }
  }

  // ---------------------------------------------------------------- every step, every run

  /** What a step needs to keep every manager within quota; most need nothing. */
  ghost predicate QuotaGuard(w: World, e: Event) {
    match e
    case EOrphan(_, _) => OrphanGuard(w, e)
    case EPatch(m, req, f) => PatchGuard(w, m, req, f)
    case EAssign(m, profile, f) => AssignGuard(w, m, profile, f)
    case EManager(_, _, _, _) => ManagerGuard(w, e)
    case _ => true
  }

  lemma DeleteQuota(w: World, m: int, removeDown: bool, metaDown: bool)
    requires Valid(w) && Safe(w) && Nonnegative(w.router)
    ensures var w' := Delete(w, m, removeDown, metaDown).0; Safe(w') && Nonnegative(w'.router)
  {
    var w' := Delete(w, m, removeDown, metaDown).0;
    if m in w.db.metas && !removeDown {
      RemovalQuota(w, w.db.metas[m].name, w');
    } else {
      SameUsage(w, w');
    }
  }

  lemma RemoveRowQuota(w: World, rowID: string, down: bool)
    requires Valid(w) && Safe(w) && Nonnegative(w.router)
    ensures var w' := RemoveRow(w, rowID, down).0; Safe(w') && Nonnegative(w'.router)
  {
    var w' := RemoveRow(w, rowID, down).0;
    forall n | n in w.router.users && HasActive(Rows(w'.router, n), w.now)
      ensures HasActive(Rows(w.router, n), w.now)
    {
      if w'.router != w.router {
        RowRemovalOnlyEnds(w.router, rowID, n, w.now);
      }
    }
    ShrinkingQuota(w, w');
  }

  lemma DeleteByNameQuota(w: World, name: string, removeDown: bool, metaDown: bool)
    requires Valid(w) && Safe(w) && Nonnegative(w.router)
    ensures var w' := DeleteByName(w, name, removeDown, metaDown).0; Safe(w') && Nonnegative(w'.router)
  {
    hide Safe, Nonnegative, Delete, RemoveUser;
    var m := MetaByName(w.db, name);
    if m.Some? {
      DeleteQuota(w, m.value, removeDown, metaDown);
    } else if !removeDown {
      RemovalQuota(w, name, w.(router := RemoveUser(w.router, name).0));
    }
  }

  lemma AdoptQuota(w: World, name: string, asManager: Option<int>, getDown: bool, metaDown: bool)
    requires Safe(w)
    ensures var w' := Adopt(w, name, asManager, getDown, metaDown).0; Safe(w') && w'.router == w.router
  {
    hide Safe;
    SameUsage(w, Adopt(w, name, asManager, getDown, metaDown).0);
  }

  lemma SettleQuota(w: World, adminID: int, scope: Scope, actID: int)
    requires Safe(w)
    ensures var w' := Settle(w, adminID, scope, actID).0; Safe(w') && w'.router == w.router
  {
    hide Safe;
    SameUsage(w, Settle(w, adminID, scope, actID).0);
  }

  lemma HealQuota(w: World, f: Filter, pick: set<int>, lost: set<int>, listDown: bool)
    requires Safe(w)
    ensures var w' := Heal(w, f, pick, lost, listDown).0; Safe(w') && w'.router == w.router
  {
    hide Safe, ValidPick;
    SameUsage(w, Heal(w, f, pick, lost, listDown).0);
  }

  lemma TickQuota(w: World, seconds: nat)
    requires Valid(w) && Safe(w) && Nonnegative(w.router)
    ensures Safe(w.(now := w.now + seconds))
  {
    forall n | n in w.router.users && HasActive(Rows(w.router, n), w.now + seconds)
      ensures HasActive(Rows(w.router, n), w.now)
    {
      ActivityExpires(Rows(w.router, n), w.now, w.now + seconds);
    }
    ShrinkingQuota(w, w.(now := w.now + seconds));
  }

  /**
   * Every panel step keeps all managers within quota exactly when its guard holds. Orphan creation, renewal,
   * re-enabling and manager creation are the steps whose room the code does not check.
   */
  lemma StepQuota(w: World, e: Event)
    requires Valid(w) && SlugsFree(w) && Safe(w) && Nonnegative(w.router) && !e.EOutside?
    ensures Safe(Step(w, e)) && Nonnegative(Step(w, e).router) <==> QuotaGuard(w, e)
  {
    hide Valid, SlugsFree, Safe, Nonnegative, OrphanGuard, PatchGuard, AssignGuard, ManagerGuard;
    hide CreateVPN, CreateOrphan, Patch, Assign, RemoveRow, Delete, DeleteByName;
    hide SettleThrough, InsertMeta, InsertManager, SetQuota, HealRows, ValidPick;
    match e
    case ECreate(_, _, _) => CreateQuota(w, e);
    case EOrphan(_, _) => OrphanQuota(w, e);
    case EPatch(m, req, f) => PatchQuotaSafe(w, m, req, f);
    case EAssign(m, profile, f) => AssignQuota(w, m, profile, f);
    case ERemoveRow(rowID, down) => RemoveRowQuota(w, rowID, down);
    case EDelete(m, removeDown, metaDown) => DeleteQuota(w, m, removeDown, metaDown);
    case EDeleteByName(name, removeDown, metaDown) => DeleteByNameQuota(w, name, removeDown, metaDown);
    case EAdopt(name, asManager, getDown, metaDown) => AdoptQuota(w, name, asManager, getDown, metaDown);
    case ESettle(adminID, scope, actID) => SettleQuota(w, adminID, scope, actID);
    case EManager(_, _, _, _) => ManagerQuota(w, e);
    case EQuota(id, quota, down) => QuotaPatchSafe(w, id, quota, down);
    case EHeal(f, pick, lost, down) => HealQuota(w, f, pick, lost, down);
    case ETick(seconds) => TickQuota(w, seconds);
  }

  /** Slugs stay prefix-free exactly when no manager is created past an overlap while the listing is down. */
  ghost predicate SlugGuard(w: World, e: Event) {
    e.EManager? && ManagerReaches(w, e.username, e.slug, e.quota, e.slugsListed) ==>
      !SlugOverlaps(e.slug, Infos(w.db.managers), 0)
  }

  lemma ManagersUnchanged(w: World, e: Event)
    requires !e.EManager? && !e.EQuota?
    ensures Step(w, e).db.managers == w.db.managers && Step(w, e).cfg == w.cfg
  {
    hide CreateVPN, CreateOrphan, PatchRefusal, ValidPick, AddUserProfile, RemoveUserProfile, RemoveUser;
    match e
    case ECreate(_, _, _) => CreationManagers(w, e);
    case EOrphan(_, _) => CreationManagers(w, e);
    case EPatch(_, _, _) =>
    case EAssign(_, _, _) =>
    case ERemoveRow(_, _) =>
    case EDelete(_, _, _) =>
    case EDeleteByName(_, _, _) =>
    case EAdopt(_, _, _, _) =>
    case ESettle(_, _, _) =>
    case EHeal(_, _, _, _) =>
    case ETick(_) =>
    case EOutside(_) =>
  }

  lemma CreationManagers(w: World, e: Event)
    requires e.ECreate? || e.EOrphan?
    ensures Step(w, e).db.managers == w.db.managers && Step(w, e).cfg == w.cfg
  {
    hide FinishCreate, AddReached, CreationName, CreationComment;
    CreationShape(w, e);
    if AddReached(w, e) {
      CreationKeeps(w, CreationName(w, e), CreationComment(w, e), CreationOwner(e), e.createReq, e.createFaults);
    }
  }

  lemma StepSlugs(w: World, e: Event)
    requires Valid(w) && SlugsFree(w)
    ensures SlugsFree(Step(w, e)) <==> SlugGuard(w, e)
  {
    if e.EManager? {
      ManagerSlugs(w, e);
    } else if e.EQuota? {
      QuotaPatchShape(w, e.managerID, e.quota, 0);
      assert Infos(Step(w, e).db.managers) == Infos(w.db.managers);
    } else {
      ManagersUnchanged(w, e);
    }
  }

  lemma ManagerSlugs(w: World, e: Event)
    requires SlugsFree(w) && e.EManager?
    ensures SlugsFree(Step(w, e)) <==> SlugGuard(w, e)
  {
    ManagerAccepted(w, e.username, e.slug, e.quota, e.slugsListed);
    if ManagerReaches(w, e.username, e.slug, e.quota, e.slugsListed) {
      var info := ManagerInfo(w.db.nextManagerID, e.slug);
      assert Infos(Step(w, e).db.managers) == Infos(w.db.managers) + [info];
      OverlapCheckKeepsPrefixFree(Infos(w.db.managers), info);
    }
  }

  ghost predicate GuardedRun(w: World, es: seq<Event>)
    decreases |es|
  {
    es == [] || (!es[0].EOutside? && QuotaGuard(w, es[0]) && SlugGuard(w, es[0]) && GuardedRun(Step(w, es[0]), es[1..]))
  }

  /** In every world a guarded run reaches, no manager exceeds its quota and slugs are prefix-free. */
  lemma {:induction false} QuotaNeverExceeded(w: World, es: seq<Event>)
    requires Valid(w) && SlugsFree(w) && Safe(w) && Nonnegative(w.router) && GuardedRun(w, es)
    ensures Safe(Run(w, es)) && Nonnegative(Run(w, es).router) && SlugsFree(Run(w, es))
    decreases |es|
  {
    if es != [] {
      StepQuota(w, es[0]);
      StepSlugs(w, es[0]);
      StepValid(w, es[0]);
      QuotaNeverExceeded(Step(w, es[0]), es[1..]);
    }
  }
}
