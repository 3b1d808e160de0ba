/** The panel object: its handlers call the router and the store in order, each proved against its step. */
module Panel {
  import opened Models
  import opened Text
  import opened Owner
  import opened Router
  import opened Fake
  import opened Quota
  import opened Tables
  import opened Database
  import opened Steps
  import opened Totals
  import opened Heal
  import opened Overlay
  import S = Steps

  lemma MetaByNameUnique(db: Db, now: int, name: string, m: int)
    requires DbOk(db, now) && MetaNamed(db, m, name)
    ensures MetaByName(db, name) == Some(m)
  {
    MetaByNameIs(db, name);
    assert NameKnown(db, name);
  }

  class App {
    const cfg: Config
    const mt: FakeClient
    const store: Store
    var now: int

    constructor (cfg: Config, mt: FakeClient, store: Store)
      ensures this.cfg == cfg && this.mt == mt && this.store == store && now == 0
    {
      this.cfg, this.mt, this.store, now := cfg, mt, store, 0;
    }

    function Now(): World
      reads this, mt, store
    {
      World(cfg, mt.State(), store.State(), now)
    }

    method Registry() returns (reg: Registry)
      ensures reg == Reg(Now())
    {
      reg := BuildRegistry(store.managers, cfg.separator);
    }

    /** Reads every user of the manager and every user's rows. */
    method ManagerUsedQuota(id: int) returns (used: int)
      requires Valid(Now())
      ensures used == UsedBy(Now(), id)
    {
      var reg := Registry();
      ManagersNumbered(store.State(), now);
      var users := mt.ListUsers();
      var r := UsedForManager(reg, id, users, ReadRows(mt.profiles), now);
      ScanIsUsed(reg, id, mt.State(), now, users);
      used := r.value;
    }

    method OwnerOf(u: User) returns (id: int)
      requires Valid(Now())
      ensures id == Resolve(Reg(Now()), u.name, u.comment)
    {
      var reg := Registry();
      ManagersNumbered(store.State(), now);
      id := ResolveOwner(reg, u.name, u.comment);
    }

    method ActiveEnd(rows: seq<ProfileRow>) returns (end: Option<int>)
      ensures end == FirstActiveEnd(rows, now)
    {
      for i := 0 to |rows|
        invariant FirstActiveEnd(rows, now) == FirstActiveEnd(rows[i..], now)
      {
        var active := IsProfileActive(rows[i], now);
        if active {
          return rows[i].endTime;
        }
      }
      end := None;
    }

    method RecordActivation(name: string, m: int, profile: string, shared: int, rowsDown: bool, activationDown: bool)
      modifies store
      ensures store.State() ==
                Record(old(store.State()), mt.State(), name, m, profile, shared, rowsDown, activationDown, now)
    {
      var rows := [];
      if !rowsDown {
        rows := mt.ListUserProfiles(name);
      }
      var end := ActiveEnd(rows);
      if !activationDown {
        store.CreateActivation(m, profile, shared, end, now);
      }
    }

    // -------------------------------------------------------------- creating

    method UndoUser(name: string, f: CreateFaults)
      modifies mt
      ensures Now() == Undo(old(Now()), name, f)
    {
      if !f.undoUserDown {
        var o := mt.RemoveUser(name);
      }
    }

    method FinishCreate(name: string, managerID: Option<int>, req: CreateReq, f: CreateFaults) returns (reply: Reply)
      modifies mt, store
      ensures (Now(), reply) == S.FinishCreate(old(Now()), name, managerID, req, f)
    {
      hide NameKnown, ManagerRefOk, DeleteMeta, ExpireAll, RemoveUser, Record;
      if f.certFails {
        UndoUser(name, f);
        return Refused(CertificateFailed);
      }
      var m := None;
      if !f.metaDown {
        m := store.CreateVPNMeta(name, managerID, req.contact, req.notes);
      }
      if m.None? {
        UndoUser(name, f);
        return Refused(DatabaseFailed);
      }
      if req.assign {
        var profile := ProfileOf(cfg, req);
        if f.profileDown {
          UndoUser(name, f);
          if !f.undoMetaDown {
            store.DeleteVPNMeta(m.value);
          }
          return Refused(RouterDown);
        }
        var o := mt.AddUserProfile(name, profile, now);
        if o.Failed? {
          UndoUser(name, f);
          if !f.undoMetaDown {
            store.DeleteVPNMeta(m.value);
          }
          return Refused(RouterRefused(o.error));
        }
        RecordActivation(name, m.value, profile, req.sharedUsers, f.rowsDown, f.activationDown);
      }
      reply := Ok(m.value);
    }

    method CreateVPNUser(managerID: int, req: CreateReq, f: CreateFaults) returns (reply: Reply)
      requires Valid(Now())
      modifies mt, store
      ensures (Now(), reply) == CreateVPN(old(Now()), managerID, req, f) && Valid(Now())
    {
      CreateValid(Now(), managerID, req, f);
      var found := store.FindManagerByID(managerID);
      if found.None? {
        return Refused(NoSuchManager);
      }
      var mgr := found.value;
      if |req.localName| > cfg.localMaxLen || req.password.None? || req.sharedUsers < 1 ||
         req.sharedUsers > cfg.sharedUsersMax {
        return Refused(BadRequest);
      }
      var name := CreatedName(cfg.separator, mgr.slug, req.localName);
      if f.usageDown {
        return Refused(RouterDown);
      }
      var used := ManagerUsedQuota(mgr.id);
      if req.assign && !CheckAdd(used, mgr.quota, req.sharedUsers) {
        return Refused(QuotaExceeded);
      }
      if f.addDown {
        return Refused(RouterDown);
      }
      var o := mt.AddUser(name, req.password.value, PanelComment(mgr.slug), req.sharedUsers, req.disabled);
      if o.Failed? {
        return Refused(Taken);
      }
      reply := FinishCreate(name, Some(mgr.id), req, f);
    }

    method CreateOrphanVPNUser(req: CreateReq, f: CreateFaults) returns (reply: Reply)
      requires Valid(Now())
      modifies mt, store
      ensures (Now(), reply) == CreateOrphan(old(Now()), req, f) && Valid(Now())
    {
      OrphanValid(Now(), req, f);
      var name := TrimSpace(req.localName);
      if name == "" || |name| > 32 || req.password.None? || req.sharedUsers < 1 ||
         req.sharedUsers > cfg.sharedUsersMax {
        return Refused(BadRequest);
      }
      if f.addDown {
        return Refused(RouterDown);
      }
      var o := mt.AddUser(name, req.password.value, "", req.sharedUsers, req.disabled);
      if o.Failed? {
        return Refused(Taken);
      }
      reply := FinishCreate(name, None, req, f);
    }

    // -------------------------------------------------------------- patching

    /** The quota part of a patch: used is read first, then the profile rows, then the check is made. */
    method PatchExceedsQuota(u: User, owner: int, mgr: Manager, shared: int, rowsDown: bool) returns (exceeds: bool)
      requires Valid(Now())
      ensures exceeds <==> !rowsDown && HasActive(Rows(mt.State(), u.name), now) &&
                           !CheckIncrease(UsedBy(Now(), owner), mgr.quota, u.sharedUsers, shared)
    {
      var used := ManagerUsedQuota(owner);
      var active := false;
      if !rowsDown {
        var rows := mt.ListUserProfiles(u.name);
        active := UserHasActiveProfile(rows, now);
      }
      exceeds := active && !CheckIncrease(used, mgr.quota, u.sharedUsers, shared);
    }

    /** The checks, in the order the handler makes them, and the comment it will write. */
    method CheckPatch(u: User, req: PatchReq, f: PatchFaults) returns (refusal: Option<Refusal>, comment: string)
      requires Valid(Now()) && u.name in mt.users && mt.users[u.name] == u
      ensures refusal == PatchRefusal(Now(), u, req, f)
      ensures comment == S.PatchedComment(Now(), u)
    {
      var owner := OwnerOf(u);
      var mgr := store.FindManagerByID(owner);
      comment := if mgr.Some? then PanelComment(mgr.value.slug) else u.comment;
      if req.badPassword {
        return Some(BadRequest), comment;
      }
      if req.sharedUsers.Some? && mgr.Some? {
        if f.usageDown {
          return Some(RouterDown), comment;
        }
        var exceeds := PatchExceedsQuota(u, owner, mgr.value, req.sharedUsers.value, f.rowsDown);
        if exceeds {
          return Some(QuotaExceeded), comment;
        }
      }
      if req.syncManager.Some? {
        if owner == 0 {
          return Some(OrphanNoOwner), comment;
        }
        if req.syncManager.value != owner {
          return Some(OwnerDbMismatch), comment;
        }
      }
      refusal := if f.setDown then Some(RouterDown) else None;
    }

    method PatchVPNUser(m: int, req: PatchReq, f: PatchFaults) returns (reply: Reply)
      requires Valid(Now())
      modifies mt, store
      ensures (Now(), reply) == Patch(old(Now()), m, req, f) && Valid(Now())
    {
      hide ManagersOk, MetasOk, PatchRefusal, PatchedComment, SetUser, UpdateNewest, UpdateMeta, IdsKnown, IdsUnique;
      PatchValid(Now(), m, req, f);
      if m !in store.metas {
        return Refused(NoSuchUser);
      }
      if f.getDown {
        return Refused(RouterDown);
      }
      var found := mt.GetUser(store.metas[m].name);
      if found.None? {
        return Refused(RouterRefused(NotFound));
      }
      var u := found.value;
      var refusal, comment := CheckPatch(u, req, f);
      if refusal.Some? {
        return Refused(refusal.value);
      }
      var o := mt.SetUser(u.name, req.password, req.sharedUsers, comment, req.disabled);
      if req.sharedUsers.Some? && !f.ledgerDown {
        store.UpdateLatestUnsettledActivationSharedUsers(m, req.sharedUsers.value);
      }
      if f.metaDown {
        return Refused(DatabaseFailed);
      }
      store.UpdateVPNMeta(m, req.contact, req.notes, req.syncManager);
      reply := Ok(m);
    }

    // -------------------------------------------------------------- renewing, removing, adopting

    method AssignVPNProfile(m: int, profile: string, f: AssignFaults) returns (reply: Reply)
      requires Valid(Now())
      modifies mt, store
      ensures (Now(), reply) == Assign(old(Now()), m, profile, f) && Valid(Now())
    {
      hide DbOk, WellFormed, ExpireAll, Record, Resolve;
      AssignValid(Now(), m, profile, f);
      if m !in store.metas {
        return Refused(NoSuchUser);
      }
      if f.getDown {
        return Refused(RouterDown);
      }
      var found := mt.GetUser(store.metas[m].name);
      if found.None? {
        return Refused(RouterRefused(NotFound));
      }
      var u := found.value;
      var owner := OwnerOf(u);
      if owner == 0 {
        return Refused(OrphanNoOwner);
      }
      if f.addDown {
        return Refused(RouterDown);
      }
      var o := mt.AddUserProfile(u.name, profile, now);
      if o.Failed? {
        return Refused(RouterRefused(o.error));
      }
      RecordActivation(u.name, m, profile, u.sharedUsers, f.rowsDown, f.activationDown);
      reply := Ok(m);
    }

    method RemoveVPNProfile(rowID: string, down: bool) returns (reply: Reply)
      requires Valid(Now())
      modifies mt
      ensures (Now(), reply) == RemoveRow(old(Now()), rowID, down) && Valid(Now())
    {
      RemoveUserProfileKeeps(mt.State(), rowID);
      if down {
        return Refused(RouterDown);
      }
      var o := mt.RemoveUserProfile(rowID);
      reply := if o.Failed? then Refused(RouterRefused(o.error)) else Ok(0);
    }

    method DeleteVPNUser(m: int, removeDown: bool, metaDown: bool) returns (reply: Reply)
      requires Valid(Now())
      modifies mt, store
      ensures (Now(), reply) == Delete(old(Now()), m, removeDown, metaDown) && Valid(Now())
    {
      hide DbOk, WellFormed, DeleteMeta, RemoveUser;
      DeleteValid(Now(), m, removeDown, metaDown);
      if m !in store.metas {
        return Refused(NoSuchUser);
      }
      if !removeDown {
        var ignored := mt.RemoveUser(store.metas[m].name);
      }
      if metaDown {
        return Refused(DatabaseFailed);
      }
      store.DeleteVPNMeta(m);
      reply := Ok(m);
    }

    method DeleteVPNByName(name: string, removeDown: bool, metaDown: bool) returns (reply: Reply)
      requires Valid(Now())
      modifies mt, store
      ensures (Now(), reply) == DeleteByName(old(Now()), name, removeDown, metaDown) && Valid(Now())
    {
      hide Delete, IdsKnown, IdsUnique, ManagersOk, ActsOk;
      DeleteByNameValid(Now(), name, removeDown, metaDown);
      var m := store.FindVPNMetaByName(name);
      if m.Some? {
        MetaByNameUnique(store.State(), now, name, m.value);
        reply := DeleteVPNUser(m.value, removeDown, metaDown);
        return;
      }
      if removeDown {
        return Refused(RouterDown);
      }
      var o := mt.RemoveUser(name);
      reply := if o.Failed? then Refused(RouterRefused(o.error)) else Ok(0);
    }

    method EnsureVPNMeta(name: string, asManager: Option<int>, getDown: bool, metaDown: bool) returns (reply: Reply)
      requires Valid(Now())
      modifies store
      ensures (Now(), reply) == Adopt(old(Now()), name, asManager, getDown, metaDown) && Valid(Now())
    {
      var m := store.FindVPNMetaByName(name);
      if m.Some? {
        MetaByNameUnique(store.State(), now, name, m.value);
        return Ok(m.value);
      }
      if getDown {
        return Refused(RouterDown);
      }
      var found := mt.GetUser(name);
      if found.None? {
        return Refused(RouterRefused(NotFound));
      }
      var owner := OwnerOf(found.value);
      if asManager.Some? && owner != asManager.value {
        return Refused(NotOwner);
      }
      if metaDown {
        return Refused(DatabaseFailed);
      }
      InsertMetaOk(store.State(), name, OwnerRef(owner), None, None, now);
      var id := store.CreateVPNMeta(name, OwnerRef(owner), None, None);
      reply := if id.None? then Refused(DatabaseFailed) else Ok(id.value);
    }

    // -------------------------------------------------------------- settling, managers

    /** The request names a manager, or stands for the orphans. */
    method HandleSettleThrough(adminID: int, managerID: Option<int>, actID: int) returns (reply: Reply)
      requires Valid(Now())
      modifies store
      ensures var scope := if managerID.Some? then OfManager(managerID.value) else Orphans;
              (Now(), reply) == Settle(old(Now()), adminID, scope, actID) && Valid(Now())
    {
      var scope := if managerID.Some? then OfManager(managerID.value) else Orphans;
      SettleThroughOk(store.State(), adminID, scope, actID, now);
      var n := store.SettleThrough(adminID, scope, actID, now);
      reply := if n.None? then Refused(NotInScope) else Ok(n.value);
    }

    method HandleCreateManager(username: string, slug: string, quota: int, slugsListed: bool) returns (reply: Reply)
      requires Valid(Now())
      modifies store
      ensures (Now(), reply) == CreateManager(old(Now()), username, slug, quota, slugsListed) && Valid(Now())
    {
      InsertManagerOk(store.State(), username, slug, quota, now);
      if quota < 1 {
        return Refused(BadRequest);
      }
      var slugs := if slugsListed then Infos(store.managers) else [];
      if SlugOverlaps(slug, slugs, 0) {
        return Refused(SlugOverlap);
      }
      var id := store.CreateManager(username, slug, quota);
      reply := if id.None? then Refused(Taken) else Ok(id.value);
    }

    method HandlePatchManagerQuota(id: int, quota: int, usageDown: bool) returns (reply: Reply)
      requires Valid(Now())
      modifies store
      ensures (Now(), reply) == PatchQuota(old(Now()), id, quota, usageDown) && Valid(Now())
    {
      SetQuotaOk(store.State(), id, quota, now);
      var found := store.FindManagerByID(id);
      if found.None? {
        return Refused(NoSuchManager);
      }
      if usageDown {
        return Refused(RouterDown);
      }
      var used := ManagerUsedQuota(id);
      if quota < used {
        return Refused(QuotaBelowUsage);
      }
      if quota <= 0 {
        return Refused(DatabaseFailed);
      }
      store.UpdateManagerQuota(id, quota);
      reply := Ok(id);
    }

    // -------------------------------------------------------------- healing on read

    method LiveMap() returns (mtMap: map<string, int>)
      requires Valid(Now())
      ensures SharedUsersByName(mt.users, mtMap)
    {
      var list := mt.ListUsers();
      mtMap := MikrotikSharedUsersByName(list, mt.users);
    }

    /** One row of the overlay: write the live value if it differs and the write is not lost. */
    method HealRow(ghost w: World, ghost f: Filter, rows: seq<RenewalSharedUsersRow>, n: int,
                   ghost latest: map<string, int>,
                   current: bool, mtMap: map<string, int>, lost: set<int>) returns (su: int)
      requires 0 <= n < |rows| && (current <==> IsPicked(latest, rows[n]))
      requires Valid(w) && IsRenewalListing(w.db, f, rows) && IsLatestMap(rows, latest)
      requires SharedUsersByName(w.router.users, mtMap) && 0 <= n < |rows|
      requires HealedSoFar(w, store.State(), rows, n, PickOf(rows, latest), lost)
      modifies store
      ensures HealedSoFar(w, store.State(), rows, n + 1, PickOf(rows, latest), lost)
      ensures rows[n].id in w.db.acts && su == Shown(w, PickOf(rows, latest), rows[n].id)
    {
      var r := rows[n];
      RowShown(w, f, rows, latest, mtMap, r.id);
      assert IdsOf(rows)[..n + 1] == IdsOf(rows)[..n] + [r.id];
      assert r.id !in IdsOf(rows)[..n];
      PickedIsVisible(w.db, f, rows, latest, r.id, w.now);
      su := r.sharedUsers;
      if current {
        su := LiveSharedUsers(mtMap, r.name, su);
        if su != r.sharedUsers && r.id !in lost {
          store.UpdateActivationSharedUsers(r.id, su);
        }
      }
    }

    /**
     * The renewal page. None stands for the failed router listing. The ghost result names the rows treated as
     * current; the page's items are updated in place.
     */
    method ApplyRenewalsLiveSharedUsers(f: Filter, items: array<RenewalSharedUsersRow>, listDown: bool, lost: set<int>)
      returns (summary: Option<Summary>, ghost pick: set<int>)
      requires Valid(Now())
      requires forall k :: 0 <= k < items.Length ==>
                 && items[k].id in store.acts && store.acts[items[k].id].metaID in store.metas
                 && items[k] == RowOf(store.State(), items[k].id)
      modifies store, items
      ensures ValidPick(old(store.State()), f, pick)
      ensures Now() == S.Heal(old(Now()), f, pick, lost, listDown).0
      ensures summary == if !f.settled.OnlySettled? && listDown then None
                         else Some(Summary(Total(ShownUnsettled(old(Now()), f, pick)),
                                           Total(ShownAll(old(Now()), f, pick))))
      ensures forall k :: 0 <= k < items.Length ==>
                items[k] == if f.settled.OnlySettled? || listDown then old(items[k])
                            else old(items[k]).(sharedUsers := Shown(old(Now()), pick, old(items[k]).id))
    {
      ghost var w := Now();
      var rows := store.ListRenewalSharedUsersInScope(f);
      var latest := LatestUnsettledPerUser(rows);
      pick := PickOf(rows, latest);
      PickIsValid(w.db, f, rows, latest, w.now);
      if f.settled.OnlySettled? {
        var sums := SumStored(w, f, rows);
        SettledListingShowsStored(w, f, pick);
        return Some(sums), pick;
      }
      if listDown {
        return None, pick;
      }
      var mtMap := LiveMap();
      var sums := HealListed(w, f, rows, latest, mtMap, lost);
      OverlayItems(w, f, rows, latest, mtMap, items);
      summary := Some(sums);
    }

    /** The loop itself: heal and add up row by row. */
    method HealLoop(ghost w: World, ghost f: Filter, rows: seq<RenewalSharedUsersRow>, latest: map<string, int>,
                    mtMap: map<string, int>, lost: set<int>) returns (unsettledSum: int, allSum: int)
      requires Valid(w) && w.db == store.State() && IsRenewalListing(w.db, f, rows) && IsLatestMap(rows, latest)
      requires SharedUsersByName(w.router.users, mtMap)
      modifies store
      ensures HealedSoFar(w, store.State(), rows, |rows|, PickOf(rows, latest), lost)
      ensures SumsSoFar(w, PickOf(rows, latest), rows, |rows|, unsettledSum, allSum)
    {
      ghost var pick := PickOf(rows, latest);
      unsettledSum, allSum := 0, 0;
      for n := 0 to |rows|
        invariant HealedSoFar(w, store.State(), rows, n, pick, lost)
        invariant SumsSoFar(w, pick, rows, n, unsettledSum, allSum)
      {
        unsettledSum, allSum := HealAndAdd(w, f, rows, n, latest, mtMap, lost, unsettledSum, allSum);
      }
    }

    /** The body of that loop. */
    method HealAndAdd(ghost w: World, ghost f: Filter, rows: seq<RenewalSharedUsersRow>, n: int,
                      latest: map<string, int>,
                      mtMap: map<string, int>, lost: set<int>, unsettledBefore: int, allBefore: int)
      returns (unsettledSum: int, allSum: int)
      requires 0 <= n < |rows| && Valid(w) && IsRenewalListing(w.db, f, rows) && IsLatestMap(rows, latest)
      requires SharedUsersByName(w.router.users, mtMap)
      requires HealedSoFar(w, store.State(), rows, n, PickOf(rows, latest), lost)
      requires SumsSoFar(w, PickOf(rows, latest), rows, n, unsettledBefore, allBefore)
      modifies store
      ensures HealedSoFar(w, store.State(), rows, n + 1, PickOf(rows, latest), lost)
      ensures SumsSoFar(w, PickOf(rows, latest), rows, n + 1, unsettledSum, allSum)
    {
      unsettledSum, allSum := unsettledBefore, allBefore;
      var su := HealRow(w, f, rows, n, latest, IsPicked(latest, rows[n]), mtMap, lost);
      if !rows[n].settled {
        unsettledSum := unsettledSum + su;
      }
      allSum := allSum + su;
      SumsStep(w, PickOf(rows, latest), rows, n, unsettledBefore, allBefore);
    }

    method HealListed(ghost w: World, ghost f: Filter, rows: seq<RenewalSharedUsersRow>, latest: map<string, int>,
                      mtMap: map<string, int>, lost: set<int>) returns (sums: Summary)
      requires Valid(w) && w == Now() && IsRenewalListing(w.db, f, rows) && IsLatestMap(rows, latest)
      requires SharedUsersByName(w.router.users, mtMap)
      modifies store
      ensures Now() == HealRows(w, PickOf(rows, latest), lost)
      ensures var pick := PickOf(rows, latest);
              sums == Summary(Total(ShownUnsettled(w, f, pick)), Total(ShownAll(w, f, pick)))
    {
      var unsettledSum, allSum := HealLoop(w, f, rows, latest, mtMap, lost);
      AllHealed(w, f, rows, latest, lost, store.State());
      SumsAreTotals(w, f, rows, PickOf(rows, latest));
      sums := Summary(unsettledSum, allSum);
    }

    method OverlayItems(ghost w: World, ghost f: Filter, ghost rows: seq<RenewalSharedUsersRow>,
                        latest: map<string, int>,
                        mtMap: map<string, int>, items: array<RenewalSharedUsersRow>)
      requires Valid(w) && IsRenewalListing(w.db, f, rows) && IsLatestMap(rows, latest)
      requires SharedUsersByName(w.router.users, mtMap)
      requires forall k :: 0 <= k < items.Length ==>
                 && items[k].id in w.db.acts && w.db.acts[items[k].id].metaID in w.db.metas
                 && items[k] == RowOf(w.db, items[k].id)
      modifies items
      ensures forall k :: 0 <= k < items.Length ==>
                items[k] == old(items[k]).(sharedUsers := Shown(w, PickOf(rows, latest), old(items[k]).id))
    {
      hide Valid, IsRenewalListing, IsLatestMap, SharedUsersByName, PickOf;
      for k := 0 to items.Length
        invariant forall j :: 0 <= j < k ==>
                    items[j] == old(items[j]).(sharedUsers := Shown(w, PickOf(rows, latest), old(items[j]).id))
        invariant forall j :: k <= j < items.Length ==> items[j] == old(items[j])
      {
        RowShown(w, f, rows, latest, mtMap, items[k].id);
        if items[k].settled {
          continue;
        }
        if items[k].name in latest && latest[items[k].name] == items[k].id {
          items[k] := items[k].(sharedUsers := LiveSharedUsers(mtMap, items[k].name, items[k].sharedUsers));
        }
      }
    }

    /** The detail view's loop: only the first unsettled row of the user's ledger follows the router. */
    method ActivationsWithLiveShared(m: int, listDown: bool, lost: set<int>)
      returns (shown: seq<RenewalSharedUsersRow>, ghost pick: set<int>)
      requires Valid(Now())
      modifies store
      ensures ValidPick(old(store.State()), DetailFilter(m), pick)
      ensures Now() == S.Heal(old(Now()), DetailFilter(m), pick, lost, listDown).0
      ensures forall k :: 0 <= k < |shown| ==>
                && shown[k].id in old(store.acts) && old(store.acts)[shown[k].id].metaID == m
                && shown[k] == RowOf(old(store.State()), shown[k].id).(sharedUsers :=
                     if listDown then old(store.acts)[shown[k].id].sharedUsers
                     else Shown(old(Now()), pick, shown[k].id))
      ensures forall i :: i in old(store.acts) && old(store.acts)[i].metaID == m ==> i in IdsOf(shown)
    {
      ghost var w := Now();
      ghost var f := DetailFilter(m);
      var rows := store.ListRenewalSharedUsersInScope(DetailFilter(m));
      ghost var latest := LatestUnsettledPerUser(rows);
      pick := PickOf(rows, latest);
      PickIsValid(w.db, f, rows, latest, w.now);
      forall i
        ensures Visible(w.db, f, i) <==> i in w.db.acts && w.db.acts[i].metaID == m
      {
        DetailIsLedger(w.db, m, i, w.now);
      }
      if listDown {
        return rows, pick;
      }
      var mtMap := LiveMap();
      shown := DetailLoop(w, m, rows, latest, mtMap, lost);
      AllHealed(w, f, rows, latest, lost, store.State());
      assert IdsOf(shown) == IdsOf(rows);
    }

    method DetailLoop(ghost w: World, m: int, rows: seq<RenewalSharedUsersRow>, ghost latest: map<string, int>,
                      mtMap: map<string, int>, lost: set<int>) returns (shown: seq<RenewalSharedUsersRow>)
      requires Valid(w) && w.db == store.State()
      requires IsRenewalListing(w.db, DetailFilter(m), rows) && IsLatestMap(rows, latest)
      requires SharedUsersByName(w.router.users, mtMap)
      modifies store
      ensures HealedSoFar(w, store.State(), rows, |rows|, PickOf(rows, latest), lost)
      ensures |shown| == |rows| && ShownSoFar(w, PickOf(rows, latest), rows, shown)
    {
      ghost var pick := PickOf(rows, latest);
      shown := [];
      var synced := false;
      for n := 0 to |rows|
        invariant HealedSoFar(w, store.State(), rows, n, pick, lost)
        invariant synced <==> AnyOpen(rows, n)
        invariant |shown| == n && ShownSoFar(w, pick, rows, shown)
      {
        DetailPicks(w, m, rows, latest, n, synced);
        var su := HealRow(w, DetailFilter(m), rows, n, latest, !rows[n].settled && !synced, mtMap, lost);
        synced := synced || !rows[n].settled;
        ShownStep(w, pick, rows, shown);
        shown := shown + [rows[n].(sharedUsers := su)];
      }
    }
  }

  ghost predicate ShownSoFar(w: World, pick: set<int>, rows: seq<RenewalSharedUsersRow>,
                             shown: seq<RenewalSharedUsersRow>)
  {
    |shown| <= |rows| && forall k :: 0 <= k < |shown| ==> ShownFor(w, pick, rows[k], shown[k])
  }

  lemma ShownStep(w: World, pick: set<int>, rows: seq<RenewalSharedUsersRow>, shown: seq<RenewalSharedUsersRow>)
    requires ShownSoFar(w, pick, rows, shown) && |shown| < |rows|
    ensures rows[|shown|].id in w.db.acts ==>
              ShownSoFar(w, pick, rows, shown + [rows[|shown|].(sharedUsers := Shown(w, pick, rows[|shown|].id))])
  {
  }

  /** One of the first n rows is unsettled. */
  predicate AnyOpen(rows: seq<RenewalSharedUsersRow>, n: int)
    requires 0 <= n <= |rows|
  {
    n > 0 && (AnyOpen(rows, n - 1) || !rows[n - 1].settled)
  }

  lemma {:induction false} AnyOpenMeans(rows: seq<RenewalSharedUsersRow>, n: int)
    requires 0 <= n <= |rows|
    ensures AnyOpen(rows, n) <==> exists j :: 0 <= j < n && !rows[j].settled
  {
    if n > 0 {
      AnyOpenMeans(rows, n - 1);
    }
  }

  /** The finished line for a listed row. */
  ghost predicate ShownFor(w: World, pick: set<int>, row: RenewalSharedUsersRow, line: RenewalSharedUsersRow) {
    row.id in w.db.acts && line == row.(sharedUsers := Shown(w, pick, row.id))
  }

  /** The loop over the listed rows has reached n: the first n picked rows are written, the rest untouched. */
  ghost predicate HealedSoFar(w: World, db: Db, rows: seq<RenewalSharedUsersRow>, n: int, pick: set<int>,
                              lost: set<int>)
    requires 0 <= n <= |rows|
  {
    && db == w.db.(acts := db.acts) && db.acts.Keys == w.db.acts.Keys
    && forall i :: i in w.db.acts ==>
         db.acts[i] == if i in IdsOf(rows)[..n] then HealedRow(w, pick, lost, i) else w.db.acts[i]
  }

  lemma SettledListingShowsStored(w: World, f: Filter, pick: set<int>)
    requires f.settled.OnlySettled? && ValidPick(w.db, f, pick)
    ensures ShownAll(w, f, pick) == ShownAll(w, f, {}) && ShownUnsettled(w, f, pick) == ShownUnsettled(w, f, {})
    ensures Total(ShownAll(w, f, pick)) == StoredSum(w.db, f)
    ensures Total(ShownUnsettled(w, f, pick)) == StoredUnsettledSum(w.db, f)
  {
    forall i | i in w.db.acts && Visible(w.db, f, i)
      ensures i !in pick
    {
      assert i in pick ==> PickFor(w.db, f, pick, i);
    }
    assert ShownAll(w, f, pick) == map i | i in w.db.acts && Visible(w.db, f, i) :: w.db.acts[i].sharedUsers;
    assert ShownUnsettled(w, f, pick) ==
      map i | i in w.db.acts && Visible(w.db, f, i) :: if w.db.acts[i].settled then 0 else w.db.acts[i].sharedUsers;
  }

  /** Rows outside the listing are not picked, so the finished loop has healed the whole ledger. */
  lemma AllHealed(w: World, f: Filter, rows: seq<RenewalSharedUsersRow>, latest: map<string, int>, lost: set<int>,
                  db: Db)
    requires Valid(w) && IsRenewalListing(w.db, f, rows) && IsLatestMap(rows, latest)
    requires HealedSoFar(w, db, rows, |rows|, PickOf(rows, latest), lost)
    ensures db == HealRows(w, PickOf(rows, latest), lost).db
  {
    assert IdsOf(rows)[..|rows|] == IdsOf(rows);
    forall i | i in w.db.acts
      ensures db.acts[i] == HealedRow(w, PickOf(rows, latest), lost, i)
    {
      PickOfRow(w.db, f, rows, latest, i);
    }
    SameRows(db.acts, HealRows(w, PickOf(rows, latest), lost).db.acts);
  }

  /** The rows of a detail view belong to one user. */
  lemma OneUserListed(w: World, m: int, rows: seq<RenewalSharedUsersRow>)
    requires Valid(w) && IsRenewalListing(w.db, DetailFilter(m), rows)
    ensures forall j, k :: 0 <= j < |rows| && 0 <= k < |rows| ==>
              rows[j].name == rows[k].name && (rows[j].id == rows[k].id ==> j == k)
  {
    hide WellFormed, ManagersOk;
    forall j | 0 <= j < |rows|
      ensures m in w.db.metas && rows[j].name == w.db.metas[m].name
    {
      assert Visible(w.db, DetailFilter(m), rows[j].id);
    }
    assert forall j, k :: 0 <= j < k < |rows| ==> rows[j].id != rows[k].id;
  }

  /** In one user's ledger the first unsettled row is the picked one. */
  lemma DetailPicks(w: World, m: int, rows: seq<RenewalSharedUsersRow>, latest: map<string, int>, n: int, synced: bool)
    requires Valid(w) && IsRenewalListing(w.db, DetailFilter(m), rows) && IsLatestMap(rows, latest)
    requires 0 <= n < |rows| && (synced <==> AnyOpen(rows, n))
    ensures IsPicked(latest, rows[n]) <==> !rows[n].settled && !synced
  {
    hide Valid, IsRenewalListing;
    AnyOpenMeans(rows, n);
    OneUserListed(w, m, rows);
    if !rows[n].settled {
      assert UnsettledNamed(rows, rows[n].name, n);
      var k :| FirstUnsettled(rows, rows[n].name, k) && latest[rows[n].name] == rows[k].id;
      assert forall j :: 0 <= j < n && !rows[j].settled ==> UnsettledNamed(rows, rows[n].name, j);
    }
  }

  lemma ManagersNumbered(db: Db, now: int)
    requires DbOk(db, now)
    ensures IdsNonzero(Infos(db.managers))
  {
  }
}
