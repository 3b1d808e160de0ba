/** One handler, one step: how each request changes the router and the database, call by call. */
module Steps {
  import opened Models
  import opened Text
  import opened Owner
  import opened Router
  import opened Quota
  import opened Tables

  datatype Config = Config(separator: string, localMaxLen: int, sharedUsersMax: int, defaultProfile: string)

  datatype World = World(cfg: Config, router: RouterState, db: Db, now: int)

  datatype Refusal =
    | BadRequest | NoSuchUser | NoSuchManager | QuotaExceeded | QuotaBelowUsage | Taken | NotOwner | OrphanNoOwner
    | OwnerDbMismatch | SlugOverlap | NotInScope | RouterDown | RouterRefused(error: Error) | CertificateFailed
    | DatabaseFailed

  datatype Reply = Ok(id: int) | Refused(why: Refusal)

  ghost function Reg(w: World): Registry {
    Registry(w.cfg.separator, Infos(w.db.managers))
  }

  ghost function UsedBy(w: World, id: int): int {
    Used(Reg(w), id, w.router, w.now)
  }

  /** The end of the first active row, which the ledger keeps with an activation. */
  ghost function FirstActiveEnd(rows: seq<ProfileRow>, now: int): Option<int> {
    if rows == [] then None
    else if ProfileActive(rows[0], now) then rows[0].endTime
    else FirstActiveEnd(rows[1..], now)
  }

  // ---------------------------------------------------------------- creating a user

  datatype CreateReq = CreateReq(
    localName: string, password: Option<string>, sharedUsers: int, disabled: bool,
    contact: Option<string>, notes: Option<string>, assign: bool, profileName: Option<string>)

  /** Which outside calls fail, each without effect; the last five follow the router's AddUser. */
  datatype CreateFaults = CreateFaults(
    usageDown: bool, addDown: bool,
    certFails: bool, metaDown: bool, profileDown: bool, rowsDown: bool, activationDown: bool,
    undoUserDown: bool, undoMetaDown: bool)

  function ProfileOf(cfg: Config, req: CreateReq): string {
    if req.profileName.Some? && req.profileName.value != "" then req.profileName.value else cfg.defaultProfile
  }

  /** The compensating router call. */
  function Undo(w: World, name: string, f: CreateFaults): World {
    if f.undoUserDown then w else w.(router := RemoveUser(w.router, name).0)
  }

  function UndoMeta(w: World, m: int, f: CreateFaults): World {
    if f.undoMetaDown then w else w.(db := DeleteMeta(w.db, m))
  }

  /** Everything after the router's AddUser: certificate, row, profile, activation, with compensation. */
  ghost function FinishCreate(w: World, name: string, managerID: Option<int>, req: CreateReq, f: CreateFaults)
    : (World, Reply)
  {
    if f.certFails then (Undo(w, name, f), Refused(CertificateFailed))
    else
      var (db1, m) := InsertMeta(w.db, name, managerID, req.contact, req.notes);
      if f.metaDown || m.None? then (Undo(w, name, f), Refused(DatabaseFailed))
      else
        var w1 := w.(db := db1);
        if !req.assign then (w1, Ok(m.value))
        else
          var profile := ProfileOf(w.cfg, req);
          var (r2, o) := AddUserProfile(w1.router, name, profile, w.now);
          if f.profileDown then (UndoMeta(Undo(w1, name, f), m.value, f), Refused(RouterDown))
          else if o.Failed? then (UndoMeta(Undo(w1, name, f), m.value, f), Refused(RouterRefused(o.error)))
          else (w1.(router := r2,
                    db := Record(db1, r2, name, m.value, profile, req.sharedUsers, f.rowsDown, f.activationDown,
                                 w.now)),
                Ok(m.value))
  }

  /** Recording an activation; a failed insert is only logged. */
  ghost function Record(db: Db, r: RouterState, name: string, m: int, profile: string, shared: int, rowsDown: bool,
                        activationDown: bool, now: int): Db
  {
    if activationDown then db
    else InsertActivation(db, m, profile, shared, FirstActiveEnd(if rowsDown then [] else Rows(r, name), now), now)
  }

  ghost predicate SharedInRange(w: World, req: CreateReq) {
    1 <= req.sharedUsers <= w.cfg.sharedUsersMax
  }

  ghost function CreateVPN(w: World, managerID: int, req: CreateReq, f: CreateFaults): (World, Reply) {
    var found := FindManager(w.db.managers, managerID);
    if found.None? then (w, Refused(NoSuchManager))
    else
      var mgr := found.value;
      if |req.localName| > w.cfg.localMaxLen || req.password.None? || !SharedInRange(w, req)
      then (w, Refused(BadRequest))
      else
        var name := CreatedName(w.cfg.separator, mgr.slug, req.localName);
        if f.usageDown then (w, Refused(RouterDown))
        else if req.assign && !CheckAdd(UsedBy(w, mgr.id), mgr.quota, req.sharedUsers) then (w, Refused(QuotaExceeded))
        else if f.addDown then (w, Refused(RouterDown))
        else
          var (r1, o) := AddUser(w.router, name, req.password.value, PanelComment(mgr.slug), req.sharedUsers,
                                 req.disabled);
          if o.Failed? then (w, Refused(Taken))
          else FinishCreate(w.(router := r1), name, Some(mgr.id), req, f)
  }

  ghost function CreateOrphan(w: World, req: CreateReq, f: CreateFaults): (World, Reply) {
    var name := TrimSpace(req.localName);
    if name == "" || |name| > 32 || req.password.None? || !SharedInRange(w, req) then (w, Refused(BadRequest))
    else if f.addDown then (w, Refused(RouterDown))
    else
      var (r1, o) := AddUser(w.router, name, req.password.value, "", req.sharedUsers, req.disabled);
      if o.Failed? then (w, Refused(Taken))
      else FinishCreate(w.(router := r1), name, None, req, f)
  }

  // ---------------------------------------------------------------- patching a user

  datatype PatchReq = PatchReq(
    badPassword: bool, password: Option<string>, sharedUsers: Option<int>, disabled: Option<bool>,
    contact: Option<string>, notes: Option<string>, syncManager: Option<int>)

  datatype PatchFaults = PatchFaults(getDown: bool, usageDown: bool, rowsDown: bool, setDown: bool, ledgerDown: bool,
                                     metaDown: bool)

  /** The comment a patch writes: the resolved owner's token; an orphan keeps its comment. */
  ghost function PatchedComment(w: World, u: User): string {
    var owner := FindManager(w.db.managers, Resolve(Reg(w), u.name, u.comment));
    if owner.Some? then PanelComment(owner.value.slug) else u.comment
  }

  /** The checks a patch passes before it writes, as the refusal of the first that fails. */
  ghost function PatchRefusal(w: World, u: User, req: PatchReq, f: PatchFaults): Option<Refusal> {
    var owner := Resolve(Reg(w), u.name, u.comment);
    var mgr := FindManager(w.db.managers, owner);
    if req.badPassword then Some(BadRequest)
    else if req.sharedUsers.Some? && mgr.Some? && f.usageDown then Some(RouterDown)
    else if req.sharedUsers.Some? && mgr.Some? && !f.rowsDown && HasActive(Rows(w.router, u.name), w.now) &&
            !CheckIncrease(UsedBy(w, owner), mgr.value.quota, u.sharedUsers, req.sharedUsers.value)
    then Some(QuotaExceeded)
    else if req.syncManager.Some? && owner == 0 then Some(OrphanNoOwner)
    else if req.syncManager.Some? && req.syncManager.value != owner then Some(OwnerDbMismatch)
    else if f.setDown then Some(RouterDown)
    else None
  }

  /** The writes of a patch that passed its checks. */
  ghost function PatchWrites(w: World, m: int, u: User, req: PatchReq, f: PatchFaults): (World, Reply) {
    var r1 := SetUser(w.router, u.name, req.password, req.sharedUsers, PatchedComment(w, u), req.disabled).0;
    var db1 := if req.sharedUsers.Some? && !f.ledgerDown then UpdateNewest(w.db, m, req.sharedUsers.value) else w.db;
    if f.metaDown then (w.(router := r1, db := db1), Refused(DatabaseFailed))
    else (w.(router := r1, db := UpdateMeta(db1, m, req.contact, req.notes, req.syncManager)), Ok(m))
  }

  ghost predicate OnRouter(w: World, m: int) {
    m in w.db.metas && w.db.metas[m].name in w.router.users
  }

  ghost function Patch(w: World, m: int, req: PatchReq, f: PatchFaults): (World, Reply) {
    if m !in w.db.metas then (w, Refused(NoSuchUser))
    else if f.getDown then (w, Refused(RouterDown))
    else if !OnRouter(w, m) then (w, Refused(RouterRefused(NotFound)))
    else
      var u := w.router.users[w.db.metas[m].name];
      var refusal := PatchRefusal(w, u, req, f);
      if refusal.Some? then (w, Refused(refusal.value)) else PatchWrites(w, m, u, req, f)
  }

  // ---------------------------------------------------------------- renewing, removing, adopting

  datatype AssignFaults = AssignFaults(getDown: bool, addDown: bool, rowsDown: bool, activationDown: bool)

  /** A renewal: no quota check is made. */
  ghost function Assign(w: World, m: int, profile: string, f: AssignFaults): (World, Reply) {
    if m !in w.db.metas then (w, Refused(NoSuchUser))
    else if f.getDown then (w, Refused(RouterDown))
    else if !OnRouter(w, m) then (w, Refused(RouterRefused(NotFound)))
    else
      var u := w.router.users[w.db.metas[m].name];
      if Resolve(Reg(w), u.name, u.comment) == 0 then (w, Refused(OrphanNoOwner))
      else if f.addDown then (w, Refused(RouterDown))
      else
        var (r1, o) := AddUserProfile(w.router, u.name, profile, w.now);
        if o.Failed? then (w, Refused(RouterRefused(o.error)))
        else (w.(router := r1,
                 db := Record(w.db, r1, u.name, m, profile, u.sharedUsers, f.rowsDown, f.activationDown, w.now)), Ok(m))
  }

  ghost function RemoveRow(w: World, rowID: string, down: bool): (World, Reply) {
    if down then (w, Refused(RouterDown))
    else
      var (r1, o) := RemoveUserProfile(w.router, rowID);
      if o.Failed? then (w, Refused(RouterRefused(o.error))) else (w.(router := r1), Ok(0))
  }

  /** A failing router removal is ignored; the row goes anyway. */
  function Delete(w: World, m: int, removeDown: bool, metaDown: bool): (World, Reply) {
    if m !in w.db.metas then (w, Refused(NoSuchUser))
    else
      var r1 := if removeDown then w.router else RemoveUser(w.router, w.db.metas[m].name).0;
      if metaDown then (w.(router := r1), Refused(DatabaseFailed))
      else (w.(router := r1, db := DeleteMeta(w.db, m)), Ok(m))
  }

  ghost function MetaByName(db: Db, name: string): Option<int> {
    if NameKnown(db, name) then var m :| MetaNamed(db, m, name); Some(m) else None
  }

  ghost function DeleteByName(w: World, name: string, removeDown: bool, metaDown: bool): (World, Reply) {
    var m := MetaByName(w.db, name);
    if m.Some? then Delete(w, m.value, removeDown, metaDown)
    else if removeDown then (w, Refused(RouterDown))
    else
      var (r1, o) := RemoveUser(w.router, name);
      if o.Failed? then (w, Refused(RouterRefused(o.error))) else (w.(router := r1), Ok(0))
  }

  function OwnerRef(owner: int): Option<int> {
    if owner != 0 then Some(owner) else None
  }

  /** Giving a router user a database row; a manager may adopt only its own users. */
  ghost function Adopt(w: World, name: string, asManager: Option<int>, getDown: bool, metaDown: bool): (World, Reply) {
    var m := MetaByName(w.db, name);
    if m.Some? then (w, Ok(m.value))
    else if getDown then (w, Refused(RouterDown))
    else if name !in w.router.users then (w, Refused(RouterRefused(NotFound)))
    else
      var u := w.router.users[name];
      var owner := Resolve(Reg(w), u.name, u.comment);
      if asManager.Some? && owner != asManager.value then (w, Refused(NotOwner))
      else
        var (db1, inserted) := InsertMeta(w.db, name, OwnerRef(owner), None, None);
        if metaDown || inserted.None? then (w, Refused(DatabaseFailed)) else (w.(db := db1), Ok(inserted.value))
  }

  // ---------------------------------------------------------------- settling, managers

  function Settle(w: World, adminID: int, scope: Scope, actID: int): (World, Reply) {
    var (db1, n) := SettleThrough(w.db, adminID, scope, actID, w.now);
    if n.None? then (w, Refused(NotInScope)) else (w.(db := db1), Ok(n.value))
  }

  /** When the slug listing fails, the overlap check sees no slugs at all. */
  function CreateManager(w: World, username: string, slug: string, quota: int, slugsListed: bool): (World, Reply) {
    if quota < 1 then (w, Refused(BadRequest))
    else if SlugOverlaps(slug, if slugsListed then Infos(w.db.managers) else [], 0) then (w, Refused(SlugOverlap))
    else
      var (db1, id) := InsertManager(w.db, username, slug, quota);
      if id.None? then (w, Refused(Taken)) else (w.(db := db1), Ok(id.value))
  }

  ghost function PatchQuota(w: World, id: int, quota: int, usageDown: bool): (World, Reply) {
    if FindManager(w.db.managers, id).None? then (w, Refused(NoSuchManager))
    else if usageDown then (w, Refused(RouterDown))
    else if quota < UsedBy(w, id) then (w, Refused(QuotaBelowUsage))
    else if quota <= 0 then (w, Refused(DatabaseFailed))
    else (w.(db := SetQuota(w.db, id, quota)), Ok(id))
  }

  // ---------------------------------------------------------------- healing on read

  /**
   * One choice per user of the row the overlay treats as current: an unsettled visible row, none newer by
   * instant. Listings order by instant alone, so ties leave a choice.
   */
  ghost predicate PickFor(db: Db, f: Filter, pick: set<int>, i: int) {
    && Visible(db, f, i) && !db.acts[i].settled
    && (forall j :: VisibleUnsettledOf(db, f, db.acts[i].metaID, j) ==> db.acts[j].createdAt <= db.acts[i].createdAt)
    && (forall j :: j in pick && j in db.acts && db.acts[j].metaID == db.acts[i].metaID ==> j == i)
  }

  ghost predicate HasPick(db: Db, pick: set<int>, m: int) {
    exists i :: i in pick && i in db.acts && db.acts[i].metaID == m
  }

  ghost predicate ValidPick(db: Db, f: Filter, pick: set<int>) {
    && (forall i :: i in pick ==> PickFor(db, f, pick, i))
    && (forall i :: Visible(db, f, i) && !db.acts[i].settled ==> HasPick(db, pick, db.acts[i].metaID))
  }

  /** The value the router has for a row's user, or the stored one when the user is not on the router. */
  function Live(w: World, i: int): int
    requires i in w.db.acts
  {
    var a := w.db.acts[i];
    if a.metaID in w.db.metas && w.db.metas[a.metaID].name in w.router.users
    then w.router.users[w.db.metas[a.metaID].name].sharedUsers else a.sharedUsers
  }

  /** A write that fails, or that the CHECK constraint rejects, is ignored. */
  function HealedRow(w: World, pick: set<int>, lost: set<int>, i: int): Activation
    requires i in w.db.acts
  {
    if i in pick && i !in lost && Live(w, i) > 0 then w.db.acts[i].(sharedUsers := Live(w, i)) else w.db.acts[i]
  }

  function HealRows(w: World, pick: set<int>, lost: set<int>): World {
    w.(db := w.db.(acts := map i | i in w.db.acts :: HealedRow(w, pick, lost, i)))
  }

  /** A listing of settled rows only does not look at the router. */
  ghost function Heal(w: World, f: Filter, pick: set<int>, lost: set<int>, listDown: bool): (World, Reply) {
    if f.settled.OnlySettled? || !ValidPick(w.db, f, pick) then (w, Ok(0))
    else if listDown then (w, Refused(RouterDown))
    else (HealRows(w, pick, lost), Ok(0))
  }

  /** The filter that a user's detail view amounts to. */
  function DetailFilter(m: int): Filter {
    Filter(AnyScope, AllRows, None, None, (meta: Meta) => meta.id == m)
  }

  // ---------------------------------------------------------------- events and runs

  datatype Event =
    | ECreate(managerID: int, createReq: CreateReq, createFaults: CreateFaults)
    | EOrphan(createReq: CreateReq, createFaults: CreateFaults)
    | EPatch(m: int, patchReq: PatchReq, patchFaults: PatchFaults)
    | EAssign(m: int, profile: string, assignFaults: AssignFaults)
    | ERemoveRow(rowID: string, down: bool)
    | EDelete(m: int, removeDown: bool, metaDown: bool)
    | EDeleteByName(name: string, removeDown: bool, metaDown: bool)
    | EAdopt(name: string, asManager: Option<int>, getDown: bool, metaDown: bool)
    | ESettle(adminID: int, scope: Scope, actID: int)
    | EManager(username: string, slug: string, quota: int, slugsListed: bool)
    | EQuota(managerID: int, quota: int, usageDown: bool)
    | EHeal(filter: Filter, pick: set<int>, lost: set<int>, listDown: bool)
    | ETick(seconds: nat)
    | EOutside(write: Write)

  ghost function Respond(w: World, e: Event): (World, Reply) {
    match e
    case ECreate(id, req, f) => CreateVPN(w, id, req, f)
    case EOrphan(req, f) => CreateOrphan(w, req, f)
    case EPatch(m, req, f) => Patch(w, m, req, f)
    case EAssign(m, profile, f) => Assign(w, m, profile, f)
    case ERemoveRow(rowID, down) => RemoveRow(w, rowID, down)
    case EDelete(m, removeDown, metaDown) => Delete(w, m, removeDown, metaDown)
    case EDeleteByName(name, removeDown, metaDown) => DeleteByName(w, name, removeDown, metaDown)
    case EAdopt(name, asManager, getDown, metaDown) => Adopt(w, name, asManager, getDown, metaDown)
    case ESettle(adminID, scope, actID) => Settle(w, adminID, scope, actID)
    case EManager(username, slug, quota, listed) => CreateManager(w, username, slug, quota, listed)
    case EQuota(id, quota, down) => PatchQuota(w, id, quota, down)
    case EHeal(filter, pick, lost, down) => Heal(w, filter, pick, lost, down)
    case ETick(seconds) => (w.(now := w.now + seconds), Ok(0))
    case EOutside(write) => (w.(router := ApplyWrite(w.router, write).0), Ok(0))
  }

  ghost function Step(w: World, e: Event): World {
    Respond(w, e).0
  }

  ghost function Run(w: World, es: seq<Event>): World
    decreases |es|
  {
    if es == [] then w else Run(Step(w, es[0]), es[1..])
  }

  function Start(cfg: Config): World {
    World(cfg, InitialRouter(), EmptyDb(), 0)
  }

  // ---------------------------------------------------------------- what every reachable world satisfies

  ghost predicate Valid(w: World) {
    WellFormed(w.router) && DbOk(w.db, w.now)
  }

  lemma RecordOk(db: Db, r: RouterState, name: string, m: int, profile: string, shared: int, rowsDown: bool,
                 activationDown: bool, now: int)
    requires DbOk(db, now)
    ensures DbOk(Record(db, r, name, m, profile, shared, rowsDown, activationDown, now), now)
  {
    if !activationDown {
      InsertActivationOk(db, m, profile, shared, FirstActiveEnd(if rowsDown then [] else Rows(r, name), now), now);
    }
  }

  lemma FinishCreateValid(w: World, name: string, managerID: Option<int>, req: CreateReq, f: CreateFaults)
    requires Valid(w)
    ensures Valid(FinishCreate(w, name, managerID, req, f).0)
  {
    hide DbOk, WellFormed, InsertMeta, DeleteMeta, AddUserProfile, RemoveUser, Record;
    RemoveUserKeeps(w.router, name);
    InsertMetaOk(w.db, name, managerID, req.contact, req.notes, w.now);
    var (db1, m) := InsertMeta(w.db, name, managerID, req.contact, req.notes);
    if m.Some? {
      var profile := ProfileOf(w.cfg, req);
      AddUserProfileKeeps(w.router, name, profile, w.now);
      DeleteMetaOk(db1, m.value, w.now);
      RecordOk(db1, AddUserProfile(w.router, name, profile, w.now).0, name, m.value, profile, req.sharedUsers,
               f.rowsDown, f.activationDown, w.now);
    }
  }

  lemma CreateValid(w: World, managerID: int, req: CreateReq, f: CreateFaults)
    requires Valid(w)
    ensures Valid(CreateVPN(w, managerID, req, f).0)
  {
    hide DbOk, WellFormed, AddUser, FinishCreate, UsedBy;
    var found := FindManager(w.db.managers, managerID);
    if found.Some? && req.password.Some? {
      var name := CreatedName(w.cfg.separator, found.value.slug, req.localName);
      var comment := PanelComment(found.value.slug);
      AddUserKeeps(w.router, name, req.password.value, comment, req.sharedUsers, req.disabled);
      var r1 := AddUser(w.router, name, req.password.value, comment, req.sharedUsers, req.disabled).0;
      FinishCreateValid(w.(router := r1), name, Some(found.value.id), req, f);
    }
  }

  lemma OrphanValid(w: World, req: CreateReq, f: CreateFaults)
    requires Valid(w)
    ensures Valid(CreateOrphan(w, req, f).0)
  {
    hide DbOk, WellFormed, AddUser, FinishCreate;
    var name := TrimSpace(req.localName);
    if req.password.Some? {
      AddUserKeeps(w.router, name, req.password.value, "", req.sharedUsers, req.disabled);
      var r1 := AddUser(w.router, name, req.password.value, "", req.sharedUsers, req.disabled).0;
      FinishCreateValid(w.(router := r1), name, None, req, f);
    }
  }

  lemma PatchValid(w: World, m: int, req: PatchReq, f: PatchFaults)
    requires Valid(w)
    ensures Valid(Patch(w, m, req, f).0)
  {
    hide DbOk, WellFormed, SetUser, UpdateNewest, UpdateMeta, PatchRefusal, PatchedComment;
    if OnRouter(w, m) {
      var u := w.router.users[w.db.metas[m].name];
      SetUserKeeps(w.router, u.name, req.password, req.sharedUsers, PatchedComment(w, u), req.disabled);
      var shared := GetOr(req.sharedUsers, 0);
      UpdateNewestOk(w.db, m, shared, w.now);
      UpdateMetaOk(w.db, m, req.contact, req.notes, req.syncManager, w.now);
      UpdateMetaOk(UpdateNewest(w.db, m, shared), m, req.contact, req.notes, req.syncManager, w.now);
    }
  }

  lemma AssignValid(w: World, m: int, profile: string, f: AssignFaults)
    requires Valid(w)
    ensures Valid(Assign(w, m, profile, f).0)
  {
    hide DbOk, WellFormed, AddUserProfile, Record, Resolve;
    if OnRouter(w, m) {
      var u := w.router.users[w.db.metas[m].name];
      AddUserProfileKeeps(w.router, u.name, profile, w.now);
      RecordOk(w.db, AddUserProfile(w.router, u.name, profile, w.now).0, u.name, m, profile, u.sharedUsers,
               f.rowsDown, f.activationDown, w.now);
    }
  }

  lemma DeleteValid(w: World, m: int, removeDown: bool, metaDown: bool)
    requires Valid(w)
    ensures Valid(Delete(w, m, removeDown, metaDown).0)
  {
    hide DbOk, WellFormed, RemoveUser, DeleteMeta;
    if m in w.db.metas {
      RemoveUserKeeps(w.router, w.db.metas[m].name);
      DeleteMetaOk(w.db, m, w.now);
    }
  }

  lemma MetaByNameIs(db: Db, name: string)
    ensures MetaByName(db, name).Some? <==> NameKnown(db, name)
    ensures MetaByName(db, name).Some? ==> MetaNamed(db, MetaByName(db, name).value, name)
  {
  }

  lemma HealRowsValid(w: World, pick: set<int>, lost: set<int>)
    requires Valid(w)
    ensures Valid(HealRows(w, pick, lost))
  {
    SameRefs(w.db, HealRows(w, pick, lost).db);
  }

  lemma DeleteByNameValid(w: World, name: string, removeDown: bool, metaDown: bool)
    requires Valid(w)
    ensures Valid(DeleteByName(w, name, removeDown, metaDown).0)
  {
    hide Delete, DbOk, WellFormed;
    RemoveUserKeeps(w.router, name);
    var m := MetaByName(w.db, name);
    if m.Some? {
      DeleteValid(w, m.value, removeDown, metaDown);
    }
  }

  lemma AdoptValid(w: World, name: string, asManager: Option<int>, getDown: bool, metaDown: bool)
    requires Valid(w)
    ensures Valid(Adopt(w, name, asManager, getDown, metaDown).0)
  {
    hide InsertMeta, DbOk, WellFormed;
    if name in w.router.users {
      var u := w.router.users[name];
      InsertMetaOk(w.db, name, OwnerRef(Resolve(Reg(w), u.name, u.comment)), None, None, w.now);
    }
  }

  lemma RemoveRowValid(w: World, rowID: string, down: bool)
    requires Valid(w)
    ensures Valid(RemoveRow(w, rowID, down).0)
  {
    hide RemoveUserProfile, DbOk, WellFormed;
    RemoveUserProfileKeeps(w.router, rowID);
  }

  lemma SettleValid(w: World, adminID: int, scope: Scope, actID: int)
    requires Valid(w)
    ensures Valid(Settle(w, adminID, scope, actID).0)
  {
    hide SettleThrough, DbOk, WellFormed;
    SettleThroughOk(w.db, adminID, scope, actID, w.now);
  }

  lemma CreateManagerValid(w: World, username: string, slug: string, quota: int, slugsListed: bool)
    requires Valid(w)
    ensures Valid(CreateManager(w, username, slug, quota, slugsListed).0)
  {
    hide InsertManager, DbOk, WellFormed;
    InsertManagerOk(w.db, username, slug, quota, w.now);
  }

  lemma PatchQuotaValid(w: World, id: int, quota: int, usageDown: bool)
    requires Valid(w)
    ensures Valid(PatchQuota(w, id, quota, usageDown).0)
  {
    hide SetQuota, DbOk, WellFormed;
    SetQuotaOk(w.db, id, quota, w.now);
  }

  lemma HealValid(w: World, f: Filter, pick: set<int>, lost: set<int>, listDown: bool)
    requires Valid(w)
    ensures Valid(Heal(w, f, pick, lost, listDown).0)
  {
    hide HealRows, ValidPick, DbOk, WellFormed;
    HealRowsValid(w, pick, lost);
  }

  lemma OutsideValid(w: World, write: Write)
    requires Valid(w)
    ensures Valid(w.(router := ApplyWrite(w.router, write).0))
  {
    hide ApplyWrite, DbOk, WellFormed;
    WriteKeeps(w.router, write);
  }

  lemma TickValid(w: World, seconds: nat)
    requires Valid(w)
    ensures Valid(w.(now := w.now + seconds))
  {
  }

  /** No step but the clock's own moves the clock, and none changes the configuration. */
  lemma StepKeepsClock(w: World, e: Event)
    ensures Step(w, e).now == (if e.ETick? then w.now + e.seconds else w.now) && Step(w, e).cfg == w.cfg
  {
    hide FinishCreate;
    if e.ECreate? || e.EOrphan? {
      forall w1, name, managerID, req, f
        ensures var w2 := FinishCreate(w1, name, managerID, req, f).0; w2.now == w1.now && w2.cfg == w1.cfg
      {
        TailShape(w1, name, managerID, req, f);
      }
    }
  }

  /** The router after the tail of a creation, and what the tail never touches. */
  lemma TailShape(w: World, name: string, managerID: Option<int>, req: CreateReq, f: CreateFaults)
    ensures var w2 := FinishCreate(w, name, managerID, req, f).0;
            && w2.now == w.now && w2.cfg == w.cfg && w2.db.managers == w.db.managers
            && (w2.router == w.router || w2.router == RemoveUser(w.router, name).0
                || w2.router == AddUserProfile(w.router, name, ProfileOf(w.cfg, req), w.now).0)
  {
    hide NameKnown, ManagerRefOk, AddUserProfile, RemoveUser, FirstActiveEnd;
  }

  /** The database after it: untouched, with the new row, with that row deleted again, or with an activation too. */
  lemma TailDb(w: World, name: string, managerID: Option<int>, req: CreateReq, f: CreateFaults)
    ensures var db2 := FinishCreate(w, name, managerID, req, f).0.db;
            var (db1, m) := InsertMeta(w.db, name, managerID, req.contact, req.notes);
            db2 == w.db ||
            (m.Some? && (db2 == db1 || db2 == DeleteMeta(db1, m.value)
                         || db2 == TailRecord(w, db1, name, m.value, req, f)))
  {
    hide NameKnown, DeleteMeta, Record, AddUserProfile, RemoveUser;
  }

  /** The whole world after a tail that succeeds. */
  lemma TailWorld(w: World, name: string, managerID: Option<int>, req: CreateReq, f: CreateFaults)
    requires FinishCreate(w, name, managerID, req, f).1.Ok?
    ensures var (w', reply) := FinishCreate(w, name, managerID, req, f);
            var (db1, m) := InsertMeta(w.db, name, managerID, req.contact, req.notes);
            var (r2, o) := AddUserProfile(w.router, name, ProfileOf(w.cfg, req), w.now);
            && m == Some(reply.id)
            && (!req.assign ==> w' == w.(db := db1))
            && (req.assign ==> o == Done && w' == w.(router := r2, db := TailRecord(w, db1, name, m.value, req, f)))
  {
    hide InsertMeta, DeleteMeta, Record, AddUserProfile, RemoveUser;
  }

  ghost function TailRecord(w: World, db: Db, name: string, m: int, req: CreateReq, f: CreateFaults): Db {
    var profile := ProfileOf(w.cfg, req);
    Record(db, AddUserProfile(w.router, name, profile, w.now).0, name, m, profile, req.sharedUsers, f.rowsDown,
           f.activationDown, w.now)
  }

  lemma StepValid(w: World, e: Event)
    requires Valid(w)
    ensures Valid(Step(w, e)) && w.now <= Step(w, e).now && Step(w, e).cfg == w.cfg
  {
    hide Valid, CreateVPN, CreateOrphan, Patch, Assign, RemoveRow, Delete, DeleteByName, Adopt, Settle, CreateManager,
      PatchQuota, Heal;
    StepKeepsClock(w, e);
    match e
    case ECreate(id, req, f) => CreateValid(w, id, req, f);
    case EOrphan(req, f) => OrphanValid(w, req, f);
    case EPatch(m, req, f) => PatchValid(w, m, req, f);
    case EAssign(m, profile, f) => AssignValid(w, m, profile, f);
    case ERemoveRow(rowID, down) => RemoveRowValid(w, rowID, down);
    case EDelete(m, removeDown, metaDown) => DeleteValid(w, m, removeDown, metaDown);
    case EDeleteByName(name, removeDown, metaDown) => DeleteByNameValid(w, name, removeDown, metaDown);
    case EAdopt(name, asManager, getDown, metaDown) => AdoptValid(w, name, asManager, getDown, metaDown);
    case ESettle(adminID, scope, actID) => SettleValid(w, adminID, scope, actID);
    case EManager(username, slug, quota, listed) => CreateManagerValid(w, username, slug, quota, listed);
    case EQuota(id, quota, down) => PatchQuotaValid(w, id, quota, down);
    case EHeal(f, pick, lost, down) => HealValid(w, f, pick, lost, down);
    case ETick(seconds) => TickValid(w, seconds);
    case EOutside(write) => OutsideValid(w, write);
  }

  /** Both stores keep their invariants over every run, outside router edits and failing calls included. */
  lemma {:induction false} RunValid(w: World, es: seq<Event>)
    requires Valid(w)
    ensures Valid(Run(w, es))
    decreases |es|
  {
    if es != [] {
      StepValid(w, es[0]);
      RunValid(Step(w, es[0]), es[1..]);
    }
  }
}
