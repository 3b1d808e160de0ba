/** Small concrete worlds in which an unguarded step breaks a promise, and the start of every run. */
module Witnesses {
  import opened Models
  import opened Text
  import opened Totals
  import opened Owner
  import opened Router
  import opened Quota
  import opened Tables
  import opened Steps
  import opened Acceptance
  import Agreement
  import Frozen
  import Outcomes
  import QuotaRuns

  /** An empty panel satisfies every invariant, so the run theorems cover every reachable world. */
  lemma StartIsGood(cfg: Config)
    ensures var w := Start(cfg);
            && Valid(w) && Agreement.Agree(w) && Frozen.SettledFirst(w.db)
            && QuotaRuns.Safe(w) && QuotaRuns.Nonnegative(w.router) && QuotaRuns.SlugsFree(w)
  {
  }

  const CFG := Config("_", 24, 20, "month")
  const ALI := Manager(1, "ali", "ali", 1)
  const META := Meta(1, "ali_x", Some(1), None, None)
  const NO_FAULT := PatchFaults(false, false, false, false, false, false)

  function Ali(disabled: bool): User {
    User("*1", "ali_x", "secret", 2, "panel=ali", disabled)
  }

  /** A world with at most the router user ali_x. */
  function Small(users: map<string, User>, rows: seq<ProfileRow>, managers: seq<Manager>, metas: map<int, Meta>,
                 acts: map<int, Activation>): World {
    World(CFG, RouterState(users, if "ali_x" in users then map["ali_x" := rows] else map[], 3, {"month"}),
          Db(managers, 2, metas, 3, acts, 3), 100)
  }

  ghost predicate SmallOk(w: World) {
    && (forall name :: name in w.router.users ==> name == "ali_x" && w.router.users[name] in {Ali(true), Ali(false)})
    && (w.db.managers == [] || w.db.managers == [ALI])
    && MetasOk(w.db) && ActsOk(w.db, 100)
  }

  lemma SmallGood(users: map<string, User>, rows: seq<ProfileRow>, managers: seq<Manager>, metas: map<int, Meta>,
                  acts: map<int, Activation>)
    requires |rows| <= 1 && forall r :: r in rows ==> r.user == "ali_x" && r.id == RowID(2)
    requires SmallOk(Small(users, rows, managers, metas, acts))
    ensures var w := Small(users, rows, managers, metas, acts);
            Valid(w) && QuotaRuns.SlugsFree(w) && QuotaRuns.Nonnegative(w.router)
  {
    var w := Small(users, rows, managers, metas, acts);
    forall name, i | RowAt(w.router, name, i)
      ensures exists k: nat :: k < w.router.nextID && w.router.profiles[name][i].id == RowID(k)
    {
      var k: nat := 2;
      assert rows[i] in rows && w.router.profiles[name][i].id == RowID(k);
    }
  }

  lemma AliRef(db: Db)
    requires db.managers == [ALI] && forall m :: m in db.metas ==> db.metas[m].managerID in {None, Some(1)}
    ensures forall m :: RefOk(db, m)
  {
    assert FindManager([ALI], 1) == Some(ALI);
  }

  /** One manager with quota 1 and one user of two connections. */
  function OneUser(disabled: bool, rows: seq<ProfileRow>, acts: map<int, Activation>): World {
    Small(map["ali_x" := Ali(disabled)], rows, [ALI], map[1 := META], acts)
  }

  lemma AliOwns(w: World, comment: string)
    requires w.cfg == CFG && w.db.managers == [ALI]
    ensures Resolve(Reg(w), "ali_x", comment) == 1 && FindManager(w.db.managers, 1) == Some(ALI)
  {
    assert Infos([ALI]) == [ManagerInfo(1, "ali")];
    AliMatches();
    ByNameFirst(Infos([ALI]), "_", "ali_x", 0);
  }

  lemma OneUserGood(disabled: bool, rows: seq<ProfileRow>, acts: map<int, Activation>)
    requires |rows| <= 1 && forall r :: r in rows ==> r.user == "ali_x" && r.id == RowID(2)
    requires ActsOk(OneUser(disabled, rows, acts).db, 100)
    ensures Valid(OneUser(disabled, rows, acts)) && QuotaRuns.SlugsFree(OneUser(disabled, rows, acts))
    ensures QuotaRuns.Nonnegative(OneUser(disabled, rows, acts).router)
  {
    hide Valid, QuotaRuns.SlugsFree, QuotaRuns.Nonnegative, ActsOk;
    AliRef(OneUser(disabled, rows, acts).db);
    SmallGood(map["ali_x" := Ali(disabled)], rows, [ALI], map[1 := META], acts);
  }

  /** Nobody uses anything while no user is both enabled and active. */
  lemma IdleUses(w: World, id: int)
    requires forall name :: name in w.router.users ==>
               w.router.users[name].disabled || !HasActive(Rows(w.router, name), w.now)
    ensures UsedBy(w, id) == 0
  {
    TotalZero(Charges(Reg(w), id, w.router, w.now));
  }

  lemma IdleSafe(w: World)
    requires forall name :: name in w.router.users ==>
               w.router.users[name].disabled || !HasActive(Rows(w.router, name), w.now)
    requires forall m :: m in w.db.managers ==> m.quota > 0
    ensures QuotaRuns.Safe(w)
  {
    hide UsedBy, HasActive, Rows;
    forall id
      ensures UsedBy(w, id) == 0
    {
      IdleUses(w, id);
    }
  }

  // ---------------------------------------------------------------- quotas

  const RENEWAL := AssignFaults(false, false, false, false)

  /** A user of two connections without any profile. */
  function Expired(): World {
    OneUser(false, [], map[])
  }

  lemma ExpiredGood()
    ensures Valid(Expired()) && QuotaRuns.Nonnegative(Expired().router) && QuotaRuns.Safe(Expired())
  {
    OneUserGood(false, [], map[]);
    hide Valid, QuotaRuns.Nonnegative, QuotaRuns.Safe;
    IdleSafe(Expired());
  }

  /** Renewing an expired user takes a manager over its quota. */
  lemma RenewalExceedsQuota()
    ensures Valid(Expired()) && QuotaRuns.Safe(Expired())
    ensures !QuotaRuns.Safe(Step(Expired(), EAssign(1, "month", RENEWAL)))
  {
    hide Expired, Valid, QuotaRuns.Nonnegative, QuotaRuns.Safe, QuotaRuns.AssignGuard, Assign;
    ExpiredGood();
    RenewalNeedsRoom();
    RenewalKeepsSigns(Expired());
    QuotaRuns.AssignQuota(Expired(), 1, "month", RENEWAL);
  }

  lemma RenewalNeedsRoom()
    ensures !QuotaRuns.AssignGuard(Expired(), 1, "month", RENEWAL)
  {
    IdleUses(Expired(), 1);
    AliOwns(Expired(), "panel=ali");
    hide UsedBy, Resolve, FindManager;
    assert AssignReaches(Expired(), 1, "month", RENEWAL);
  }

  lemma RenewalKeepsSigns(w: World)
    requires QuotaRuns.Nonnegative(w.router)
    ensures QuotaRuns.Nonnegative(Assign(w, 1, "month", RENEWAL).0.router)
  {
    hide ExpireAll, Record;
  }

  const ACTIVE_ROW := ProfileRow(RowID(2), "ali_x", "month", "active", None)
  const ENABLE := PatchReq(false, None, None, Some(false), None, None, None)

  lemma ActiveRowIsActive(now: int)
    ensures HasActive([ACTIVE_ROW], now)
  {
    TrimKeepsWhole("active");
    ActiveIsActive();
    assert ProfileActive([ACTIVE_ROW][0], now);
  }

  lemma TrimKeepsWhole(s: string)
    requires s != "" && !IsSpace(s[0]) && !IsSpace(s[|s| - 1])
    ensures TrimSpace(s) == s
  {
  }

  /** A disabled user of two connections with an active profile. */
  function Suspended(): World {
    OneUser(true, [ACTIVE_ROW], map[])
  }

  lemma SuspendedGood()
    ensures Valid(Suspended()) && QuotaRuns.Nonnegative(Suspended().router) && QuotaRuns.Safe(Suspended())
  {
    OneUserGood(true, [ACTIVE_ROW], map[]);
    hide Valid, QuotaRuns.Nonnegative, QuotaRuns.Safe, HasActive;
    IdleSafe(Suspended());
  }

  /** Re-enabling a disabled user with an active profile does too. */
  lemma ReenablingExceedsQuota()
    ensures Valid(Suspended()) && QuotaRuns.Safe(Suspended())
    ensures !QuotaRuns.Safe(Step(Suspended(), EPatch(1, ENABLE, NO_FAULT)))
  {
    hide Suspended, Valid, QuotaRuns.Nonnegative, QuotaRuns.Safe, QuotaRuns.PatchGuard, Patch;
    SuspendedGood();
    EnablingNeedsRoom();
    EnablingKeepsSigns(Suspended());
    QuotaRuns.PatchQuotaSafe(Suspended(), 1, ENABLE, NO_FAULT);
  }

  lemma EnablingNeedsRoom()
    ensures !QuotaRuns.PatchGuard(Suspended(), 1, ENABLE, NO_FAULT)
  {
    var w := Suspended();
    ActiveRowIsActive(w.now);
    hide HasActive;
    IdleUses(w, 1);
    AliOwns(w, "panel=ali");
    hide UsedBy, Resolve, FindManager;
    assert PatchReaches(w, 1, ENABLE, NO_FAULT);
  }

  lemma EnablingKeepsSigns(w: World)
    requires QuotaRuns.Nonnegative(w.router)
    ensures QuotaRuns.Nonnegative(Patch(w, 1, ENABLE, NO_FAULT).0.router)
  {
    hide PatchRefusal, PatchedComment;
  }

  /** A user whose profile still runs for a hundred seconds. */
  function Running(): World {
    OneUser(false, [ACTIVE_ROW.(endTime := Some(200))], map[])
  }

  /** Renewing such a user stores the old profile's end with the new activation. */
  lemma EarlyRenewalStoresOldEnd()
    ensures var w, w' := Running(), Step(Running(), EAssign(1, "month", RENEWAL));
            && Valid(w) && 3 in w'.db.acts && w'.db.acts[3].profile == "month"
            && w'.db.acts[3].endTime != Some(w.now + 2592000)
  {
    var w := Running();
    RunningFacts();
    RunningAhead();
    RunningAccepted();
    hide Valid, Assign, Running, Outcomes.FirstAhead, Outcomes.Renewed, Outcomes.RenewalEnd, Newest, Respond;
    Outcomes.RenewalOutcome(w, 1, "month", RENEWAL);
    var w' := Assign(w, 1, "month", RENEWAL).0;
    Outcomes.RenewalStoresNewEnd(Rows(w.router, "ali_x"), Rows(w'.router, "ali_x"), "ali_x", "month", w.now,
                                 w'.db.acts[3].endTime);
    assert Step(w, EAssign(1, "month", RENEWAL)) == w' by { RenewalStep(w); }
  }

  lemma RenewalStep(w: World)
    ensures Step(w, EAssign(1, "month", RENEWAL)) == Assign(w, 1, "month", RENEWAL).0
  {
    hide Assign;
  }

  lemma RunningFacts()
    ensures var w := Running();
            && Valid(w) && OnRouter(w, 1) && w.db.metas[1].name == "ali_x" && w.router.users["ali_x"].sharedUsers == 2
            && w.db.nextActID == 3
  {
    OneUserGood(false, [ACTIVE_ROW.(endTime := Some(200))], map[]);
    hide Valid, QuotaRuns.SlugsFree, QuotaRuns.Nonnegative;
  }

  lemma RunningAhead()
    ensures var rows := Rows(Running().router, "ali_x");
            && |rows| == 1 && rows[0].endTime == Some(200) && Outcomes.FirstAhead(rows, Running().now, 0)
            && Running().now == 100
  {
  }

  lemma RunningAccepted()
    ensures Assign(Running(), 1, "month", RENEWAL).1.Ok?
  {
    AliOwns(Running(), "panel=ali");
    hide Resolve, FindManager, ProfileActive, Record;
  }

  const WORKING := CreateFaults(false, false, false, false, false, false, false, false, false)

  /** Creating a user for nobody, under a name that starts with a manager's pattern, does too. */
  lemma OrphanExceedsQuota()
    ensures var w := Small(map[], [], [ALI], map[], map[]);
            var req := CreateReq("ali_x", Some("secret"), 2, false, None, None, true, None);
            Valid(w) && QuotaRuns.Safe(w) && !QuotaRuns.Safe(Step(w, EOrphan(req, WORKING)))
  {
    var w := Small(map[], [], [ALI], map[], map[]);
    var req := CreateReq("ali_x", Some("secret"), 2, false, None, None, true, None);
    SmallGood(map[], [], [ALI], map[], map[]);
    IdleSafe(w);
    IdleUses(w, 1);
    AliOwns(w, "");
    TrimKeepsWhole("ali_x");
    OrphanNeedsRoom(w, EOrphan(req, WORKING));
    OrphanKeepsSigns(w, EOrphan(req, WORKING));
    hide Valid, QuotaRuns.Safe, QuotaRuns.Nonnegative, QuotaRuns.OrphanGuard, Respond;
    QuotaRuns.OrphanQuota(w, EOrphan(req, WORKING));
  }

  lemma OrphanNeedsRoom(w: World, e: Event)
    requires w == Small(map[], [], [ALI], map[], map[]) && UsedBy(w, 1) == 0 && TrimSpace("ali_x") == "ali_x"
    requires e == EOrphan(CreateReq("ali_x", Some("secret"), 2, false, None, None, true, None), WORKING)
    requires Resolve(Reg(w), "ali_x", "") == 1 && FindManager(w.db.managers, 1) == Some(ALI)
    ensures AddReached(w, e) && !QuotaRuns.OrphanGuard(w, e)
  {
    hide UsedBy, Resolve, FindManager, TrimSpace;
  }

  lemma OrphanKeepsSigns(w: World, e: Event)
    requires e.EOrphan? && AddReached(w, e) && QuotaRuns.Nonnegative(w.router)
    ensures QuotaRuns.Nonnegative(Step(w, e).router)
  {
    hide FinishCreate, AddReached, CreationName, CreationComment;
    CreationShape(w, e);
    QuotaRuns.CreationKeeps(w, CreationName(w, e), CreationComment(w, e), CreationOwner(e), e.createReq,
                            e.createFaults);
  }

  /** No manager, and a user in use whose name a new slug can capture. */
  function Unclaimed(): World {
    Small(map["ali_x" := Ali(false)], [ACTIVE_ROW], [], map[], map[])
  }

  /** A new manager starts over its quota when its slug captures too much. */
  lemma NewManagerExceedsQuota()
    ensures var w := Unclaimed();
            Valid(w) && QuotaRuns.Safe(w) && !QuotaRuns.Safe(Step(w, EManager("ali", "ali", 1, true)))
  {
    UnclaimedGood();
    UnclaimedAccepts();
    hide Unclaimed, Valid, ManagerReaches, QuotaRuns.Safe, QuotaRuns.Nonnegative, QuotaRuns.Inherited, Respond;
    QuotaRuns.ManagerQuota(Unclaimed(), EManager("ali", "ali", 1, true));
  }

  lemma UnclaimedGood()
    ensures Valid(Unclaimed()) && QuotaRuns.Nonnegative(Unclaimed().router) && QuotaRuns.Safe(Unclaimed())
  {
    SmallGood(map["ali_x" := Ali(false)], [ACTIVE_ROW], [], map[], map[]);
    hide Valid, UsedBy;
  }

  lemma UnclaimedAccepts()
    ensures ManagerReaches(Unclaimed(), "ali", "ali", 1, true) && QuotaRuns.Inherited(Unclaimed(), "ali") == 2
  {
    AliInherits(Unclaimed());
    hide QuotaRuns.Inherited;
    assert Infos(Unclaimed().db.managers) == [];
  }

  lemma AliInherits(w: World)
    requires w == Unclaimed()
    ensures QuotaRuns.Inherited(w, "ali") == 2
  {
    AliCaptured(w);
    hide QuotaRuns.CapturedCharge;
    var charges := map name | name in w.router.users :: QuotaRuns.CapturedCharge(w, "ali", name);
    TotalRemove(charges, "ali_x");
    TotalZero(charges - {"ali_x"});
  }

  lemma AliCaptured(w: World)
    requires w == Unclaimed()
    ensures QuotaRuns.CapturedCharge(w, "ali", "ali_x") == 2
  {
    ActiveRowIsActive(w.now);
    AliMatches();
    assert Infos(w.db.managers) == [];
    hide HasActive, CommentMatches, HasPrefix, Pattern;
    assert QuotaRuns.Captures(w, "ali", "ali_x", "panel=ali");
  }

  lemma AliMatches()
    ensures HasPrefix("ali_x", Pattern("_", "ali"))
  {
    assert Pattern("_", "ali") == "ali_" == "ali_x"[..4];
  }

  /** While the slug listing is down a slug can be created that extends another. */
  lemma UnlistedSlugOverlaps()
    ensures var w := Small(map[], [], [ALI], map[], map[]);
            Valid(w) && QuotaRuns.SlugsFree(w) && !QuotaRuns.SlugsFree(Step(w, EManager("bob", "alina", 1, false)))
  {
    var w := Small(map[], [], [ALI], map[], map[]);
    SmallGood(map[], [], [ALI], map[], map[]);
    hide Valid, QuotaRuns.SlugsFree, Respond, SlugOverlaps, ManagerReaches;
    AlinaOverlaps();
    AlinaAccepted(w);
    QuotaRuns.ManagerSlugs(w, EManager("bob", "alina", 1, false));
  }

  lemma AlinaOverlaps()
    ensures SlugOverlaps("alina", Infos([ALI]), 0)
  {
    assert Infos([ALI])[0] == ManagerInfo(1, "ali") && ManagerInfo(1, "ali") in Infos([ALI]);
    assert "alina"[..3] == "ali";
  }

  lemma AlinaAccepted(w: World)
    requires w.db.managers == [ALI]
    ensures ManagerReaches(w, "bob", "alina", 1, false)
  {
    assert Lower("ali")[0] != Lower("bob")[0] && |Lower("ali")| != |Lower("alina")|;
    hide Lower;
  }

  // ---------------------------------------------------------------- the ledger

  function Row(id: int, shared: int, createdAt: int): Activation {
    Activation(id, 1, "month", shared, false, None, None, None, createdAt)
  }

  const TO_ZERO := PatchReq(false, None, Some(0), None, None, None, None)

  /** A user with an open row that follows the router. */
  function Followed(): World {
    OneUser(false, [], map[1 := Row(1, 2, 10)])
  }

  lemma FollowedGood()
    ensures Valid(Followed()) && Agreement.Agree(Followed()) && Newest(Followed().db, 1, 1)
  {
    OneUserGood(false, [], map[1 := Row(1, 2, 10)]);
    hide Valid, QuotaRuns.Nonnegative;
  }

  /** A patch to zero connections reaches the router but not the ledger. */
  lemma PatchToZeroBreaksAgreement()
    ensures Valid(Followed()) && Agreement.Agree(Followed())
    ensures !Agreement.Agree(Step(Followed(), EPatch(1, TO_ZERO, NO_FAULT)))
  {
    FollowedGood();
    ZeroReaches();
    hide Valid, Agreement.Agree, PatchReaches, Patch, Newest;
    Agreement.PatchAgrees(Followed(), 1, TO_ZERO, NO_FAULT);
  }

  lemma ZeroReaches()
    ensures PatchReaches(Followed(), 1, TO_ZERO, NO_FAULT)
  {
    var w := Followed();
    AliOwns(w, "panel=ali");
    hide Resolve, UsedBy, FindManager;
    assert !HasActive(Rows(w.router, "ali_x"), w.now);
  }

  const STUCK := CreateFaults(false, false, true, false, false, false, false, true, false)

  /** A creation that fails and cannot take its user back breaks agreement over a row of an earlier user of the name. */
  lemma LeftBehindBreaksAgreement()
    ensures var w := Small(map[], [], [ALI], map[1 := META], map[1 := Row(1, 7, 10)]);
            var req := CreateReq("x", Some("secret"), 2, false, None, None, false, None);
            Valid(w) && Agreement.Agree(w) && !Agreement.Agree(Step(w, ECreate(1, req, STUCK)))
  {
    var w := Small(map[], [], [ALI], map[1 := META], map[1 := Row(1, 7, 10)]);
    var e := ECreate(1, CreateReq("x", Some("secret"), 2, false, None, None, false, None), STUCK);
    AliRef(w.db);
    SmallGood(map[], [], [ALI], map[1 := META], map[1 := Row(1, 7, 10)]);
    AliOwns(w, "");
    assert CreationName(w, e) == "ali_x";
    assert AddReached(w, e) by { hide UsedBy; }
    assert MetaNamed(w.db, 1, "ali_x") && Newest(w.db, 1, 1);
    hide Valid, AddReached, CreationName, Respond;
    Agreement.CreateAgrees(w, e);
  }

  /** A patch that moves a user's open row into a manager's scope, where a later row is settled, breaks the order. */
  lemma ResyncBreaksOrder()
    ensures var w := Moving();
            Valid(w) && Frozen.SettledFirst(w.db) && !Frozen.SettledFirst(Step(w, EPatch(1, RESYNC, NO_FAULT)).db)
  {
    MovingGood();
    MovingReaches();
    hide Valid, Frozen.SettledFirst, Frozen.Moves, Frozen.Interleaves, Patch;
    Frozen.PatchOrder(Moving(), 1, RESYNC, NO_FAULT);
  }

  lemma MovingGood()
    ensures Valid(Moving()) && Frozen.SettledFirst(Moving().db) && !Frozen.Interleaves(Moving().db, 1, Some(1))
  {
    MovingValid();
    hide Valid;
    var w := Moving();
    assert Frozen.BilledTo(w.db, 2) == Some(1) && !Before(w.db.acts[2], w.db.acts[1]);
  }

  lemma MovingValid()
    ensures Valid(Moving())
  {
    var w := Moving();
    AliRef(w.db);
    SmallGood(map["ali_x" := Ali(false)], [], [ALI], w.db.metas, w.db.acts);
  }

  lemma MovingReaches()
    ensures Frozen.Moves(Moving(), 1, RESYNC, NO_FAULT)
  {
    AliOwns(Moving(), "panel=ali");
    hide UsedBy, Resolve, FindManager;
  }

  const RESYNC := PatchReq(false, None, None, None, None, None, Some(1))

  /** A user nobody is billed for, with an open row, beside a later row that was settled with its manager. */
  function Moving(): World {
    Small(map["ali_x" := Ali(false)], [], [ALI],
          map[1 := Meta(1, "ali_x", None, None, None), 2 := Meta(2, "ali_y", Some(1), None, None)],
          map[1 := Row(1, 2, 10), 2 := Activation(2, 2, "month", 2, true, Some(30), Some(1), None, 20)])
  }

  // ---------------------------------------------------------------- healing

  /** Everything up to an instant. */
  function UpTo(to: Option<int>): Filter {
    Filter(AnyScope, AllRows, None, to, (m: Meta) => true)
  }

  /** The user's two open rows: an old one of 7 connections, and one that follows the router. */
  function TwoRows(at: int): World {
    OneUser(false, [], map[1 := Row(1, 7, 10), 2 := Row(2, 2, at)])
  }

  lemma TwoRowsAgree(at: int)
    requires 10 <= at <= 100
    ensures Valid(TwoRows(at)) && Agreement.Agree(TwoRows(at)) && Newest(TwoRows(at).db, 1, 2)
  {
    OneUserGood(false, [], map[1 := Row(1, 7, 10), 2 := Row(2, 2, at)]);
    hide Valid;
    Agreement.NewestUnique(TwoRows(at).db, 1, 1, 2);
  }

  lemma OldRowHealed(at: int)
    ensures HealRows(TwoRows(at), {1}, {}).db.acts[1].sharedUsers == 2
  {
  }

  /** The old row may be picked when the bound hides the other, or the two are tied. */
  lemma OldRowPicked(at: int, to: Option<int>)
    requires at == 10 || (to.Some? && 10 <= to.value < at)
    requires to.Some? ==> 10 <= to.value
    ensures ValidPick(TwoRows(at).db, UpTo(to), {1})
  {
    var db := TwoRows(at).db;
    assert HasPick(db, {1}, 1);
    assert forall i :: Visible(db, UpTo(to), i) ==> db.acts[i].metaID == 1 && db.acts[i].createdAt <= 10;
    assert PickFor(db, UpTo(to), {1}, 1);
  }

  /** An upper bound hides the current row, so the heal rewrites an older one; the ledger was right before. */
  lemma UpperBoundHealsOldRow()
    ensures var w := TwoRows(20);
            && Valid(w) && Agreement.Agree(w) && Newest(w.db, 1, 2) && ValidPick(w.db, UpTo(Some(15)), {1})
            && HealRows(w, {1}, {}).db.acts[1].sharedUsers == 2
  {
    TwoRowsAgree(20);
    OldRowHealed(20);
    hide Valid, Agreement.Agree, HealRows, Newest;
    OldRowPicked(20, Some(15));
  }

  /** So may two rows of one instant: the listing's order does not look at ids. */
  lemma TieHealsOldRow()
    ensures var w := TwoRows(10);
            && Valid(w) && Agreement.Agree(w) && Newest(w.db, 1, 2) && ValidPick(w.db, UpTo(None), {1})
            && HealRows(w, {1}, {}).db.acts[1].sharedUsers == 2
  {
    TwoRowsAgree(10);
    OldRowHealed(10);
    hide Valid, Agreement.Agree, HealRows, Newest;
    OldRowPicked(10, None);
  }
}
