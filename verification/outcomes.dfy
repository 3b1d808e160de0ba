/** What a request that succeeds has achieved in both stores together, and which request undoes which. */
module Outcomes {
  import opened Models
  import opened Text
  import opened Owner
  import opened Router
  import opened Quota
  import opened Tables
  import opened Steps
  import opened Acceptance
  import opened Saga
  import opened QuotaRuns
  import Frozen

  /** Everything that concerns another user is as before, in both stores. */
  ghost predicate OthersKept(w: World, w': World, name: string) {
    && (forall n :: n != name ==> (n in w'.router.users <==> n in w.router.users))
    && (forall n :: n != name && n in w.router.users && n in w'.router.users ==>
          w'.router.users[n] == w.router.users[n])
    && (forall n :: n != name ==> Rows(w'.router, n) == Rows(w.router, n))
    && (forall m :: m in w.db.metas && w.db.metas[m].name != name ==>
          m in w'.db.metas && w'.db.metas[m] == w.db.metas[m])
    && (forall i :: i in w.db.acts && w.db.acts[i].metaID in w.db.metas &&
                    w.db.metas[w.db.acts[i].metaID].name != name ==>
          i in w'.db.acts && w'.db.acts[i] == w.db.acts[i])
    && w'.db.managers == w.db.managers && w'.cfg == w.cfg && w'.now == w.now
  }

  /** Neither store knows the name any more. */
  ghost predicate Gone(w: World, name: string) {
    && name !in w.router.users && name !in w.router.profiles && !NameKnown(w.db, name)
    && forall i :: i in w.db.acts ==> w.db.acts[i].metaID in w.db.metas && w.db.metas[w.db.acts[i].metaID].name != name
  }

  // ---------------------------------------------------------------- deleting

  /** Deleting by name forgets the user in both stores and nobody else; only a name neither knows is refused. */
  lemma DeletionErases(w: World, name: string)
    requires Valid(w)
    ensures var (w', reply) := DeleteByName(w, name, false, false);
            && Gone(w', name) && OthersKept(w, w', name)
            && (reply.Refused? <==> name !in w.router.users && !NameKnown(w.db, name))
  {
    MetaByNameIs(w.db, name);
    var w' := DeleteByName(w, name, false, false).0;
    if NameKnown(w.db, name) {
      var m := MetaByName(w.db, name).value;
      assert forall n :: n in w.db.metas && MetaNamed(w.db, n, name) ==> n == m;
      assert w'.db.metas == w.db.metas - {m};
    } else {
      assert forall m :: m in w.db.metas ==> !MetaNamed(w.db, m, name);
    }
  }

  /** Each half of a deletion happens unless its own call fails; only the database's failure is reported. */
  lemma DeletionHalves(w: World, m: int, removeDown: bool, metaDown: bool)
    ensures var (w', reply) := Delete(w, m, removeDown, metaDown);
            if m !in w.db.metas then w' == w && reply == Refused(NoSuchUser)
            else
              && reply == (if metaDown then Refused(DatabaseFailed) else Ok(m))
              && w'.now == w.now && w'.cfg == w.cfg && w'.db.managers == w.db.managers
              && RouterWithout(w.router, w'.router, if removeDown then {} else {w.db.metas[m].name})
              && TablesWithout(w.db, w'.db, if metaDown then {} else {m})
  {
    assert w.router.users - {} == w.router.users && w.router.profiles - {} == w.router.profiles;
    assert w.db.metas - {} == w.db.metas;
    if m in w.db.metas && w.db.metas[m].name !in w.router.users {
      assert w.router.users - {w.db.metas[m].name} == w.router.users;
    }
  }

  ghost predicate RouterWithout(r: RouterState, r': RouterState, gone: set<string>) {
    && r'.users == r.users - gone
    && (r'.profiles == r.profiles - gone || (r' == r && forall name :: name in gone ==> name !in r.users))
  }

  ghost predicate TablesWithout(db: Db, db': Db, gone: set<int>) {
    && db'.metas == db.metas - gone
    && (forall i :: i in db'.acts <==> i in db.acts && db.acts[i].metaID !in gone)
    && (forall i :: i in db'.acts ==> db'.acts[i] == db.acts[i])
  }

  /** Deleting by name is deleting the named row, or without one the router's user alone. */
  lemma DeletionByName(w: World, name: string, removeDown: bool, metaDown: bool)
    requires Valid(w)
    ensures forall m :: MetaNamed(w.db, m, name) ==>
              DeleteByName(w, name, removeDown, metaDown) == Delete(w, m, removeDown, metaDown)
    ensures !NameKnown(w.db, name) ==>
              var (w', reply) := DeleteByName(w, name, removeDown, metaDown);
              && w'.db == w.db
              && (if removeDown then w' == w && reply == Refused(RouterDown)
                  else if name !in w.router.users then w' == w && reply == Refused(RouterRefused(NotFound))
                  else reply.Ok? && RouterWithout(w.router, w'.router, {name}))
  {
    MetaByNameIs(w.db, name);
  }

  /** Removing a user also removes what was done for it alone. */
  lemma RemovalForgetsAdd(r: RouterState, name: string, password: string, comment: string, shared: int, disabled: bool)
    requires name !in r.users && name !in r.profiles
    ensures var r' := RemoveUser(AddUser(r, name, password, comment, shared, disabled).0, name).0;
            r'.users == r.users && r'.profiles == r.profiles
  {
    var r1 := AddUser(r, name, password, comment, shared, disabled).0;
    assert r1.users - {name} == r.users;
    assert r1.profiles - {name} == r.profiles;
  }

  lemma RemovalForgetsProfile(r: RouterState, name: string, profile: string, now: int)
    requires name in r.users
    ensures var r' := RemoveUser(AddUserProfile(r, name, profile, now).0, name).0;
            r'.users == RemoveUser(r, name).0.users && r'.profiles == RemoveUser(r, name).0.profiles
  {
    var r1 := AddUserProfile(r, name, profile, now).0;
    assert r1.profiles - {name} == r.profiles - {name};
  }

  lemma CreatedRouterUndone(w: World, name: string, comment: string, managerID: Option<int>, req: CreateReq,
                            f: CreateFaults)
    requires Valid(w) && name !in w.router.users && req.password.Some?
    requires FinishCreate(AfterAdd(w, name, comment, req), name, managerID, req, f).1.Ok?
    ensures var r' := RemoveUser(FinishCreate(AfterAdd(w, name, comment, req), name, managerID, req, f).0.router,
                                 name).0;
            r'.users == w.router.users && r'.profiles == w.router.profiles
  {
    RemovalForgetsAdd(w.router, name, req.password.value, comment, req.sharedUsers, req.disabled);
    RemovalForgetsProfile(AfterAdd(w, name, comment, req).router, name, ProfileOf(w.cfg, req), w.now);
  }

  /** Deletion undoes creation: afterwards both stores are as if neither had happened. */
  lemma DeleteUndoesCreate(w: World, e: Event)
    requires Valid(w) && (e.ECreate? || e.EOrphan?) && Respond(w, e).1.Ok?
    ensures Restored(w, DeleteByName(Step(w, e), CreationName(w, e), false, false).0)
  {
    var w', m, name := Step(w, e), Respond(w, e).1.id, CreationName(w, e);
    CreationOutcome(w, e);
    StepValid(w, e);
    MetaByNameIs(w'.db, name);
    assert MetaNamed(w'.db, m, name);
    assert MetaByName(w'.db, name) == Some(m);
    CreationShape(w, e);
    CreatedRouterUndone(w, name, CreationComment(w, e), CreationOwner(e), e.createReq, e.createFaults);
    CreationManagers(w, e);
    var w'' := DeleteByName(w', name, false, false).0;
    assert w'' == w'.(router := RemoveUser(w'.router, name).0, db := DeleteMeta(w'.db, m));
    CreatedRowsUndone(w, w', m, e.createReq, e.createFaults);
    StepKeepsClock(w, e);
  }

  lemma CreatedRowsUndone(w: World, w': World, m: int, req: CreateReq, f: CreateFaults)
    requires Valid(w) && m !in w.db.metas && CreatedLedger(w, w'.db, m, req, f)
    ensures DeleteMeta(w'.db, m).acts == w.db.acts
  {
    var acts' := DeleteMeta(w'.db, m).acts;
    assert forall i :: i in w.db.acts ==> w.db.acts[i].metaID in w.db.metas && w.db.acts[i].metaID != m;
    if w'.db.acts != w.db.acts {
      var k := w.db.nextActID;
      assert w'.db.acts[k].metaID == m;
      assert forall i :: i in w.db.acts ==> i in w'.db.acts - {k} && (w'.db.acts - {k})[i] == w'.db.acts[i];
    }
    SameRows(acts', w.db.acts);
  }

  // ---------------------------------------------------------------- adopting

  /**
   * Adoption gives a router user one row in its resolved owner's scope and touches nothing else; asking again, as
   * anybody and with any call failing, finds that row and changes nothing.
   */
  lemma AdoptOnce(w: World, name: string, asManager: Option<int>, getDown: bool, metaDown: bool,
                  again: Option<int>, getDown2: bool, metaDown2: bool)
    requires Valid(w) && Adopt(w, name, asManager, getDown, metaDown).1.Ok?
    ensures var (w', reply) := Adopt(w, name, asManager, getDown, metaDown);
            && MetaNamed(w'.db, reply.id, name)
            && OthersKept(w, w', name) && w'.router == w.router && w'.db.acts == w.db.acts
            && (w' == w <==> NameKnown(w.db, name))
            && (w' != w ==> name in w.router.users
                            && w'.db.metas[reply.id].managerID ==
                                 OwnerRef(Resolve(Reg(w), name, w.router.users[name].comment)))
            && Adopt(w', name, again, getDown2, metaDown2) == (w', reply)
  {
    var (w', reply) := Adopt(w, name, asManager, getDown, metaDown);
    MetaByNameIs(w.db, name);
    MetaByNameIs(w'.db, name);
    InsertMetaOk(w.db, name,
                 if name in w.router.users then OwnerRef(Resolve(Reg(w), name, w.router.users[name].comment)) else None,
                 None, None, w.now);
    assert MetaNamed(w'.db, reply.id, name);
    assert MetaNamed(w'.db, MetaByName(w'.db, name).value, name);
  }

  /**
   * Adoption succeeds exactly when there is a row already, or the user is on the router, the calls go through, and a
   * manager that asks is the resolved owner; a refusal changes nothing, and only a stranger is told so.
   */
  lemma AdoptExactly(w: World, name: string, asManager: Option<int>, getDown: bool, metaDown: bool)
    requires Valid(w)
    ensures var (w', reply) := Adopt(w, name, asManager, getDown, metaDown);
            var found := !NameKnown(w.db, name) && !getDown && name in w.router.users;
            var stranger := found && asManager.Some? &&
                            asManager.value != Resolve(Reg(w), name, w.router.users[name].comment);
            && (reply.Ok? <==> NameKnown(w.db, name) || (found && !stranger && !metaDown))
            && (reply == Refused(NotOwner) <==> stranger)
            && (reply.Refused? ==> w' == w)
  {
    MetaByNameIs(w.db, name);
    if name in w.router.users {
      OwnerRefers(w, name, w.router.users[name].comment);
    }
    hide Resolve, MetaByName, ManagerRefOk;
  }

  lemma OwnerRefers(w: World, name: string, comment: string)
    requires Valid(w)
    ensures ManagerRefOk(w.db, OwnerRef(Resolve(Reg(w), name, comment)))
  {
    OwnerIsManager(w, name, comment);
  }

  // ---------------------------------------------------------------- renewing

  /** Rows that were active are expired and otherwise untouched; the appended row is active for 30 days. */
  ghost predicate Renewed(before: seq<ProfileRow>, after: seq<ProfileRow>, name: string, profile: string, now: int) {
    && |after| == |before| + 1
    && after[|before|] == ProfileRow(after[|before|].id, name, profile, "active", Some(now + 2592000))
    && (forall k :: 0 <= k < |before| ==>
          after[k] == if StateActive(before[k].state) then before[k].(state := "expired") else before[k])
    && (forall k :: 0 <= k < |after| ==> (StateActive(after[k].state) <==> k == |before|))
  }

  lemma RenewedRows(r: RouterState, name: string, profile: string, now: int)
    requires AddUserProfile(r, name, profile, now).1 == Done
    ensures var r' := AddUserProfile(r, name, profile, now).0;
            && Renewed(Rows(r, name), Rows(r', name), name, profile, now)
            && r'.users == r.users && forall n :: n != name ==> Rows(r', n) == Rows(r, n)
  {
    ActiveIsActive();
    ExpiredIsNot();
    hide StateActive;
    var rows := Rows(AddUserProfile(r, name, profile, now).0, name);
    assert rows == ExpireAll(Rows(r, name)) + [rows[|Rows(r, name)|]];
  }

  /** The first row that still runs. */
  ghost predicate FirstRunning(rows: seq<ProfileRow>, now: int, k: int) {
    0 <= k < |rows| && ProfileActive(rows[k], now) && forall j :: 0 <= j < k ==> !ProfileActive(rows[j], now)
  }

  lemma {:induction false} FirstEnd(rows: seq<ProfileRow>, now: int)
    ensures HasActive(rows, now) ==>
              exists k :: FirstRunning(rows, now, k) && FirstActiveEnd(rows, now) == rows[k].endTime
    ensures !HasActive(rows, now) ==> FirstActiveEnd(rows, now) == None
  {
    if rows != [] {
      if ProfileActive(rows[0], now) {
        assert FirstRunning(rows, now, 0);
      } else {
        FirstEnd(rows[1..], now);
        if HasActive(rows[1..], now) {
          var k :| FirstRunning(rows[1..], now, k) && FirstActiveEnd(rows[1..], now) == rows[1..][k].endTime;
          assert forall j :: 0 <= j < k + 1 ==> !ProfileActive(rows[j], now) by {
            assert forall j :: 1 <= j < k + 1 ==> rows[j] == rows[1..][j - 1];
          }
          assert FirstRunning(rows, now, k + 1);
        }
        assert HasActive(rows, now) ==> HasActive(rows[1..], now) by {
          assert forall j :: 1 <= j < |rows| ==> rows[j] == rows[1..][j - 1];
        }
      }
    }
  }

  /** The ledger has one more row, the user's newest, of this profile and value. */
  ghost predicate Recorded(db: Db, db': Db, m: int, profile: string, shared: int, now: int) {
    var i := db.nextActID;
    && db'.metas == db.metas && db'.managers == db.managers
    && i !in db.acts && i in db'.acts && db'.acts - {i} == db.acts && Newest(db', m, i)
    && db'.acts[i] == Activation(i, m, profile, shared, false, None, None, db'.acts[i].endTime, now)
  }

  lemma RecordedRow(db: Db, m: int, profile: string, shared: int, endTime: Option<int>, now: int)
    requires DbOk(db, now) && m in db.metas && shared > 0
    ensures var db' := InsertActivation(db, m, profile, shared, endTime, now);
            Recorded(db, db', m, profile, shared, now) && db'.acts[db.nextActID].endTime == endTime
  {
    var db' := InsertActivation(db, m, profile, shared, endTime, now);
    assert db'.acts - {db.nextActID} == db.acts;
  }

  /**
   * A successful renewal leaves its user with exactly one row in state active, the new one; the ledger gets a newest
   * row with the router's value, unless the insert was lost or the value rejected; nobody else notices.
   */
  lemma RenewalOutcome(w: World, m: int, profile: string, f: AssignFaults)
    requires Valid(w) && Assign(w, m, profile, f).1.Ok?
    ensures OnRouter(w, m)
    ensures var w', name := Assign(w, m, profile, f).0, w.db.metas[m].name;
            && Renewed(Rows(w.router, name), Rows(w'.router, name), name, profile, w.now)
            && w'.router.users == w.router.users && (forall n :: n != name ==> Rows(w'.router, n) == Rows(w.router, n))
            && (if f.activationDown || w.router.users[name].sharedUsers <= 0 then w'.db == w.db
                else
                  && Recorded(w.db, w'.db, m, profile, w.router.users[name].sharedUsers, w.now)
                  && RenewalEnd(Rows(w'.router, name), f.rowsDown, w.now, w'.db.acts[w.db.nextActID].endTime))
  {
    var name := w.db.metas[m].name;
    var shared := w.router.users[name].sharedUsers;
    RenewedRows(w.router, name, profile, w.now);
    if !f.activationDown && shared > 0 {
      var rows := if f.rowsDown then [] else Rows(AddUserProfile(w.router, name, profile, w.now).0, name);
      RecordedRow(w.db, m, profile, shared, FirstActiveEnd(rows, w.now), w.now);
      NewRowRuns(w.router, name, profile, w.now);
      FirstEnd(rows, w.now);
    }
    hide Renewed, Recorded, ProfileActive, HasActive, AddUserProfile;
  }

  /** The end an activation stores: that of the first row that still runs, none when the rows could not be read. */
  ghost predicate RenewalEnd(rows: seq<ProfileRow>, rowsDown: bool, now: int, end: Option<int>) {
    && (rowsDown ==> end == None)
    && (!rowsDown ==> exists k :: FirstRunning(rows, now, k) && end == rows[k].endTime)
  }

  lemma NewRowRuns(r: RouterState, name: string, profile: string, now: int)
    requires AddUserProfile(r, name, profile, now).1 == Done
    ensures HasActive(Rows(AddUserProfile(r, name, profile, now).0, name), now)
  {
    NewRowIsActive(r, name, profile, now);
  }

  /** An earlier row whose end lies ahead, and no such row before it. */
  ghost predicate FirstAhead(rows: seq<ProfileRow>, now: int, k: int) {
    && 0 <= k < |rows| && rows[k].endTime.Some? && rows[k].endTime.value > now
    && forall j :: 0 <= j < k ==> rows[j].endTime.None? || rows[j].endTime.value <= now
  }

  /**
   * The stored end is the new profile's exactly when no earlier row's end lies ahead, or the first such end is the
   * same instant: a renewal made before the old profile ends stores the old end.
   */
  lemma RenewalStoresNewEnd(before: seq<ProfileRow>, after: seq<ProfileRow>, name: string, profile: string, now: int,
                            end: Option<int>)
    requires Renewed(before, after, name, profile, now)
    ensures RenewalEnd(after, false, now, end) ==>
              (end == Some(now + 2592000) <==>
               forall k :: FirstAhead(before, now, k) ==> before[k].endTime == Some(now + 2592000))
  {
    if !RenewalEnd(after, false, now, end) {
      return;
    }
    var k :| FirstRunning(after, now, k) && end == after[k].endTime;
    AheadRuns(before, after, name, profile, now);
    assert k == |before| ==> end == Some(now + 2592000);
    hide Renewed, RenewalEnd, FirstAhead, ProfileActive;
    forall j | FirstAhead(before, now, j)
      ensures j == k
    {
      assert FirstRunning(after, now, j);
    }
  }

  /** The earlier row that runs first is the one whose end lies ahead first. */
  lemma AheadRuns(before: seq<ProfileRow>, after: seq<ProfileRow>, name: string, profile: string, now: int)
    requires Renewed(before, after, name, profile, now)
    ensures |after| == |before| + 1
    ensures forall k :: FirstAhead(before, now, k) <==> k < |before| && FirstRunning(after, now, k)
    ensures forall k :: 0 <= k < |before| ==> after[k].endTime == before[k].endTime
    ensures forall k :: FirstAhead(before, now, k) ==> 0 <= k < |before|
  {
    RunningBefore(before, after, name, profile, now);
    hide ProfileActive, Renewed;
    forall k
      ensures FirstAhead(before, now, k) <==> k < |before| && FirstRunning(after, now, k)
    {
    }
  }

  /** Of the earlier rows, those still run whose end lies ahead. */
  lemma RunningBefore(before: seq<ProfileRow>, after: seq<ProfileRow>, name: string, profile: string, now: int)
    requires Renewed(before, after, name, profile, now)
    ensures |after| == |before| + 1
    ensures forall j :: 0 <= j < |before| ==>
              && after[j].endTime == before[j].endTime
              && (ProfileActive(after[j], now) <==> before[j].endTime.Some? && before[j].endTime.value > now)
  {
    hide ProfileActive, StateActive;
    forall j | 0 <= j < |before|
      ensures ProfileActive(after[j], now) <==> before[j].endTime.Some? && before[j].endTime.value > now
    {
      RunsUntilEnd(after[j], now);
    }
  }

  // ---------------------------------------------------------------- removing a row

  /** A row is removed exactly when it exists, is not active and the call goes through; nothing else changes. */
  lemma RowRemoval(w: World, rowID: string, down: bool)
    requires Valid(w)
    ensures var (w', reply) := RemoveRow(w, rowID, down);
            && (reply.Refused? ==> w' == w)
            && (down ==> reply == Refused(RouterDown))
            && (!down && (forall name, i :: RowAt(w.router, name, i) ==> w.router.profiles[name][i].id != rowID) ==>
                  reply == Refused(RouterRefused(NotFound)))
            && (forall name, i :: !down && RowNamed(w.router, name, i, rowID) ==>
                  var rows := w.router.profiles[name];
                  if StateActive(rows[i].state) then reply == Refused(RouterRefused(ActiveProfile))
                  else reply.Ok? &&
                       w' == w.(router := w.router.(profiles := w.router.profiles[name := rows[..i] + rows[i + 1..]])))
  {
    forall name, i | RowNamed(w.router, name, i, rowID)
      ensures var rows := w.router.profiles[name];
              RemoveUserProfile(w.router, rowID) ==
                if StateActive(rows[i].state) then (w.router, Failed(ActiveProfile))
                else (w.router.(profiles := w.router.profiles[name := rows[..i] + rows[i + 1..]]), Done)
    {
      RemoveRowExact(w.router, name, i);
    }
    hide StateActive, Valid;
  }

  // ---------------------------------------------------------------- managers

  /** A created manager is appended as requested under a new id; a refused one changes nothing. */
  lemma ManagerCreated(w: World, username: string, slug: string, quota: int, slugsListed: bool)
    requires Valid(w)
    ensures var (w', reply) := CreateManager(w, username, slug, quota, slugsListed);
            && w'.router == w.router && w'.db.metas == w.db.metas && w'.db.acts == w.db.acts && w'.now == w.now
            && (reply.Refused? ==> w' == w)
            && (reply.Ok? ==>
                  && w'.db.managers == w.db.managers + [Manager(reply.id, username, slug, quota)]
                  && forall m :: m in w.db.managers ==> m.id != reply.id)
            && (reply == Refused(SlugOverlap) <==>
                  quota >= 1 && slugsListed &&
                  exists k :: 0 <= k < |w.db.managers| &&
                              (w.db.managers[k].slug <= slug || slug <= w.db.managers[k].slug))
  {
    var ms, infos := w.db.managers, Infos(w.db.managers);
    if k :| 0 <= k < |ms| && (ms[k].slug <= slug || slug <= ms[k].slug) {
      assert infos[k] in infos && infos[k].slug == ms[k].slug;
    }
  }

  /** No case matters: exactly a quota of one or more, and a name and a slug unlike all others, pass the table. */
  lemma ManagerInserted(db: Db, username: string, slug: string, quota: int)
    ensures InsertManager(db, username, slug, quota).1.Some? <==>
              && quota > 0
              && forall m :: m in db.managers ==> !EqualFolded(m.username, username) && !EqualFolded(m.slug, slug)
  {
    forall m | m in db.managers
      ensures SameNoCase(m.username, username) <==> EqualFolded(m.username, username)
      ensures SameNoCase(m.slug, slug) <==> EqualFolded(m.slug, slug)
    {
      FoldedIsLower(m.username, username);
      FoldedIsLower(m.slug, slug);
    }
  }

  /** Equal letter by letter, a capital being its small letter. */
  ghost predicate EqualFolded(a: string, b: string) {
    |a| == |b| && forall i :: 0 <= i < |a| ==> EqualLetter(a[i] as int, b[i] as int)
  }

  predicate EqualLetter(a: int, b: int) {
    a == b || (65 <= a <= 90 && b == a + 32) || (65 <= b <= 90 && a == b + 32)
  }

  lemma FoldedIsLower(a: string, b: string)
    ensures SameNoCase(a, b) <==> EqualFolded(a, b)
  {
    if SameNoCase(a, b) {
      forall i | 0 <= i < |a|
        ensures EqualLetter(a[i] as int, b[i] as int)
      {
        assert Lower(a)[i] == Lower(b)[i];
      }
    } else if |a| == |b| {
      var i :| 0 <= i < |a| && Lower(a)[i] != Lower(b)[i];
      assert !EqualLetter(a[i] as int, b[i] as int);
    }
  }

  /** A quota is changed exactly when it covers the usage and is positive; then that manager has it, and only that. */
  lemma QuotaChanged(w: World, id: int, quota: int, usageDown: bool)
    requires Valid(w)
    ensures var (w', reply) := PatchQuota(w, id, quota, usageDown);
            && (reply.Ok? <==>
                  FindManager(w.db.managers, id).Some? && !usageDown && quota >= UsedBy(w, id) && quota > 0)
            && (reply == Refused(QuotaBelowUsage) <==>
                  FindManager(w.db.managers, id).Some? && !usageDown && quota < UsedBy(w, id))
            && (reply.Refused? ==> w' == w)
            && (reply.Ok? ==>
                  && w' == w.(db := w.db.(managers := w'.db.managers)) && |w'.db.managers| == |w.db.managers|
                  && forall k :: 0 <= k < |w.db.managers| ==>
                       var m := w.db.managers[k];
                       w'.db.managers[k] == if m.id == id then Manager(id, m.username, m.slug, quota) else m)
  {
    hide UsedBy;
  }

  // ---------------------------------------------------------------- patching

  /** The requested value if there is one, else the old one. */
  predicate Chosen<T(==)>(after: T, before: T, wanted: Option<T>) {
    (wanted.Some? ==> after == wanted.value) && (wanted.None? ==> after == before)
  }

  /**
   * What an accepted patch leaves on the router: the requested fields and the old ones otherwise, the owner's token in
   * the comment, an unchanged owner, unchanged profile rows, and every other user.
   */
  lemma PatchedUser(w: World, m: int, req: PatchReq, f: PatchFaults)
    requires Valid(w) && PatchReaches(w, m, req, f)
    ensures var w', name := Patch(w, m, req, f).0, w.db.metas[m].name;
            var u := w.router.users[name];
            && name in w'.router.users && w'.router.profiles == w.router.profiles
            && w'.router.users - {name} == w.router.users - {name}
            && var u' := w'.router.users[name];
               && u'.id == u.id && u'.name == name && Chosen(u'.password, u.password, req.password)
               && Chosen(u'.sharedUsers, u.sharedUsers, req.sharedUsers)
               && Chosen(u'.disabled, u.disabled, req.disabled)
               && Resolve(Reg(w), name, u'.comment) == Resolve(Reg(w), name, u.comment)
               && TokenOfOwner(w, name, u.comment, u'.comment)
  {
    var u := w.router.users[w.db.metas[m].name];
    PatchedOwner(w, u);
    PatchShape(w, m, req, f);
    hide Resolve, PatchReaches, Patch, UpdateNewest, UpdateMeta, HasActive;
    var r' := SetUser(w.router, u.name, req.password, req.sharedUsers, PatchedComment(w, u), req.disabled).0;
    assert Patch(w, m, req, f).0.router == r';
    assert r'.users - {u.name} == w.router.users - {u.name};
  }

  /** The comment names the resolved owner; an orphan's is the old one. */
  ghost predicate TokenOfOwner(w: World, name: string, old_: string, new_: string) {
    var mgr := FindManager(w.db.managers, Resolve(Reg(w), name, old_));
    if mgr.Some? then new_ == "panel=" + mgr.value.slug else new_ == old_
  }

  /** With prefix-free slugs and an owner without a bar in its slug, no accepted patch leaves its user flagged. */
  lemma PatchedUserUnflagged(w: World, m: int, req: PatchReq, f: PatchFaults)
    requires Valid(w) && SlugsFree(w) && PatchReaches(w, m, req, f)
    ensures var name := w.db.metas[m].name;
            var owner := Resolve(Reg(w), name, w.router.users[name].comment);
            var mgr := FindManager(w.db.managers, owner);
            name in Patch(w, m, req, f).0.router.users &&
            (mgr.Some? && '|' !in mgr.value.slug ==>
               !Mismatch(Reg(w), name, Patch(w, m, req, f).0.router.users[name].comment, owner))
  {
    PatchedUser(w, m, req, f);
    var name := w.db.metas[m].name;
    var comment := w.router.users[name].comment;
    var owner := Resolve(Reg(w), name, comment);
    hide Patch, PatchReaches, Mismatch, Resolve, WellFormed;
    if FindManager(w.db.managers, owner).Some? {
      var j := FoundAt(w.db.managers, owner);
      Frozen.RegistryOk(w.db);
      PatchClearsMismatch(Reg(w), name, comment, j);
    }
  }

  /** What it leaves of the ledger: only the user's newest unsettled row takes the value, if one was given and fits. */
  lemma PatchedLedger(w: World, m: int, req: PatchReq, f: PatchFaults)
    requires Valid(w) && PatchReaches(w, m, req, f)
    ensures var acts' := Patch(w, m, req, f).0.db.acts;
            var writes := req.sharedUsers.Some? && req.sharedUsers.value > 0 && !f.ledgerDown;
            && acts'.Keys == w.db.acts.Keys
            && forall i :: i in w.db.acts ==>
                 acts'[i] == if writes && Newest(w.db, m, i) then w.db.acts[i].(sharedUsers := req.sharedUsers.value)
                             else w.db.acts[i]
  {
    PatchShape(w, m, req, f);
    hide PatchReaches, Patch, WellFormed, DbOk, SetUser, PatchedComment, Newest;
  }

  /**
   * What it leaves of the metadata: contact and notes as requested, and with a manager id in the request the user is
   * billed to its resolved owner. When the write fails the rest of the patch stays.
   */
  lemma PatchedMeta(w: World, m: int, req: PatchReq, f: PatchFaults)
    requires Valid(w) && PatchReaches(w, m, req, f)
    ensures var (w', reply) := Patch(w, m, req, f);
            var u := w.router.users[w.db.metas[m].name];
            && m in w'.db.metas && w'.db.metas[m].name == u.name && w'.db.metas - {m} == w.db.metas - {m}
            && reply == (if f.metaDown then Refused(DatabaseFailed) else Ok(m))
            && (f.metaDown ==> w'.db.metas == w.db.metas)
            && (!f.metaDown ==>
                  && (req.contact.Some? ==> w'.db.metas[m].contact == req.contact)
                  && (req.contact.None? ==> w'.db.metas[m].contact == w.db.metas[m].contact)
                  && (req.notes.Some? ==> w'.db.metas[m].notes == req.notes)
                  && (req.notes.None? ==> w'.db.metas[m].notes == w.db.metas[m].notes)
                  && (req.syncManager.Some? ==>
                        w'.db.metas[m].managerID == Some(Resolve(Reg(w), u.name, u.comment)))
                  && (req.syncManager.None? ==> w'.db.metas[m].managerID == w.db.metas[m].managerID))
  {
    PatchAccepted(w, m, req, f);
    if !f.metaDown && req.syncManager.Some? {
      Frozen.SyncRefOk(w, m, req, f);
    }
    PatchShape(w, m, req, f);
    var w' := Patch(w, m, req, f).0;
    hide Patch, SetUser, PatchedComment, UpdateNewest, HasActive, UsedBy, ManagerRefOk;
    assert w'.db.metas - {m} == w.db.metas - {m};
  }
}
