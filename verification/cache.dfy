/** The read cache in front of the router client. */
module Cache {
  import opened Models
  import opened Router
  import opened Fake

  /** The router's users as they were at one instant. */
  datatype Snapshot = Snapshot(at: int, users: map<string, User>)

  /** One user's profile rows as they were at one instant. */
  datatype RowsRead = RowsRead(user: string, at: int, rows: seq<ProfileRow>)

  datatype Lookup = Found(user: User) | Missing | Down

  function LookupIn(users: map<string, User>, name: string): Lookup {
    if name in users then Found(users[name]) else Missing
  }

  ghost predicate IsListingOf(list: seq<User>, s: Snapshot) {
    Lists(list, s.users) && forall name :: name in s.users ==> s.users[name].name == name
  }

  ghost predicate InHistory(history: seq<Snapshot>, list: seq<User>, at: int, k: int) {
    0 <= k < |history| && history[k].at == at && IsListingOf(list, history[k])
  }

  class CachedClient {
    const inner: FakeClient
    const ttl: int
    /** None stands for Go's nil slice, which is also what an empty listing is. */
    var users: Option<seq<User>>
    var usersAt: int
    var profiles: map<string, seq<ProfileRow>>
    /** One stamp for all profile entries. */
    var profilesAt: int
    /** What was fetched so far, which of it is cached, and when; only specifications read these. */
    ghost var history: seq<Snapshot>
    ghost var usersFrom: int
    ghost var rowReads: seq<RowsRead>
    ghost var fetched: map<string, int>

    constructor (inner: FakeClient, ttl: int)
      ensures this.inner == inner && this.ttl == ttl
      ensures Recorded() && Coherent() && history == [] && rowReads == []
    {
      this.inner, this.ttl := inner, ttl;
      users, usersAt, profiles, profilesAt := None, 0, map[], 0;
      history, usersFrom, rowReads, fetched := [], 0, [], map[];
    }

    /**
     * What is cached was fetched: the list at its stamp, each profile entry at its own instant; the profile stamp is
     * the instant of one of those fetches. Outside writers cannot break this.
     */
    ghost predicate Recorded()
      reads this
    {
      && (users.Some? ==> InHistory(history, users.value, usersAt, usersFrom))
      && profiles.Keys == fetched.Keys
      && (forall user :: user in profiles ==> RowsRead(user, fetched[user], profiles[user]) in rowReads)
      && (profiles != map[] ==> exists user :: user in fetched && fetched[user] == profilesAt)
    }

    /** The cache agrees with the router. Only outside writers can break this. */
    ghost predicate Coherent()
      reads this, inner
    {
      && (users.Some? ==> Lists(users.value, inner.users))
      && (forall name :: name in profiles ==> profiles[name] == Rows(inner.State(), name))
    }

    /** The snapshot was taken now, or less than the time to live ago. */
    ghost predicate FreshSnapshot(k: int, now: int)
      reads this, inner
    {
      0 <= k < |history| && (now - history[k].at < ttl || history[k] == Snapshot(now, inner.users))
    }

    ghost predicate FreshEnough(list: seq<User>, now: int)
      reads this, inner
    {
      exists k :: FreshSnapshot(k, now) && IsListingOf(list, history[k])
    }

    ghost predicate FreshLookup(name: string, r: Lookup, now: int)
      reads this, inner
    {
      exists k :: FreshSnapshot(k, now) && r == LookupIn(history[k].users, name)
    }

    /** These rows were the user's on the router at some fetch. */
    ghost predicate WasRead(user: string, rows: seq<ProfileRow>)
      reads this
    {
      exists k :: 0 <= k < |rowReads| && rowReads[k].user == user && rowReads[k].rows == rows
    }

    /** A read of this user's rows at this instant is answered from the cache. */
    predicate Serves(user: string, now: int)
      reads this
    {
      user in profiles && now - profilesAt < ttl
    }

    method InvalidateCache()
      modifies this
      ensures users == None && profiles == map[] && history == old(history) && rowReads == old(rowReads)
      ensures Recorded() && Coherent()
    {
      users, profiles, fetched := None, map[], map[];
    }

    method ListUsers(now: int, up: bool) returns (list: Option<seq<User>>)
      requires WellFormed(inner.State()) && Recorded()
      modifies this
      ensures Recorded() && (up ==> list.Some?)
      ensures old(Coherent()) ==> Coherent() && (list.Some? ==> Lists(list.value, inner.users))
      ensures list.Some? ==> FreshEnough(list.value, now)
      ensures old(users) == None && list.Some? ==> Lists(list.value, inner.users)
      ensures history == old(history) || history == old(history) + [Snapshot(now, inner.users)]
      ensures rowReads == old(rowReads)
    {
      if now - usersAt < ttl && users.Some? {
        return users;
      }
      if !up {
        return None;
      }
      var u := inner.ListUsers();
      history := history + [Snapshot(now, inner.users)];
      assert IsListingOf(u, history[|history| - 1]);
      users := if u == [] then None else Some(u);
      usersAt := now;
      usersFrom := |history| - 1;
      list := Some(u);
    }

    /** Refreshing never serves the cached list. */
    method RefreshListUsers(now: int, up: bool) returns (list: Option<seq<User>>)
      requires WellFormed(inner.State()) && Recorded()
      modifies this
      ensures Recorded() && (up <==> list.Some?)
      ensures list.Some? ==> Lists(list.value, inner.users)
      ensures old(Coherent()) ==> Coherent()
      ensures history == old(history) || history == old(history) + [Snapshot(now, inner.users)]
      ensures rowReads == old(rowReads)
    {
      users := None;
      if !up {
        return None;
      }
      list := ListUsers(now, up);
    }

    method GetUser(name: string, now: int, up: bool) returns (r: Lookup)
      requires WellFormed(inner.State()) && Recorded()
      modifies this
      ensures Recorded() && (up ==> r != Down)
      ensures old(Coherent()) ==> Coherent()
      ensures old(Coherent()) && r != Down ==> r == LookupIn(inner.users, name)
      ensures r != Down ==> FreshLookup(name, r, now)
      ensures history == old(history) || history == old(history) + [Snapshot(now, inner.users)]
      ensures rowReads == old(rowReads)
    {
      hide Lists, IdsKnown, IdsUnique;
      var list := ListUsers(now, up);
      if list.None? {
        return Down;
      }
      ghost var k :| FreshSnapshot(k, now) && IsListingOf(list.value, history[k]);
      r := Search(list.value, name);
      ListedLookup(list.value, history[k].users, name, r);
      if old(Coherent()) {
        ListedLookup(list.value, inner.users, name, r);
      }
    }

    /** The loop over the listed users. */
    method Search(list: seq<User>, name: string) returns (r: Lookup)
      ensures SearchResult(list, name, r)
    {
      for i := 0 to |list|
        invariant forall k :: 0 <= k < i ==> list[k].name != name
      {
        if list[i].name == name {
          return Found(list[i]);
        }
      }
      r := Missing;
    }

    method ListUserProfiles(user: string, now: int, up: bool) returns (rows: Option<seq<ProfileRow>>)
      requires Recorded()
      modifies this
      ensures Recorded() && (up ==> rows.Some?)
      ensures history == old(history) && users == old(users) && (rows.Some? ==> WasRead(user, rows.value))
      ensures rowReads == old(rowReads) || rowReads == old(rowReads) + [RowsRead(user, now, Rows(inner.State(), user))]
      ensures old(Coherent()) ==> Coherent() && (rows.Some? ==> rows.value == Rows(inner.State(), user))
      ensures rows == if old(Serves(user, now)) then Some(old(profiles)[user])
                      else if up then Some(Rows(inner.State(), user)) else None
      ensures old(Serves(user, now)) || !up ==>
                profiles == old(profiles) && profilesAt == old(profilesAt) && fetched == old(fetched)
      ensures !old(Serves(user, now)) && up ==>
                && profiles == old(profiles)[user := rows.value] && profilesAt == now
                && fetched == old(fetched)[user := now]
    {
      if user in profiles && now - profilesAt < ttl {
        ghost var k :| 0 <= k < |rowReads| && rowReads[k] == RowsRead(user, fetched[user], profiles[user]);
        return Some(profiles[user]);
      }
      if !up {
        return None;
      }
      var p := inner.ListUserProfiles(user);
      profiles := profiles[user := p];
      profilesAt := now;
      rowReads, fetched := rowReads + [RowsRead(user, now, p)], fetched[user := now];
      assert rowReads[|rowReads| - 1].rows == p && fetched[user] == profilesAt;
      rows := Some(p);
    }

    /** The five write wrappers: the inner write first, and on success everything cached is dropped. */
    method Write(w: Write, up: bool) returns (o: Outcome)
      requires WellFormed(inner.State()) && Recorded()
      modifies this, inner
      ensures Recorded() && history == old(history) && rowReads == old(rowReads) && WellFormed(inner.State())
      ensures (inner.State(), o) ==
                if up then ApplyWrite(old(inner.State()), w) else (old(inner.State()), Failed(Unavailable))
      ensures old(Coherent()) ==> Coherent()
      ensures o == Done ==> Coherent() && users == None && profiles == map[]
    {
      if !up {
        return Failed(Unavailable);
      }
      o := ForwardWrite(inner, w);
      if o == Done {
        InvalidateCache();
      } else {
        assert inner.State() == old(inner.State());
      }
    }
  }

  ghost predicate SearchResult(list: seq<User>, name: string, r: Lookup) {
    match r
    case Found(u) => u in list && u.name == name
    case Missing => forall k :: 0 <= k < |list| ==> list[k].name != name
    case Down => false
  }

  /** Searching a listing looks the name up in the listed table. */
  lemma ListedLookup(list: seq<User>, users: map<string, User>, name: string, r: Lookup)
    requires Lists(list, users) && SearchResult(list, name, r)
    requires forall n :: n in users ==> users[n].name == n
    ensures r == LookupIn(users, name)
  {
  }

  // ---------------------------------------------------------------- how long a profile entry lives

  /**
   * Every instant at which an entry is served lies within the time to live of its own fetch exactly when the shared
   * stamp is not later than that fetch; a later stamp was set by a fetch for another user.
   */
  lemma EntryTtl(c: CachedClient, user: string)
    requires c.Recorded() && user in c.profiles
    ensures (forall now :: c.Serves(user, now) ==> now - c.fetched[user] < c.ttl) <==> c.profilesAt <= c.fetched[user]
    ensures c.profilesAt > c.fetched[user] ==>
              exists other :: other != user && other in c.fetched && c.fetched[other] == c.profilesAt
  {
    var last := c.profilesAt + c.ttl - 1;
    assert c.Serves(user, last);
    var other :| other in c.fetched && c.fetched[other] == c.profilesAt;
  }

  // ---------------------------------------------------------------- transparency over whole scripts

  datatype Op =
    | List(now: int, up: bool)
    | Refresh(now: int, up: bool)
    | Get(name: string, now: int, up: bool)
    | ListRows(user: string, now: int, up: bool)
    | Do(w: Write, up: bool)
    | Outside(w: Write)

  datatype Reply =
    | Users(list: Option<seq<User>>)
    | One(user: Lookup)
    | ProfileRows(rows: Option<seq<ProfileRow>>)
    | Wrote(o: Outcome)

  /** The router after a script sent to it directly. */
  ghost function DirectState(r: RouterState, ops: seq<Op>): RouterState {
    if ops == [] then r else Next(DirectState(r, ops[..|ops| - 1]), ops[|ops| - 1])
  }

  ghost function Next(r: RouterState, op: Op): RouterState {
    if op.Outside? || (op.Do? && op.up) then ApplyWrite(r, op.w).0 else r
  }

  /**
   * The reply is what the router itself would have answered in state r; a cached answer may stand in for a dead line.
   */
  ghost predicate Faithful(op: Op, r: RouterState, reply: Reply) {
    match op
    case List(_, up) =>
      reply.Users? && (up ==> reply.list.Some?) && (reply.list.Some? ==> Lists(reply.list.value, r.users))
    case Refresh(_, up) =>
      reply.Users? && (up <==> reply.list.Some?) && (reply.list.Some? ==> Lists(reply.list.value, r.users))
    case Get(name, _, up) =>
      && reply.One? && (up ==> reply.user != Down)
      && (reply.user != Down ==> reply.user == LookupIn(r.users, name))
    case ListRows(user, _, up) =>
      reply.ProfileRows? && (up ==> reply.rows.Some?) && (reply.rows.Some? ==> reply.rows.value == Rows(r, user))
    case Do(w, up) =>
      reply == Wrote(if up then ApplyWrite(r, w).1 else Failed(Unavailable))
    case Outside(w) => reply == Wrote(ApplyWrite(r, w).1)
  }

  /**
   * Any script of reads and writes sent through the cache, with the clock moving arbitrarily, is answered as the
   * router alone would answer it.
   */
  method RunScript(c: CachedClient, ops: seq<Op>) returns (replies: seq<Reply>)
    requires WellFormed(c.inner.State()) && c.Recorded() && c.Coherent() && forall op :: op in ops ==> !op.Outside?
    modifies c, c.inner
    ensures |replies| == |ops|
    ensures forall i :: 0 <= i < |ops| ==> Faithful(ops[i], DirectState(old(c.inner.State()), ops[..i]), replies[i])
    ensures c.inner.State() == DirectState(old(c.inner.State()), ops)
    ensures c.Coherent()
  {
    hide WellFormed, Faithful, Next, CachedClient.Recorded, CachedClient.Coherent;
    replies := [];
    ghost var start := c.inner.State();
    for i := 0 to |ops|
      invariant WellFormed(c.inner.State()) && c.Recorded() && c.Coherent()
      invariant |replies| == i && c.inner.State() == DirectState(start, ops[..i])
      invariant forall k :: 0 <= k < i ==> Faithful(ops[k], DirectState(start, ops[..k]), replies[k])
    {
      assert ops[i] in ops;
      var reply := Step(c, ops[i]);
      replies := replies + [reply];
      NextPrefix(start, ops, i);
    }
    assert ops[..|ops|] == ops;
  }

  lemma NextPrefix(r: RouterState, ops: seq<Op>, i: int)
    requires 0 <= i < |ops|
    ensures DirectState(r, ops[..i + 1]) == Next(DirectState(r, ops[..i]), ops[i])
  {
    assert ops[..i + 1][..i] == ops[..i];
  }

  /** However stale, an answer was true of the router at a fetch, and for users at one within the time to live. */
  ghost predicate FreshReply(c: CachedClient, op: Op, reply: Reply)
    reads c, c.inner
  {
    match op
    case List(now, _) => reply.Users? && (reply.list.Some? ==> c.FreshEnough(reply.list.value, now))
    case Refresh(now, _) => reply.Users? && (reply.list.Some? ==> Lists(reply.list.value, c.inner.users))
    case Get(name, now, _) => reply.One? && (reply.user != Down ==> c.FreshLookup(name, reply.user, now))
    case ListRows(user, _, _) => reply.ProfileRows? && (reply.rows.Some? ==> c.WasRead(user, reply.rows.value))
    case _ => true
  }

  predicate ReadsUsers(op: Op) {
    op.List? || op.Refresh? || op.Get?
  }

  method Step(c: CachedClient, op: Op) returns (reply: Reply)
    requires WellFormed(c.inner.State()) && c.Recorded()
    modifies c, c.inner
    ensures WellFormed(c.inner.State()) && c.Recorded()
    ensures c.inner.State() == Next(old(c.inner.State()), op)
    ensures old(c.Coherent()) && !op.Outside? ==> c.Coherent() && Faithful(op, old(c.inner.State()), reply)
    ensures FreshReply(c, op, reply)
    ensures c.history == old(c.history) ||
            (ReadsUsers(op) && c.history == old(c.history) + [Snapshot(op.now, c.inner.users)])
    ensures c.rowReads == old(c.rowReads) ||
            (op.ListRows? &&
             c.rowReads == old(c.rowReads) + [RowsRead(op.user, op.now, Rows(c.inner.State(), op.user))])
  {
    match op {
      case List(now, up) =>
        var list := c.ListUsers(now, up);
        reply := Users(list);
      case Refresh(now, up) =>
        var list := c.RefreshListUsers(now, up);
        reply := Users(list);
      case Get(name, now, up) =>
        var user := c.GetUser(name, now, up);
        reply := One(user);
      case ListRows(user, now, up) =>
        var rows := c.ListUserProfiles(user, now, up);
        reply := ProfileRows(rows);
      case Do(w, up) =>
        var o := c.Write(w, up);
        reply := Wrote(o);
      case Outside(w) =>
        var o := ForwardWrite(c.inner, w);
        reply := Wrote(o);
    }
  }

  /** The router call behind a write. */
  method ForwardWrite(router: FakeClient, w: Write) returns (o: Outcome)
    requires WellFormed(router.State())
    modifies router
    ensures (router.State(), o) == ApplyWrite(old(router.State()), w) && WellFormed(router.State())
  {
    WriteKeeps(router.State(), w);
    match w {
      case WAdd(name, password, comment, sharedUsers, disabled) =>
        o := router.AddUser(name, password, comment, sharedUsers, disabled);
      case WSet(name, password, sharedUsers, comment, disabled) =>
        o := router.SetUser(name, password, sharedUsers, comment, disabled);
      case WRemove(name) =>
        o := router.RemoveUser(name);
      case WAddProfile(user, profile, now) =>
        o := router.AddUserProfile(user, profile, now);
      case WRemoveProfile(rowID) =>
        o := router.RemoveUserProfile(rowID);
    }
  }

  // ---------------------------------------------------------------- staleness amid outside writes

  /** What the i-th answer may show: the router after k operations, k being a read of the same kind. */
  ghost predicate ShowsState(ops: seq<Op>, i: int, k: int, ttl: int, r: RouterState, reply: Reply)
    requires 0 <= i < |ops| && 0 <= k < |ops|
  {
    match ops[i]
    case List(now, _) =>
      && reply.Users? && ReadsUsers(ops[k]) && (k == i || now - ops[k].now < ttl)
      && (reply.list.Some? ==> Lists(reply.list.value, r.users))
    case Refresh(_, _) => k == i && reply.Users? && (reply.list.Some? ==> Lists(reply.list.value, r.users))
    case Get(name, now, _) =>
      && reply.One? && ReadsUsers(ops[k]) && (k == i || now - ops[k].now < ttl)
      && (reply.user != Down ==> reply.user == LookupIn(r.users, name))
    case ListRows(user, _, _) =>
      && reply.ProfileRows? && ops[k].ListRows? && ops[k].user == user
      && (reply.rows.Some? ==> reply.rows.value == Rows(r, user))
    case _ => k == i
  }

  /** Some earlier moment of the run explains the i-th answer. */
  ghost predicate Explained(start: RouterState, ops: seq<Op>, i: int, ttl: int, reply: Reply)
    requires 0 <= i < |ops|
  {
    exists k :: 0 <= k <= i && ShowsState(ops, i, k, ttl, DirectState(start, ops[..k]), reply)
  }

  /** Everything a client has fetched, it fetched at some operation of the run. */
  ghost predicate FetchedInRun(start: RouterState, ops: seq<Op>, i: int, history: seq<Snapshot>,
                               rowReads: seq<RowsRead>)
    requires 0 <= i <= |ops|
  {
    && (forall h :: 0 <= h < |history| ==> UsersFetched(start, ops, i, history[h]))
    && (forall h :: 0 <= h < |rowReads| ==> RowsFetched(start, ops, i, rowReads[h]))
  }

  ghost predicate UsersFetched(start: RouterState, ops: seq<Op>, i: int, s: Snapshot)
    requires 0 <= i <= |ops|
  {
    exists k :: UsersFetch(start, ops, i, k, s)
  }

  ghost predicate RowsFetched(start: RouterState, ops: seq<Op>, i: int, r: RowsRead)
    requires 0 <= i <= |ops|
  {
    exists k :: RowsFetch(start, ops, i, k, r)
  }

  ghost predicate UsersFetch(start: RouterState, ops: seq<Op>, i: int, k: int, s: Snapshot)
    requires 0 <= i <= |ops|
  {
    0 <= k < i && ReadsUsers(ops[k]) && s == Snapshot(ops[k].now, DirectState(start, ops[..k]).users)
  }

  ghost predicate RowsFetch(start: RouterState, ops: seq<Op>, i: int, k: int, r: RowsRead)
    requires 0 <= i <= |ops|
  {
    && 0 <= k < i && ops[k].ListRows?
    && r == RowsRead(ops[k].user, ops[k].now, Rows(DirectState(start, ops[..k]), ops[k].user))
  }

  /**
   * With arbitrary outside writes in between, every list and every lookup shows the router as it was at a read of the
   * run less than the time to live ago, or as it is; a refresh shows it as it is; profile rows are those of an
   * earlier read of that user, with no bound on the time.
   */
  method RunAmidOutsideWrites(c: CachedClient, ops: seq<Op>) returns (replies: seq<Reply>)
    requires WellFormed(c.inner.State()) && c.Recorded() && c.history == [] && c.rowReads == []
    modifies c, c.inner
    ensures |replies| == |ops| && c.inner.State() == DirectState(old(c.inner.State()), ops)
    ensures forall i :: 0 <= i < |ops| ==> Explained(old(c.inner.State()), ops, i, c.ttl, replies[i])
  {
    hide WellFormed, Faithful, Explained, FreshReply, UsersFetched, RowsFetched;
    hide CachedClient.Recorded, CachedClient.Coherent;
    replies := [];
    ghost var start := c.inner.State();
    for i := 0 to |ops|
      invariant WellFormed(c.inner.State()) && c.Recorded()
      invariant |replies| == i && c.inner.State() == DirectState(start, ops[..i])
      invariant FetchedInRun(start, ops, i, c.history, c.rowReads)
      invariant forall k :: 0 <= k < i ==> Explained(start, ops, k, c.ttl, replies[k])
    {
      ghost var history, rowReads := c.history, c.rowReads;
      var reply := Step(c, ops[i]);
      FetchesGrow(start, ops, i, history, rowReads, c.history, c.rowReads);
      StepExplained(c, start, ops, i, reply);
      replies := replies + [reply];
      NextPrefix(start, ops, i);
    }
    assert ops[..|ops|] == ops;
  }

  lemma FetchesGrow(start: RouterState, ops: seq<Op>, i: int, history: seq<Snapshot>, rowReads: seq<RowsRead>,
                    history': seq<Snapshot>, rowReads': seq<RowsRead>)
    requires 0 <= i < |ops| && FetchedInRun(start, ops, i, history, rowReads)
    requires var r := DirectState(start, ops[..i]);
             && (history' == history || (ReadsUsers(ops[i]) && history' == history + [Snapshot(ops[i].now, r.users)]))
             && (rowReads' == rowReads ||
                 (ops[i].ListRows? &&
                  rowReads' == rowReads + [RowsRead(ops[i].user, ops[i].now, Rows(r, ops[i].user))]))
    ensures FetchedInRun(start, ops, i + 1, history', rowReads')
  {
    forall h | 0 <= h < |history'|
      ensures UsersFetched(start, ops, i + 1, history'[h])
    {
      if h < |history| {
        assert UsersFetched(start, ops, i, history[h]);
        var k :| UsersFetch(start, ops, i, k, history[h]);
        assert UsersFetch(start, ops, i + 1, k, history'[h]);
      } else {
        assert UsersFetch(start, ops, i + 1, i, history'[h]);
      }
    }
    forall h | 0 <= h < |rowReads'|
      ensures RowsFetched(start, ops, i + 1, rowReads'[h])
    {
      if h < |rowReads| {
        assert RowsFetched(start, ops, i, rowReads[h]);
        var k :| RowsFetch(start, ops, i, k, rowReads[h]);
        assert RowsFetch(start, ops, i + 1, k, rowReads'[h]);
      } else {
        assert RowsFetch(start, ops, i + 1, i, rowReads'[h]);
      }
    }
  }

  lemma StepExplained(c: CachedClient, start: RouterState, ops: seq<Op>, i: int, reply: Reply)
    requires 0 <= i < |ops| && FreshReply(c, ops[i], reply) && FetchedInRun(start, ops, i + 1, c.history, c.rowReads)
    requires c.inner.State() == Next(DirectState(start, ops[..i]), ops[i])
    ensures Explained(start, ops, i, c.ttl, reply)
  {
    var k := i;
    match ops[i] {
      case List(now, _) =>
        if reply.list.Some? {
          var h :| c.FreshSnapshot(h, now) && IsListingOf(reply.list.value, c.history[h]);
          k := SnapshotMoment(c, start, ops, i, h);
        }
      case Get(name, now, _) =>
        if reply.user != Down {
          var h :| c.FreshSnapshot(h, now) && reply.user == LookupIn(c.history[h].users, name);
          k := SnapshotMoment(c, start, ops, i, h);
        }
      case ListRows(user, _, _) =>
        if reply.rows.Some? {
          var h :| 0 <= h < |c.rowReads| && c.rowReads[h].user == user && c.rowReads[h].rows == reply.rows.value;
          assert RowsFetched(start, ops, i + 1, c.rowReads[h]);
          k :| RowsFetch(start, ops, i + 1, k, c.rowReads[h]);
        }
      case _ =>
    }
    assert ShowsState(ops, i, k, c.ttl, DirectState(start, ops[..k]), reply);
  }

  /** A fresh snapshot shows the router at a read of users within the time to live, or now. */
  lemma SnapshotMoment(c: CachedClient, start: RouterState, ops: seq<Op>, i: int, h: int) returns (k: int)
    requires 0 <= i < |ops| && ReadsUsers(ops[i]) && c.FreshSnapshot(h, ops[i].now)
    requires FetchedInRun(start, ops, i + 1, c.history, c.rowReads) && c.inner.State() == DirectState(start, ops[..i])
    ensures 0 <= k <= i && ReadsUsers(ops[k]) && (k == i || ops[i].now - ops[k].now < c.ttl)
    ensures c.history[h].users == DirectState(start, ops[..k]).users
  {
    if ops[i].now - c.history[h].at < c.ttl {
      assert UsersFetched(start, ops, i + 1, c.history[h]);
      k :| UsersFetch(start, ops, i + 1, k, c.history[h]);
    } else {
      k := i;
    }
  }

  /**
   * Profile rows have no such bound: the client is left serving an entry it fetched at instant 0 at instant 18, under
   * a time to live of 10, because reading another user renewed the one stamp; the router has moved on.
   */
  method ProfileEntryOutlivesTtl() returns (c: CachedClient, served: Option<seq<ProfileRow>>, now: int)
    ensures fresh(c) && fresh(c.inner) && WellFormed(c.inner.State()) && c.Recorded()
    ensures c.Serves("a", now) && served == Some(c.profiles["a"]) && now - c.fetched["a"] >= c.ttl > 0
    ensures served.value != Rows(c.inner.State(), "a")
  {
    hide WellFormed, Lists, CachedClient.Recorded, CachedClient.Coherent;
    var router := new FakeClient();
    c := new CachedClient(router, 10);
    var o := c.Write(WAdd("a", "", "", 1, false), true);
    assert c.profiles == map[] && Rows(router.State(), "a") == [];
    var first := c.ListUserProfiles("a", 0, true);
    o := ForwardWrite(router, WAddProfile("a", "profile-open-2M-30d", 5));
    assert |Rows(router.State(), "a")| == 1;
    assert c.profiles["a"] == [] && c.fetched["a"] == 0 && "b" !in c.profiles;
    var other := c.ListUserProfiles("b", 9, true);
    now := 18;
    served := c.ListUserProfiles("a", now, true);
  }
}
