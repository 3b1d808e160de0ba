/** The store object: each method runs one statement over the tables and is proved against its meaning. */
module Database {
  import opened Models
  import opened Tables

  // ---------------------------------------------------------------- the table scans behind the statements

  method RowsOfOthers(acts: map<int, Activation>, id: int) returns (kept: map<int, Activation>)
    ensures kept == map i | i in acts && acts[i].metaID != id :: acts[i]
  {
    var rest := acts.Keys;
    kept := map[];
    while rest != {}
      invariant rest <= acts.Keys
      invariant forall i :: i in kept <==> i in acts && i !in rest && acts[i].metaID != id
      invariant forall i :: i in kept ==> kept[i] == acts[i]
      decreases |rest|
    {
      NonEmpty(rest);
      var i :| i in rest;
      if acts[i].metaID != id {
        kept := kept[i := acts[i]];
      }
      rest := rest - {i};
    }
    SameRows(kept, map i | i in acts && acts[i].metaID != id :: acts[i]);
  }

  /** The inner SELECT of the ledger update: one pass that keeps the latest unsettled row seen. */
  method LatestUnsettled(db: Db, metaID: int) returns (id: Option<int>)
    requires forall i :: i in db.acts ==> db.acts[i].id == i
    ensures id.Some? ==> Newest(db, metaID, id.value)
    ensures id.None? ==> forall i :: !UnsettledOf(db, metaID, i)
  {
    id := None;
    var rest := db.acts.Keys;
    while rest != {}
      invariant rest <= db.acts.Keys
      invariant id.None? ==> forall j :: UnsettledOf(db, metaID, j) ==> j in rest
      invariant id.Some? ==> UnsettledOf(db, metaID, id.value) && id.value !in rest
      invariant id.Some? ==> forall j :: UnsettledOf(db, metaID, j) && j != id.value && j !in rest ==>
                               Before(db.acts[j], db.acts[id.value])
      decreases |rest|
    {
      NonEmpty(rest);
      var i :| i in rest;
      if db.acts[i].metaID == metaID && !db.acts[i].settled && (id.None? || Before(db.acts[id.value], db.acts[i])) {
        id := Some(i);
      }
      rest := rest - {i};
    }
  }

  /** The UPDATE of a settlement: the new rows and how many were closed. */
  method CloseRows(db: Db, adminID: int, scope: Scope, anchor: Activation, now: int)
    returns (updated: map<int, Activation>, n: int)
    ensures updated == map i | i in db.acts ::
                         if ToSettle(db, scope, anchor, i) then Settled(db.acts[i], adminID, now) else db.acts[i]
    ensures n == |SettleIds(db, scope, anchor)|
  {
    hide ToSettle, Settled;
    updated, n := db.acts, 0;
    ghost var closed: set<int> := {};
    var rest := db.acts.Keys;
    while rest != {}
      invariant rest <= db.acts.Keys && updated.Keys == db.acts.Keys
      invariant n == |closed|
      invariant forall i :: i in closed <==> i in db.acts && i !in rest && ToSettle(db, scope, anchor, i)
      invariant forall i :: i in db.acts ==>
                  updated[i] == if i in closed then Settled(db.acts[i], adminID, now) else db.acts[i]
      decreases |rest|
    {
      NonEmpty(rest);
      var i :| i in rest;
      if ToSettle(db, scope, anchor, i) {
        updated := updated[i := Settled(db.acts[i], adminID, now)];
        closed := closed + {i};
        n := n + 1;
      }
      rest := rest - {i};
    }
    SameSet(closed, SettleIds(db, scope, anchor));
  }

  /** A visible row that no other remaining row beats by instant; any of several may come first. */
  method PickLatest(acts: map<int, Activation>, rest: set<int>) returns (i: int)
    requires rest != {} && forall k :: k in rest ==> k in acts && acts[k].id == k
    ensures i in rest && forall j :: j in rest ==> acts[j].createdAt <= acts[i].createdAt
  {
    ghost var last := LatestOf(acts, rest);
    assert last in rest && forall j :: j in rest ==> acts[j].createdAt <= acts[last].createdAt;
    i :| i in rest && forall j :: j in rest ==> acts[j].createdAt <= acts[i].createdAt;
  }

  /** What a partial listing has, with everything that is still to come. */
  ghost predicate Partial(db: Db, f: Filter, rows: seq<RenewalSharedUsersRow>, rest: set<int>) {
    && (forall i :: i in rest ==> Visible(db, f, i))
    && (forall a :: 0 <= a < |rows| ==>
          Visible(db, f, rows[a].id) && rows[a].id !in rest && rows[a] == RowOf(db, rows[a].id))
    && (forall a, b :: 0 <= a < b < |rows| ==> rows[a].id != rows[b].id)
    && (forall i :: Visible(db, f, i) && i !in rest ==> i in IdsOf(rows))
    && (forall a, b :: 0 <= a < b < |rows| ==> db.acts[rows[a].id].createdAt >= db.acts[rows[b].id].createdAt)
    && (forall a, i :: 0 <= a < |rows| && i in rest ==> db.acts[rows[a].id].createdAt >= db.acts[i].createdAt)
  }

  lemma PartialGrows(db: Db, f: Filter, rows: seq<RenewalSharedUsersRow>, rest: set<int>, i: int)
    requires Partial(db, f, rows, rest) && i in rest
    requires forall j :: j in rest ==> db.acts[j].createdAt <= db.acts[i].createdAt
    ensures Partial(db, f, rows + [RowOf(db, i)], rest - {i})
  {
    assert IdsOf(rows + [RowOf(db, i)]) == IdsOf(rows) + [i];
  }

  /** ORDER BY created_at DESC: rows of one instant come in whatever order the engine finds them. */
  method Listing(db: Db, f: Filter) returns (rows: seq<RenewalSharedUsersRow>)
    requires forall i :: i in db.acts ==> db.acts[i].id == i
    ensures IsRenewalListing(db, f, rows)
  {
    rows := [];
    var rest := set i | i in db.acts && Visible(db, f, i);
    while rest != {}
      invariant Partial(db, f, rows, rest)
      decreases |rest|
    {
      var i := PickLatest(db.acts, rest);
      PartialGrows(db, f, rows, rest, i);
      rows := rows + [RowOf(db, i)];
      rest := rest - {i};
    }
  }

  class Store {
    /** In id order: managers are only ever appended. */
    var managers: seq<Manager>
    var nextManagerID: int
    var metas: map<int, Meta>
    var nextMetaID: int
    var acts: map<int, Activation>
    var nextActID: int

    function State(): Db
      reads this
    {
      Db(managers, nextManagerID, metas, nextMetaID, acts, nextActID)
    }

    constructor ()
      ensures State() == EmptyDb()
    {
      managers, nextManagerID, metas, nextMetaID, acts, nextActID := [], 1, map[], 1, map[], 1;
    }

    // -------------------------------------------------------------- managers

    method FindManagerByID(id: int) returns (found: Option<Manager>)
      ensures found == FindManager(managers, id)
    {
      for i := 0 to |managers|
        invariant FindManager(managers, id) == FindManager(managers[i..], id)
      {
        if managers[i].id == id {
          return Some(managers[i]);
        }
      }
      found := None;
    }

    /** UNIQUE COLLATE NOCASE on user name and slug, CHECK on the quota. */
    method CreateManager(username: string, slug: string, quota: int) returns (id: Option<int>)
      modifies this
      ensures (State(), id) == InsertManager(old(State()), username, slug, quota)
    {
      if quota <= 0 {
        return None;
      }
      for i := 0 to |managers|
        invariant unchanged(this)
        invariant forall k :: 0 <= k < i ==>
                    !(SameNoCase(managers[k].username, username) || SameNoCase(managers[k].slug, slug))
      {
        if SameNoCase(managers[i].username, username) || SameNoCase(managers[i].slug, slug) {
          assert managers[i] in managers;
          return None;
        }
      }
      id := Some(nextManagerID);
      managers := managers + [Manager(nextManagerID, username, slug, quota)];
      nextManagerID := nextManagerID + 1;
    }

    method UpdateManagerQuota(id: int, quota: int)
      modifies this
      ensures State() == SetQuota(old(State()), id, quota)
    {
      if quota <= 0 {
        return;
      }
      var updated: seq<Manager> := [];
      for i := 0 to |managers|
        invariant unchanged(this)
        invariant updated == WithQuotas(managers[..i], id, quota)
      {
        assert managers[..i + 1][..i] == managers[..i];
        updated := updated + [if managers[i].id == id then managers[i].(quota := quota) else managers[i]];
      }
      assert managers[..|managers|] == managers;
      managers := updated;
    }

    // -------------------------------------------------------------- user rows

    method FindVPNMetaByName(name: string) returns (id: Option<int>)
      ensures id.Some? ==> MetaNamed(State(), id.value, name)
      ensures id.None? ==> !NameKnown(State(), name)
    {
      var rest := metas.Keys;
      while rest != {}
        invariant rest <= metas.Keys
        invariant forall m :: m in metas && metas[m].name == name ==> m in rest
        decreases |rest|
      {
        NonEmpty(rest);
        var m :| m in rest;
        if metas[m].name == name {
          return Some(m);
        }
        rest := rest - {m};
      }
      id := None;
    }

    method CreateVPNMeta(name: string, managerID: Option<int>, contact: Option<string>, notes: Option<string>)
      returns (id: Option<int>)
      modifies this
      ensures (State(), id) == InsertMeta(old(State()), name, managerID, contact, notes)
    {
      var clash := FindVPNMetaByName(name);
      if clash.Some? {
        return None;
      }
      if managerID.Some? {
        var mgr := FindManagerByID(managerID.value);
        if mgr.None? {
          return None;
        }
      }
      id := Some(nextMetaID);
      metas := metas[nextMetaID := Meta(nextMetaID, name, managerID, contact, notes)];
      nextMetaID := nextMetaID + 1;
    }

    method UpdateVPNMeta(id: int, contact: Option<string>, notes: Option<string>, managerID: Option<int>)
      modifies this
      ensures State() == UpdateMeta(old(State()), id, contact, notes, managerID)
    {
      if id !in metas {
        return;
      }
      var cur := metas[id];
      if contact.Some? {
        cur := cur.(contact := contact);
      }
      if notes.Some? {
        cur := cur.(notes := notes);
      }
      if managerID.Some? {
        var mgr := FindManagerByID(managerID.value);
        if mgr.None? {
          return;
        }
        cur := cur.(managerID := managerID);
      }
      metas := metas[id := cur];
    }

    /** ON DELETE CASCADE takes the user's activations along. */
    method DeleteVPNMeta(id: int)
      modifies this
      ensures State() == DeleteMeta(old(State()), id)
    {
      var kept := RowsOfOthers(acts, id);
      metas := metas - {id};
      acts := kept;
    }

    // -------------------------------------------------------------- the ledger

    method CreateActivation(metaID: int, profile: string, sharedUsers: int, endTime: Option<int>, now: int)
      modifies this
      ensures State() == InsertActivation(old(State()), metaID, profile, sharedUsers, endTime, now)
    {
      if sharedUsers <= 0 || metaID !in metas {
        return;
      }
      acts := acts[nextActID := Activation(nextActID, metaID, profile, sharedUsers, false, None, None, endTime, now)];
      nextActID := nextActID + 1;
    }

    method UpdateLatestUnsettledActivationSharedUsers(metaID: int, sharedUsers: int)
      requires forall i :: i in acts ==> acts[i].id == i
      modifies this
      ensures State() == UpdateNewest(old(State()), metaID, sharedUsers)
    {
      var id := LatestUnsettled(State(), metaID);
      if id.Some? && sharedUsers > 0 {
        acts := acts[id.value := acts[id.value].(sharedUsers := sharedUsers)];
      }
      assert State().acts == UpdateNewest(old(State()), metaID, sharedUsers).acts;
    }

    method UpdateActivationSharedUsers(id: int, sharedUsers: int)
      modifies this
      ensures State() == UpdateActivation(old(State()), id, sharedUsers)
    {
      if sharedUsers > 0 && id in acts {
        acts := acts[id := acts[id].(sharedUsers := sharedUsers)];
      }
    }

    /** Two reads check the scope; one UPDATE then closes the rows and counts them. */
    method SettleThrough(adminID: int, scope: Scope, actID: int, now: int) returns (count: Option<int>)
      modifies this
      ensures (State(), count) == Tables.SettleThrough(old(State()), adminID, scope, actID, now)
    {
      if actID !in acts {
        return None;
      }
      var anchor := acts[actID];
      if !InScope(State(), anchor, scope) {
        return None;
      }
      var updated, n := CloseRows(State(), adminID, scope, anchor, now);
      acts := updated;
      count := Some(n);
    }

    method ListRenewalSharedUsersInScope(f: Filter) returns (rows: seq<RenewalSharedUsersRow>)
      requires forall i :: i in acts ==> acts[i].id == i
      ensures IsRenewalListing(State(), f, rows)
    {
      rows := Listing(State(), f);
    }
  }
}
