/** The reference router client as an object; each method is proved against its meaning in Router. */
module Fake {
  import opened Models
  import opened Text
  import opened Router
  import R = Router

  class FakeClient {
    var users: map<string, User>
    var profiles: map<string, seq<ProfileRow>>
    var nextID: nat
    var profilesDefined: set<string>

    function State(): RouterState
      reads this
    {
      RouterState(users, profiles, nextID, profilesDefined)
    }

    constructor ()
      ensures State() == InitialRouter() && WellFormed(State())
    {
      users, profiles, nextID, profilesDefined := map[], map[], 1, {"profile-open-2M-30d"};
    }

    /** Go ranges over the map in an arbitrary order. */
    method ListUsers() returns (list: seq<User>)
      requires WellFormed(State())
      ensures Lists(list, users)
    {
      list := [];
      var rest := users.Keys;
      while rest != {}
        invariant rest <= users.Keys
        invariant forall i, j :: 0 <= i < j < |list| ==> list[i].name != list[j].name
        invariant forall u :: u in list ==> u.name in users && u.name !in rest && users[u.name] == u
        invariant forall name :: name in users && name !in rest ==> users[name] in list
        decreases |rest|
      {
        var name :| name in rest;
        ghost var before := list;
        list := list + [users[name]];
        assert forall u :: u in list <==> u in before || u == users[name];
        rest := rest - {name};
      }
    }

    method GetUser(name: string) returns (found: Option<User>)
      ensures found == if name in users then Some(users[name]) else None
    {
      found := if name in users then Some(users[name]) else None;
    }

    method AddUser(name: string, password: string, comment: string, sharedUsers: int, disabled: bool)
      returns (o: Outcome)
      modifies this
      ensures (State(), o) == R.AddUser(old(State()), name, password, comment, sharedUsers, disabled)
    {
      if name in users {
        return Failed(NameTaken);
      }
      var id := UserID(nextID);
      nextID := nextID + 1;
      users := users[name := User(id, name, password, sharedUsers, comment, disabled)];
      o := Done;
    }

    method SetUser(name: string, password: Option<string>, sharedUsers: Option<int>, comment: string,
                   disabled: Option<bool>) returns (o: Outcome)
      modifies this
      ensures (State(), o) == R.SetUser(old(State()), name, password, sharedUsers, comment, disabled)
    {
      if name !in users {
        return Failed(NotFound);
      }
      var u := users[name];
      if password.Some? {
        u := u.(password := password.value);
      }
      if sharedUsers.Some? {
        u := u.(sharedUsers := sharedUsers.value);
      }
      u := u.(comment := comment);
      if disabled.Some? {
        u := u.(disabled := disabled.value);
      }
      users := users[name := u];
      o := Done;
    }

    method RemoveUser(name: string) returns (o: Outcome)
      modifies this
      ensures (State(), o) == R.RemoveUser(old(State()), name)
    {
      if name !in users {
        return Failed(NotFound);
      }
      users := users - {name};
      profiles := profiles - {name};
      o := Done;
    }

    method ListUserProfiles(user: string) returns (rows: seq<ProfileRow>)
      ensures rows == Rows(State(), user)
    {
      rows := if user in profiles then profiles[user] else [];
    }

    method DeactivatePrevious(rows: seq<ProfileRow>) returns (out: seq<ProfileRow>)
      ensures out == ExpireAll(rows)
    {
      out := rows;
      for i := 0 to |rows|
        invariant |out| == |rows|
        invariant forall k :: 0 <= k < i ==> out[k] == Expire(rows[k])
        invariant forall k :: i <= k < |rows| ==> out[k] == rows[k]
      {
        var active := FindSubstring(Lower(out[i].state), "active");
        if active {
          out := out[i := out[i].(state := "expired")];
        }
      }
    }

    /** The new row is active; a loop first expires whatever was active before. */
    method AddUserProfile(user: string, profile: string, now: int) returns (o: Outcome)
      modifies this
      ensures (State(), o) == R.AddUserProfile(old(State()), user, profile, now)
    {
      if profile !in profilesDefined {
        return Failed(ProfileMissing);
      }
      if user !in users {
        return Failed(NotFound);
      }
      var id := RowID(nextID);
      nextID := nextID + 1;
      var row := ProfileRow(id, user, profile, "active", Some(now + THIRTY_DAYS));
      var rows := if user in profiles then profiles[user] else [];
      rows := DeactivatePrevious(rows);
      profiles := profiles[user := rows + [row]];
      o := Done;
    }

    method RemoveUserProfile(id: string) returns (o: Outcome)
      requires WellFormed(State())
      modifies this
      ensures (State(), o) == R.RemoveUserProfile(old(State()), id)
    {
      var rest := profiles.Keys;
      while rest != {}
        invariant rest <= profiles.Keys
        invariant unchanged(this)
        invariant forall name, i :: RowNamed(State(), name, i, id) ==> name in rest
        decreases |rest|
      {
        var name :| name in rest;
        var list := profiles[name];
        for i := 0 to |list|
          invariant unchanged(this)
          invariant forall k :: 0 <= k < i ==> list[k].id != id
        {
          if list[i].id == id {
            RemoveRowExact(State(), name, i);
            var active := FindSubstring(Lower(list[i].state), "active");
            if active {
              return Failed(ActiveProfile);
            }
            profiles := profiles[name := list[..i] + list[i + 1..]];
            return Done;
          }
        }
        rest := rest - {name};
      }
      o := Failed(NotFound);
    }
  }
}
