/** The browser's profile store: the known profiles, the active one, the
    loading flag and the one persisted key, `cinevault_user_id`. */
module UserStore {
  import opened Wrappers
  import opened Records

  /** `users.find(u => u.id === id)`: the first profile with that id. */
  function FindUser(users: seq<User>, id: string): (r: Option<User>)
    ensures r.None? <==> forall i :: 0 <= i < |users| ==> users[i].id != id
    ensures r.Some? ==> exists k :: 0 <= k < |users| && users[k] == r.value && r.value.id == id &&
                                    forall j :: 0 <= j < k ==> users[j].id != id
  {
    if users == [] then None
    else if users[0].id == id then Some(users[0])
    else
      var r := FindUser(users[1..], id);
      assert r.Some? ==> exists k :: 0 <= k < |users| && users[k] == r.value && r.value.id == id &&
                                     forall j :: 0 <= j < k ==> users[j].id != id by {
        if r.Some? {
          var k :| 0 <= k < |users| - 1 && users[1..][k] == r.value && r.value.id == id &&
                   forall j :: 0 <= j < k ==> users[1..][j].id != id;
          assert users[k + 1] == r.value;
          forall j | 0 <= j < k + 1 ensures users[j].id != id {
            if j > 0 { assert users[j] == users[1..][j - 1]; }
          }
        }
      }
      r
  }

  /** `users.filter(u => u.id !== id)` */
  function UsersWithout(users: seq<User>, id: string): (r: seq<User>)
    ensures forall u :: u in r <==> u in users && u.id != id
    ensures |r| <= |users|
  {
    if users == [] then []
    else (if users[0].id == id then [] else [users[0]]) + UsersWithout(users[1..], id)
  }

  /** The user provider's state. `savedUserId` is the value stored under
      `cinevault_user_id` (`None` when the key is absent). Nothing here ties
      `currentUser` to `users`: selecting does not check membership. */
  class Session {
    var users: seq<User>
    var currentUser: Option<User>
    var loading: bool
    var savedUserId: Option<string>

    /** A fresh provider over what the browser's storage holds. */
    constructor (stored: Option<string>)
      ensures users == [] && currentUser == None && loading && savedUserId == stored
    {
      users := [];
      currentUser := None;
      loading := true;
      savedUserId := stored;
    }

    /** The profile `fetchUsers` restores: the fetched profile whose id is the
        stored one, when a non-empty id is stored and some profile has it. */
    function Restored(fetched: seq<User>): (r: Option<User>)
      reads this
      ensures r.Some? <==> savedUserId.Some? && savedUserId.value != "" &&
                           exists i :: 0 <= i < |fetched| && fetched[i].id == savedUserId.value
      ensures r.Some? ==> r.value in fetched && r.value.id == savedUserId.value
    {
      if savedUserId.Some? && savedUserId.value != "" then FindUser(fetched, savedUserId.value) else None
    }

    /** `fetchUsers`: the fetched list replaces `users`; the active profile changes
        only when the stored id matches a fetched profile; on failure nothing but
        the loading flag changes. */
    method FetchUsers(reply: Remote<seq<User>>)
      modifies this
      ensures !loading && savedUserId == old(savedUserId)
      ensures users == if reply.Ok? then reply.value else old(users)
      ensures currentUser == if reply.Ok? && Restored(reply.value).Some? then Restored(reply.value)
                             else old(currentUser)
    {
      if reply.Ok? {
        users := reply.value;
        if savedUserId.Some? && savedUserId.value != "" {
          var saved := FindUser(reply.value, savedUserId.value);
          if saved.Some? {
            currentUser := saved;
          }
        }
      }
      loading := false;
    }

    /** `selectUser`: no network call and no membership check. The new state does
        not depend on the previous selection, so selecting twice equals selecting once. */
    method SelectUser(u: User)
      modifies this`currentUser, this`savedUserId
      ensures currentUser == Some(u) && savedUserId == Some(u.id)
    {
      currentUser := Some(u);
      savedUserId := Some(u.id);
    }

    /** `logout` */
    method Logout()
      modifies this`currentUser, this`savedUserId
      ensures currentUser == None && savedUserId == None
    {
      currentUser := None;
      savedUserId := None;
    }

    /** `createUser`: the returned profile goes at the end. */
    method CreateUser(reply: Remote<User>) returns (r: Remote<User>)
      modifies this`users
      ensures r == reply
      ensures users == if reply.Ok? then old(users) + [reply.value] else old(users)
    {
      r := reply;
      if reply.Ok? {
        users := users + [reply.value];
      }
    }

    /** `removeUser`: drops every profile with the id; logs out only when the
        active profile had it. */
    method RemoveUser(id: string, reply: Remote<()>) returns (r: Remote<()>)
      modifies this`users, this`currentUser, this`savedUserId
      ensures r == reply
      ensures users == if reply.Ok? then UsersWithout(old(users), id) else old(users)
      ensures reply.Ok? && old(currentUser).Some? && old(currentUser).value.id == id ==>
                currentUser == None && savedUserId == None
      ensures !(reply.Ok? && old(currentUser).Some? && old(currentUser).value.id == id) ==>
                currentUser == old(currentUser) && savedUserId == old(savedUserId)
    {
      r := reply;
      if reply.Fail? {
        return;
      }
      users := UsersWithout(users, id);
      if currentUser.Some? && currentUser.value.id == id {
        Logout();
      }
    }
  }

  /** The provider mounting: a fresh store over the stored key, then `fetchUsers`. */
  method Mount(stored: Option<string>, reply: Remote<seq<User>>) returns (s: Session)
    ensures fresh(s) && !s.loading && s.savedUserId == stored
    ensures s.users == if reply.Ok? then reply.value else []
    ensures s.currentUser.Some? <==> reply.Ok? && s.Restored(reply.value).Some?
    ensures s.currentUser.Some? ==> s.currentUser.value.id == stored.value
  {
    s := new Session(stored);
    s.FetchUsers(reply);
  }

  /** Selecting a profile and reloading the page: the profile comes back active
      iff a profile with its (non-empty) id is still in the fetched list. */
  method SelectThenReload(u: User, reply: Remote<seq<User>>) returns (after: Session)
    ensures fresh(after)
    ensures after.currentUser.Some? <==>
              reply.Ok? && u.id != "" && exists i :: 0 <= i < |reply.value| && reply.value[i].id == u.id
    ensures after.currentUser.Some? ==> after.currentUser.value.id == u.id
  {
    var before := new Session(None);
    before.SelectUser(u);
    before.SelectUser(u);
    assert before.savedUserId == Some(u.id);
    after := Mount(before.savedUserId, reply);
  }
}
