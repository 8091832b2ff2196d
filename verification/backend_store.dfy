/** The backend's profile and watchlist endpoints, over the two document
    collections `users` and `watchlists` held as sequences in storage order. */
module Backend {
  import opened Wrappers
  import opened Records

  const DEFAULT_AVATAR_COLOR := "#6366f1"
  const DEFAULT_STATUS := "plan_to_watch"
  /** `to_list(100)`: a listing returns at most this many documents. */
  const LIST_LIMIT := 100

  /** An endpoint's answer: a body, or an `HTTPException` with its status code. */
  datatype Reply<+T> = Success(body: T) | HttpError(code: int)

  /** Request bodies; a missing optional field takes the model's default. */
  datatype UserCreate = UserCreate(name: string, avatarColor: Option<string>)
  datatype WatchlistCreate = WatchlistCreate(userId: string, name: string)
  datatype ItemCreate = ItemCreate(tmdbId: int, mediaType: string, title: string,
                                   posterPath: Option<string>, status: Option<string>)

  // ---------------------------------------------------------------------------
  // Queries: the first document a filter matches
  // ---------------------------------------------------------------------------

  /** `find_one({"id": id})` on users, as an index (`|users|` when none matches). */
  function UserIndex(users: seq<User>, id: string): (k: nat)
    ensures k <= |users| && (k < |users| ==> users[k].id == id)
    ensures forall j :: 0 <= j < k ==> users[j].id != id
  {
    if users == [] then 0 else if users[0].id == id then 0 else 1 + UserIndex(users[1..], id)
  }

  /** `find_one({"id": id})` on watchlists, as an index. */
  function WatchlistIndex(wls: seq<Watchlist>, id: string): (k: nat)
    ensures k <= |wls| && (k < |wls| ==> wls[k].id == id)
    ensures forall j :: 0 <= j < k ==> wls[j].id != id
  {
    if wls == [] then 0 else if wls[0].id == id then 0 else 1 + WatchlistIndex(wls[1..], id)
  }

  /** The first item with id `iid`: the element the positional operator `$` names. */
  function ItemIndex(items: seq<Item>, iid: string): (k: nat)
    ensures k <= |items| && (k < |items| ==> items[k].id == iid)
    ensures forall j :: 0 <= j < k ==> items[j].id != iid
  {
    if items == [] then 0 else if items[0].id == iid then 0 else 1 + ItemIndex(items[1..], iid)
  }

  predicate HasItem(w: Watchlist, iid: string) {
    ItemIndex(w.items, iid) < |w.items|
  }

  /** The first watchlist matching `{"id": wid, "items.id": iid}`. */
  function HolderIndex(wls: seq<Watchlist>, wid: string, iid: string): (k: nat)
    ensures k <= |wls| && (k < |wls| ==> wls[k].id == wid && HasItem(wls[k], iid))
    ensures forall j :: 0 <= j < k ==> !(wls[j].id == wid && HasItem(wls[j], iid))
  {
    if wls == [] then 0
    else if wls[0].id == wid && HasItem(wls[0], iid) then 0
    else 1 + HolderIndex(wls[1..], wid, iid)
  }

  predicate HasKey(items: seq<Item>, key: (int, string)) {
    exists j :: 0 <= j < |items| && Key(items[j]) == key
  }

  function Take<T>(s: seq<T>, n: nat): (r: seq<T>)
    ensures r <= s && |r| == if |s| < n then |s| else n
  {
    if |s| <= n then s else s[..n]
  }

  /** `find({"user_id": uid})`: the watchlists of one profile, in storage order. */
  function OwnedBy(wls: seq<Watchlist>, uid: string): (r: seq<Watchlist>)
    ensures forall w :: w in r <==> w in wls && w.userId == uid
  {
    if wls == [] then []
    else (if wls[0].userId == uid then [wls[0]] else []) + OwnedBy(wls[1..], uid)
  }

  /** What `delete_many({"user_id": uid})` leaves. */
  function NotOwnedBy(wls: seq<Watchlist>, uid: string): (r: seq<Watchlist>)
    ensures |r| <= |wls|
    ensures (forall i :: 0 <= i < |wls| ==> wls[i].userId != uid) ==> r == wls
  {
    if wls == [] then []
    else (if wls[0].userId != uid then [wls[0]] else []) + NotOwnedBy(wls[1..], uid)
  }

  /** `delete_many` keeps the survivors in storage order: it distributes over
      concatenation. */
  lemma {:induction false} NotOwnedByConcat(a: seq<Watchlist>, b: seq<Watchlist>, uid: string)
    ensures NotOwnedBy(a + b, uid) == NotOwnedBy(a, uid) + NotOwnedBy(b, uid)
  {
    if a == [] {
      assert a + b == b;
    } else {
      var head := if a[0].userId != uid then [a[0]] else [];
      assert (a + b)[0] == a[0];
      assert (a + b)[1..] == a[1..] + b;
      NotOwnedByConcat(a[1..], b, uid);
      calc {
        NotOwnedBy(a + b, uid);
        head + NotOwnedBy(a[1..] + b, uid);
        head + (NotOwnedBy(a[1..], uid) + NotOwnedBy(b, uid));
        (head + NotOwnedBy(a[1..], uid)) + NotOwnedBy(b, uid);
        NotOwnedBy(a, uid) + NotOwnedBy(b, uid);
      }
    }
  }

  /** `delete_many` keeps exactly the lists another profile owns. */
  lemma {:induction false} NotOwnedByMembers(wls: seq<Watchlist>, uid: string)
    ensures forall w :: w in NotOwnedBy(wls, uid) <==> w in wls && w.userId != uid
  {
    if wls != [] {
      NotOwnedByMembers(wls[1..], uid);
      assert forall w :: w in wls <==> w == wls[0] || w in wls[1..];
    }
  }

  /** On one list, `delete_many` keeps it iff another profile owns it. */
  lemma NotOwnedByOne(w: Watchlist, uid: string)
    ensures NotOwnedBy([w], uid) == if w.userId != uid then [w] else []
  {
    assert [w][1..] == [];
  }

  // ---------------------------------------------------------------------------
  // Endpoint semantics
  // ---------------------------------------------------------------------------

  /** `GET /users`: the first hundred profiles in storage order. */
  function UsersPage(users: seq<User>): (r: seq<User>)
    ensures r <= users && |r| == if |users| < LIST_LIMIT then |users| else LIST_LIMIT
  {
    Take(users, LIST_LIMIT)
  }

  /** The document `POST /users` stores and returns. */
  function NewUser(id: string, data: UserCreate): (u: User)
    ensures u.id == id && u.name == data.name
    ensures u.avatarColor == if data.avatarColor.Some? then data.avatarColor.value else DEFAULT_AVATAR_COLOR
  {
    User(id, data.name, data.avatarColor.GetOr(DEFAULT_AVATAR_COLOR))
  }

  /** `GET /users/{id}` */
  function UserLookup(users: seq<User>, id: string): (r: Reply<User>)
    ensures r.HttpError? <==> forall i :: 0 <= i < |users| ==> users[i].id != id
    ensures r.HttpError? ==> r.code == 404
    ensures r.Success? ==> r.body in users && r.body.id == id
    ensures r.Success? ==> r.body == users[UserIndex(users, id)]
  {
    var k := UserIndex(users, id);
    if k == |users| then HttpError(404) else Success(users[k])
  }

  /** `DELETE /users/{id}`: 404 for an unknown id; otherwise the first profile with
      the id goes, and so does every watchlist it owns. */
  function AfterUserDelete(users: seq<User>, wls: seq<Watchlist>, id: string): (r: Reply<(seq<User>, seq<Watchlist>)>)
    ensures r.HttpError? <==> forall i :: 0 <= i < |users| ==> users[i].id != id
    ensures r.HttpError? ==> r.code == 404
    ensures r.Success? ==> |r.body.0| == |users| - 1 &&
                           r.body.0 == users[..UserIndex(users, id)] + users[UserIndex(users, id) + 1..]
    ensures r.Success? ==> r.body.1 == NotOwnedBy(wls, id)
    ensures r.Success? ==> forall w :: w in r.body.1 <==> w in wls && w.userId != id
  {
    var k := UserIndex(users, id);
    if k == |users| then HttpError(404)
    else NotOwnedByMembers(wls, id); Success((users[..k] + users[k + 1..], NotOwnedBy(wls, id)))
  }

  /** `GET /watchlists?user_id=`: the first hundred lists of the profile. */
  function WatchlistsPage(wls: seq<Watchlist>, uid: string): (r: seq<Watchlist>)
    ensures r <= OwnedBy(wls, uid)
    ensures forall w :: w in r ==> w in wls && w.userId == uid
    ensures |r| == if |OwnedBy(wls, uid)| < LIST_LIMIT then |OwnedBy(wls, uid)| else LIST_LIMIT
    ensures |OwnedBy(wls, uid)| <= LIST_LIMIT ==> r == OwnedBy(wls, uid)
  {
    Take(OwnedBy(wls, uid), LIST_LIMIT)
  }

  /** The document `POST /watchlists` stores and returns. The owner is not checked. */
  function NewWatchlist(id: string, data: WatchlistCreate): (w: Watchlist)
    ensures w.id == id && w.userId == data.userId && w.name == data.name && w.items == []
  {
    Watchlist(id, data.userId, data.name, [])
  }

  /** `GET /watchlists/{id}` */
  function WatchlistLookup(wls: seq<Watchlist>, id: string): (r: Reply<Watchlist>)
    ensures r.HttpError? <==> forall i :: 0 <= i < |wls| ==> wls[i].id != id
    ensures r.HttpError? ==> r.code == 404
    ensures r.Success? ==> r.body in wls && r.body.id == id
    ensures r.Success? ==> r.body == wls[WatchlistIndex(wls, id)]
  {
    var k := WatchlistIndex(wls, id);
    if k == |wls| then HttpError(404) else Success(wls[k])
  }

  /** `PUT /watchlists/{id}?name=`: 404 when nothing matches; otherwise only the
      name of the first list with the id changes. */
  function AfterRename(wls: seq<Watchlist>, id: string, name: string): (r: Reply<seq<Watchlist>>)
    ensures r.HttpError? <==> forall i :: 0 <= i < |wls| ==> wls[i].id != id
    ensures r.HttpError? ==> r.code == 404
    ensures r.Success? ==> (|r.body| == |wls| &&
              forall i :: 0 <= i < |wls| ==>
                r.body[i].id == wls[i].id && r.body[i].userId == wls[i].userId && r.body[i].items == wls[i].items &&
                r.body[i].name == if i == WatchlistIndex(wls, id) then name else wls[i].name)
  {
    var k := WatchlistIndex(wls, id);
    if k == |wls| then HttpError(404) else Success(wls[k := wls[k].(name := name)])
  }

  /** `DELETE /watchlists/{id}`: 404 when nothing matches; otherwise the first list
      with the id goes. */
  function AfterWatchlistDelete(wls: seq<Watchlist>, id: string): (r: Reply<seq<Watchlist>>)
    ensures r.HttpError? <==> forall i :: 0 <= i < |wls| ==> wls[i].id != id
    ensures r.HttpError? ==> r.code == 404
    ensures r.Success? ==> (|r.body| == |wls| - 1 &&
              r.body == wls[..WatchlistIndex(wls, id)] + wls[WatchlistIndex(wls, id) + 1..])
  {
    var k := WatchlistIndex(wls, id);
    if k == |wls| then HttpError(404) else Success(wls[..k] + wls[k + 1..])
  }

  /** The item `POST /watchlists/{id}/items` pushes and returns. */
  function NewItem(id: string, data: ItemCreate): (it: Item)
    ensures it.id == id && Key(it) == (data.tmdbId, data.mediaType)
    ensures it.status == if data.status.Some? then data.status.value else DEFAULT_STATUS
  {
    Item(id, data.tmdbId, data.mediaType, data.title, data.posterPath, data.status.GetOr(DEFAULT_STATUS))
  }

  /** `POST /watchlists/{id}/items`: 404 for an unknown list, 400 when the list
      already holds the title's (tmdb_id, media_type); otherwise exactly one item
      goes at the end of that list and nothing else changes. */
  function AfterAdd(wls: seq<Watchlist>, wid: string, data: ItemCreate, iid: string): (r: Reply<(seq<Watchlist>, Item)>)
    ensures r.HttpError? ==> r.code == 404 || r.code == 400
    ensures r == HttpError(404) <==> forall i :: 0 <= i < |wls| ==> wls[i].id != wid
    ensures r == HttpError(400) <==> WatchlistIndex(wls, wid) < |wls| &&
                                     HasKey(wls[WatchlistIndex(wls, wid)].items, (data.tmdbId, data.mediaType))
    ensures r.Success? ==> (r.body.1 == NewItem(iid, data) && |r.body.0| == |wls| &&
              forall i :: 0 <= i < |wls| ==>
                r.body.0[i] == if i == WatchlistIndex(wls, wid) then wls[i].(items := wls[i].items + [r.body.1]) else wls[i])
  {
    var k := WatchlistIndex(wls, wid);
    if k == |wls| then HttpError(404)
    else if HasKey(wls[k].items, (data.tmdbId, data.mediaType)) then HttpError(400)
    else
      var item := NewItem(iid, data);
      Success((wls[k := wls[k].(items := wls[k].items + [item])], item))
  }

  /** `PUT /watchlists/{id}/items/{item_id}`: nothing when the status is missing or
      empty; otherwise the status of the first item with the id, in the first list
      matching both ids, and nothing else. */
  function AfterStatusUpdate(wls: seq<Watchlist>, wid: string, iid: string, status: Option<string>): (r: seq<Watchlist>)
    ensures status.None? || status.value == "" ==> r == wls
    ensures |r| == |wls|
    ensures forall i :: 0 <= i < |wls| ==>
              r[i].id == wls[i].id && r[i].userId == wls[i].userId && r[i].name == wls[i].name &&
              |r[i].items| == |wls[i].items| &&
              forall j :: 0 <= j < |wls[i].items| ==>
                r[i].items[j] == wls[i].items[j] ||
                (wls[i].id == wid && wls[i].items[j].id == iid && r[i].items[j] == wls[i].items[j].(status := status.value))
    ensures forall i, j :: 0 <= i < |wls| && 0 <= j < |wls[i].items| && r[i].items[j] != wls[i].items[j] ==>
              i == HolderIndex(wls, wid, iid) && j == ItemIndex(wls[i].items, iid)
    ensures status.Some? && status.value != "" && HolderIndex(wls, wid, iid) < |wls| ==>
              var k := HolderIndex(wls, wid, iid);
              r[k].items[ItemIndex(wls[k].items, iid)].status == status.value
  {
    if status.None? || status.value == "" then wls
    else
      var k := HolderIndex(wls, wid, iid);
      if k == |wls| then wls
      else
        var items := wls[k].items;
        var j := ItemIndex(items, iid);
        wls[k := wls[k].(items := items[j := items[j].(status := status.value)])]
  }

  /** `DELETE /watchlists/{id}/items/{item_id}`: every item with the id leaves the
      first list with `wid`; nothing else changes, and it is not an error when none
      existed. */
  function AfterPull(wls: seq<Watchlist>, wid: string, iid: string): (r: seq<Watchlist>)
    ensures |r| == |wls|
    ensures forall i :: 0 <= i < |wls| && i != WatchlistIndex(wls, wid) ==> r[i] == wls[i]
    ensures WatchlistIndex(wls, wid) < |wls| ==>
              var k := WatchlistIndex(wls, wid);
              r[k] == wls[k].(items := ItemsWithout(wls[k].items, iid))
  {
    var k := WatchlistIndex(wls, wid);
    if k == |wls| then wls else wls[k := wls[k].(items := ItemsWithout(wls[k].items, iid))]
  }

  // ---------------------------------------------------------------------------
  // The uniqueness invariants
  // ---------------------------------------------------------------------------

  /** No two items of one list share (tmdb_id, media_type). */
  predicate KeysUnique(items: seq<Item>) {
    forall i, j :: 0 <= i < j < |items| ==> Key(items[i]) != Key(items[j])
  }

  predicate ItemIdsDistinct(items: seq<Item>) {
    forall i, j :: 0 <= i < j < |items| ==> items[i].id != items[j].id
  }

  predicate WatchlistIdsDistinct(wls: seq<Watchlist>) {
    forall i, j :: 0 <= i < j < |wls| ==> wls[i].id != wls[j].id
  }

  predicate AllKeysUnique(wls: seq<Watchlist>) {
    forall i :: 0 <= i < |wls| ==> KeysUnique(wls[i].items)
  }

  /** The collection invariant: distinct list ids, and inside each list distinct
      item ids and distinct titles. */
  predicate WellFormed(wls: seq<Watchlist>) {
    WatchlistIdsDistinct(wls) && AllKeysUnique(wls) &&
    forall i :: 0 <= i < |wls| ==> ItemIdsDistinct(wls[i].items)
  }

  predicate ItemIdFresh(wls: seq<Watchlist>, iid: string) {
    forall i, j :: 0 <= i < |wls| && 0 <= j < |wls[i].items| ==> wls[i].items[j].id != iid
  }

  predicate WatchlistIdFresh(wls: seq<Watchlist>, id: string) {
    forall i :: 0 <= i < |wls| ==> wls[i].id != id
  }

  /** The add endpoint is the only writer of new items, and its duplicate check
      keeps every list free of repeated titles, whatever ids it is given. */
  lemma AddKeepsKeysUnique(wls: seq<Watchlist>, wid: string, data: ItemCreate, iid: string)
    requires AllKeysUnique(wls)
    requires AfterAdd(wls, wid, data, iid).Success?
    ensures AllKeysUnique(AfterAdd(wls, wid, data, iid).body.0)
  {
    var r := AfterAdd(wls, wid, data, iid).body.0;
    var k := WatchlistIndex(wls, wid);
    var items := wls[k].items;
    var key := (data.tmdbId, data.mediaType);
    assert !HasKey(items, key);
    var grown := items + [NewItem(iid, data)];
    assert r[k].items == grown;
    forall a, b | 0 <= a < b < |grown| ensures Key(grown[a]) != Key(grown[b]) {
      if b == |items| {
        assert Key(grown[b]) == key;
        assert grown[a] == items[a];
      }
    }
  }

  /** With a fresh item id, a successful add keeps the whole collection invariant. */
  lemma AddKeepsWellFormed(wls: seq<Watchlist>, wid: string, data: ItemCreate, iid: string)
    requires WellFormed(wls) && ItemIdFresh(wls, iid)
    requires AfterAdd(wls, wid, data, iid).Success?
    ensures WellFormed(AfterAdd(wls, wid, data, iid).body.0)
  {
    AddKeepsKeysUnique(wls, wid, data, iid);
    var r := AfterAdd(wls, wid, data, iid).body.0;
    var k := WatchlistIndex(wls, wid);
    var items := wls[k].items;
    var grown := items + [NewItem(iid, data)];
    assert r[k].items == grown;
    forall a, b | 0 <= a < b < |grown| ensures grown[a].id != grown[b].id {
      if b == |items| {
        assert grown[a] == items[a];
      }
    }
  }

  /** With a fresh list id, creating a list keeps the collection invariant. */
  lemma CreateKeepsWellFormed(wls: seq<Watchlist>, data: WatchlistCreate, id: string)
    requires WellFormed(wls) && WatchlistIdFresh(wls, id)
    ensures WellFormed(wls + [NewWatchlist(id, data)])
  {
    var r := wls + [NewWatchlist(id, data)];
    forall i | 0 <= i < |r| ensures KeysUnique(r[i].items) && ItemIdsDistinct(r[i].items) {
      if i < |wls| { assert r[i] == wls[i]; }
    }
  }

  /** A list whose tail is free of repeats, and whose head repeats nothing in the
      tail, is free of repeats. */
  lemma ConsKeepsDistinct(x: Item, tail: seq<Item>)
    requires KeysUnique(tail) && ItemIdsDistinct(tail)
    requires forall y :: y in tail ==> Key(y) != Key(x) && y.id != x.id
    ensures KeysUnique([x] + tail) && ItemIdsDistinct([x] + tail)
  {
    var r := [x] + tail;
    forall a, b | 0 <= a < b < |r| ensures Key(r[a]) != Key(r[b]) && r[a].id != r[b].id {
      assert r[b] == tail[b - 1];
      if a > 0 { assert r[a] == tail[a - 1]; }
    }
  }

  lemma TailKeepsDistinct(items: seq<Item>)
    requires items != [] && KeysUnique(items) && ItemIdsDistinct(items)
    ensures KeysUnique(items[1..]) && ItemIdsDistinct(items[1..])
    ensures forall y :: y in items[1..] ==> Key(y) != Key(items[0]) && y.id != items[0].id
  {
    var rest := items[1..];
    forall y | y in rest ensures Key(y) != Key(items[0]) && y.id != items[0].id {
      var c :| 0 <= c < |rest| && rest[c] == y;
      assert items[c + 1] == y;
    }
    forall a, b | 0 <= a < b < |rest| ensures Key(rest[a]) != Key(rest[b]) && rest[a].id != rest[b].id {
      assert rest[a] == items[a + 1] && rest[b] == items[b + 1];
    }
  }

  /** Removing items never creates a repeat. */
  lemma {:induction false} PullKeepsDistinct(items: seq<Item>, iid: string)
    requires KeysUnique(items) && ItemIdsDistinct(items)
    ensures KeysUnique(ItemsWithout(items, iid)) && ItemIdsDistinct(ItemsWithout(items, iid))
  {
    if items != [] {
      TailKeepsDistinct(items);
      PullKeepsDistinct(items[1..], iid);
      ItemsWithoutMembers(items[1..], iid);
      var tail := ItemsWithout(items[1..], iid);
      if items[0].id != iid {
        assert ItemsWithout(items, iid) == [items[0]] + tail;
        ConsKeepsDistinct(items[0], tail);
      } else {
        assert ItemsWithout(items, iid) == tail;
      }
    }
  }

  /** Renaming touches no item and no id. */
  lemma RenameKeepsWellFormed(wls: seq<Watchlist>, id: string, name: string)
    requires WellFormed(wls) && AfterRename(wls, id, name).Success?
    ensures WellFormed(AfterRename(wls, id, name).body)
  {
  }

  /** A status update touches no key and no id. */
  lemma StatusKeepsWellFormed(wls: seq<Watchlist>, wid: string, iid: string, status: Option<string>)
    requires WellFormed(wls)
    ensures WellFormed(AfterStatusUpdate(wls, wid, iid, status))
  {
    var s := AfterStatusUpdate(wls, wid, iid, status);
    forall i | 0 <= i < |s| ensures KeysUnique(s[i].items) && ItemIdsDistinct(s[i].items) {
      assert forall j :: 0 <= j < |s[i].items| ==>
        Key(s[i].items[j]) == Key(wls[i].items[j]) && s[i].items[j].id == wls[i].items[j].id;
    }
  }

  /** Pulling items keeps the invariant. */
  lemma PullKeepsWellFormed(wls: seq<Watchlist>, wid: string, iid: string)
    requires WellFormed(wls)
    ensures WellFormed(AfterPull(wls, wid, iid))
  {
    var k := WatchlistIndex(wls, wid);
    if k < |wls| {
      PullKeepsDistinct(wls[k].items, iid);
    }
  }

  /** Deleting a list keeps the invariant. */
  lemma WatchlistDeleteKeepsWellFormed(wls: seq<Watchlist>, id: string)
    requires WellFormed(wls) && AfterWatchlistDelete(wls, id).Success?
    ensures WellFormed(AfterWatchlistDelete(wls, id).body)
  {
    var k := WatchlistIndex(wls, id);
    var d := AfterWatchlistDelete(wls, id).body;
    assert forall i :: 0 <= i < |d| ==> d[i] == if i < k then wls[i] else wls[i + 1];
  }

  lemma {:induction false} DropListsKeepsWellFormed(wls: seq<Watchlist>, uid: string)
    requires WellFormed(wls)
    ensures WellFormed(NotOwnedBy(wls, uid))
  {
    if wls != [] {
      var rest := wls[1..];
      ListTailWellFormed(wls);
      DropListsKeepsWellFormed(rest, uid);
      var tail := NotOwnedBy(rest, uid);
      if wls[0].userId != uid {
        NotOwnedByMembers(rest, uid);
        assert NotOwnedBy(wls, uid) == [wls[0]] + tail;
        ListConsWellFormed(wls[0], tail);
      } else {
        assert NotOwnedBy(wls, uid) == tail;
      }
    }
  }

  /** The lists after the first keep the invariant and reuse none of its id. */
  lemma ListTailWellFormed(wls: seq<Watchlist>)
    requires wls != [] && WellFormed(wls)
    ensures WellFormed(wls[1..])
    ensures KeysUnique(wls[0].items) && ItemIdsDistinct(wls[0].items)
    ensures forall y :: y in wls[1..] ==> y.id != wls[0].id
  {
    var rest := wls[1..];
    assert forall a :: 0 <= a < |rest| ==> rest[a] == wls[a + 1];
    forall y | y in rest ensures y.id != wls[0].id {
      var c :| 0 <= c < |rest| && rest[c] == y;
      assert wls[c + 1] == y;
    }
  }

  /** A well-formed list in front of well-formed lists with other ids keeps the invariant. */
  lemma ListConsWellFormed(w: Watchlist, tail: seq<Watchlist>)
    requires WellFormed(tail) && KeysUnique(w.items) && ItemIdsDistinct(w.items)
    requires forall y :: y in tail ==> y.id != w.id
    ensures WellFormed([w] + tail)
  {
    var r := [w] + tail;
    forall a, b | 0 <= a < b < |r| ensures r[a].id != r[b].id {
      assert r[b] == tail[b - 1];
      if a > 0 { assert r[a] == tail[a - 1]; }
    }
    forall a | 0 <= a < |r| ensures KeysUnique(r[a].items) && ItemIdsDistinct(r[a].items) {
      if a > 0 { assert r[a] == tail[a - 1]; }
    }
  }


  /** Deleting a profile only drops lists, so it keeps the invariant. */
  lemma UserDeleteKeepsWellFormed(users: seq<User>, wls: seq<Watchlist>, id: string)
    requires WellFormed(wls) && AfterUserDelete(users, wls, id).Success?
    ensures WellFormed(AfterUserDelete(users, wls, id).body.1)
  {
    DropListsKeepsWellFormed(wls, id);
  }

  // ---------------------------------------------------------------------------
  // The database and its endpoints
  // ---------------------------------------------------------------------------

  /** The two collections the endpoints read and update in place. Ids are
      parameters: the callers stand for the uuid generator. */
  class Database {
    var users: seq<User>
    var watchlists: seq<Watchlist>

    constructor ()
      ensures users == [] && watchlists == []
    {
      users := [];
      watchlists := [];
    }

    method GetUsers() returns (r: seq<User>)
      ensures r == UsersPage(users)
    {
      r := Take(users, LIST_LIMIT);
    }

    method CreateUser(data: UserCreate, freshId: string) returns (r: User)
      modifies this`users
      ensures r == NewUser(freshId, data) && users == old(users) + [r]
    {
      r := NewUser(freshId, data);
      users := users + [r];
    }

    method GetUser(id: string) returns (r: Reply<User>)
      ensures r == UserLookup(users, id)
    {
      var k := UserIndex(users, id);
      if k == |users| {
        return HttpError(404);
      }
      r := Success(users[k]);
    }

    method DeleteUser(id: string) returns (r: Reply<()>)
      modifies this
      ensures AfterUserDelete(old(users), old(watchlists), id).HttpError? ==>
                r == HttpError(404) && users == old(users) && watchlists == old(watchlists)
      ensures AfterUserDelete(old(users), old(watchlists), id).Success? ==>
                r == Success(()) && (users, watchlists) == AfterUserDelete(old(users), old(watchlists), id).body
    {
      var k := UserIndex(users, id);
      if k == |users| {
        return HttpError(404);
      }
      users := users[..k] + users[k + 1..];
      watchlists := NotOwnedBy(watchlists, id);
      r := Success(());
    }

    method GetWatchlists(uid: string) returns (r: seq<Watchlist>)
      ensures r == WatchlistsPage(watchlists, uid)
    {
      r := Take(OwnedBy(watchlists, uid), LIST_LIMIT);
    }

    method CreateWatchlist(data: WatchlistCreate, freshId: string) returns (r: Watchlist)
      modifies this`watchlists
      ensures r == NewWatchlist(freshId, data) && watchlists == old(watchlists) + [r]
    {
      r := NewWatchlist(freshId, data);
      watchlists := watchlists + [r];
    }

    method GetWatchlist(id: string) returns (r: Reply<Watchlist>)
      ensures r == WatchlistLookup(watchlists, id)
    {
      var k := WatchlistIndex(watchlists, id);
      if k == |watchlists| {
        return HttpError(404);
      }
      r := Success(watchlists[k]);
    }

    method UpdateWatchlist(id: string, name: string) returns (r: Reply<()>)
      modifies this`watchlists
      ensures AfterRename(old(watchlists), id, name).HttpError? ==>
                r == HttpError(404) && watchlists == old(watchlists)
      ensures AfterRename(old(watchlists), id, name).Success? ==>
                r == Success(()) && watchlists == AfterRename(old(watchlists), id, name).body
    {
      var k := WatchlistIndex(watchlists, id);
      if k == |watchlists| {
        return HttpError(404);
      }
      watchlists := watchlists[k := watchlists[k].(name := name)];
      r := Success(());
    }

    method DeleteWatchlist(id: string) returns (r: Reply<()>)
      modifies this`watchlists
      ensures AfterWatchlistDelete(old(watchlists), id).HttpError? ==>
                r == HttpError(404) && watchlists == old(watchlists)
      ensures AfterWatchlistDelete(old(watchlists), id).Success? ==>
                r == Success(()) && watchlists == AfterWatchlistDelete(old(watchlists), id).body
    {
      var k := WatchlistIndex(watchlists, id);
      if k == |watchlists| {
        return HttpError(404);
      }
      watchlists := watchlists[..k] + watchlists[k + 1..];
      r := Success(());
    }

    /** `add_to_watchlist`: the duplicate scan is the endpoint's own loop. */
    method AddToWatchlist(wid: string, data: ItemCreate, freshId: string) returns (r: Reply<Item>)
      modifies this`watchlists
      ensures AfterAdd(old(watchlists), wid, data, freshId).HttpError? ==>
                r == HttpError(AfterAdd(old(watchlists), wid, data, freshId).code) && watchlists == old(watchlists)
      ensures AfterAdd(old(watchlists), wid, data, freshId).Success? ==>
                r == Success(AfterAdd(old(watchlists), wid, data, freshId).body.1) &&
                watchlists == AfterAdd(old(watchlists), wid, data, freshId).body.0
    {
      var k := WatchlistIndex(watchlists, wid);
      if k == |watchlists| {
        return HttpError(404);
      }
      var items := watchlists[k].items;
      var j := 0;
      while j < |items|
        invariant 0 <= j <= |items|
        invariant forall h :: 0 <= h < j ==> Key(items[h]) != (data.tmdbId, data.mediaType)
      {
        if items[j].tmdbId == data.tmdbId && items[j].mediaType == data.mediaType {
          return HttpError(400);
        }
        j := j + 1;
      }
      var item := NewItem(freshId, data);
      watchlists := watchlists[k := watchlists[k].(items := items + [item])];
      r := Success(item);
    }

    /** `update_watchlist_item`: reports success whether or not anything matched. */
    method UpdateWatchlistItem(wid: string, iid: string, status: Option<string>) returns (r: Reply<()>)
      modifies this`watchlists
      ensures r == Success(())
      ensures watchlists == AfterStatusUpdate(old(watchlists), wid, iid, status)
    {
      if status.Some? && status.value != "" {
        watchlists := AfterStatusUpdate(watchlists, wid, iid, status);
      }
      r := Success(());
    }

    /** `remove_from_watchlist`: reports success whether or not anything matched. */
    method RemoveFromWatchlist(wid: string, iid: string) returns (r: Reply<()>)
      modifies this`watchlists
      ensures r == Success(())
      ensures watchlists == AfterPull(old(watchlists), wid, iid)
    {
      watchlists := AfterPull(watchlists, wid, iid);
      r := Success(());
    }
  }
}
