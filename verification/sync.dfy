/** How the browser's patches relate to the backend's updates. The browser holds
    the active profile's lists as the backend listed them; after an acknowledged
    call it patches them locally instead of listing them again. With distinct
    ids, each patch gives exactly the profile's lists in the updated collection. */
module Sync {
  import opened Wrappers
  import opened Records
  import opened WatchlistStore
  import opened Backend
  import opened UserStore

  // ---------------------------------------------------------------------------
  // Filtering by owner
  // ---------------------------------------------------------------------------

  /** Selecting by owner distributes over concatenation. */
  lemma {:induction false} OwnedByConcat(a: seq<Watchlist>, b: seq<Watchlist>, uid: string)
    ensures OwnedBy(a + b, uid) == OwnedBy(a, uid) + OwnedBy(b, uid)
  {
    if a != [] {
      assert (a + b)[1..] == a[1..] + b;
      OwnedByConcat(a[1..], b, uid);
    } else {
      assert a + b == b;
    }
  }

  lemma PatchWhereConcat(a: seq<Watchlist>, b: seq<Watchlist>, wid: string, p: Patch)
    ensures PatchWhere(a + b, wid, p) == PatchWhere(a, wid, p) + PatchWhere(b, wid, p)
  {
    var l := PatchWhere(a + b, wid, p);
    var r := PatchWhere(a, wid, p) + PatchWhere(b, wid, p);
    forall i | 0 <= i < |l| ensures l[i] == r[i] {
      if i < |a| { assert (a + b)[i] == a[i]; } else { assert (a + b)[i] == b[i - |a|]; }
    }
  }

  /** A patch never changes an owner, so patching and then selecting a profile's
      lists is selecting and then patching. */
  lemma {:induction false} OwnedByPatchWhere(db: seq<Watchlist>, uid: string, wid: string, p: Patch)
    ensures OwnedBy(PatchWhere(db, wid, p), uid) == PatchWhere(OwnedBy(db, uid), wid, p)
  {
    if db != [] {
      var head := [db[0]];
      var tail := db[1..];
      assert db == head + tail;
      OwnedByPatchWhere(tail, uid, wid, p);
      PatchWhereConcat(head, tail, wid, p);
      OwnedByConcat(PatchWhere(head, wid, p), PatchWhere(tail, wid, p), uid);
      OwnedByConcat(head, tail, uid);
      PatchWhereConcat(OwnedBy(head, uid), OwnedBy(tail, uid), wid, p);
      assert OwnedBy(PatchWhere(head, wid, p), uid) == PatchWhere(OwnedBy(head, uid), wid, p) by {
        assert PatchWhere(head, wid, p)[0].userId == db[0].userId;
        assert OwnedBy(PatchWhere(head, wid, p)[1..], uid) == [];
        assert OwnedBy(head[1..], uid) == [];
      }
    }
  }

  /** With distinct list ids, updating the first list with an id is patching
      every list with it. */
  lemma UpdateAtIsPatchWhere(db: seq<Watchlist>, k: nat, p: Patch)
    requires WatchlistIdsDistinct(db) && k < |db|
    ensures db[k := Apply(p, db[k])] == PatchWhere(db, db[k].id, p)
  {
    var r := PatchWhere(db, db[k].id, p);
    assert forall i :: 0 <= i < |db| && i != k ==> db[i].id != db[k].id;
  }

  /** The lists an absent id names are patched by nothing. */
  lemma AbsentIdPatchesNothing(db: seq<Watchlist>, wid: string, p: Patch)
    requires forall i :: 0 <= i < |db| ==> db[i].id != wid
    ensures PatchWhere(db, wid, p) == db
  {
    PatchWhereUnchanged(db, wid, p);
  }

  /** The common step: a patch the backend applies to the first list with the id
      is what the browser's patch does to the profile's lists. */
  lemma PatchAgrees(db: seq<Watchlist>, uid: string, wid: string, p: Patch)
    requires WatchlistIdsDistinct(db)
    ensures WatchlistIndex(db, wid) < |db| ==>
              PatchWhere(OwnedBy(db, uid), wid, p) ==
              OwnedBy(db[WatchlistIndex(db, wid) := Apply(p, db[WatchlistIndex(db, wid)])], uid)
    ensures WatchlistIndex(db, wid) == |db| ==> PatchWhere(OwnedBy(db, uid), wid, p) == OwnedBy(db, uid)
  {
    var k := WatchlistIndex(db, wid);
    OwnedByPatchWhere(db, uid, wid, p);
    if k < |db| {
      UpdateAtIsPatchWhere(db, k, p);
    } else {
      AbsentIdPatchesNothing(db, wid, p);
    }
  }

  // ---------------------------------------------------------------------------
  // One lemma per mutation
  // ---------------------------------------------------------------------------

  /** `createWatchlist` sends the active profile as owner, so appending the
      returned list is listing the profile's lists again. */
  lemma CreateAgrees(db: seq<Watchlist>, uid: string, data: WatchlistCreate, id: string)
    requires data.userId == uid
    ensures OwnedBy(db, uid) + [NewWatchlist(id, data)] == OwnedBy(db + [NewWatchlist(id, data)], uid)
  {
    var w := NewWatchlist(id, data);
    OwnedByConcat(db, [w], uid);
    assert OwnedBy([w], uid) == [w] by {
      assert OwnedBy([w][1..], uid) == [];
    }
  }

  /** `updateWatchlist` after a successful rename. */
  lemma RenameAgrees(db: seq<Watchlist>, uid: string, wid: string, name: string)
    requires WatchlistIdsDistinct(db) && AfterRename(db, wid, name).Success?
    ensures Renamed(OwnedBy(db, uid), wid, name) == OwnedBy(AfterRename(db, wid, name).body, uid)
  {
    PatchAgrees(db, uid, wid, SetName(name));
  }

  /** `addItem` after a successful add: the browser appends the item the backend
      returned to the same list. */
  lemma AddAgrees(db: seq<Watchlist>, uid: string, wid: string, data: ItemCreate, iid: string)
    requires WatchlistIdsDistinct(db) && AfterAdd(db, wid, data, iid).Success?
    ensures WithItem(OwnedBy(db, uid), wid, AfterAdd(db, wid, data, iid).body.1) ==
            OwnedBy(AfterAdd(db, wid, data, iid).body.0, uid)
  {
    PatchAgrees(db, uid, wid, AppendItem(AfterAdd(db, wid, data, iid).body.1));
  }

  /** `removeItem`: the browser's filter and the backend's `$pull` agree, also
      when nothing matched. */
  lemma PullAgrees(db: seq<Watchlist>, uid: string, wid: string, iid: string)
    requires WatchlistIdsDistinct(db)
    ensures WithoutItem(OwnedBy(db, uid), wid, iid) == OwnedBy(AfterPull(db, wid, iid), uid)
  {
    PatchAgrees(db, uid, wid, DropItem(iid));
  }

  /** With distinct item ids, setting the first item with the id is setting all
      of them; with none, both change nothing. */
  lemma StatusOfItems(items: seq<Item>, iid: string, status: string)
    requires ItemIdsDistinct(items)
    ensures ItemIndex(items, iid) < |items| ==>
              items[ItemIndex(items, iid) := items[ItemIndex(items, iid)].(status := status)] == ItemsWithStatus(items, iid, status)
    ensures ItemIndex(items, iid) == |items| ==> ItemsWithStatus(items, iid, status) == items
  {
    var j := ItemIndex(items, iid);
    var r := ItemsWithStatus(items, iid, status);
    if j < |items| {
      var u := items[j := items[j].(status := status)];
      forall h | 0 <= h < |items| ensures r[h] == u[h] {
        if h != j { assert items[h].id != items[j].id; }
      }
    } else {
      forall h | 0 <= h < |items| ensures r[h] == items[h] {
      }
    }
  }

  /** The backend's status update, when the list holds the item, is the patch at
      the list's position. */
  lemma StatusUpdateAt(db: seq<Watchlist>, wid: string, iid: string, status: string)
    requires WellFormed(db) && status != ""
    requires WatchlistIndex(db, wid) < |db| && HasItem(db[WatchlistIndex(db, wid)], iid)
    ensures AfterStatusUpdate(db, wid, iid, Some(status)) ==
            db[WatchlistIndex(db, wid) := Apply(SetStatus(iid, status), db[WatchlistIndex(db, wid)])]
  {
    var k := WatchlistIndex(db, wid);
    assert HolderIndex(db, wid, iid) == k;
    StatusOfItems(db[k].items, iid, status);
  }

  /** When the list does not hold the item, neither side changes anything. */
  lemma StatusUpdateAbsent(db: seq<Watchlist>, wid: string, iid: string, status: string)
    requires WellFormed(db) && status != ""
    requires WatchlistIndex(db, wid) < |db| && !HasItem(db[WatchlistIndex(db, wid)], iid)
    ensures AfterStatusUpdate(db, wid, iid, Some(status)) == db
    ensures Apply(SetStatus(iid, status), db[WatchlistIndex(db, wid)]) == db[WatchlistIndex(db, wid)]
  {
    var k := WatchlistIndex(db, wid);
    assert forall i :: 0 <= i < |db| && i != k ==> db[i].id != wid;
    assert HolderIndex(db, wid, iid) == |db|;
    StatusOfItems(db[k].items, iid, status);
  }

  /** `updateItemStatus` with a non-empty status: the browser sets every item with
      the id in the list, the backend the first one; with distinct ids these
      agree, also when the item is not there. */
  lemma StatusAgrees(db: seq<Watchlist>, uid: string, wid: string, iid: string, status: string)
    requires WellFormed(db) && status != ""
    ensures WithItemStatus(OwnedBy(db, uid), wid, iid, status) ==
            OwnedBy(AfterStatusUpdate(db, wid, iid, Some(status)), uid)
  {
    var k := WatchlistIndex(db, wid);
    var p := SetStatus(iid, status);
    PatchAgrees(db, uid, wid, p);
    if k < |db| {
      if HasItem(db[k], iid) {
        StatusUpdateAt(db, wid, iid, status);
      } else {
        StatusUpdateAbsent(db, wid, iid, status);
        assert db[k := Apply(p, db[k])] == db;
      }
    } else {
      assert HolderIndex(db, wid, iid) == |db|;
    }
  }

  /** The profile's lists inside a stretch without the id keep none with it. */
  lemma OwnedWithoutId(ws: seq<Watchlist>, uid: string, wid: string)
    requires forall i :: 0 <= i < |ws| ==> ws[i].id != wid
    ensures forall i :: 0 <= i < |OwnedBy(ws, uid)| ==> OwnedBy(ws, uid)[i].id != wid
    ensures WithoutWatchlist(OwnedBy(ws, uid), wid) == OwnedBy(ws, uid)
  {
    var o := OwnedBy(ws, uid);
    forall i | 0 <= i < |o| ensures o[i].id != wid {
      assert o[i] in o;
      var j :| 0 <= j < |ws| && ws[j] == o[i];
    }
  }

  /** Splitting off the head of the left operand of a concatenation. */
  lemma ConcatHead<T>(a: seq<T>, b: seq<T>)
    requires a != []
    ensures a + b == [a[0]] + (a[1..] + b)
  {
  }

  lemma ConcatEmpty<T>(a: seq<T>, b: seq<T>)
    ensures a + [] + b == a + b
  {
  }

  /** The tail of a three-part concatenation. */
  lemma ConcatTail<T>(a: seq<T>, x: T, b: seq<T>)
    requires a != []
    ensures (a + [x] + b)[1..] == a[1..] + [x] + b
  {
  }

  /** Filtering out the id of the one list that has it drops exactly that list. */
  lemma {:induction false} WithoutWatchlistOne(before: seq<Watchlist>, x: Watchlist, after: seq<Watchlist>)
    requires forall i :: 0 <= i < |before| ==> before[i].id != x.id
    requires forall i :: 0 <= i < |after| ==> after[i].id != x.id
    ensures WithoutWatchlist(before + [x] + after, x.id) == before + after
  {
    var all := before + [x] + after;
    if before == [] {
      assert all[1..] == after;
    } else {
      ConcatTail(before, x, after);
      WithoutWatchlistOne(before[1..], x, after);
      ConcatHead(before, after);
    }
  }

  lemma OwnedWithoutOne(before: seq<Watchlist>, x: Watchlist, after: seq<Watchlist>, uid: string)
    requires forall i :: 0 <= i < |before| ==> before[i].id != x.id
    requires forall i :: 0 <= i < |after| ==> after[i].id != x.id
    ensures WithoutWatchlist(OwnedBy(before + [x] + after, uid), x.id) == OwnedBy(before + after, uid)
  {
    OwnedByConcat(before + [x], after, uid);
    OwnedByConcat(before, [x], uid);
    OwnedByConcat(before, after, uid);
    var ob: seq<Watchlist>, oa: seq<Watchlist> := OwnedBy(before, uid), OwnedBy(after, uid);
    OwnedWithoutId(before, uid, x.id);
    OwnedWithoutId(after, uid, x.id);
    assert OwnedBy([x][1..], uid) == [];
    if x.userId == uid {
      assert OwnedBy([x], uid) == [x];
      WithoutWatchlistOne(ob, x, oa);
    } else {
      assert OwnedBy([x], uid) == [];
      ConcatEmpty(ob, oa);
      WithoutWatchlistConcat(ob, oa, x.id);
    }
  }

  /** With distinct ids, filtering out the id of position `k` from the
      profile's lists is selecting them from the collection without position `k`. */
  lemma OwnedWithoutAt(db: seq<Watchlist>, uid: string, k: nat)
    requires k < |db| && forall i :: 0 <= i < |db| && i != k ==> db[i].id != db[k].id
    ensures WithoutWatchlist(OwnedBy(db, uid), db[k].id) == OwnedBy(db[..k] + db[k + 1..], uid)
  {
    var before, after := db[..k], db[k + 1..];
    assert db == before + [db[k]] + after;
    forall i | 0 <= i < |after| ensures after[i].id != db[k].id {
      assert after[i] == db[k + 1 + i];
    }
    OwnedWithoutOne(before, db[k], after, uid);
  }

  /** `deleteWatchlist` after a successful delete: the browser's filter leaves
      exactly the profile's lists in what the backend kept. */
  lemma DeleteAgrees(db: seq<Watchlist>, uid: string, wid: string)
    requires WatchlistIdsDistinct(db) && AfterWatchlistDelete(db, wid).Success?
    ensures WithoutWatchlist(OwnedBy(db, uid), wid) == OwnedBy(AfterWatchlistDelete(db, wid).body, uid)
  {
    var k := WatchlistIndex(db, wid);
    assert forall i :: 0 <= i < |db| && i != k ==> db[i].id != db[k].id;
    OwnedWithoutAt(db, uid, k);
  }

  // ---------------------------------------------------------------------------
  // Profiles
  // ---------------------------------------------------------------------------

  lemma {:induction false} UsersWithoutConcat(a: seq<User>, b: seq<User>, id: string)
    ensures UsersWithout(a + b, id) == UsersWithout(a, id) + UsersWithout(b, id)
  {
    if a != [] {
      assert (a + b)[1..] == a[1..] + b;
      UsersWithoutConcat(a[1..], b, id);
    } else {
      assert a + b == b;
    }
  }

  lemma {:induction false} UsersWithoutAbsent(users: seq<User>, id: string)
    requires forall i :: 0 <= i < |users| ==> users[i].id != id
    ensures UsersWithout(users, id) == users
  {
    if users != [] {
      UsersWithoutAbsent(users[1..], id);
    }
  }

  /** Filtering out the id of the one profile that has it drops that profile. */
  lemma {:induction false} UsersWithoutOne(before: seq<User>, x: User, after: seq<User>)
    requires forall i :: 0 <= i < |before| ==> before[i].id != x.id
    requires forall i :: 0 <= i < |after| ==> after[i].id != x.id
    ensures UsersWithout(before + [x] + after, x.id) == before + after
  {
    var all := before + [x] + after;
    if before == [] {
      assert all[1..] == after;
      UsersWithoutAbsent(after, x.id);
    } else {
      ConcatTail(before, x, after);
      UsersWithoutOne(before[1..], x, after);
      ConcatHead(before, after);
    }
  }

  /** With distinct ids, filtering out the id of position `k` is dropping that
      position. */
  lemma UsersWithoutAt(users: seq<User>, k: nat)
    requires k < |users| && forall i :: 0 <= i < |users| && i != k ==> users[i].id != users[k].id
    ensures UsersWithout(users, users[k].id) == users[..k] + users[k + 1..]
  {
    var before, after := users[..k], users[k + 1..];
    assert users == before + [users[k]] + after;
    forall i | 0 <= i < |after| ensures after[i].id != users[k].id {
      assert after[i] == users[k + 1 + i];
    }
    UsersWithoutOne(before, users[k], after);
  }

  /** `removeUser` after a successful delete: with distinct profile ids, the
      browser's filter leaves exactly the profiles the backend kept. */
  lemma RemoveUserAgrees(users: seq<User>, wls: seq<Watchlist>, id: string)
    requires forall i, j :: 0 <= i < j < |users| ==> users[i].id != users[j].id
    requires AfterUserDelete(users, wls, id).Success?
    ensures UsersWithout(users, id) == AfterUserDelete(users, wls, id).body.0
  {
    var k := UserIndex(users, id);
    assert forall i :: 0 <= i < |users| && i != k ==> users[i].id != users[k].id by {
      forall i | 0 <= i < |users| && i != k ensures users[i].id != users[k].id {
        if i < k { assert users[i].id != users[k].id; } else { assert users[k].id != users[i].id; }
      }
    }
    UsersWithoutAt(users, k);
  }
}
