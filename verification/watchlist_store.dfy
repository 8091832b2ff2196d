/** The browser's watchlist store: the held lists of the active profile, patched
    in place after each acknowledged remote call. */
module WatchlistStore {
  import opened Wrappers
  import opened Records

  // ---------------------------------------------------------------------------
  // Patches over the held lists (the map / filter / spread expressions)
  // ---------------------------------------------------------------------------

  /** The object spread each in-place patch applies to a matching list. */
  datatype Patch =
    | SetName(name: string)                   // `{ ...w, name }`
    | AppendItem(item: Item)                  // `{ ...w, items: [...w.items, newItem] }`
    | DropItem(iid: string)                   // `{ ...w, items: w.items.filter(...) }`
    | SetStatus(iid: string, status: string)  // `{ ...w, items: w.items.map(...) }`

  function Apply(p: Patch, w: Watchlist): (r: Watchlist)
    ensures r.id == w.id && r.userId == w.userId
  {
    match p
    case SetName(name) => w.(name := name)
    case AppendItem(item) => w.(items := w.items + [item])
    case DropItem(iid) => w.(items := ItemsWithout(w.items, iid))
    case SetStatus(iid, status) => w.(items := ItemsWithStatus(w.items, iid, status))
  }

  /** `ws.map(w => w.id === wid ? patched(w) : w)` */
  function PatchWhere(ws: seq<Watchlist>, wid: string, p: Patch): (r: seq<Watchlist>)
    ensures |r| == |ws|
    ensures forall i :: 0 <= i < |ws| ==> r[i] == if ws[i].id == wid then Apply(p, ws[i]) else ws[i]
  {
    if ws == [] then []
    else [if ws[0].id == wid then Apply(p, ws[0]) else ws[0]] + PatchWhere(ws[1..], wid, p)
  }

  /** A patch that changes none of the matching lists changes nothing. */
  lemma PatchWhereUnchanged(ws: seq<Watchlist>, wid: string, p: Patch)
    requires forall i :: 0 <= i < |ws| && ws[i].id == wid ==> Apply(p, ws[i]) == ws[i]
    ensures PatchWhere(ws, wid, p) == ws
  {
    var r := PatchWhere(ws, wid, p);
    assert forall i :: 0 <= i < |ws| ==> r[i] == ws[i];
  }

  /** `ws.filter(w => w.id !== wid)` */
  function WithoutWatchlist(ws: seq<Watchlist>, wid: string): (r: seq<Watchlist>)
    ensures |r| <= |ws|
    ensures (forall i :: 0 <= i < |ws| ==> ws[i].id != wid) ==> r == ws
  {
    if ws == [] then []
    else (if ws[0].id == wid then [] else [ws[0]]) + WithoutWatchlist(ws[1..], wid)
  }

  /** A list survives the filter iff it was held and has another id. */
  lemma {:induction false} WithoutWatchlistMembers(ws: seq<Watchlist>, wid: string)
    ensures forall w :: w in WithoutWatchlist(ws, wid) <==> w in ws && w.id != wid
  {
    if ws != [] {
      WithoutWatchlistMembers(ws[1..], wid);
      assert forall w :: w in ws <==> w == ws[0] || w in ws[1..];
    }
  }

  /** Filtering keeps the relative order: it distributes over concatenation. */
  lemma {:induction false} WithoutWatchlistConcat(a: seq<Watchlist>, b: seq<Watchlist>, wid: string)
    ensures WithoutWatchlist(a + b, wid) == WithoutWatchlist(a, wid) + WithoutWatchlist(b, wid)
  {
    if a == [] {
      assert a + b == b;
    } else {
      var head := if a[0].id == wid then [] else [a[0]];
      assert (a + b)[0] == a[0];
      assert (a + b)[1..] == a[1..] + b;
      WithoutWatchlistConcat(a[1..], b, wid);
      calc {
        WithoutWatchlist(a + b, wid);
        head + WithoutWatchlist(a[1..] + b, wid);
        head + (WithoutWatchlist(a[1..], wid) + WithoutWatchlist(b, wid));
        (head + WithoutWatchlist(a[1..], wid)) + WithoutWatchlist(b, wid);
        WithoutWatchlist(a, wid) + WithoutWatchlist(b, wid);
      }
    }
  }

  /** `items.map(i => i.id === iid ? { ...i, status } : i)` */
  function ItemsWithStatus(items: seq<Item>, iid: string, status: string): (r: seq<Item>)
    ensures |r| == |items|
    ensures forall j :: 0 <= j < |items| ==>
              r[j] == if items[j].id == iid then items[j].(status := status) else items[j]
  {
    if items == [] then []
    else [if items[0].id == iid then items[0].(status := status) else items[0]]
         + ItemsWithStatus(items[1..], iid, status)
  }

  /** The patch of `updateWatchlist`: only the name of the matching lists changes. */
  function Renamed(ws: seq<Watchlist>, wid: string, name: string): (r: seq<Watchlist>)
    ensures |r| == |ws|
    ensures forall i :: 0 <= i < |ws| ==>
              r[i].id == ws[i].id && r[i].userId == ws[i].userId && r[i].items == ws[i].items &&
              r[i].name == (if ws[i].id == wid then name else ws[i].name)
  {
    PatchWhere(ws, wid, SetName(name))
  }

  /** The patch of `addItem`: the item goes at the end of the matching lists only. */
  function WithItem(ws: seq<Watchlist>, wid: string, item: Item): (r: seq<Watchlist>)
    ensures |r| == |ws|
    ensures forall i :: 0 <= i < |ws| ==>
              r[i].id == ws[i].id && r[i].userId == ws[i].userId && r[i].name == ws[i].name &&
              r[i].items == (if ws[i].id == wid then ws[i].items + [item] else ws[i].items)
  {
    PatchWhere(ws, wid, AppendItem(item))
  }

  /** The patch of `removeItem`: every item with that id leaves the matching lists only. */
  function WithoutItem(ws: seq<Watchlist>, wid: string, iid: string): (r: seq<Watchlist>)
    ensures |r| == |ws|
    ensures forall i :: 0 <= i < |ws| ==>
              r[i].id == ws[i].id && r[i].userId == ws[i].userId && r[i].name == ws[i].name &&
              (ws[i].id != wid ==> r[i].items == ws[i].items) &&
              (ws[i].id == wid ==> r[i].items == ItemsWithout(ws[i].items, iid)) &&
              (ws[i].id == wid ==> forall it :: it in r[i].items <==> it in ws[i].items && it.id != iid)
  {
    PatchedListsKeepOnlyOtherItems(ws, wid, iid);
    PatchWhere(ws, wid, DropItem(iid))
  }

  lemma PatchedListsKeepOnlyOtherItems(ws: seq<Watchlist>, wid: string, iid: string)
    ensures forall i :: 0 <= i < |ws| && ws[i].id == wid ==>
              forall it :: it in ItemsWithout(ws[i].items, iid) <==> it in ws[i].items && it.id != iid
  {
    forall i | 0 <= i < |ws| && ws[i].id == wid
      ensures forall it :: it in ItemsWithout(ws[i].items, iid) <==> it in ws[i].items && it.id != iid
    {
      ItemsWithoutMembers(ws[i].items, iid);
    }
  }

  /** The patch of `updateItemStatus`: only the status of the matching items of the
      matching lists changes. */
  function WithItemStatus(ws: seq<Watchlist>, wid: string, iid: string, status: string): (r: seq<Watchlist>)
    ensures |r| == |ws|
    ensures forall i :: 0 <= i < |ws| ==>
              r[i].id == ws[i].id && r[i].userId == ws[i].userId && r[i].name == ws[i].name &&
              |r[i].items| == |ws[i].items| &&
              forall j :: 0 <= j < |ws[i].items| ==>
                r[i].items[j] == if ws[i].id == wid && ws[i].items[j].id == iid
                                 then ws[i].items[j].(status := status) else ws[i].items[j]
  {
    PatchWhere(ws, wid, SetStatus(iid, status))
  }

  // ---------------------------------------------------------------------------
  // The "already saved?" lookup
  // ---------------------------------------------------------------------------

  predicate Matches(it: Item, tmdbId: int, mediaType: string) {
    it.tmdbId == tmdbId && it.mediaType == mediaType
  }

  /** `items.find(i => i.tmdb_id === tmdbId && i.media_type === mediaType)` */
  function FindInItems(items: seq<Item>, tmdbId: int, mediaType: string): (r: Option<Item>)
    ensures r.None? <==> forall j :: 0 <= j < |items| ==> !Matches(items[j], tmdbId, mediaType)
    ensures r.Some? ==> exists k :: 0 <= k < |items| && items[k] == r.value && Matches(items[k], tmdbId, mediaType) &&
                                    forall j :: 0 <= j < k ==> !Matches(items[j], tmdbId, mediaType)
  {
    if items == [] then None
    else if Matches(items[0], tmdbId, mediaType) then Some(items[0])
    else
      var r := FindInItems(items[1..], tmdbId, mediaType);
      assert r.Some? ==> exists k :: 0 <= k < |items| && items[k] == r.value && Matches(items[k], tmdbId, mediaType) &&
                                     forall j :: 0 <= j < k ==> !Matches(items[j], tmdbId, mediaType) by {
        if r.Some? {
          var k :| 0 <= k < |items| - 1 && items[1..][k] == r.value && Matches(items[1..][k], tmdbId, mediaType) &&
                   forall j :: 0 <= j < k ==> !Matches(items[1..][j], tmdbId, mediaType);
          assert items[k + 1] == r.value;
          forall j | 0 <= j < k + 1 ensures !Matches(items[j], tmdbId, mediaType) {
            if j > 0 { assert items[j] == items[1..][j - 1]; }
          }
        }
      }
      r
  }

  /** `findItemInWatchlists`: the first held list, in held order, that contains a
      matching item, paired with the first such item in it; `None` iff no held item
      matches. */
  function FindItem(ws: seq<Watchlist>, tmdbId: int, mediaType: string): (r: Option<(Watchlist, Item)>)
    ensures r.None? <==> forall i, j :: 0 <= i < |ws| && 0 <= j < |ws[i].items| ==>
                                       !Matches(ws[i].items[j], tmdbId, mediaType)
    ensures r.Some? ==> exists k :: 0 <= k < |ws| && ws[k] == r.value.0 &&
                                    FindInItems(ws[k].items, tmdbId, mediaType) == Some(r.value.1) &&
                                    forall h :: 0 <= h < k ==> FindInItems(ws[h].items, tmdbId, mediaType).None?
  {
    if ws == [] then None
    else match FindInItems(ws[0].items, tmdbId, mediaType)
      case Some(it) => Some((ws[0], it))
      case None =>
        var r := FindItem(ws[1..], tmdbId, mediaType);
        assert r.None? <==> forall i, j :: 0 <= i < |ws| && 0 <= j < |ws[i].items| ==>
                                           !Matches(ws[i].items[j], tmdbId, mediaType) by {
          forall i | 1 <= i < |ws| ensures ws[i] == ws[1..][i - 1] {
          }
        }
        assert r.Some? ==> exists k :: 0 <= k < |ws| && ws[k] == r.value.0 &&
                                       FindInItems(ws[k].items, tmdbId, mediaType) == Some(r.value.1) &&
                                       forall h :: 0 <= h < k ==> FindInItems(ws[h].items, tmdbId, mediaType).None? by {
          if r.Some? {
            var k :| 0 <= k < |ws| - 1 && ws[1..][k] == r.value.0 &&
                     FindInItems(ws[1..][k].items, tmdbId, mediaType) == Some(r.value.1) &&
                     forall h :: 0 <= h < k ==> FindInItems(ws[1..][h].items, tmdbId, mediaType).None?;
            assert ws[k + 1] == r.value.0;
            forall h | 0 <= h < k + 1 ensures FindInItems(ws[h].items, tmdbId, mediaType).None? {
              if h > 0 { assert ws[h] == ws[1..][h - 1]; }
            }
          }
        }
        r
  }

  /** After a successful `addItem` into a held list, the lookup of the added title
      finds something. */
  lemma FindAfterAdd(ws: seq<Watchlist>, wid: string, item: Item, k: nat)
    requires k < |ws| && ws[k].id == wid
    ensures FindItem(WithItem(ws, wid, item), item.tmdbId, item.mediaType).Some?
  {
    var r := WithItem(ws, wid, item);
    assert r[k].items[|ws[k].items|] == item;
  }

  /** After a successful `removeItem`, the emptied list holds no item with that id,
      and a title is still found iff some item other than the removed ones matches. */
  lemma FindAfterRemove(ws: seq<Watchlist>, wid: string, iid: string, tmdbId: int, mediaType: string)
    ensures FindItem(WithoutItem(ws, wid, iid), tmdbId, mediaType).Some? <==>
            exists i, j :: 0 <= i < |ws| && 0 <= j < |ws[i].items| &&
                           Matches(ws[i].items[j], tmdbId, mediaType) && (ws[i].id != wid || ws[i].items[j].id != iid)
  {
    var r := WithoutItem(ws, wid, iid);
    if FindItem(r, tmdbId, mediaType).Some? {
      var i, j :| 0 <= i < |r| && 0 <= j < |r[i].items| && Matches(r[i].items[j], tmdbId, mediaType);
      var j' := RemainingItemWasHeld(ws, wid, iid, i, j);
      assert Matches(ws[i].items[j'], tmdbId, mediaType);
    }
    if exists i, j :: 0 <= i < |ws| && 0 <= j < |ws[i].items| &&
                      Matches(ws[i].items[j], tmdbId, mediaType) && (ws[i].id != wid || ws[i].items[j].id != iid) {
      var i, j :| 0 <= i < |ws| && 0 <= j < |ws[i].items| &&
                  Matches(ws[i].items[j], tmdbId, mediaType) && (ws[i].id != wid || ws[i].items[j].id != iid);
      var j' := UnremovedItemRemains(ws, wid, iid, i, j);
      assert Matches(r[i].items[j'], tmdbId, mediaType);
    }
  }

  /** Every item left in a list after `removeItem` was there before and was not removed. */
  lemma RemainingItemWasHeld(ws: seq<Watchlist>, wid: string, iid: string, i: int, j: int) returns (j': int)
    requires 0 <= i < |ws| && 0 <= j < |WithoutItem(ws, wid, iid)[i].items|
    ensures 0 <= j' < |ws[i].items| && ws[i].items[j'] == WithoutItem(ws, wid, iid)[i].items[j]
    ensures ws[i].id != wid || ws[i].items[j'].id != iid
  {
    var it := WithoutItem(ws, wid, iid)[i].items[j];
    if ws[i].id == wid {
      ItemsWithoutMembers(ws[i].items, iid);
    }
    assert it in ws[i].items;
    j' :| 0 <= j' < |ws[i].items| && ws[i].items[j'] == it;
  }

  /** Every item `removeItem` does not target stays in its list. */
  lemma UnremovedItemRemains(ws: seq<Watchlist>, wid: string, iid: string, i: int, j: int) returns (j': int)
    requires 0 <= i < |ws| && 0 <= j < |ws[i].items| && (ws[i].id != wid || ws[i].items[j].id != iid)
    ensures 0 <= j' < |WithoutItem(ws, wid, iid)[i].items| && WithoutItem(ws, wid, iid)[i].items[j'] == ws[i].items[j]
  {
    var r := WithoutItem(ws, wid, iid);
    if ws[i].id == wid {
      ItemsWithoutMembers(ws[i].items, iid);
    }
    assert ws[i].items[j] in r[i].items;
    j' :| 0 <= j' < |r[i].items| && r[i].items[j'] == ws[i].items[j];
  }


  // ---------------------------------------------------------------------------
  // The store
  // ---------------------------------------------------------------------------

  /** The watchlist provider's state. Each operation is one atomic step: the
      remote call's outcome is a parameter, and the patch runs only on `Ok`. */
  class Store {
    var watchlists: seq<Watchlist>
    var loading: bool

    constructor ()
      ensures watchlists == [] && !loading
    {
      watchlists := [];
      loading := false;
    }

    /** `fetchWatchlists`: with no active profile the lists become empty without a
        call; otherwise the fetched lists replace the held ones, and on failure the
        held lists stay as they were (they are not cleared first). */
    method FetchWatchlists(currentUser: Option<User>, reply: Remote<seq<Watchlist>>)
      modifies this
      ensures currentUser.None? ==> watchlists == [] && loading == old(loading)
      ensures currentUser.Some? ==> !loading
      ensures currentUser.Some? ==> watchlists == if reply.Ok? then reply.value else old(watchlists)
    {
      if currentUser.None? {
        watchlists := [];
        return;
      }
      loading := true;
      if reply.Ok? {
        watchlists := reply.value;
      }
      loading := false;
    }

    /** `createWatchlist`: `None` without a call when no profile is active; the
        returned list is appended after every held one. */
    method CreateWatchlist(currentUser: Option<User>, reply: Remote<Watchlist>) returns (r: Remote<Option<Watchlist>>)
      modifies this`watchlists
      ensures currentUser.None? ==> r == Ok(None) && watchlists == old(watchlists)
      ensures currentUser.Some? && reply.Fail? ==> r == Fail && watchlists == old(watchlists)
      ensures currentUser.Some? && reply.Ok? ==>
                r == Ok(Some(reply.value)) && watchlists == old(watchlists) + [reply.value]
    {
      if currentUser.None? {
        return Ok(None);
      }
      if reply.Fail? {
        return Fail;
      }
      watchlists := watchlists + [reply.value];
      r := Ok(Some(reply.value));
    }

    /** `deleteWatchlist` */
    method DeleteWatchlist(wid: string, reply: Remote<()>) returns (r: Remote<()>)
      modifies this`watchlists
      ensures r == reply
      ensures watchlists == if reply.Ok? then WithoutWatchlist(old(watchlists), wid) else old(watchlists)
    {
      r := reply;
      if reply.Ok? {
        watchlists := WithoutWatchlist(watchlists, wid);
      }
    }

    /** `updateWatchlist` */
    method UpdateWatchlist(wid: string, name: string, reply: Remote<()>) returns (r: Remote<()>)
      modifies this`watchlists
      ensures r == reply
      ensures watchlists == if reply.Ok? then Renamed(old(watchlists), wid, name) else old(watchlists)
    {
      r := reply;
      if reply.Ok? {
        watchlists := Renamed(watchlists, wid, name);
      }
    }

    /** `addItem`: no local duplicate check; the server's answer is appended. */
    method AddItem(wid: string, reply: Remote<Item>) returns (r: Remote<Item>)
      modifies this`watchlists
      ensures r == reply
      ensures watchlists == if reply.Ok? then WithItem(old(watchlists), wid, reply.value) else old(watchlists)
    {
      r := reply;
      if reply.Ok? {
        watchlists := WithItem(watchlists, wid, reply.value);
      }
    }

    /** `removeItem` */
    method RemoveItem(wid: string, iid: string, reply: Remote<()>) returns (r: Remote<()>)
      modifies this`watchlists
      ensures r == reply
      ensures watchlists == if reply.Ok? then WithoutItem(old(watchlists), wid, iid) else old(watchlists)
    {
      r := reply;
      if reply.Ok? {
        watchlists := WithoutItem(watchlists, wid, iid);
      }
    }

    /** `updateItemStatus` */
    method UpdateItemStatus(wid: string, iid: string, status: string, reply: Remote<()>) returns (r: Remote<()>)
      modifies this`watchlists
      ensures r == reply
      ensures watchlists == if reply.Ok? then WithItemStatus(old(watchlists), wid, iid, status) else old(watchlists)
    {
      r := reply;
      if reply.Ok? {
        watchlists := WithItemStatus(watchlists, wid, iid, status);
      }
    }

    /** `findItemInWatchlists`: the loop over the held lists with an early return. */
    method FindItemInWatchlists(tmdbId: int, mediaType: string) returns (r: Option<(Watchlist, Item)>)
      ensures r == FindItem(watchlists, tmdbId, mediaType)
    {
      var k := 0;
      while k < |watchlists|
        invariant 0 <= k <= |watchlists|
        invariant FindItem(watchlists, tmdbId, mediaType) == FindItem(watchlists[k..], tmdbId, mediaType)
      {
        assert watchlists[k..][1..] == watchlists[k + 1..];
        var item := FindInItems(watchlists[k].items, tmdbId, mediaType);
        if item.Some? {
          return Some((watchlists[k], item.value));
        }
        k := k + 1;
      }
      r := None;
    }
  }
}
