/** The records exchanged between the browser stores and the backend. */
module Records {
  import opened Wrappers

  /** A local profile (`User` in the backend, a "profile" in the UI). */
  datatype User = User(id: string, name: string, avatarColor: string)

  /** One saved title inside a watchlist. */
  datatype Item = Item(id: string, tmdbId: int, mediaType: string, title: string,
                       posterPath: Option<string>, status: string)

  /** A named, profile-owned list of items, in insertion order. */
  datatype Watchlist = Watchlist(id: string, userId: string, name: string, items: seq<Item>)

  /** The identity of a catalogue title: (tmdb_id, media_type). */
  function Key(it: Item): (int, string) {
    (it.tmdbId, it.mediaType)
  }

  /** The items whose id is not `iid`, in their order: JavaScript's
      `items.filter(i => i.id !== iid)` and MongoDB's `$pull: {items: {id: iid}}`. */
  function ItemsWithout(items: seq<Item>, iid: string): (r: seq<Item>)
    ensures |r| <= |items|
    ensures (forall j :: 0 <= j < |items| ==> items[j].id != iid) ==> r == items
  {
    if items == [] then []
    else (if items[0].id == iid then [] else [items[0]]) + ItemsWithout(items[1..], iid)
  }

  /** The filter keeps the order of the kept items: it distributes over
      concatenation. */
  lemma {:induction false} ItemsWithoutConcat(a: seq<Item>, b: seq<Item>, iid: string)
    ensures ItemsWithout(a + b, iid) == ItemsWithout(a, iid) + ItemsWithout(b, iid)
  {
    if a == [] {
      assert a + b == b;
    } else {
      var head := if a[0].id == iid then [] else [a[0]];
      assert (a + b)[0] == a[0];
      assert (a + b)[1..] == a[1..] + b;
      ItemsWithoutConcat(a[1..], b, iid);
      calc {
        ItemsWithout(a + b, iid);
        head + ItemsWithout(a[1..] + b, iid);
        head + (ItemsWithout(a[1..], iid) + ItemsWithout(b, iid));
        (head + ItemsWithout(a[1..], iid)) + ItemsWithout(b, iid);
        ItemsWithout(a, iid) + ItemsWithout(b, iid);
      }
    }
  }

  /** The filter keeps exactly the items whose id differs. */
  lemma {:induction false} ItemsWithoutMembers(items: seq<Item>, iid: string)
    ensures forall it :: it in ItemsWithout(items, iid) <==> it in items && it.id != iid
  {
    if items != [] {
      ItemsWithoutMembers(items[1..], iid);
      assert forall it :: it in items <==> it == items[0] || it in items[1..];
    }
  }

  /** On one item, the filter keeps it iff its id differs. */
  lemma ItemsWithoutOne(x: Item, iid: string)
    ensures ItemsWithout([x], iid) == if x.id == iid then [] else [x]
  {
    assert [x][1..] == [];
  }
}
