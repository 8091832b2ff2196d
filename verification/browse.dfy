/** The list logic of the browse page: the order of the provider filter, the
    filters sent to the discover route, and the paged results it shows. */
module Browse {
  import opened Wrappers
  import opened Decimal
  import opened Media

  // ---------------------------------------------------------------------------
  // Provider ordering
  // ---------------------------------------------------------------------------

  /** The providers pinned to the top of the filter, in display order. */
  const POPULAR_PROVIDER_IDS: seq<int> := [8, 337, 9, 350, 15, 386, 387, 531, 1899, 283]

  predicate IsPopular(id: int) {
    id in POPULAR_PROVIDER_IDS
  }

  /** `indexOf` in the popular list (its length when absent). */
  function Rank(id: int): (k: nat)
    ensures k <= |POPULAR_PROVIDER_IDS|
    ensures k < |POPULAR_PROVIDER_IDS| <==> IsPopular(id)
    ensures k < |POPULAR_PROVIDER_IDS| ==> POPULAR_PROVIDER_IDS[k] == id
  {
    IndexOf(POPULAR_PROVIDER_IDS, id)
  }

  function IndexOf(s: seq<int>, x: int): (k: nat)
    ensures k <= |s| && (k < |s| ==> s[k] == x) && (k == |s| ==> x !in s)
    ensures forall j :: 0 <= j < k ==> s[j] != x
  {
    if s == [] then 0 else if s[0] == x then 0 else 1 + IndexOf(s[1..], x)
  }

  /** Lexicographic order on names by Unicode code point, the model's stand-in for the
      locale-dependent `localeCompare`. */
  predicate LexLe(a: string, b: string) {
    a == [] || (b != [] && (a[0] < b[0] || (a[0] == b[0] && LexLe(a[1..], b[1..]))))
  }

  lemma {:induction false} LexLeTotal(a: string, b: string)
    ensures LexLe(a, b) || LexLe(b, a)
  {
    if a != [] && b != [] && a[0] == b[0] {
      LexLeTotal(a[1..], b[1..]);
    }
  }

  lemma {:induction false} LexLeTransitive(a: string, b: string, c: string)
    requires LexLe(a, b) && LexLe(b, c)
    ensures LexLe(a, c)
  {
    if a != [] && b != [] && c != [] && a[0] == b[0] && b[0] == c[0] {
      LexLeTransitive(a[1..], b[1..], c[1..]);
    }
  }

  /** The two comparators the page sorts with. */
  datatype Order = ByRank | ByName

  predicate Le(o: Order, a: Provider, b: Provider) {
    match o
    case ByRank => Rank(a.providerId) <= Rank(b.providerId)
    case ByName => LexLe(a.providerName, b.providerName)
  }

  lemma LeTotal(o: Order, a: Provider, b: Provider)
    ensures Le(o, a, b) || Le(o, b, a)
  {
    if o == ByName { LexLeTotal(a.providerName, b.providerName); }
  }

  lemma LeTransitive(o: Order, a: Provider, b: Provider, c: Provider)
    requires Le(o, a, b) && Le(o, b, c)
    ensures Le(o, a, c)
  {
    if o == ByName { LexLeTransitive(a.providerName, b.providerName, c.providerName); }
  }

  predicate SortedBy(o: Order, s: seq<Provider>) {
    forall i, j :: 0 <= i < j < |s| ==> Le(o, s[i], s[j])
  }

  /** Puts `x` after every element not greater than it. */
  function Insert(o: Order, x: Provider, s: seq<Provider>): (r: seq<Provider>)
    ensures multiset(r) == multiset(s) + multiset{x}
  {
    if s == [] then [x]
    else if !Le(o, s[0], x) then [x] + s
    else
      assert s == [s[0]] + s[1..];
      [s[0]] + Insert(o, x, s[1..])
  }

  lemma {:induction false} InsertSorted(o: Order, x: Provider, s: seq<Provider>)
    requires SortedBy(o, s)
    ensures SortedBy(o, Insert(o, x, s))
  {
    if s != [] {
      if !Le(o, s[0], x) {
        LeTotal(o, s[0], x);
        forall j | 0 <= j < |s| ensures Le(o, x, s[j]) {
          if j > 0 { LeTransitive(o, x, s[0], s[j]); }
        }
      } else {
        var rest := s[1..];
        InsertSorted(o, x, rest);
        var t := Insert(o, x, rest);
        forall j | 0 <= j < |t| ensures Le(o, s[0], t[j]) {
          assert t[j] in multiset(t);
          assert t[j] in rest || t[j] == x;
        }
      }
    }
  }

  /** The page's `sort`: each element is inserted after the elements before it
      that are not greater. */
  function SortBy(o: Order, s: seq<Provider>): (r: seq<Provider>)
    ensures multiset(r) == multiset(s)
  {
    if s == [] then []
    else
      assert s == s[..|s| - 1] + [s[|s| - 1]];
      Insert(o, s[|s| - 1], SortBy(o, s[..|s| - 1]))
  }

  lemma {:induction false} SortBySorted(o: Order, s: seq<Provider>)
    ensures SortedBy(o, SortBy(o, s))
  {
    if s != [] {
      SortBySorted(o, s[..|s| - 1]);
      InsertSorted(o, s[|s| - 1], SortBy(o, s[..|s| - 1]));
    }
  }

  /** The providers whose popularity is `popular`, in their order. */
  function Select(ps: seq<Provider>, popular: bool): (r: seq<Provider>)
    ensures forall p :: p in r ==> p in ps && IsPopular(p.providerId) == popular
  {
    if ps == [] then []
    else (if IsPopular(ps[0].providerId) == popular then [ps[0]] else []) + Select(ps[1..], popular)
  }

  /** The popular and the other providers together are the whole list. */
  lemma {:induction false} SelectPartition(ps: seq<Provider>)
    ensures multiset(Select(ps, true)) + multiset(Select(ps, false)) == multiset(ps)
  {
    if ps != [] {
      SelectPartition(ps[1..]);
      assert ps == [ps[0]] + ps[1..];
    }
  }

  /** Every element of a sorted part keeps its group's popularity. */
  lemma SortedPartPopularity(o: Order, ps: seq<Provider>, popular: bool)
    ensures forall i :: 0 <= i < |SortBy(o, Select(ps, popular))| ==>
              IsPopular(SortBy(o, Select(ps, popular))[i].providerId) == popular
  {
    var t := SortBy(o, Select(ps, popular));
    forall i | 0 <= i < |t| ensures IsPopular(t[i].providerId) == popular {
      assert t[i] in multiset(t);
      assert t[i] in Select(ps, popular);
    }
  }

  /** The provider list of the filter panel. */
  function OrderProviders(all: seq<Provider>): (r: seq<Provider>)
    ensures |r| == |all|
    ensures forall p :: p in r <==> p in all
  {
    SelectPartition(all);
    var r := SortBy(ByRank, Select(all, true)) + SortBy(ByName, Select(all, false));
    assert multiset(r) == multiset(all);
    assert forall p :: p in r <==> p in multiset(r);
    r
  }

  /** The filter panel shows every fetched provider exactly as often as it was
      fetched. */
  lemma OrderProvidersPermutation(all: seq<Provider>)
    ensures multiset(OrderProviders(all)) == multiset(all)
  {
    SelectPartition(all);
  }

  /** Popular providers come first, in the pinned order, and the rest by name. */
  lemma OrderProvidersGrouped(all: seq<Provider>)
    ensures var r := OrderProviders(all);
            (forall i, j :: 0 <= i < j < |r| && IsPopular(r[j].providerId) ==> IsPopular(r[i].providerId)) &&
            (forall i, j :: 0 <= i < j < |r| && IsPopular(r[j].providerId) ==> Rank(r[i].providerId) <= Rank(r[j].providerId)) &&
            (forall i, j :: 0 <= i < j < |r| && !IsPopular(r[i].providerId) ==> LexLe(r[i].providerName, r[j].providerName))
  {
    var top := SortBy(ByRank, Select(all, true));
    var rest := SortBy(ByName, Select(all, false));
    SortBySorted(ByRank, Select(all, true));
    SortBySorted(ByName, Select(all, false));
    SortedPartPopularity(ByRank, all, true);
    SortedPartPopularity(ByName, all, false);
    var r := top + rest;
    forall i, j | 0 <= i < j < |r|
      ensures IsPopular(r[j].providerId) ==> IsPopular(r[i].providerId) && Rank(r[i].providerId) <= Rank(r[j].providerId)
      ensures !IsPopular(r[i].providerId) ==> LexLe(r[i].providerName, r[j].providerName)
    {
      if j < |top| {
        assert r[i] == top[i] && r[j] == top[j];
        assert Le(ByRank, top[i], top[j]);
      } else if i >= |top| {
        assert r[i] == rest[i - |top|] && r[j] == rest[j - |top|];
        assert Le(ByName, rest[i - |top|], rest[j - |top|]);
      } else {
        assert r[i] == top[i] && r[j] == rest[j - |top|];
      }
    }
  }

  // ---------------------------------------------------------------------------
  // Discover filters
  // ---------------------------------------------------------------------------

  const DEFAULT_SORT := "popularity.desc"
  const ALL := "all"
  /** The rating slider in half-points: 0 .. 20 stands for 0 .. 10. */
  const RATING_MAX := 20

  /** The filter controls. The year is the text of a year option or "all". */
  datatype FilterState = FilterState(sortBy: string, genre: string, year: string, provider: string,
                                     ratingLo: int, ratingHi: int)

  /** What `clearFilters` sets. */
  const DEFAULT_FILTERS := FilterState(DEFAULT_SORT, ALL, ALL, ALL, 0, RATING_MAX)

  /** The slider keeps both handles inside its range. */
  predicate ValidFilters(f: FilterState) {
    0 <= f.ratingLo <= RATING_MAX && 0 <= f.ratingHi <= RATING_MAX
  }

  /** The filters object passed to `discover`; `None` is `undefined`. */
  datatype Filters = Filters(sortBy: string, withGenres: Option<string>, year: Option<JsNumber>,
                             voteAverageGte: Option<int>, voteAverageLte: Option<int>,
                             withWatchProviders: Option<string>)

  /** Each filter is left undefined exactly when its control is at its default. */
  function DiscoverFilters(f: FilterState): (r: Filters)
    ensures r.sortBy == f.sortBy
    ensures r.withGenres.None? <==> f.genre == ALL
    ensures r.year.None? <==> f.year == ALL
    ensures r.voteAverageGte.None? <==> f.ratingLo <= 0
    ensures r.voteAverageLte.None? <==> f.ratingHi >= RATING_MAX
    ensures r.withWatchProviders.None? <==> f.provider == ALL
    ensures r.withGenres.Some? ==> r.withGenres.value == f.genre
    ensures r.withWatchProviders.Some? ==> r.withWatchProviders.value == f.provider
    ensures r.voteAverageGte.Some? ==> r.voteAverageGte.value == f.ratingLo
    ensures r.voteAverageLte.Some? ==> r.voteAverageLte.value == f.ratingHi
    ensures r.year.Some? ==> r.year.value == ParseInt(f.year)
  {
    Filters(
      f.sortBy,
      if f.genre != ALL then Some(f.genre) else None,
      if f.year != ALL then Some(ParseInt(f.year)) else None,
      if f.ratingLo > 0 then Some(f.ratingLo) else None,
      if f.ratingHi < RATING_MAX then Some(f.ratingHi) else None,
      if f.provider != ALL then Some(f.provider) else None)
  }

  /** The year options are printed years, so the year filter is the year itself. */
  lemma YearFilterReadsBack(f: FilterState, year: nat)
    requires f.year == NatToString(year)
    ensures DiscoverFilters(f).year == Some(Num(year))
  {
    ParseIntOfNatToString(year);
    assert NatToString(year) != ALL by {
      assert AllDigits(NatToString(year));
      assert !IsDigit(ALL[0]);
    }
  }

  /** The "clear filters" badge: shown iff the discover call gets something
      other than the default sort alone. */
  function HasActiveFilters(f: FilterState): (active: bool)
    ensures !active <==> DiscoverFilters(f) == Filters(DEFAULT_SORT, None, None, None, None, None)
  {
    f.sortBy != DEFAULT_SORT || f.genre != ALL || f.year != ALL || f.provider != ALL ||
    f.ratingLo > 0 || f.ratingHi < RATING_MAX
  }

  /** On the slider's range, no filter is active iff every control is at its
      default. */
  lemma ActiveFiltersIffNotDefault(f: FilterState)
    requires ValidFilters(f)
    ensures !HasActiveFilters(f) <==> f == DEFAULT_FILTERS
  {
  }

  // ---------------------------------------------------------------------------
  // Results
  // ---------------------------------------------------------------------------

  /** TMDB serves no page past this one. */
  const MAX_PAGES := 500

  /** The reply of the search or discover route; `None` is a missing key. */
  datatype PageReply = PageReply(results: Option<seq<MediaItem>>, totalPages: Option<int>)

  /** The results of the given media type, in their order. */
  function OfType(items: seq<MediaItem>, mediaType: string): (r: seq<MediaItem>)
    ensures |r| <= |items|
    ensures (forall i :: 0 <= i < |items| ==> items[i].mediaType == mediaType) ==> r == items
  {
    if items == [] then []
    else (if items[0].mediaType == mediaType then [items[0]] else []) + OfType(items[1..], mediaType)
  }

  /** The type filter keeps the results in their order: it distributes over
      concatenation. */
  lemma {:induction false} OfTypeConcat(a: seq<MediaItem>, b: seq<MediaItem>, mediaType: string)
    ensures OfType(a + b, mediaType) == OfType(a, mediaType) + OfType(b, mediaType)
  {
    if a == [] {
      assert a + b == b;
    } else {
      var head := if a[0].mediaType == mediaType then [a[0]] else [];
      assert (a + b)[0] == a[0];
      assert (a + b)[1..] == a[1..] + b;
      OfTypeConcat(a[1..], b, mediaType);
      calc {
        OfType(a + b, mediaType);
        head + OfType(a[1..] + b, mediaType);
        head + (OfType(a[1..], mediaType) + OfType(b, mediaType));
        (head + OfType(a[1..], mediaType)) + OfType(b, mediaType);
        OfType(a, mediaType) + OfType(b, mediaType);
      }
    }
  }

  /** The type filter keeps exactly the results of that type. */
  lemma {:induction false} OfTypeMembers(items: seq<MediaItem>, mediaType: string)
    ensures forall x :: x in OfType(items, mediaType) <==> x in items && x.mediaType == mediaType
  {
    if items != [] {
      OfTypeMembers(items[1..], mediaType);
      assert forall x :: x in items <==> x == items[0] || x in items[1..];
    }
  }

  /** On one result, the type filter keeps it iff the type matches. */
  lemma OfTypeOne(x: MediaItem, mediaType: string)
    ensures OfType([x], mediaType) == if x.mediaType == mediaType then [x] else []
  {
    assert [x][1..] == [];
  }

  /** `Math.min(total_pages || 0, 500)` */
  function CapPages(total: Option<int>): (r: int)
    ensures r <= MAX_PAGES
    ensures total.None? || total.value == 0 ==> r == 0
    ensures total.Some? && total.value != 0 && total.value <= MAX_PAGES ==> r == total.value
    ensures total.Some? && total.value > MAX_PAGES ==> r == MAX_PAGES
  {
    var t := if total.Some? && total.value != 0 then total.value else 0;
    if t < MAX_PAGES then t else MAX_PAGES
  }

  /** The results a reply contributes, or `None` when reading them throws: in
      search mode with a type filter a missing list cannot be filtered. */
  function Received(query: string, mediaType: string, data: PageReply): (r: Option<seq<MediaItem>>)
    ensures r.None? <==> query != "" && mediaType != ALL && data.results.None?
    ensures r.Some? && query != "" && mediaType != ALL ==> r.value == OfType(data.results.value, mediaType)
    ensures r.Some? && (query == "" || mediaType == ALL) ==> r.value == data.results.GetOr([])
  {
    if query != "" && mediaType != ALL then
      if data.results.None? then None else Some(OfType(data.results.value, mediaType))
    else Some(data.results.GetOr([]))
  }

  /** The page's state: what is shown, which page was last loaded, how many
      there are, and the provider filter's options. */
  class BrowseView {
    var results: seq<MediaItem>
    var page: int
    var totalPages: int
    var loading: bool
    var providers: seq<Provider>

    constructor ()
      ensures results == [] && page == 1 && totalPages == 0 && !loading && providers == []
    {
      results := [];
      page := 1;
      totalPages := 0;
      loading := false;
      providers := [];
    }

    /** `fetchResults(pageNum)`: the first page replaces what is shown, a later
        page is appended; a failed or throwing fetch changes nothing but the
        spinner. */
    method FetchResults(query: string, mediaType: string, pageNum: int, reply: Remote<PageReply>)
      modifies this`results, this`page, this`totalPages, this`loading
      ensures !loading
      ensures reply.Fail? || Received(query, mediaType, reply.value).None? ==>
                results == old(results) && page == old(page) && totalPages == old(totalPages)
      ensures reply.Ok? && Received(query, mediaType, reply.value).Some? ==>
                var got := Received(query, mediaType, reply.value).value;
                results == (if pageNum == 1 then got else old(results) + got) &&
                totalPages == CapPages(reply.value.totalPages) && page == pageNum
    {
      loading := true;
      if reply.Ok? {
        var data := reply.value;
        var got: seq<MediaItem>;
        if query != "" && mediaType != ALL {
          if data.results.None? {
            loading := false;
            return;
          }
          got := OfType(data.results.value, mediaType);
        } else {
          got := data.results.GetOr([]);
        }
        if pageNum == 1 {
          results := got;
        } else {
          results := results + got;
        }
        totalPages := CapPages(data.totalPages);
        page := pageNum;
      }
      loading := false;
    }

    /** The provider half of `fetchFiltersData`: on success the options become
        the ordered fetched list (an absent list counts as empty). */
    method LoadProviders(reply: Remote<Option<seq<Provider>>>)
      modifies this`providers
      ensures reply.Fail? ==> providers == old(providers)
      ensures reply.Ok? ==> providers == OrderProviders(reply.value.GetOr([]))
    {
      if reply.Ok? {
        providers := OrderProviders(reply.value.GetOr([]));
      }
    }
  }

  /** Loading pages 1, 2, 3 in turn shows their results concatenated in page
      order, and the last page number. */
  method LoadThreePages(query: string, mediaType: string, r1: PageReply, r2: PageReply, r3: PageReply)
    returns (shown: seq<MediaItem>, page: int)
    requires Received(query, mediaType, r1).Some? && Received(query, mediaType, r2).Some? &&
             Received(query, mediaType, r3).Some?
    ensures shown == Received(query, mediaType, r1).value + Received(query, mediaType, r2).value +
                     Received(query, mediaType, r3).value
    ensures page == 3
  {
    var view := new BrowseView();
    view.FetchResults(query, mediaType, 1, Ok(r1));
    view.FetchResults(query, mediaType, 2, Ok(r2));
    view.FetchResults(query, mediaType, 3, Ok(r3));
    shown, page := view.results, view.page;
  }
}
