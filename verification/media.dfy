/** The backend's shaping helpers for catalogue data: image URLs, the common
    movie/TV shape, the merged provider list, the OMDB ratings block and the
    discover query. */
module Media {
  import opened Wrappers

  const IMAGE_BASE := "https://image.tmdb.org/t/p/"
  const DEFAULT_MEDIA_TYPE := "movie"

  /** Python truthiness of an optional string: present and not empty. */
  predicate Truthy(s: Option<string>) {
    s.Some? && s.value != ""
  }

  /** Python's `a or b` on optional strings. */
  function Or(a: Option<string>, b: Option<string>): Option<string> {
    if Truthy(a) then a else b
  }

  // ---------------------------------------------------------------------------
  // get_image_url
  // ---------------------------------------------------------------------------

  /** `get_image_url(path, size)`: the CDN URL for a TMDB image path, and no URL
      for a missing or empty path. */
  function ImageUrl(path: Option<string>, size: string): (r: Option<string>)
    ensures r.None? <==> !Truthy(path)
    ensures r.Some? ==> r.value == IMAGE_BASE + size + path.value
  {
    if Truthy(path) then Some(IMAGE_BASE + size + path.value) else None
  }

  /** At one size, distinct image paths give distinct URLs: the path is what
      follows the base and the size. */
  lemma ImageUrlInjective(p: Option<string>, q: Option<string>, size: string)
    requires ImageUrl(p, size).Some? && ImageUrl(p, size) == ImageUrl(q, size)
    ensures p == q
  {
    var n := |IMAGE_BASE + size|;
    var u := ImageUrl(p, size).value;
    assert u[n..] == p.value;
    assert u[n..] == q.value;
  }

  // ---------------------------------------------------------------------------
  // normalize_media_item
  // ---------------------------------------------------------------------------

  /** A movie or TV record as TMDB sends it. `None` is a missing (or null) key;
      for `mediaType` and `genreIds`, `None` is a missing key. */
  datatype RawMedia = RawMedia(
    id: Option<int>, mediaType: Option<string>,
    title: Option<string>, name: Option<string>,
    originalTitle: Option<string>, originalName: Option<string>,
    overview: Option<string>, posterPath: Option<string>, backdropPath: Option<string>,
    releaseDate: Option<string>, firstAirDate: Option<string>,
    genreIds: Option<seq<int>>, genres: Option<seq<Genre>>)

  /** A genre as a TMDB details record lists it. */
  datatype Genre = Genre(id: int, name: string)

  /** The common shape the backend returns for both movies and TV shows. */
  datatype MediaItem = MediaItem(
    id: Option<int>, mediaType: string, title: Option<string>, originalTitle: Option<string>,
    overview: Option<string>, posterPath: Option<string>, backdropPath: Option<string>,
    releaseDate: Option<string>, genreIds: seq<int>, genres: seq<Genre>)

  /** `normalize_media_item(item, media_type)`: the caller's media type wins when
      given; a TV show's `name` and `first_air_date` fill in for a missing or
      empty `title` and `release_date`; image paths become URLs. */
  function Normalize(item: RawMedia, mediaType: Option<string>): (r: MediaItem)
    ensures r.id == item.id && r.overview == item.overview
    ensures Truthy(mediaType) ==> r.mediaType == mediaType.value
    ensures !Truthy(mediaType) && item.mediaType.None? ==> r.mediaType == DEFAULT_MEDIA_TYPE
    ensures !Truthy(mediaType) && item.mediaType.Some? ==> r.mediaType == item.mediaType.value
    ensures r.title == if Truthy(item.title) then item.title else item.name
    ensures r.originalTitle == if Truthy(item.originalTitle) then item.originalTitle else item.originalName
    ensures r.releaseDate == if Truthy(item.releaseDate) then item.releaseDate else item.firstAirDate
    ensures r.posterPath.Some? <==> Truthy(item.posterPath)
    ensures r.posterPath.Some? ==> r.posterPath.value == IMAGE_BASE + "w342" + item.posterPath.value
    ensures r.backdropPath.Some? <==> Truthy(item.backdropPath)
    ensures r.backdropPath.Some? ==> r.backdropPath.value == IMAGE_BASE + "w1280" + item.backdropPath.value
    ensures r.genreIds == if item.genreIds.Some? then item.genreIds.value else []
    ensures r.genres == if item.genres.Some? then item.genres.value else []
  {
    var mt := if Truthy(mediaType) then mediaType.value else item.mediaType.GetOr(DEFAULT_MEDIA_TYPE);
    MediaItem(
      item.id, mt,
      Or(item.title, item.name), Or(item.originalTitle, item.originalName),
      item.overview,
      ImageUrl(item.posterPath, "w342"), ImageUrl(item.backdropPath, "w1280"),
      Or(item.releaseDate, item.firstAirDate),
      item.genreIds.GetOr([]), item.genres.GetOr([]))
  }

  /** A results page as the discover endpoint builds it: every record normalized
      with the route's media type. */
  function NormalizeAll(items: seq<RawMedia>, mediaType: string): (r: seq<MediaItem>)
    ensures |r| == |items|
    ensures forall i :: 0 <= i < |items| ==> r[i] == Normalize(items[i], Some(mediaType))
  {
    if items == [] then [] else [Normalize(items[0], Some(mediaType))] + NormalizeAll(items[1..], mediaType)
  }

  /** Every record of a discover page carries the route's media type and keeps its
      TMDB id and position. */
  lemma DiscoverPageTyped(items: seq<RawMedia>, mediaType: string)
    requires mediaType != ""
    ensures forall i :: 0 <= i < |items| ==>
              NormalizeAll(items, mediaType)[i].mediaType == mediaType &&
              NormalizeAll(items, mediaType)[i].id == items[i].id
  {
  }

  // ---------------------------------------------------------------------------
  // get_watch_providers
  // ---------------------------------------------------------------------------

  /** A provider record as TMDB sends it. */
  datatype RawProvider = RawProvider(providerId: int, providerName: string, logoPath: Option<string>)

  /** A provider as the backend returns it, with its logo at size w92. */
  datatype Provider = Provider(providerId: int, providerName: string, logoPath: Option<string>)

  function ToProvider(p: RawProvider): (q: Provider)
    ensures q.providerId == p.providerId && q.providerName == p.providerName
    ensures q.logoPath == ImageUrl(p.logoPath, "w92")
  {
    Provider(p.providerId, p.providerName, ImageUrl(p.logoPath, "w92"))
  }

  /** The reshaped providers, in order. */
  function Shape(ps: seq<RawProvider>): (r: seq<Provider>)
    ensures |r| == |ps| && forall i :: 0 <= i < |ps| ==> r[i] == ToProvider(ps[i])
  {
    if ps == [] then [] else Shape(ps[..|ps| - 1]) + [ToProvider(ps[|ps| - 1])]
  }

  function IdsOf(r: seq<RawProvider>): set<int> {
    set p | p in r :: p.providerId
  }

  /** The position of the first record with the id (`|ps|` when there is none). */
  function FirstIndexOfId(ps: seq<RawProvider>, id: int): (k: nat)
    ensures k <= |ps| && (k < |ps| ==> ps[k].providerId == id)
    ensures forall j :: 0 <= j < k ==> ps[j].providerId != id
  {
    if ps == [] then 0 else if ps[0].providerId == id then 0 else 1 + FirstIndexOfId(ps[1..], id)
  }

  /** A first occurrence inside a prefix is the first occurrence in the whole. */
  lemma FirstIndexInPrefix(ps: seq<RawProvider>, n: nat, id: int)
    requires n <= |ps| && FirstIndexOfId(ps[..n], id) < n
    ensures FirstIndexOfId(ps, id) == FirstIndexOfId(ps[..n], id)
  {
    var k := FirstIndexOfId(ps[..n], id);
    assert ps[k] == ps[..n][k];
  }

  /** The merge of `get_watch_providers`: records are read in order and a record
      is kept only when no earlier one had its id (the dict keyed by id, read back
      in insertion order). */
  function Dedup(ps: seq<RawProvider>): (r: seq<RawProvider>)
    ensures forall a, b :: 0 <= a < b < |r| ==> r[a].providerId != r[b].providerId
    ensures forall i :: 0 <= i < |ps| ==> ps[i].providerId in IdsOf(r)
  {
    if ps == [] then []
    else
      var init := ps[..|ps| - 1];
      var d := Dedup(init);
      var p := ps[|ps| - 1];
      assert forall i :: 0 <= i < |ps| - 1 ==> ps[i] == init[i];
      if p.providerId in IdsOf(d) then d
      else
        var r := d + [p];
        assert IdsOf(r) == IdsOf(d) + {p.providerId} by {
          assert forall q :: q in r <==> q in d || q == p;
        }
        r
  }

  /** Each of `r` is the FIRST record of `ps` with its id. */
  predicate TakenFromFirst(ps: seq<RawProvider>, r: seq<RawProvider>) {
    forall k :: 0 <= k < |r| ==>
      FirstIndexOfId(ps, r[k].providerId) < |ps| && r[k] == ps[FirstIndexOfId(ps, r[k].providerId)]
  }

  /** `r` is in the order of those first records. */
  predicate InFirstOrder(ps: seq<RawProvider>, r: seq<RawProvider>) {
    forall a, b :: 0 <= a < b < |r| ==>
      FirstIndexOfId(ps, r[a].providerId) < FirstIndexOfId(ps, r[b].providerId)
  }

  /** First occurrences in all but the last record stay first occurrences, and
      come before the last record. */
  lemma FirstWinsExtend(ps: seq<RawProvider>, d: seq<RawProvider>)
    requires ps != [] && TakenFromFirst(ps[..|ps| - 1], d) && InFirstOrder(ps[..|ps| - 1], d)
    ensures TakenFromFirst(ps, d) && InFirstOrder(ps, d)
    ensures forall k :: 0 <= k < |d| ==> FirstIndexOfId(ps, d[k].providerId) < |ps| - 1
  {
    var n := |ps| - 1;
    forall k | 0 <= k < |d|
      ensures FirstIndexOfId(ps, d[k].providerId) == FirstIndexOfId(ps[..n], d[k].providerId)
    {
      FirstIndexInPrefix(ps, n, d[k].providerId);
    }
  }

  /** A record whose id was not seen before is its id's first occurrence. */
  lemma FirstIndexOfNewId(ps: seq<RawProvider>, d: seq<RawProvider>)
    requires ps != []
    requires forall i :: 0 <= i < |ps| - 1 ==> ps[i].providerId in IdsOf(d)
    requires ps[|ps| - 1].providerId !in IdsOf(d)
    ensures FirstIndexOfId(ps, ps[|ps| - 1].providerId) == |ps| - 1
  {
  }

  lemma TakenFromFirstAppend(ps: seq<RawProvider>, d: seq<RawProvider>)
    requires ps != [] && TakenFromFirst(ps, d)
    requires FirstIndexOfId(ps, ps[|ps| - 1].providerId) == |ps| - 1
    ensures TakenFromFirst(ps, d + [ps[|ps| - 1]])
  {
    var r := d + [ps[|ps| - 1]];
    forall k | 0 <= k < |r|
      ensures FirstIndexOfId(ps, r[k].providerId) < |ps| && r[k] == ps[FirstIndexOfId(ps, r[k].providerId)]
    {
      if k < |d| { assert r[k] == d[k]; }
    }
  }

  lemma InFirstOrderAppend(ps: seq<RawProvider>, d: seq<RawProvider>)
    requires ps != [] && InFirstOrder(ps, d)
    requires forall k :: 0 <= k < |d| ==> FirstIndexOfId(ps, d[k].providerId) < |ps| - 1
    requires FirstIndexOfId(ps, ps[|ps| - 1].providerId) == |ps| - 1
    ensures InFirstOrder(ps, d + [ps[|ps| - 1]])
  {
    var r := d + [ps[|ps| - 1]];
    forall a, b | 0 <= a < b < |r|
      ensures FirstIndexOfId(ps, r[a].providerId) < FirstIndexOfId(ps, r[b].providerId)
    {
      assert r[a] == d[a];
      if b < |d| { assert r[b] == d[b]; }
    }
  }

  /** Reading one more record keeps both halves of first-wins. */
  lemma DedupStep(ps: seq<RawProvider>)
    requires ps != []
    requires TakenFromFirst(ps[..|ps| - 1], Dedup(ps[..|ps| - 1])) && InFirstOrder(ps[..|ps| - 1], Dedup(ps[..|ps| - 1]))
    ensures TakenFromFirst(ps, Dedup(ps)) && InFirstOrder(ps, Dedup(ps))
  {
    var n := |ps| - 1;
    var init := ps[..n];
    var d := Dedup(init);
    FirstWinsExtend(ps, d);
    if ps[n].providerId !in IdsOf(d) {
      assert forall i :: 0 <= i < n ==> ps[i].providerId in IdsOf(d) by {
        assert forall i :: 0 <= i < n ==> ps[i] == init[i];
      }
      FirstIndexOfNewId(ps, d);
      TakenFromFirstAppend(ps, d);
      InFirstOrderAppend(ps, d);
      assert Dedup(ps) == d + [ps[n]];
    } else {
      assert Dedup(ps) == d;
    }
  }

  /** The merge keeps, for each id, the first record with it, in the order of
      those first records. */
  lemma {:induction false} DedupFirstWins(ps: seq<RawProvider>)
    ensures TakenFromFirst(ps, Dedup(ps)) && InFirstOrder(ps, Dedup(ps))
  {
    if ps != [] {
      DedupFirstWins(ps[..|ps| - 1]);
      DedupStep(ps);
    }
  }

  lemma ShapeSnoc(ps: seq<RawProvider>, p: RawProvider)
    ensures Shape(ps + [p]) == Shape(ps) + [ToProvider(p)]
  {
    assert (ps + [p])[..|ps|] == ps;
  }

  lemma IdsOfSnoc(ps: seq<RawProvider>, p: RawProvider)
    ensures IdsOf(ps + [p]) == IdsOf(ps) + {p.providerId}
  {
    assert forall q :: q in ps + [p] <==> q in ps || q == p;
  }

  /** One step of the merge: the record is kept iff its id is new. */
  lemma DedupSnoc(all: seq<RawProvider>, i: nat)
    requires i < |all|
    ensures Dedup(all[..i + 1]) == if all[i].providerId in IdsOf(Dedup(all[..i])) then Dedup(all[..i]) else Dedup(all[..i]) + [all[i]]
  {
    assert all[..i + 1][..i] == all[..i];
  }

  /** `get_watch_providers`: movie providers, then TV providers, merged by id and
      reshaped. A failed request or a reply without `results` contributes nothing. */
  method WatchProviders(movie: Option<seq<RawProvider>>, tv: Option<seq<RawProvider>>) returns (r: seq<Provider>)
    ensures r == Shape(Dedup(movie.GetOr([]) + tv.GetOr([])))
  {
    var all := movie.GetOr([]) + tv.GetOr([]);
    var seen: set<int> := {};
    ghost var kept: seq<RawProvider> := [];
    r := [];
    var i := 0;
    while i < |all|
      invariant 0 <= i <= |all|
      invariant kept == Dedup(all[..i]) && r == Shape(kept) && seen == IdsOf(kept)
    {
      var p := all[i];
      DedupSnoc(all, i);
      if p.providerId !in seen {
        ShapeSnoc(kept, p);
        IdsOfSnoc(kept, p);
        r := r + [ToProvider(p)];
        kept := kept + [p];
        seen := seen + {p.providerId};
      }
      i := i + 1;
    }
    assert all[..|all|] == all;
  }

  /** A provider TMDB lists for movies is returned as the movie listing first
      describes it, whatever the TV listing says about the same id. */
  lemma MovieListingWins(movie: seq<RawProvider>, tv: seq<RawProvider>, k: nat)
    requires k < |Dedup(movie + tv)|
    requires FirstIndexOfId(movie, Dedup(movie + tv)[k].providerId) < |movie|
    ensures Shape(Dedup(movie + tv))[k] == ToProvider(movie[FirstIndexOfId(movie, Dedup(movie + tv)[k].providerId)])
  {
    var all := movie + tv;
    var d := Dedup(all);
    var id := d[k].providerId;
    assert all[..|movie|] == movie;
    FirstIndexInPrefix(all, |movie|, id);
    var j := FirstIndexOfId(movie, id);
    assert FirstIndexOfId(all, id) == j;
    DedupFirstWins(all);
    assert d[k] == all[j] == movie[j];
  }

  // ---------------------------------------------------------------------------
  // get_omdb_ratings
  // ---------------------------------------------------------------------------

  /** One entry of OMDB's `Ratings` array; `None` is a missing key. */
  datatype RatingEntry = RatingEntry(source: Option<string>, value: Option<string>)

  /** The OMDB fields the endpoint reads; `None` is a missing key. */
  datatype OmdbData = OmdbData(
    imdbRating: Option<string>, imdbVotes: Option<string>, ratings: Option<seq<RatingEntry>>,
    rated: Option<string>, awards: Option<string>, boxOffice: Option<string>)

  datatype ImdbScore = ImdbScore(value: string, votes: string)
  datatype Ratings = Ratings(imdb: Option<ImdbScore>, rottenTomatoes: Option<string>, metacritic: Option<string>)
  /** The endpoint's reply; `ratings` is null when OMDB gave nothing. */
  datatype OmdbReply = OmdbReply(ratings: Option<Ratings>, rated: Option<string>,
                                 awards: Option<string>, boxOffice: Option<string>)

  /** Python's `sub in s` on strings. */
  predicate Contains(s: string, sub: string)
    decreases |s|
  {
    (|sub| <= |s| && s[..|sub|] == sub) || (s != [] && Contains(s[1..], sub))
  }

  /** `s.replace(",", "")` */
  function WithoutCommas(s: string): (r: string)
    ensures |r| <= |s|
    ensures ',' !in s ==> r == s
  {
    if s == [] then [] else (if s[0] == ',' then [] else [s[0]]) + WithoutCommas(s[1..])
  }

  /** Removing commas keeps the other characters in order: it distributes over
      concatenation. */
  lemma {:induction false} WithoutCommasConcat(a: string, b: string)
    ensures WithoutCommas(a + b) == WithoutCommas(a) + WithoutCommas(b)
  {
    if a == [] {
      assert a + b == b;
    } else {
      var head := if a[0] == ',' then [] else [a[0]];
      assert (a + b)[0] == a[0];
      assert (a + b)[1..] == a[1..] + b;
      WithoutCommasConcat(a[1..], b);
      calc {
        WithoutCommas(a + b);
        head + WithoutCommas(a[1..] + b);
        head + (WithoutCommas(a[1..]) + WithoutCommas(b));
        (head + WithoutCommas(a[1..])) + WithoutCommas(b);
        WithoutCommas(a) + WithoutCommas(b);
      }
    }
  }

  /** Removing commas keeps exactly the other characters. */
  lemma {:induction false} WithoutCommasMembers(s: string)
    ensures forall c :: c in WithoutCommas(s) <==> c in s && c != ','
  {
    if s != [] {
      WithoutCommasMembers(s[1..]);
      assert forall c :: c in s <==> c == s[0] || c in s[1..];
    }
  }

  /** On one character, the comma filter drops it iff it is a comma. */
  lemma WithoutCommasOne(c: char)
    ensures WithoutCommas([c]) == if c == ',' then [] else [c]
  {
    assert [c][1..] == [];
  }

  /** The IMDb block: absent when the rating is missing, empty or "N/A". */
  function ImdbOf(data: OmdbData): (r: Option<ImdbScore>)
    ensures r.None? <==> !Truthy(data.imdbRating) || data.imdbRating.value == "N/A"
    ensures r.Some? ==> r.value.value == data.imdbRating.value && ',' !in r.value.votes
    ensures r.Some? ==> r.value.votes == WithoutCommas(data.imdbVotes.GetOr(""))
    ensures r.Some? && data.imdbVotes.None? ==> r.value.votes == ""
  {
    if Truthy(data.imdbRating) && data.imdbRating.value != "N/A" then
      WithoutCommasMembers(data.imdbVotes.GetOr(""));
      Some(ImdbScore(data.imdbRating.value, WithoutCommas(data.imdbVotes.GetOr(""))))
    else None
  }

  predicate IsRottenTomatoes(e: RatingEntry) {
    Contains(e.source.GetOr(""), "Rotten Tomatoes")
  }

  /** The `elif`: a source naming both sites counts as Rotten Tomatoes only. */
  predicate IsMetacritic(e: RatingEntry) {
    !IsRottenTomatoes(e) && Contains(e.source.GetOr(""), "Metacritic")
  }

  /** The (Rotten Tomatoes, Metacritic) pair after reading the entries in order. */
  function ScanRatings(es: seq<RatingEntry>): (r: (Option<string>, Option<string>))
    ensures es == [] ==> r == (None, None)
    ensures es != [] && IsRottenTomatoes(es[|es| - 1]) ==> r.0 == Some(es[|es| - 1].value.GetOr(""))
    ensures es != [] && IsMetacritic(es[|es| - 1]) ==> r.1 == Some(es[|es| - 1].value.GetOr(""))
  {
    if es == [] then (None, None)
    else
      var init := es[..|es| - 1];
      var acc := ScanRatings(init);
      var e := es[|es| - 1];
      if IsRottenTomatoes(e) then (Some(e.value.GetOr("")), acc.1)
      else if IsMetacritic(e) then (acc.0, Some(e.value.GetOr("")))
      else acc
  }

  /** The Rotten Tomatoes score is present iff some entry names the site, and it
      is the value of the LAST such entry. */
  lemma {:induction false} LastRottenTomatoesWins(es: seq<RatingEntry>)
    ensures ScanRatings(es).0.Some? <==> exists i :: 0 <= i < |es| && IsRottenTomatoes(es[i])
    ensures ScanRatings(es).0.Some? ==>
              exists i :: 0 <= i < |es| && IsRottenTomatoes(es[i]) && ScanRatings(es).0.value == es[i].value.GetOr("") &&
                          forall j :: i < j < |es| ==> !IsRottenTomatoes(es[j])
  {
    if es != [] {
      var n := |es| - 1;
      var init := es[..n];
      LastRottenTomatoesWins(init);
      assert forall i :: 0 <= i < n ==> init[i] == es[i];
      if !IsRottenTomatoes(es[n]) && ScanRatings(init).0.Some? {
        var i :| 0 <= i < n && IsRottenTomatoes(init[i]) && ScanRatings(init).0.value == init[i].value.GetOr("") &&
                 forall j :: i < j < n ==> !IsRottenTomatoes(init[j]);
        assert IsRottenTomatoes(es[i]);
      }
    }
  }

  /** The Metacritic score is present iff some entry names Metacritic and not
      Rotten Tomatoes, and it is the value of the LAST such entry. */
  lemma {:induction false} LastMetacriticWins(es: seq<RatingEntry>)
    ensures ScanRatings(es).1.Some? <==> exists i :: 0 <= i < |es| && IsMetacritic(es[i])
    ensures ScanRatings(es).1.Some? ==>
              exists i :: 0 <= i < |es| && IsMetacritic(es[i]) && ScanRatings(es).1.value == es[i].value.GetOr("") &&
                          forall j :: i < j < |es| ==> !IsMetacritic(es[j])
  {
    if es != [] {
      var n := |es| - 1;
      var init := es[..n];
      LastMetacriticWins(init);
      assert forall i :: 0 <= i < n ==> init[i] == es[i];
      if !IsMetacritic(es[n]) && ScanRatings(init).1.Some? {
        var i :| 0 <= i < n && IsMetacritic(init[i]) && ScanRatings(init).1.value == init[i].value.GetOr("") &&
                 forall j :: i < j < n ==> !IsMetacritic(init[j]);
        assert IsMetacritic(es[i]);
      }
    }
  }

  /** Each site's score is present iff some entry names the site, and it is the
      value of the LAST such entry. */
  lemma LastRatingWins(es: seq<RatingEntry>)
    ensures ScanRatings(es).0.Some? <==> exists i :: 0 <= i < |es| && IsRottenTomatoes(es[i])
    ensures ScanRatings(es).0.Some? ==>
              exists i :: 0 <= i < |es| && IsRottenTomatoes(es[i]) && ScanRatings(es).0.value == es[i].value.GetOr("") &&
                          forall j :: i < j < |es| ==> !IsRottenTomatoes(es[j])
    ensures ScanRatings(es).1.Some? <==> exists i :: 0 <= i < |es| && IsMetacritic(es[i])
    ensures ScanRatings(es).1.Some? ==>
              exists i :: 0 <= i < |es| && IsMetacritic(es[i]) && ScanRatings(es).1.value == es[i].value.GetOr("") &&
                          forall j :: i < j < |es| ==> !IsMetacritic(es[j])
  {
    LastRottenTomatoesWins(es);
    LastMetacriticWins(es);
  }

  /** `get_omdb_ratings`: no ratings block when OMDB gave nothing; otherwise the
      IMDb block and the scan of the `Ratings` array, plus three pass-through
      fields. */
  method OmdbRatings(data: Option<OmdbData>) returns (r: OmdbReply)
    ensures data.None? ==> r == OmdbReply(None, None, None, None)
    ensures data.Some? ==>
              var scan := ScanRatings(data.value.ratings.GetOr([]));
              r == OmdbReply(Some(Ratings(ImdbOf(data.value), scan.0, scan.1)),
                             data.value.rated, data.value.awards, data.value.boxOffice)
  {
    if data.None? {
      return OmdbReply(None, None, None, None);
    }
    var d := data.value;
    var imdb: Option<ImdbScore> := None;
    if Truthy(d.imdbRating) && d.imdbRating.value != "N/A" {
      imdb := Some(ImdbScore(d.imdbRating.value, WithoutCommas(d.imdbVotes.GetOr(""))));
    }
    var es := d.ratings.GetOr([]);
    var rottenTomatoes: Option<string> := None;
    var metacritic: Option<string> := None;
    for i := 0 to |es|
      invariant (rottenTomatoes, metacritic) == ScanRatings(es[..i])
    {
      assert es[..i + 1][..i] == es[..i];
      var source := es[i].source.GetOr("");
      var value := es[i].value.GetOr("");
      if Contains(source, "Rotten Tomatoes") {
        rottenTomatoes := Some(value);
      } else if Contains(source, "Metacritic") {
        metacritic := Some(value);
      }
    }
    assert es[..|es|] == es;
    r := OmdbReply(Some(Ratings(imdb, rottenTomatoes, metacritic)), d.rated, d.awards, d.boxOffice);
  }

  // ---------------------------------------------------------------------------
  // discover: the TMDB query
  // ---------------------------------------------------------------------------

  /** A query-string value. The vote bounds are floats that are only passed on. */
  datatype Param = IntParam(i: int) | TextParam(t: string) | RealParam(x: real)

  /** The discover query's keys; `Name` gives each one's wire spelling. */
  datatype QueryKey =
    | Page | SortBy | WithGenres | VoteAverageGte | VoteAverageLte
    | WithWatchProviders | WatchRegion | WithOriginalLanguage
    | PrimaryReleaseYear | FirstAirDateYear
  {
    function Name(): string {
      match this
      case Page => "page"
      case SortBy => "sort_by"
      case WithGenres => "with_genres"
      case VoteAverageGte => "vote_average.gte"
      case VoteAverageLte => "vote_average.lte"
      case WithWatchProviders => "with_watch_providers"
      case WatchRegion => "watch_region"
      case WithOriginalLanguage => "with_original_language"
      case PrimaryReleaseYear => "primary_release_year"
      case FirstAirDateYear => "first_air_date_year"
    }
  }

  /** The discover endpoint's query arguments, after FastAPI applied defaults. */
  datatype DiscoverArgs = DiscoverArgs(
    page: int, sortBy: Option<string>, withGenres: Option<string>, year: Option<int>,
    voteAverageGte: Option<real>, voteAverageLte: Option<real>,
    withWatchProviders: Option<string>, withOriginalLanguage: Option<string>,
    watchRegion: string)

  function TextOpt(s: Option<string>): Option<Param> {
    if s.Some? then Some(TextParam(s.value)) else None
  }

  function RealOpt(x: Option<real>): Option<Param> {
    if x.Some? then Some(RealParam(x.value)) else None
  }

  /** Python truthiness of an optional int. */
  predicate YearGiven(year: Option<int>) {
    year.Some? && year.value != 0
  }

  /** The `params` dict the endpoint builds, `None` values included. */
  function DiscoverParams(mediaType: string, a: DiscoverArgs): (m: map<QueryKey, Option<Param>>)
    ensures Page in m && m[Page] == Some(IntParam(a.page))
    ensures SortBy in m && m[SortBy] == TextOpt(a.sortBy)
    ensures WithGenres in m && m[WithGenres] == TextOpt(a.withGenres)
    ensures VoteAverageGte in m && m[VoteAverageGte] == RealOpt(a.voteAverageGte)
    ensures VoteAverageLte in m && m[VoteAverageLte] == RealOpt(a.voteAverageLte)
    ensures WithWatchProviders in m && m[WithWatchProviders] == TextOpt(a.withWatchProviders)
    ensures WithOriginalLanguage in m && m[WithOriginalLanguage] == TextOpt(a.withOriginalLanguage)
    ensures WatchRegion in m && m[WatchRegion] == if Truthy(a.withWatchProviders) then Some(TextParam(a.watchRegion)) else None
    ensures PrimaryReleaseYear in m <==> mediaType == "movie" && YearGiven(a.year)
    ensures FirstAirDateYear in m <==> mediaType == "tv" && YearGiven(a.year)
    ensures PrimaryReleaseYear in m ==> m[PrimaryReleaseYear] == Some(IntParam(a.year.value))
    ensures FirstAirDateYear in m ==> m[FirstAirDateYear] == Some(IntParam(a.year.value))
  {
    var base := map[
      Page := Some(IntParam(a.page)),
      SortBy := TextOpt(a.sortBy),
      WithGenres := TextOpt(a.withGenres),
      VoteAverageGte := RealOpt(a.voteAverageGte),
      VoteAverageLte := RealOpt(a.voteAverageLte),
      WithWatchProviders := TextOpt(a.withWatchProviders),
      WatchRegion := if Truthy(a.withWatchProviders) then Some(TextParam(a.watchRegion)) else None,
      WithOriginalLanguage := TextOpt(a.withOriginalLanguage)];
    if mediaType == "movie" && YearGiven(a.year) then base[PrimaryReleaseYear := Some(IntParam(a.year.value))]
    else if mediaType == "tv" && YearGiven(a.year) then base[FirstAirDateYear := Some(IntParam(a.year.value))]
    else base
  }

  /** The request helper's filter: keys whose value is `None` are not sent. */
  function DropNone(m: map<QueryKey, Option<Param>>): (q: map<QueryKey, Param>)
    ensures forall k :: k in q <==> k in m && m[k].Some?
    ensures forall k :: k in q ==> q[k] == m[k].value
  {
    map k | k in m && m[k].Some? :: m[k].value
  }

  /** The query sent to TMDB's discover route: the page always; each optional
      filter exactly when it was given; the region only with a non-empty provider
      filter; the year under the key of the route's media type, and only when it
      is non-zero. */
  function DiscoverQuery(mediaType: string, a: DiscoverArgs): (q: map<QueryKey, Param>)
    ensures Page in q && q[Page] == IntParam(a.page)
    ensures SortBy in q <==> a.sortBy.Some?
    ensures WithGenres in q <==> a.withGenres.Some?
    ensures VoteAverageGte in q <==> a.voteAverageGte.Some?
    ensures VoteAverageLte in q <==> a.voteAverageLte.Some?
    ensures WithWatchProviders in q <==> a.withWatchProviders.Some?
    ensures WithOriginalLanguage in q <==> a.withOriginalLanguage.Some?
    ensures WatchRegion in q <==> Truthy(a.withWatchProviders)
    ensures WatchRegion in q ==> q[WatchRegion] == TextParam(a.watchRegion)
    ensures PrimaryReleaseYear in q <==> mediaType == "movie" && YearGiven(a.year)
    ensures FirstAirDateYear in q <==> mediaType == "tv" && YearGiven(a.year)
    ensures PrimaryReleaseYear in q ==> q[PrimaryReleaseYear] == IntParam(a.year.value)
    ensures FirstAirDateYear in q ==> q[FirstAirDateYear] == IntParam(a.year.value)
  {
    DropNone(DiscoverParams(mediaType, a))
  }
}
