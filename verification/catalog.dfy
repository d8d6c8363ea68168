/** The catalog path of lib/tvmaze.ts (`fetchFromTmdb`) and the choice
    between it and the schedule fallback (`fetchShows`); also the catalog
    normalisation rules shared with the platform route. */
module Catalog {
  import opened Wrappers
  import opened Shows
  import opened Payloads
  import opened Text
  import Schedule

  const ImageBase := "https://image.tmdb.org/t/p/w500"
  const ShowPageBase := "https://www.themoviedb.org/tv/"
  const MidnightUtc := "T00:00:00Z"
  const IdPrefix := "tmdb-"

  /** The record id of catalog show `id`: `"tmdb-" + id`. */
  function CatalogId(id: int): (r: ShowId)
    ensures r.TextId? && |r.text| > |IdPrefix| && r.text[..|IdPrefix|] == IdPrefix
  {
    TextId(IdPrefix + IntToString(id))
  }

  /** Reads the catalog show id back out of a record id. */
  function CatalogIdOf(id: ShowId): Option<int> {
    if id.TextId? && |id.text| >= |IdPrefix| && id.text[..|IdPrefix|] == IdPrefix
    then ParseInt(id.text[|IdPrefix|..])
    else None
  }

  /** Catalog ids keep the show id recoverable, and never collide with the
      schedule provider's numeric ids. */
  lemma {:induction false} CatalogIdRoundTrip(id: int)
    ensures CatalogIdOf(CatalogId(id)) == Some(id)
    ensures forall n :: CatalogId(id) != NumId(n)
  {
    var t := CatalogId(id).text;
    assert t[|IdPrefix|..] == IntToString(id);
    IntToStringRoundTrip(id);
  }

  /** The image pair for a poster path: none without a (non-empty) path,
      otherwise the same full URL for both sizes. */
  function PosterImage(path: Option<string>): (r: Option<Image>)
    ensures r.None? <==> !Present(path)
    ensures r.Some? ==> r.value.medium == r.value.original == Some(ImageBase + path.value)
  {
    if Present(path) then Some(Image(Some(ImageBase + path.value), Some(ImageBase + path.value))) else None
  }

  /** The synthesised airstamp of a next episode: its `air_date` followed by
      midnight UTC, when both the episode and its date are present. */
  function AirDateStamp(next: Option<Episode>): (r: Option<Stamp>)
    ensures r.Some? <==> next.Some? && StampPresent(next.value.airDate)
    ensures r.Some? ==>
      var date := next.value.airDate.value;
      && r.value.instant == date.instant
      && |r.value.text| == |date.text| + |MidnightUtc|
      && r.value.text[..|date.text|] == date.text
      && r.value.text[|date.text|..] == MidnightUtc
  {
    if next.Some? && StampPresent(next.value.airDate) then
      var date := next.value.airDate.value;
      Some(Stamp(date.text + MidnightUtc, date.instant))
    else None
  }

  /** One detail payload as lib/tvmaze.ts maps it. It never sets `rating`. */
  function MapDetail(d: TmdbDetails): (r: ShowRecord)
    ensures r.id == CatalogId(d.id)
    ensures r.image == PosterImage(d.posterPath)
    ensures r.nextAirstamp == AirDateStamp(d.nextEpisodeToAir) && r.nextEpisode == d.nextEpisodeToAir
    ensures r.rating.None?
  {
    ShowRecord(
      CatalogId(d.id), d.name, Some(ShowPageBase + IntToString(d.id)), PosterImage(d.posterPath),
      d.overview, d.firstAirDate, d.status,
      if d.network.Some? then Some(Channel(d.network.value.name)) else None,
      AirDateStamp(d.nextEpisodeToAir), d.nextEpisodeToAir, None, None, None, None)
  }

  /** The per-item outcomes of the detail requests, in list order; a failed
      request is `None`. */
  function DetailOutcomes(items: seq<ListItem>, fetchDetail: int -> Option<TmdbDetails>): (r: seq<Option<ShowRecord>>)
    ensures |r| == |items|
    ensures forall i :: 0 <= i < |r| ==> (r[i].Some? <==> fetchDetail(items[i].id).Some?)
    ensures forall i :: 0 <= i < |r| && r[i].Some? ==> r[i].value == MapDetail(fetchDetail(items[i].id).value)
  {
    seq(|items|, i requires 0 <= i < |items| =>
      match fetchDetail(items[i].id)
      case Some(d) => Some(MapDetail(d))
      case None => None)
  }

  /** `s` is the mapping of one of `items` whose detail request succeeded. */
  predicate DetailedFrom(items: seq<ListItem>, fetchDetail: int -> Option<TmdbDetails>, s: ShowRecord) {
    exists i :: 0 <= i < |items| && fetchDetail(items[i].id).Some? &&
                s == MapDetail(fetchDetail(items[i].id).value)
  }

  /** The successfully detailed items, in list order (`Promise.all` over
      the items, then `filter(Boolean)`). */
  function Enriched(items: seq<ListItem>, fetchDetail: int -> Option<TmdbDetails>): (r: seq<ShowRecord>)
    ensures |r| <= |items|
    ensures forall i :: 0 <= i < |items| && fetchDetail(items[i].id).Some? ==>
              MapDetail(fetchDetail(items[i].id).value) in r
    ensures forall j :: 0 <= j < |r| ==> DetailedFrom(items, fetchDetail, r[j])
  {
    DetailedCameFrom(items, fetchDetail);
    Successes(DetailOutcomes(items, fetchDetail))
  }

  /** Each kept record names the successfully detailed item it maps. */
  lemma {:induction false} DetailedCameFrom(items: seq<ListItem>, fetchDetail: int -> Option<TmdbDetails>)
    ensures var r := Successes(DetailOutcomes(items, fetchDetail));
            forall j :: 0 <= j < |r| ==> DetailedFrom(items, fetchDetail, r[j])
  {
    var outcomes := DetailOutcomes(items, fetchDetail);
    var r := Successes(outcomes);
    forall j | 0 <= j < |r|
      ensures DetailedFrom(items, fetchDetail, r[j])
    {
      assert Some(r[j]) in outcomes;
      var i :| 0 <= i < |outcomes| && outcomes[i] == Some(r[j]);
      assert fetchDetail(items[i].id).Some?;
      assert r[j] == MapDetail(fetchDetail(items[i].id).value);
    }
  }

  /** `fetchFromTmdb`: `None` when the popular-list request fails (the
      function throws); otherwise the successfully detailed items, in
      popular-list order. A missing `results` is an empty list. */
  function FetchFromTmdb(popular: Option<ListPage>, fetchDetail: int -> Option<TmdbDetails>): (r: Option<seq<ShowRecord>>)
    ensures r.None? <==> popular.None?
    ensures r.Some? ==> r.value == Enriched(popular.value.results.GetOr([]), fetchDetail)
  {
    match popular
    case None => None
    case Some(page) => Some(Enriched(page.results.GetOr([]), fetchDetail))
  }

  /** The popular list `items` as a page. */
  function PageOf(items: seq<ListItem>): ListPage {
    ListPage(Some(items), None)
  }

  lemma {:induction false} DetailOutcomesAppend(a: seq<ListItem>, b: seq<ListItem>, fetchDetail: int -> Option<TmdbDetails>)
    ensures DetailOutcomes(a + b, fetchDetail) == DetailOutcomes(a, fetchDetail) + DetailOutcomes(b, fetchDetail)
  {
  }

  /** An item whose detail request fails is dropped: the result is the one
      the list without that item would give. */
  lemma {:induction false} FailedDetailDropped(a: seq<ListItem>, x: ListItem, b: seq<ListItem>, fetchDetail: int -> Option<TmdbDetails>)
    requires fetchDetail(x.id).None?
    ensures Enriched(a + [x] + b, fetchDetail) == Enriched(a + b, fetchDetail)
  {
    var oa := DetailOutcomes(a, fetchDetail);
    var ob := DetailOutcomes(b, fetchDetail);
    assert DetailOutcomes([x], fetchDetail) == [None];
    DetailOutcomesAppend(a + [x], b, fetchDetail);
    DetailOutcomesAppend(a, [x], fetchDetail);
    DetailOutcomesAppend(a, b, fetchDetail);
    assert DetailOutcomes(a + [x] + b, fetchDetail) == oa + [None] + ob;
    SuccessesSkipFailure(oa, ob);
  }

  /** When every detail request succeeds, the result maps the list item by item. */
  lemma {:induction false} AllDetailsKept(items: seq<ListItem>, fetchDetail: int -> Option<TmdbDetails>)
    requires forall i :: 0 <= i < |items| ==> fetchDetail(items[i].id).Some?
    ensures var r := Enriched(items, fetchDetail);
      && |r| == |items|
      && forall i :: 0 <= i < |r| ==> r[i] == MapDetail(fetchDetail(items[i].id).value)
  {
  }

  /** `fetchShows`: with a (non-empty) key and a catalog path that does not
      throw, the catalog result, even an empty one; otherwise the 14-day
      schedule scan. `outcome(i)` is the schedule request for day `i`. */
  function FetchShows(key: Option<string>, popular: Option<ListPage>, fetchDetail: int -> Option<TmdbDetails>,
                      outcome: nat -> DayResult): (r: seq<ShowRecord>)
    ensures Present(key) && popular.Some? ==> r == FetchFromTmdb(popular, fetchDetail).value
    ensures !(Present(key) && popular.Some?) ==> r == Schedule.FetchSchedule(outcome)
  {
    if Present(key) then
      match FetchFromTmdb(popular, fetchDetail)
      case Some(shows) => shows
      case None => Schedule.FetchSchedule(outcome)
    else Schedule.FetchSchedule(outcome)
  }

  /** An empty catalog answer is returned as is; the schedule is not consulted. */
  lemma {:induction false} EmptyCatalogKept(key: Option<string>, fetchDetail: int -> Option<TmdbDetails>, outcome: nat -> DayResult)
    requires Present(key)
    ensures FetchShows(key, Some(PageOf([])), fetchDetail, outcome) == []
    ensures FetchShows(key, Some(ListPage(None, None)), fetchDetail, outcome) == []
  {
  }

  /** Neither path of `fetchShows` ever fills in a rating. */
  lemma {:induction false} FetchShowsUnrated(key: Option<string>, popular: Option<ListPage>, fetchDetail: int -> Option<TmdbDetails>,
                          outcome: nat -> DayResult)
    ensures forall x :: x in FetchShows(key, popular, fetchDetail, outcome) ==> x.rating.None?
  {
    var r := FetchShows(key, popular, fetchDetail, outcome);
    if Present(key) && popular.Some? {
      forall j | 0 <= j < |r| ensures r[j].rating.None? {
      }
    } else {
      Schedule.AggregateUnrated(seq(Schedule.WindowDays, i requires 0 <= i => outcome(i)));
    }
  }

  // ---------------------------------------------------------------------
  // The catalog mapping as evidently intended: with the detail's rating.

  /** `MapDetail` plus `rating: detail.vote_average ?? null`, as the
      platform route does it. */
  function MapDetailRated(d: TmdbDetails): (r: ShowRecord)
    ensures r.rating == d.voteAverage
    ensures r.(rating := None) == MapDetail(d)
  {
    MapDetail(d).(rating := d.voteAverage)
  }

  /** The per-item outcomes with rated records. */
  function RatedOutcomes(items: seq<ListItem>, fetchDetail: int -> Option<TmdbDetails>): (r: seq<Option<ShowRecord>>)
    ensures |r| == |items|
    ensures forall i :: 0 <= i < |r| ==> (r[i].Some? <==> fetchDetail(items[i].id).Some?)
    ensures forall i :: 0 <= i < |r| && r[i].Some? ==> r[i].value == MapDetailRated(fetchDetail(items[i].id).value)
  {
    seq(|items|, i requires 0 <= i < |items| =>
      match fetchDetail(items[i].id)
      case Some(d) => Some(MapDetailRated(d))
      case None => None)
  }

  /** `s` is the rated mapping of one of `items` whose detail request succeeded. */
  predicate RatedFromItem(items: seq<ListItem>, fetchDetail: int -> Option<TmdbDetails>, s: ShowRecord) {
    exists i :: 0 <= i < |items| && fetchDetail(items[i].id).Some? &&
                s == MapDetailRated(fetchDetail(items[i].id).value)
  }

  /** `fetchFromTmdb` with rated records: each record is the rated mapping
      of a successfully detailed item, so it carries that detail's vote
      average. */
  function FetchFromTmdbRated(popular: Option<ListPage>, fetchDetail: int -> Option<TmdbDetails>): (r: Option<seq<ShowRecord>>)
    ensures r.None? <==> popular.None?
    ensures r.Some? ==>
      forall j :: 0 <= j < |r.value| ==> RatedFromItem(popular.value.results.GetOr([]), fetchDetail, r.value[j])
  {
    match popular
    case None => None
    case Some(page) =>
      RatedCameFrom(page.results.GetOr([]), fetchDetail);
      Some(Successes(RatedOutcomes(page.results.GetOr([]), fetchDetail)))
  }

  /** Each rated record names the successfully detailed item it maps. */
  lemma {:induction false} RatedCameFrom(items: seq<ListItem>, fetchDetail: int -> Option<TmdbDetails>)
    ensures var r := Successes(RatedOutcomes(items, fetchDetail));
            forall j :: 0 <= j < |r| ==> RatedFromItem(items, fetchDetail, r[j])
  {
    var outcomes := RatedOutcomes(items, fetchDetail);
    var r := Successes(outcomes);
    forall j | 0 <= j < |r|
      ensures RatedFromItem(items, fetchDetail, r[j])
    {
      assert Some(r[j]) in outcomes;
      var i :| 0 <= i < |outcomes| && outcomes[i] == Some(r[j]);
      assert fetchDetail(items[i].id).Some?;
      assert r[j] == MapDetailRated(fetchDetail(items[i].id).value);
    }
  }
}
