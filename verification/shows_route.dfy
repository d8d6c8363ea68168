/** The platform-filtered browse route (app/api/shows/route.ts, `GET`):
    validate the platform, require the key, discover one page of the
    platform's shows, enrich each with its detail request, drop the failures. */
module ShowsRoute {
  import opened Wrappers
  import opened Shows
  import opened Payloads
  import opened Text
  import opened Platforms
  import opened Catalog

  datatype ShowsResponse =
    | Listing(shows: seq<ShowRecord>, page: int, total: int)
    | Rejected(status: int, error: string)

  const InvalidPlatform := "Invalid platform"
  const KeyMissing := "TMDB_API_KEY not configured"
  const FetchFailed := "Failed to fetch shows"

  /** The page used: the `page` parameter, or 1 when it is missing or empty. */
  function PageOf(param: Option<int>): (page: int)
    ensures param.None? ==> page == 1
    ensures param.Some? ==> page == param.value
  {
    param.GetOr(1)
  }

  /** `!platform || !TMDB_PROVIDER_IDS[platform]`. */
  predicate ValidPlatform(platform: Option<string>) {
    Present(platform) && ProviderId(platform.value).Some?
  }

  /** One discovered show joined with its successful detail request. Id,
      url and poster come from the list item; the rest from the detail. */
  function EnrichedRecord(item: ListItem, platform: string, d: TmdbDetails): (s: ShowRecord)
    ensures s.id == CatalogId(item.id)
    ensures s.image == PosterImage(item.posterPath)
    ensures s.nextAirstamp == AirDateStamp(d.nextEpisodeToAir)
    ensures s.rating == d.voteAverage
    ensures s.platform == Some(platform) && s.webChannel == Some(Channel(Some(platform)))
    ensures s.network == (if |d.networks| > 0 then Some(Channel(d.networks[0].name)) else None)
  {
    ShowRecord(
      CatalogId(item.id), d.name, Some(ShowPageBase + IntToString(item.id)), PosterImage(item.posterPath),
      d.overview, d.firstAirDate, d.status,
      if |d.networks| > 0 then Some(Channel(d.networks[0].name)) else None,
      AirDateStamp(d.nextEpisodeToAir), d.nextEpisodeToAir, d.voteAverage,
      Some(platform), Some(Channel(Some(platform))), None)
  }

  /** The per-item outcomes of the detail requests, in discover order; a
      failed request is `None`. */
  function EnrichOutcomes(items: seq<ListItem>, platform: string, fetchDetails: int -> Option<TmdbDetails>): (r: seq<Option<ShowRecord>>)
    ensures |r| == |items|
    ensures forall i :: 0 <= i < |r| ==> (r[i].Some? <==> fetchDetails(items[i].id).Some?)
    ensures forall i :: 0 <= i < |r| && r[i].Some? ==>
              r[i].value == EnrichedRecord(items[i], platform, fetchDetails(items[i].id).value)
  {
    seq(|items|, i requires 0 <= i < |items| =>
      match fetchDetails(items[i].id)
      case Some(d) => Some(EnrichedRecord(items[i], platform, d))
      case None => None)
  }

  /** `s` is the enrichment of one of `items` whose detail request succeeded. */
  predicate EnrichedFrom(items: seq<ListItem>, platform: string, fetchDetails: int -> Option<TmdbDetails>, s: ShowRecord) {
    exists i :: 0 <= i < |items| && fetchDetails(items[i].id).Some? &&
                s == EnrichedRecord(items[i], platform, fetchDetails(items[i].id).value)
  }

  /** The enriched shows of a discover page, failures dropped, in discover order. */
  function EnrichAll(items: seq<ListItem>, platform: string, fetchDetails: int -> Option<TmdbDetails>): (r: seq<ShowRecord>)
    ensures |r| <= |items|
    ensures forall i :: 0 <= i < |items| && fetchDetails(items[i].id).Some? ==>
              EnrichedRecord(items[i], platform, fetchDetails(items[i].id).value) in r
    ensures forall j :: 0 <= j < |r| ==> EnrichedFrom(items, platform, fetchDetails, r[j])
  {
    EnrichedCameFrom(items, platform, fetchDetails);
    Successes(EnrichOutcomes(items, platform, fetchDetails))
  }

  /** Each listed show names the discovered show it enriches. */
  lemma {:induction false} EnrichedCameFrom(items: seq<ListItem>, platform: string, fetchDetails: int -> Option<TmdbDetails>)
    ensures var r := Successes(EnrichOutcomes(items, platform, fetchDetails));
            forall j :: 0 <= j < |r| ==> EnrichedFrom(items, platform, fetchDetails, r[j])
  {
    var outcomes := EnrichOutcomes(items, platform, fetchDetails);
    var r := Successes(outcomes);
    forall j | 0 <= j < |r|
      ensures EnrichedFrom(items, platform, fetchDetails, r[j])
    {
      assert Some(r[j]) in outcomes;
      var i :| 0 <= i < |outcomes| && outcomes[i] == Some(r[j]);
      assert fetchDetails(items[i].id).Some?;
    }
  }

  /** When every detail request succeeds nothing is dropped: the listing is
      the discover page, show for show and in the same order. */
  lemma {:induction false} AllEnrichedKept(items: seq<ListItem>, platform: string, fetchDetails: int -> Option<TmdbDetails>)
    requires forall i :: 0 <= i < |items| ==> fetchDetails(items[i].id).Some?
    ensures var r := EnrichAll(items, platform, fetchDetails);
            && |r| == |items|
            && forall i :: 0 <= i < |r| ==> r[i] == EnrichedRecord(items[i], platform, fetchDetails(items[i].id).value)
  {
    var outcomes := EnrichOutcomes(items, platform, fetchDetails);
    assert forall i :: 0 <= i < |outcomes| ==> outcomes[i].Some?;
  }

  /** The number of discovered shows whose detail request succeeds. */
  function SucceededCount(items: seq<ListItem>, fetchDetails: int -> Option<TmdbDetails>): (n: nat)
    ensures n <= |items|
    ensures n == |items| <== forall i :: 0 <= i < |items| ==> fetchDetails(items[i].id).Some?
    ensures n == 0 <== forall i :: 0 <= i < |items| ==> fetchDetails(items[i].id).None?
    decreases |items|
  {
    if |items| == 0 then 0
    else
      assert forall i :: 0 <= i < |items[1..]| ==> items[1..][i] == items[i + 1];
      (if fetchDetails(items[0].id).Some? then 1 else 0) + SucceededCount(items[1..], fetchDetails)
  }

  /** The listing holds one show per successful detail request. */
  lemma {:induction false} EnrichAllCountsSuccesses(items: seq<ListItem>, platform: string, fetchDetails: int -> Option<TmdbDetails>)
    ensures |EnrichAll(items, platform, fetchDetails)| == SucceededCount(items, fetchDetails)
    decreases |items|
  {
    if |items| > 0 {
      EnrichAllCountsSuccesses(items[1..], platform, fetchDetails);
      var head := EnrichOutcomes([items[0]], platform, fetchDetails);
      var rest := EnrichOutcomes(items[1..], platform, fetchDetails);
      assert items == [items[0]] + items[1..];
      EnrichOutcomesAppend([items[0]], items[1..], platform, fetchDetails);
      SuccessesAppend(head, rest);
      assert |Successes(head)| == (if fetchDetails(items[0].id).Some? then 1 else 0) by {
        assert head[1..] == [];
      }
    }
  }

  /** Every listed show is tagged with the requested platform. */
  lemma {:induction false} EnrichAllTagsPlatform(items: seq<ListItem>, platform: string, fetchDetails: int -> Option<TmdbDetails>)
    ensures forall s :: s in EnrichAll(items, platform, fetchDetails) ==>
              s.platform == Some(platform) && s.webChannel == Some(Channel(Some(platform)))
  {
    var r := EnrichAll(items, platform, fetchDetails);
    forall j | 0 <= j < |r|
      ensures r[j].platform == Some(platform) && r[j].webChannel == Some(Channel(Some(platform)))
    {
      var i :| 0 <= i < |items| && fetchDetails(items[i].id).Some? &&
               r[j] == EnrichedRecord(items[i], platform, fetchDetails(items[i].id).value);
    }
  }

  /** `total_results || shows.length`: the upstream total when it is a
      non-zero number, otherwise the number of shows returned. */
  function Total(totalResults: Option<int>, count: nat): (t: int)
    ensures totalResults.Some? && totalResults.value != 0 ==> t == totalResults.value
    ensures totalResults.None? || totalResults.value == 0 ==> t == count
  {
    if totalResults.Some? && totalResults.value != 0 then totalResults.value else count
  }

  /** `GET /api/shows?platform=…&page=…`. `discover(provider, page)` is the
      discover request's outcome and `fetchDetails(id)` each detail
      request's; `None` means the request failed. */
  function Get(platform: Option<string>, pageParam: Option<int>, key: Option<string>,
               discover: (int, int) -> Option<ListPage>,
               fetchDetails: int -> Option<TmdbDetails>): (r: ShowsResponse)
    ensures !ValidPlatform(platform) <==> r == Rejected(400, InvalidPlatform)
    ensures ValidPlatform(platform) && !Present(key) ==> r == Rejected(500, KeyMissing)
    ensures ValidPlatform(platform) && Present(key) ==>
      var provider := ProviderId(platform.value).value;
      match discover(provider, PageOf(pageParam))
      case None => r == Rejected(500, FetchFailed)
      case Some(page) =>
        && r.Listing?
        && r.page == PageOf(pageParam)
        && r.shows == EnrichAll(page.results.GetOr([]), platform.value, fetchDetails)
        && r.total == Total(page.totalResults, |r.shows|)
  {
    if !ValidPlatform(platform) then Rejected(400, InvalidPlatform)
    else if !Present(key) then Rejected(500, KeyMissing)
    else
      var page := PageOf(pageParam);
      match discover(ProviderId(platform.value).value, page)
      case None => Rejected(500, FetchFailed)
      case Some(found) =>
        var shows := EnrichAll(found.results.GetOr([]), platform.value, fetchDetails);
        Listing(shows, page, Total(found.totalResults, |shows|))
  }

  /** Without a usable upstream total (absent or 0) the reported total is
      the number of discovered shows whose detail request succeeded, which
      is the number of shows listed. */
  lemma {:induction false} TotalCountsSucceeded(platform: Option<string>, pageParam: Option<int>, key: Option<string>,
                                                discover: (int, int) -> Option<ListPage>,
                                                fetchDetails: int -> Option<TmdbDetails>)
    requires ValidPlatform(platform) && Present(key)
    requires discover(ProviderId(platform.value).value, PageOf(pageParam)).Some?
    requires var found := discover(ProviderId(platform.value).value, PageOf(pageParam)).value;
             found.totalResults.None? || found.totalResults.value == 0
    ensures var r := Get(platform, pageParam, key, discover, fetchDetails);
            var found := discover(ProviderId(platform.value).value, PageOf(pageParam)).value;
            && r.Listing?
            && r.total == SucceededCount(found.results.GetOr([]), fetchDetails)
            && r.total == |r.shows|
  {
    var found := discover(ProviderId(platform.value).value, PageOf(pageParam)).value;
    EnrichAllCountsSuccesses(found.results.GetOr([]), platform.value, fetchDetails);
  }

  /** An invalid platform is answered before the key is looked at and before
      any upstream request: the response does not depend on either. */
  lemma {:induction false} InvalidPlatformShortCircuits(platform: Option<string>, pageParam: Option<int>,
                                     key1: Option<string>, discover1: (int, int) -> Option<ListPage>, fetch1: int -> Option<TmdbDetails>,
                                     key2: Option<string>, discover2: (int, int) -> Option<ListPage>, fetch2: int -> Option<TmdbDetails>)
    requires !ValidPlatform(platform)
    ensures Get(platform, pageParam, key1, discover1, fetch1) == Get(platform, pageParam, key2, discover2, fetch2)
  {
  }

  /** Without a key no upstream request is made: the response does not
      depend on the upstream. */
  lemma {:induction false} MissingKeyShortCircuits(platform: Option<string>, pageParam: Option<int>, key: Option<string>,
                                discover1: (int, int) -> Option<ListPage>, fetch1: int -> Option<TmdbDetails>,
                                discover2: (int, int) -> Option<ListPage>, fetch2: int -> Option<TmdbDetails>)
    requires !Present(key)
    ensures Get(platform, pageParam, key, discover1, fetch1) == Get(platform, pageParam, key, discover2, fetch2)
  {
  }

  lemma {:induction false} EnrichOutcomesAppend(a: seq<ListItem>, b: seq<ListItem>, platform: string,
                                                fetchDetails: int -> Option<TmdbDetails>)
    ensures EnrichOutcomes(a + b, platform, fetchDetails) ==
            EnrichOutcomes(a, platform, fetchDetails) + EnrichOutcomes(b, platform, fetchDetails)
  {
  }

  /** A show whose detail request fails is dropped and nothing else changes. */
  lemma {:induction false} FailedEnrichmentDropped(a: seq<ListItem>, x: ListItem, b: seq<ListItem>, platform: string,
                                fetchDetails: int -> Option<TmdbDetails>)
    requires fetchDetails(x.id).None?
    ensures EnrichAll(a + [x] + b, platform, fetchDetails) == EnrichAll(a + b, platform, fetchDetails)
  {
    var oa := EnrichOutcomes(a, platform, fetchDetails);
    var ob := EnrichOutcomes(b, platform, fetchDetails);
    assert EnrichOutcomes([x], platform, fetchDetails) == [None];
    EnrichOutcomesAppend(a + [x], b, platform, fetchDetails);
    EnrichOutcomesAppend(a, [x], platform, fetchDetails);
    EnrichOutcomesAppend(a, b, platform, fetchDetails);
    assert EnrichOutcomes(a + [x] + b, platform, fetchDetails) == oa + [None] + ob;
    SuccessesSkipFailure(oa, ob);
  }
}
