/** The upstream payload shapes, reduced to the fields the program reads.
    A fetch that fails (transport error, non-2xx status or unreadable JSON)
    is an `Option` outcome of `None` wherever the program catches it. */
module Payloads {
  import opened Wrappers
  import opened Shows

  /** A show object of the schedule provider (also the body of its
      single-search reply). */
  datatype TvShow = TvShow(
    id: int,
    name: string,
    url: Option<string>,
    image: Option<Image>,
    summary: Option<string>,
    premiered: Option<string>,
    status: Option<string>,
    network: Option<Channel>)

  /** One entry of a day's schedule: an episode and, usually, its `show`. */
  datatype ScheduleEntry = ScheduleEntry(show: Option<TvShow>, episode: Episode)

  /** The outcome of one day's schedule request. */
  datatype DayResult = DayFailed | DayListed(entries: seq<ScheduleEntry>)

  /** The single-search reply: the show and `_embedded.nextepisode`, which is
      `None` when either level is absent. */
  datatype SearchShow = SearchShow(show: TvShow, nextEpisode: Option<Episode>)

  /** An item of the catalog provider's popular or discover list. */
  datatype ListItem = ListItem(id: int, posterPath: Option<string>)

  /** A popular or discover page; `results` may be missing. */
  datatype ListPage = ListPage(results: Option<seq<ListItem>>, totalResults: Option<int>)

  /** A catalog detail payload. `network` is what lib/tvmaze.ts reads,
      `networks` is what the platform route reads. */
  datatype TmdbDetails = TmdbDetails(
    id: int,
    name: string,
    posterPath: Option<string>,
    overview: Option<string>,
    firstAirDate: Option<string>,
    status: Option<string>,
    network: Option<Channel>,
    networks: seq<Channel>,
    nextEpisodeToAir: Option<Episode>,
    voteAverage: Option<real>)
}
