/** The canonical show record every path of the program produces
    (`ShowWithNext` in lib/tvmaze.ts, extended by the platform route with
    `rating`, `platform` and `webChannel`), and the values it is built from. */
module Shows {
  import opened Wrappers

  /** A timestamp as the program holds it: the ISO text it passes around, and
      the instant in milliseconds since the epoch that `new Date(text)`
      denotes. Parsing the text is not modelled; the instant travels with it. */
  datatype Stamp = Stamp(text: string, instant: int)

  /** JavaScript truthiness of an optional string: absent, `null` and `""`
      are all falsy. */
  predicate Present(o: Option<string>) {
    o.Some? && o.value != ""
  }

  /** Truthiness of an optional timestamp string. */
  predicate StampPresent(o: Option<Stamp>) {
    o.Some? && o.value.text != ""
  }

  datatype Image = Image(medium: Option<string>, original: Option<string>)

  /** A network or web channel: `{ name }`. */
  datatype Channel = Channel(name: Option<string>)

  /** A raw next-episode descriptor. The schedule provider fills `season`,
      `number` and `airstamp`; the catalog provider fills `seasonNumber`,
      `episodeNumber` and `airDate` (a date whose instant is its midnight UTC). */
  datatype Episode = Episode(
    season: Option<int>,
    number: Option<int>,
    seasonNumber: Option<int>,
    episodeNumber: Option<int>,
    airstamp: Option<Stamp>,
    airDate: Option<Stamp>)

  /** Schedule-provider ids are numbers; catalog ids are `"tmdb-" + id` strings. */
  datatype ShowId = NumId(num: int) | TextId(text: string)

  datatype ShowRecord = ShowRecord(
    id: ShowId,
    name: string,
    url: Option<string>,
    image: Option<Image>,
    summary: Option<string>,
    premiered: Option<string>,
    status: Option<string>,
    network: Option<Channel>,
    nextAirstamp: Option<Stamp>,
    nextEpisode: Option<Episode>,
    rating: Option<real>,
    platform: Option<string>,
    webChannel: Option<Channel>,
    showType: Option<string>)
}
