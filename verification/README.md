# show-release-countdown, modelled in Dafny

This project models the show-list pipeline of show-release-countdown, a
Next.js site that counts down to the next episode of TV shows, and proves
properties of the model. The pieces modelled are:

- `lib/tvmaze.ts`, in `schedule.dfy` and `catalog.dfy`:
  - the 14-day schedule scan (`fetchFromTvmazeSchedule`), a fold into an
    insertion-ordered map that keeps each show's earliest announced
    episode;
  - the catalog path (`fetchFromTmdb`), which maps each popular show's
    detail payload and drops the failures;
  - `fetchShows`, which chooses between the two.
- The platform route `app/api/shows/route.ts`, in `platforms.dfy` and
  `shows_route.dfy`: platform validation against the provider map, the
  order of its error answers, per-show enrichment, and the `total`
  fallback.
- The search route `app/api/search/route.ts`, in `search_route.dfy`: how it
  maps the upstream status to a response, and how it normalises the
  payload.
- The home page `app/page.tsx`, in `ranking.dfy`: the rating and airstamp
  filter, the two-key sort, the featured show, the hero image and the
  summary preview.
- `components/Countdown.tsx`, in `countdown.dfy`: the millisecond split, the
  "No date" / "Dropped" / ETA choice, the pulse and the clock text.
- `components/ShowsGrid.tsx`, in `grid.dfy`: the infinite-scroll grid as a
  state machine (platform change, page replies, scroll trigger, animation
  delay). The state also counts platform changes. The program keeps no
  such counter; it serves only the corrected reply handling of the third
  finding, which tells requests of the current selection from earlier ones.
- `components/ShowCard.tsx`, in `card.dfy`: initials, the episode label, the
  subtitle fallbacks, and the choice between poster and placeholder.

Shared pieces:

- `wrappers.dfy`: `Option`, and `Successes`, the "keep the non-null items"
  step.
- `text.dfy`: decimal spelling of integers, `padStart`, and `split`/`join`.
- `shows.dfy`: the common show record.
- `payloads.dfy`: the upstream payload shapes, reduced to the fields the
  program reads.

Every upstream request is a parameter of the function that makes it, with
`None` for a request that throws. That covers network failure, a non-2xx
status and unreadable JSON. The current time is a parameter too. A
timestamp is a `Stamp`: the ISO text the program passes around, together
with the instant that `new Date(text)` denotes. JavaScript truthiness of an
optional string is `Present` (absent, null and `""` are all falsy). For an
optional timestamp it is `StampPresent`.

Two details of the code are modelled as written:

- On the home path, neither branch of `fetchShows` sets `rating`. The code
  around it expects rated catalog shows: app/page.tsx:13-14 and
  app/page.tsx:25 keep "highly rated" catalog shows that have no next
  episode, and the platform route copies the rating
  (app/api/shows/route.ts:89, `rating: details.vote_average ?? null`). The
  model follows the code, and the consequence is the first finding below.
- `lib/tvmaze.ts` reads the detail payload's `network`, while the platform
  route reads `networks[0]`. The payload keeps both fields, and each path
  reads its own.

## Model

| member | source | states |
|---|---|---|
| Wrappers.Successes | lib/tvmaze.ts:54-55 | The kept values are exactly the values of the non-null outcomes. There are no more of them than outcomes. When no outcome failed, the values are kept position by position. |
| Wrappers.SuccessesAppend | lib/tvmaze.ts:54-55 | Dropping the nulls of two lists joined is the same as dropping them from each list and joining the results. |
| Wrappers.SuccessesSkipFailure | app/api/shows/route.ts:99 | A failed outcome anywhere contributes nothing: removing it leaves the result unchanged. |
| Text.NatToString | components/Countdown.tsx:48 | A day count is written as one or more decimal digits with no leading zero. It is a single digit exactly below 10. |
| Text.NatToStringRoundTrip | components/Countdown.tsx:48 | Reading the digits back gives the number written. |
| Text.IntToString | lib/tvmaze.ts:36 | An integer's spelling is non-empty and starts with `-` exactly when the integer is negative. |
| Text.IntToStringRoundTrip | lib/tvmaze.ts:36 | Parsing an integer's spelling gives back the integer. |
| Text.IntToStringInjective | lib/tvmaze.ts:36 | Distinct integers have distinct spellings, so distinct catalog shows get distinct ids. |
| Text.PadStart | components/Countdown.tsx:49 | `padStart` gives a result at least `width` long. It ends with the input, and everything before the input is the fill character. |
| Text.TwoDigits | components/Countdown.tsx:49 | Below 100, `String(n).padStart(2, "0")` is exactly two digits that read back as `n`. |
| Text.Split | components/ShowCard.tsx:35 | `split` gives at least one piece, and no piece contains the separator. Every character of a piece comes from the input. Without a separator the one piece is the input. A leading separator gives an empty first piece. |
| Text.JoinSplit | components/ShowCard.tsx:35 | Joining the pieces of a split with the same separator gives back the string. |
| Text.SplitPiece | components/ShowCard.tsx:35 | A separator-free prefix followed by the separator splits off as the first piece, and the rest splits on its own. |
| Schedule.Store | lib/tvmaze.ts:75-86 | `map.set` updates the entry for the key. A new key goes to the end of the insertion order, and an existing key keeps its place. Keys stay distinct. |
| Schedule.Values | lib/tvmaze.ts:96 | `Array.from(map.values())` gives one record per key, in insertion order. |
| Schedule.Step | lib/tvmaze.ts:69-88 | For one episode: no `show` means no change, and other shows' records are never touched. A first sighting is always stored, at the end, even without an airstamp. A later sighting replaces the record in place exactly when its airstamp is present and the stored one is absent or strictly later. |
| Schedule.ScanEntries | lib/tvmaze.ts:69-88 | The fold over one day keeps the index consistent and only ever appends to the key order. |
| Schedule.ScanDaysIsScanListed | lib/tvmaze.ts:63-93 | Scanning day by day is the same as one scan over the entries of the successful days in order. |
| Schedule.FailedDayIgnored | lib/tvmaze.ts:89-92 | Removing a failed day from any place in the window leaves the result unchanged: it adds nothing, and the days after it are still scanned. |
| Schedule.ScanOrder | lib/tvmaze.ts:60-96 | The key order is the sighted show ids in order of first sighting, each once. |
| Schedule.FirstSeen | lib/tvmaze.ts:72-75 | The reference dedup holds each id once, and exactly the ids that occur. |
| Schedule.FirstSeenOrdered | lib/tvmaze.ts:72-96 | The deduplicated ids are in increasing order of their first occurrence. |
| Schedule.EarliestExtend | lib/tvmaze.ts:74 | The replacement test picks the right entry. When a show's stored entry is its earliest, the new entry becomes the earliest exactly when the replacement test passes; otherwise the old one stays earliest. |
| Schedule.ScanKeepsEarliest | lib/tvmaze.ts:72-86 | After the scan, a show has a record exactly when some entry sighted it. That record is built from its earliest entry: the least present airstamp, the first on ties, or the first entry when none has an airstamp. |
| Schedule.ScanResult | lib/tvmaze.ts:63-96 | The result of scanning a list of entries is one record per show, in order of first sighting, each built from that show's earliest entry. |
| Schedule.AggregateResult | lib/tvmaze.ts:59-97 | The schedule fallback's result is one record per show seen on a successful day, in order of first sighting, each built from that show's earliest entry. |
| Schedule.AggregateUnrated | lib/tvmaze.ts:75-86 | No schedule record carries a rating. |
| Schedule.EarlierSightingWins | lib/tvmaze.ts:63-96 | Example. A show seen at instant 200 on day 1 and at instant 100 on day 3, with day 2 failing, yields one record with the day-3 airstamp. |
| Catalog.CatalogId | lib/tvmaze.ts:36 | A catalog record id is text starting with `tmdb-`. |
| Catalog.CatalogIdRoundTrip | lib/tvmaze.ts:36 | The catalog show id can be read back from the record id, and a catalog id never equals a schedule provider's numeric id. |
| Catalog.PosterImage | lib/tvmaze.ts:39-41 | There is no image exactly when the poster path is absent or empty. Otherwise medium and original are both the base URL followed by the path. |
| Catalog.AirDateStamp | lib/tvmaze.ts:33-34 | A next-episode airstamp exists exactly when the next episode and its `air_date` are both present. It is then the date's text followed by `T00:00:00Z`, at the date's instant. |
| Catalog.MapDetail | lib/tvmaze.ts:33-48 | A detail payload maps to: id `tmdb-<id>`, the poster image rule, the synthesised airstamp, and the raw next episode. No rating is set. |
| Catalog.DetailOutcomes | lib/tvmaze.ts:28-52 | One outcome per popular item, in list order. It is null exactly where that item's detail request fails, and otherwise it is the mapped detail. |
| Catalog.Enriched | lib/tvmaze.ts:54-55 | The result contains every successfully detailed item's record, and each kept record is the mapping of a successfully detailed item. |
| Catalog.FetchFromTmdb | lib/tvmaze.ts:22-56 | `fetchFromTmdb` throws exactly when the popular list fails. Otherwise its result is the enriched list, with a missing `results` read as an empty list. |
| Catalog.FailedDetailDropped | lib/tvmaze.ts:49-55 | An item whose detail request fails is dropped: the result is what the list without it gives. |
| Catalog.AllDetailsKept | lib/tvmaze.ts:28-55 | When every detail request succeeds, the result maps the popular list item by item, in order. |
| Catalog.FetchShows | lib/tvmaze.ts:99-111 | With a non-empty key and a catalog path that does not throw, the result is the catalog result. Otherwise it is the 14-day schedule scan. |
| Catalog.EmptyCatalogKept | lib/tvmaze.ts:99-111 | An empty catalog answer, or one without `results`, is returned as is. The schedule is not consulted. |
| Catalog.FetchShowsUnrated | lib/tvmaze.ts:35-48 | Neither path of `fetchShows` yields a record with a rating. |
| Catalog.MapDetailRated | lib/tvmaze.ts:35-48 | The corrected mapping carries the detail's `vote_average` as rating, as the platform route does it, and agrees with the mapping as written in every other field. |
| Catalog.RatedOutcomes | lib/tvmaze.ts:28-52 | The per-item outcomes with the corrected mapping: null exactly where the detail fails, otherwise the rated record. |
| Catalog.FetchFromTmdbRated | lib/tvmaze.ts:22-56 | The corrected catalog path fails exactly when the popular list fails. Each record it returns is the rated mapping of a successfully detailed item. |
| Platforms.ProviderId | app/api/shows/route.ts:37-53 | A platform is accepted exactly when it is one of the seven offered names. Its provider id is positive and maps back to the name. |
| Platforms.ProviderMapsInverse | app/api/shows/route.ts:5-24 | `TMDB_PROVIDER_IDS` and `PROVIDER_TO_NAME` are inverse to each other over the same seven platforms. |
| Platforms.FilterPlatformsAccepted | components/PlatformFilter.tsx:8-16 | The filter offers exactly the platforms the route accepts, each once. |
| ShowsRoute.PageOf | app/api/shows/route.ts:35 | A missing page parameter means page 1. Otherwise the given page is used. |
| ShowsRoute.EnrichedRecord | app/api/shows/route.ts:69-91 | An enriched record has: id `tmdb-<list id>`, the image from the list item's poster, the synthesised airstamp, `rating = vote_average`, `platform` and `webChannel.name` equal to the requested platform, and the first of `networks` as network. |
| ShowsRoute.EnrichOutcomes | app/api/shows/route.ts:62-97 | One outcome per discovered show, in discover order. It is null exactly where that show's detail request fails. |
| ShowsRoute.EnrichAll | app/api/shows/route.ts:62-99 | The listed shows include every successfully enriched show, and each listed show is the enrichment of a discovered show whose details succeeded. |
| ShowsRoute.AllEnrichedKept | app/api/shows/route.ts:62-99 | When every detail request succeeds, the listing has one show per discovered show, in discover order, each the enrichment of its item. |
| ShowsRoute.EnrichAllCountsSuccesses | app/api/shows/route.ts:92-99 | The listing holds exactly as many shows as there are discovered shows whose detail request succeeded. |
| ShowsRoute.EnrichAllTagsPlatform | app/api/shows/route.ts:85-90 | Every listed show is tagged with the requested platform. |
| ShowsRoute.Total | app/api/shows/route.ts:104 | `total` is `total_results` when that is a non-zero number, and the number of shows returned otherwise. |
| ShowsRoute.Get | app/api/shows/route.ts:32-113 | An invalid platform gets 400 "Invalid platform", and only then. A valid platform without a key gets 500 "TMDB_API_KEY not configured". A failed discover gets 500 "Failed to fetch shows". Otherwise the answer lists the enriched shows with the page used and the total. |
| ShowsRoute.TotalCountsSucceeded | app/api/shows/route.ts:99-104 | With `total_results` absent or 0, the reported total is the number of discovered shows whose detail request succeeded, which equals the number listed. |
| ShowsRoute.InvalidPlatformShortCircuits | app/api/shows/route.ts:37-42 | An invalid platform is answered before the key is read or any upstream request is made: the answer depends on neither. |
| ShowsRoute.MissingKeyShortCircuits | app/api/shows/route.ts:45-51 | Without a key, the answer does not depend on any upstream request. |
| ShowsRoute.FailedEnrichmentDropped | app/api/shows/route.ts:92-99 | A show whose detail request fails is dropped, and nothing else changes. |
| SearchRoute.Normalise | app/api/search/route.ts:19-33 | The search payload copies id, name and url. Absent optional fields stay null. `nextEpisode` is the embedded next episode, and `nextAirstamp` is its airstamp when both exist. |
| SearchRoute.NormaliseAgreesWithSchedule | app/api/search/route.ts:19-33 | The search payload is the record the schedule scan stores for the same show and episode. Without an embedded episode it is that record with both next-episode fields null. |
| SearchRoute.Get | app/api/search/route.ts:3-39 | A missing or empty `q` gets 400, and only it. Otherwise: a thrown fetch gets 500 "Fetch failed"; a 404 gets 404 "Not found"; any other non-2xx gets 502 "Upstream error"; unreadable JSON gets 500; a good reply gets the normalised show. |
| SearchRoute.StatusDeterminesError | app/api/search/route.ts:6-38 | Every error answer has one of the statuses 400, 404, 500 and 502, and the status alone determines the message. |
| SearchRoute.MissingQueryShortCircuits | app/api/search/route.ts:5-8 | Without a query, the answer does not depend on the upstream. |
| SearchRoute.BlankQueryForwarded | app/api/search/route.ts:5-11 | A query of blanks is not rejected: it goes upstream. |
| SearchRoute.NotFoundBeforeUpstreamError | app/api/search/route.ts:12-17 | A 404 is also a non-2xx status, yet it is reported as "Not found". |
| Ranking.Filtered | app/page.tsx:16-27 | A show is kept exactly when it has a rating of at least 7.0 and its airstamp is absent or later than now. Kept shows come from the input, with no duplicates added. |
| Ranking.FilteredAppend | app/page.tsx:16-27 | Filtering two lists joined is the same as filtering each list and joining the results. |
| Ranking.Compare | app/page.tsx:30-39 | A higher rating goes first. With equal ratings, an earlier airstamp goes first and a missing one goes last. Two missing airstamps tie, as the `NaN` of infinity minus infinity does. |
| Ranking.CompareConsistent | app/page.tsx:30-39 | The comparator is antisymmetric, and its "may stand before" relation is total and transitive, so the sort order is well defined. |
| Ranking.Insert | app/page.tsx:30 | Inserting into a ranked list keeps it ranked and adds exactly that show. |
| Ranking.SortFeed | app/page.tsx:30-39 | The sorted list is a permutation of the filtered list, ranked by the comparator. |
| Ranking.RankedOrder | app/page.tsx:32-38 | Between any two positions of the sorted list, ratings do not increase. Among equal ratings, airstamps do not decrease, and missing airstamps come last. |
| Ranking.HomeFeed | app/page.tsx:16-41 | The feed is a ranked permutation of the qualifying shows. `featured` is its head, and it is null exactly when the feed is empty. |
| Ranking.FeaturedIsFirst | app/page.tsx:41 | The featured show qualifies and may stand before every qualifying show: the best rated, and the soonest among those. It is missing exactly when nothing qualifies. |
| Ranking.FeedExample | app/page.tsx:11-39 | Example. Shows rated 9.0 (already aired), 8.5 (airing later), 7.0 (no airstamp) and 6.9 (airing later) give the feed [8.5, 7.0], featuring 8.5. |
| Ranking.HeroImage | app/page.tsx:64 | The hero uses `original`, else `medium`, else the empty string. A present empty string is kept. |
| Ranking.HeroOfPoster | app/page.tsx:64 | For a catalog poster, the hero is the poster URL, or nothing without a poster. |
| Ranking.StripTags | app/page.tsx:72 | Removing tags never lengthens the text and keeps only characters of the input. Text without `<` is unchanged. |
| Ranking.StripTagsLeavesNoTags | app/page.tsx:72 | No `<…>` tag is left after the removal. |
| Ranking.StripTagsKeepsText | app/page.tsx:72 | Only tags are removed: text without `<` before a tag `<w>` (with `w` non-empty and free of `>`) is kept as it is, the tag goes whole, and the removal carries on after it. So `<p>Hi</p>` becomes `Hi`. |
| Ranking.StripTagsKeepsPrefix | app/page.tsx:72 | Text without `<` in front of anything is kept, unchanged, in front of what is left of the rest. |
| Ranking.StripTagAtFront | app/page.tsx:72 | A tag at the front is removed up to its first `>`, and nothing after it is touched. |
| Ranking.StripTagsIdempotent | app/page.tsx:72 | Tag-free text is unchanged, so removing tags twice is the same as removing them once. |
| Ranking.Preview | app/page.tsx:72 | A missing or empty summary gives "No description available". Otherwise the preview is the tag-free text cut to 220 characters, followed by `...`, with no tag in it, and at most 223 characters in all. |
| Ranking.HomeFeedEmptyAsWritten | app/page.tsx:18 | As written, the home feed is empty for every input, because nothing `fetchShows` returns has a rating. |
| Ranking.UnratedNeverKept | app/page.tsx:18 | Shows without ratings never pass the filter. |
| Ranking.RatedCatalogFeedsHome | app/page.tsx:16-41 | With the corrected catalog mapping, a show rated 8 with no scheduled episode reaches the feed and is featured. |
| Countdown.MsToParts | components/Countdown.tsx:9-17 | A non-positive difference gives all zeros. Otherwise the parts add up to the whole seconds of the difference. Hours are below 24, minutes and seconds below 60, and days are non-negative. |
| Countdown.MsToPartsUnique | components/Countdown.tsx:11-15 | Any in-range split of the same whole seconds is the one `msToParts` gives. |
| Countdown.DayBoundary | components/Countdown.tsx:11-15 | 86 399 999 ms is 0 days 23:59:59, and 86 400 000 ms is 1 day 00:00:00. |
| Countdown.EtaClass | components/Countdown.tsx:40-41 | A normal pill has the plain class. A large pill has the large class, with `pulse` exactly when the difference is at most an hour. |
| Countdown.Hms | components/Countdown.tsx:49 | The clock is eight characters: two-digit hours, minutes and seconds, separated by colons. |
| Countdown.HmsReadsBack | components/Countdown.tsx:49 | Each two-digit field of the clock reads back as the hours, minutes or seconds shown. |
| Countdown.Clock | components/Countdown.tsx:48-49 | The clock text ends with the eight-character `hh:mm:ss`. It is preceded by `<days>d ` exactly when days are positive. |
| Countdown.OneDayClock | components/Countdown.tsx:48-49 | One whole day is shown as `1d 00:00:00`. |
| Countdown.Render | components/Countdown.tsx:27-41 | A missing or empty target gives "No date". A non-positive difference gives "Dropped" with the size's class. Otherwise the ETA carries the split and the class. |
| Countdown.PulseOnlyInLastHour | components/Countdown.tsx:40-41 | A pill pulses exactly when it is large, has a target, and the target is between 0 and one hour away. |
| Grid.Initial | components/ShowsGrid.tsx:11-15 | The grid starts with no platform, the page's list, not loading, page 1 and more to load. |
| Grid.Reset | components/ShowsGrid.tsx:19-30 | The effect body with a platform empties the list, rewinds to page 1, re-arms `hasMore` and requests page 1. Without one it restores the page's list with page 1, nothing more to load, and no request. |
| Grid.Mount | components/ShowsGrid.tsx:11-31 | After the first run of the effect, the grid shows the page's list at page 1 with nothing more to load, and the trigger is silent. |
| Grid.SelectPlatform | components/ShowsGrid.tsx:19-31 | Choosing the platform already chosen changes nothing and sends nothing, because the effect depends on the chosen platform only. Any other choice starts a new selection: a platform empties the list, rewinds to page 1, re-arms `hasMore` and requests page 1 under the new selection; clearing restores the page's list with nothing more to load. |
| Grid.ReselectKeepsScrolling | components/ShowsGrid.tsx:19-31 | Re-choosing the platform while it scrolls leaves the grid, its page and its request in flight as they were. |
| Grid.Trigger | components/ShowsGrid.tsx:71-75 | A request is made exactly when a platform is chosen, more pages remain and nothing is loading. It asks for the current page of the chosen platform. |
| Grid.Complete | components/ShowsGrid.tsx:33-67 | Every reply ends loading. A reply with shows appends them after the list, keeps the old list as a prefix, and moves to the page after the requested one. An error, empty or failed reply leaves the list and page alone. `hasMore` survives only a full page of at least 20. |
| Grid.AnimationDelay | components/ShowsGrid.tsx:119 | The delay is a multiple of 50 ms between 0 and 950, fixed by the card's place in its page of 20. |
| Grid.AnimationDelayPeriodic | components/ShowsGrid.tsx:119 | The delay repeats every 20 cards, and it is zero exactly at the start of a page. |
| Grid.FullPagesLoadInOrder | components/ShowsGrid.tsx:49-75 | A run of full pages is appended in order. Each reply requests the next page, and the grid keeps scrolling. |
| Grid.ShortPageStops | components/ShowsGrid.tsx:53-55 | A page of fewer than 20 shows is the last: the trigger stays silent afterwards. |
| Grid.ClearedGridNeverLoads | components/ShowsGrid.tsx:25-30 | After the platform is cleared, the trigger never fires. If a platform was chosen before, the grid shows the page's list with nothing more to load. |
| Grid.StaleReplyAppendedAsWritten | components/ShowsGrid.tsx:49-51 | As written, a reply for the previous platform that arrives after a switch fills the new platform's list. |
| Grid.ReselectDuplicatesAsWritten | components/ShowsGrid.tsx:49-51 | As written, after Netflix, Hulu, Netflix, the two Netflix page-1 requests are alike, and when both replies arrive the list holds the page twice. |
| Grid.CompleteCurrent | components/ShowsGrid.tsx:49-51 | Corrected: a reply to a request issued under an earlier selection leaves the grid unchanged. A reply of the current selection is handled as before. |
| Grid.StaleReplyDropped | components/ShowsGrid.tsx:49-51 | Corrected: a switch followed by the previous platform's reply leaves the new list empty and still loading. |
| Grid.ReselectDropsEarlierReply | components/ShowsGrid.tsx:49-51 | Corrected: after Netflix, Hulu, Netflix, the first Netflix reply is dropped and the list holds the page once. |
| Grid.TriggeredRepliesAreCurrent | components/ShowsGrid.tsx:71-75 | Without a switch, a reply to a triggered request is current, so the corrected and original transitions agree. |
| Grid.RunSelection | components/ShowsGrid.tsx:19-31 | Over any run of choices, scrolls and replies, the selection never goes back. It moves on whenever the chosen platform changes, and a run without a change keeps both the selection and the platform. |
| Grid.EarlierRepliesDropped | components/ShowsGrid.tsx:49-51 | Corrected, for every run: once the platform has changed, the reply to any request issued before the change leaves the grid unchanged. |
| Grid.CurrentRepliesApplied | components/ShowsGrid.tsx:33-67 | Corrected, for every run without a platform change: the reply to a request of the current selection is handled exactly as written. |
| Card.Head | components/ShowCard.tsx:36 | `s[0]` is one character exactly for a non-empty piece, and nothing otherwise. |
| Card.Initials | components/ShowCard.tsx:34-38 | Initials are at most two non-blank characters of the name. A name not starting with a blank starts its initials. A one-word name gives its first letter. |
| Card.InitialsOfTwoWords | components/ShowCard.tsx:34-38 | Two words give both initials. |
| Card.InitialsIgnoreRest | components/ShowCard.tsx:37 | Words after the second are ignored. |
| Card.InitialsAfterBlank | components/ShowCard.tsx:35-38 | A leading blank uses up a place with an empty piece, which contributes nothing, so only one initial remains. |
| Card.Field | components/ShowCard.tsx:55 | A number written into the label reads back as itself. A missing field is written `undefined`. |
| Card.EpisodeLabel | components/ShowCard.tsx:55 | Without a next episode, the label is "TBA". With `season` and `number`, `S<season> E<number>` reads back as those two numbers. |
| Card.CatalogEpisodeLabelAsWritten | components/ShowCard.tsx:55 | As written, a catalog episode is labelled "Sundefined Eundefined", which does not read as numbers. |
| Card.UndefinedLabelUnreadable | components/ShowCard.tsx:55 | "Sundefined Eundefined" does not read as a season and an episode. |
| Card.EpisodeLabelUnified | components/ShowCard.tsx:55 | Corrected: the label reads back as the season and episode numbers from either provider's field names. |
| Card.LabelReadsBack | components/ShowCard.tsx:55 | A label built from two integers reads back as those integers. |
| Card.CatalogEpisodeLabelUnified | components/ShowCard.tsx:55 | With the corrected label, a catalog episode shows its numbers, and the label differs from the one as written. |
| Card.NetworkLabel | components/ShowCard.tsx:49 | The subtitle's first part is the network name if present, else the show type, else "Streaming". An empty name is kept. |
| Card.Subtitle | components/ShowCard.tsx:49 | The subtitle is the network label, then ` • `, then the premiere date or "—". |
| Card.SearchedShowSubtitle | components/ShowCard.tsx:49 | A searched show has no type, so its card names its network or says "Streaming". |
| Card.PictureOf | components/ShowCard.tsx:22-41 | The poster is shown exactly when `image.medium` is truthy and has not failed to load. Otherwise the name's initials are shown. |
| Card.CatalogPicture | components/ShowCard.tsx:22-41 | A catalog record shows its poster until the image fails to load, and shows its initials when it has no poster. |
| Card.Card | components/ShowCard.tsx:9-63 | The card combines the picture, the name, the subtitle, the episode label as written, and a large countdown to the next airstamp. |
| Card.CardUnified | components/ShowCard.tsx:9-63 | Corrected: the card differs from the one as written only in its episode label. The two agree without an episode or when it has both schedule fields, and a catalog episode's label reads back as its numbers. |

## Left out

- Date handling is not modelled: ISO parsing, `Date` arithmetic and the
  day-by-day date strings. An airstamp carries its instant, so an
  unparseable airstamp (`NaN`, which compares false both ways) is not
  modelled. The 14 scanned days are given as each day's outcome.
- HTTP, `fetchJson`, `res.json()`, `NextResponse` and `process.env` are
  parameters. A failure of any kind is `None`.
- Logging is not modelled. Neither is `encodeURIComponent` or how the
  request URLs are built, since these are foreign calls and the model
  never looks at URLs.
- `Promise.all` concurrency is modelled as a sequential map with one
  optional outcome per item. `Promise.all` keeps order, so nothing is
  lost.
- Each detail request's outcome is modelled as a function of the show id
  (`fetchDetail`, `fetchDetails`). Two listed items with the same id
  therefore succeed or fail together. The program sends one request per
  item, and such requests could differ. No stated property depends on
  this.
- `parseInt` of the `page` parameter is not modelled: the page is an
  optional integer, so `NaN` pages are left out.
- `TMDB_PROVIDER_IDS` is modelled as a finite map of the seven platforms.
  JavaScript's inherited prototype keys (such as `toString`), which the
  route's lookup would find truthy, are left out.
- React state, effects, `IntersectionObserver`, `setInterval`, JSX and CSS
  are left out. The grid is one state transition per event, and the
  countdown renders at a given `now`.
- `components/SearchBar.tsx` (debounced input) and
  `components/FeaturedCountdown.tsx` (a one-line wrapper) are UI only. Of
  `components/PlatformFilter.tsx`, only its platform list is modelled.
- Ratings are `real`, not binary floating point. Only comparisons and the
  sign of a difference matter.
- JSON `null` and a missing field are both `None`.
- Card.Field: an absent field is written `undefined`. A field that is JSON
  `null` (a special episode with `number: null`, say) is written `null` by
  the template literal, so the program shows "S3 Enull" where the model
  shows "S3 Eundefined". Neither text reads back as a number.
- `slice(0, 220)` counts UTF-16 code units; the model counts characters.
- Card.Head: `s[0]` is one UTF-16 code unit, so a word that starts with a
  character outside the Basic Multilingual Plane (an emoji, say) yields a
  lone surrogate. The model yields the whole first character, since its
  strings are sequences of characters, not code units.
- Card.Initials: built from `Card.Head`, so for the same reason an initial
  outside the Basic Multilingual Plane is a whole character in the model
  and half a surrogate pair in the program.
- Ranking.SortFeed: does not state which of several equally ranked orders
  is produced. JavaScript's sort is stable and so is the model's insertion,
  but stability is not part of the contract.
- Ranking.Compare: states the sign of the comparator, not its magnitude.
  The sort uses only the sign.
- Catalog.MapDetail: does not state the plain copies of name, url,
  overview, first air date, status and network. The record id, image,
  airstamp, next episode and rating are stated.
- ShowsRoute.EnrichedRecord: does not state the plain copies of name, url,
  overview, first air date, status and next episode.
- Catalog.FetchFromTmdbRated: states where each record comes from, but not
  the order or the completeness that `Catalog.Enriched` states for the
  mapping as written.
- Countdown.Render: the ETA pill carries the split rather than the clock
  text. The text is `Countdown.Clock` of the split.
- Schedule.ScanEntries: its own contract only says the index stays
  consistent and the key order grows. What the scan computes is stated by
  `Schedule.ScanKeepsEarliest` and `Schedule.ScanOrder`.

## Findings

| source | as written | input that shows it | evidently intended | confidence | as-written member | corrected member |
|---|---|---|---|---|---|---|
| app/page.tsx:18 | The home page keeps only shows with a truthy rating of at least 7.0. Neither path of `fetchShows` sets `rating` (lib/tvmaze.ts:35-48, lib/tvmaze.ts:75-86), so the featured section and the default list are always empty. | Any catalog answer, for example one popular show whose detail has `vote_average` 8.0 and no next episode. | The catalog mapping copies `vote_average` into `rating`, as the platform route does (app/api/shows/route.ts:89), and rated shows reach the feed. | not executed | Ranking.HomeFeedEmptyAsWritten | Catalog.FetchFromTmdbRated |
| components/ShowCard.tsx:55 | The label reads only `season` and `number`. Catalog episodes carry `season_number` and `episode_number`, so the card shows "Sundefined Eundefined". | A catalog show whose next episode has `season_number` 2 and `episode_number` 5. | The label reads whichever pair of fields the provider filled: "S2 E5". | not executed | Card.CatalogEpisodeLabelAsWritten | Card.EpisodeLabelUnified |
| components/ShowsGrid.tsx:49-51 | A page reply is appended whatever selection it was requested under. | Choose Netflix, switch to Hulu before Netflix's page 1 arrives, then receive Netflix's page 1: Hulu's list holds Netflix's shows, at page 2. Or choose Netflix, Hulu, Netflix and receive both Netflix page-1 replies: the page appears twice. | A reply to a request issued before the latest platform change is ignored. | not executed | Grid.StaleReplyAppendedAsWritten, Grid.ReselectDuplicatesAsWritten | Grid.CompleteCurrent, Grid.EarlierRepliesDropped |
