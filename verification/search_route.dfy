/** The single-show search route (app/api/search/route.ts, `GET`): reject a
    missing query, map the upstream status to a response code, and
    normalise the found show into the record the cards read. */
module SearchRoute {
  import opened Wrappers
  import opened Shows
  import opened Payloads
  import Schedule

  /** The upstream single-search request: it throws, or answers with a
      status and a body that is `None` when it is not readable JSON. */
  datatype SearchReply =
    | SearchThrew
    | SearchAnswered(status: int, body: Option<SearchShow>)

  /** The route's answer: the normalised show, or an error and its status. */
  datatype SearchResponse =
    | Found(show: ShowRecord)
    | Failed(status: int, error: string)

  const MissingQuery := "Missing query parameter `q`"
  const NotFound := "Not found"
  const UpstreamError := "Upstream error"
  const FetchFailed := "Fetch failed"

  /** `res.ok`: a 2xx status. */
  predicate Ok(status: int) {
    200 <= status <= 299
  }

  /** The payload built from a search reply. Absent optional fields are
      `None` (the route's `?? null`); the fields the route does not set are
      `None` as well. */
  function Normalise(js: SearchShow): (s: ShowRecord)
    ensures s.id == NumId(js.show.id) && s.name == js.show.name && s.url == js.show.url
    ensures s.image == js.show.image && s.summary == js.show.summary && s.premiered == js.show.premiered
    ensures s.status == js.show.status && s.network == js.show.network
    ensures s.nextEpisode == js.nextEpisode
    ensures s.nextAirstamp.Some? <==> js.nextEpisode.Some? && js.nextEpisode.value.airstamp.Some?
    ensures s.nextAirstamp.Some? ==> s.nextAirstamp == js.nextEpisode.value.airstamp
    ensures s.rating.None? && s.platform.None? && s.webChannel.None? && s.showType.None?
  {
    var next := js.nextEpisode;
    ShowRecord(
      NumId(js.show.id), js.show.name, js.show.url, js.show.image, js.show.summary,
      js.show.premiered, js.show.status, js.show.network,
      if next.Some? then next.value.airstamp else None,
      next, None, None, None, None)
  }

  /** The search payload is the record the schedule scan stores for the
      same show seen with the same episode; without an embedded next
      episode it is that record with both next-episode fields cleared. */
  lemma {:induction false} NormaliseAgreesWithSchedule(js: SearchShow, ep: Episode)
    ensures js.nextEpisode == Some(ep) ==>
              Normalise(js) == Schedule.RecordOf(ScheduleEntry(Some(js.show), ep))
    ensures js.nextEpisode.None? ==>
              Normalise(js) == Schedule.RecordOf(ScheduleEntry(Some(js.show), ep)).(nextAirstamp := None, nextEpisode := None)
  {
  }

  /** `GET /api/search?q=…`. `search(q)` is the upstream request's outcome. */
  function Get(q: Option<string>, search: string -> SearchReply): (r: SearchResponse)
    ensures !Present(q) <==> r == Failed(400, MissingQuery)
    ensures Present(q) ==>
      match search(q.value)
      case SearchThrew => r == Failed(500, FetchFailed)
      case SearchAnswered(status, body) =>
        && (status == 404 ==> r == Failed(404, NotFound))
        && (status != 404 && !Ok(status) ==> r == Failed(502, UpstreamError))
        && (Ok(status) && body.None? ==> r == Failed(500, FetchFailed))
        && (Ok(status) && body.Some? ==> r == Found(Normalise(body.value)))
  {
    if !Present(q) then Failed(400, MissingQuery)
    else
      match search(q.value)
      case SearchThrew => Failed(500, FetchFailed)
      case SearchAnswered(status, body) =>
        if status == 404 then Failed(404, NotFound)
        else if !Ok(status) then Failed(502, UpstreamError)
        else if body.None? then Failed(500, FetchFailed)
        else Found(Normalise(body.value))
  }

  /** Every answer is either a found show or one of the four errors, each
      with its own status; the status alone tells which. */
  lemma {:induction false} StatusDeterminesError(q: Option<string>, search: string -> SearchReply)
    ensures var r := Get(q, search);
            r.Failed? ==>
              && r.status in {400, 404, 500, 502}
              && (r.status == 400 <==> r.error == MissingQuery)
              && (r.status == 404 <==> r.error == NotFound)
              && (r.status == 502 <==> r.error == UpstreamError)
              && (r.status == 500 <==> r.error == FetchFailed)
  {
  }

  /** Without a query no upstream request is made: the answer does not
      depend on the upstream. */
  lemma {:induction false} MissingQueryShortCircuits(q: Option<string>, search1: string -> SearchReply, search2: string -> SearchReply)
    requires !Present(q)
    ensures Get(q, search1) == Get(q, search2)
  {
  }

  /** A query of blanks is not rejected: it goes upstream as is. */
  lemma {:induction false} BlankQueryForwarded(search: string -> SearchReply)
    requires search(" ") == SearchAnswered(404, None)
    ensures Get(Some(" "), search) == Failed(404, NotFound)
  {
  }

  /** A 404 is reported as "Not found" even though it is also a non-2xx
      status: the 404 test comes first. */
  lemma {:induction false} NotFoundBeforeUpstreamError(q: Option<string>, search: string -> SearchReply)
    requires Present(q) && search(q.value).SearchAnswered? && search(q.value).status == 404
    ensures !Ok(404) && Get(q, search) == Failed(404, NotFound)
  {
  }
}
