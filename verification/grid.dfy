/** The infinite-scrolling grid (components/ShowsGrid.tsx) as a state
    machine: choosing or clearing a platform, the outcome of each page
    request, the scroll trigger, and the cards' staggered animation. */
module Grid {
  import opened Wrappers
  import opened Shows
  import opened ShowsRoute

  /** A full page of the platform route; a shorter one is the last. */
  const PageSize: nat := 20
  const DelayStepMs: nat := 50

  /** `selectedPlatform`, `displayedShows`, `isLoading`, `page`, `hasMore`,
      and `selection`, the number of platform changes so far. The program
      keeps no such counter; only the corrected reply handling reads it. */
  datatype GridState = GridState(
    platform: Option<string>,
    shows: seq<ShowRecord>,
    loading: bool,
    page: int,
    hasMore: bool,
    selection: nat)

  /** A page request `fetchShowsFromPlatform(platform, page)`, tagged with
      the selection it was issued under. */
  datatype Request = Request(platform: string, page: int, selection: nat)

  /** The state before the first effect runs. */
  function Initial(defaults: seq<ShowRecord>): (g: GridState)
    ensures g.platform.None? && g.shows == defaults && !g.loading && g.page == 1 && g.hasMore
    ensures g.selection == 0
  {
    GridState(None, defaults, false, 1, true, 0)
  }

  /** The body of the platform effect. With a platform it empties the list,
      rewinds to page 1, re-arms `hasMore` and requests page 1 (the request
      marks the grid loading before it is sent). Without one it restores
      the page's own list with no more pages to load. */
  function Reset(g: GridState, platform: Option<string>, defaults: seq<ShowRecord>): (r: (GridState, Option<Request>))
    ensures r.0.platform == platform && r.0.page == 1 && r.0.selection == g.selection
    ensures Present(platform) ==>
              r.0.shows == [] && r.0.hasMore && r.0.loading && r.1 == Some(Request(platform.value, 1, g.selection))
    ensures !Present(platform) ==>
              r.0.shows == defaults && !r.0.hasMore && r.0.loading == g.loading && r.1.None?
  {
    if Present(platform) then (GridState(platform, [], true, 1, true, g.selection), Some(Request(platform.value, 1, g.selection)))
    else (GridState(platform, defaults, g.loading, 1, false, g.selection), None)
  }

  /** The grid once mounted: the effect has run once with no platform, so
      the page's list is shown and there is nothing more to load. */
  function Mount(defaults: seq<ShowRecord>): (g: GridState)
    ensures g.platform.None? && g.shows == defaults && !g.loading && g.page == 1 && !g.hasMore
    ensures g.selection == 0 && Trigger(g).1.None?
  {
    Reset(Initial(defaults), None, defaults).0
  }

  /** The filter's `onFilterChange(platform)`. The effect depends on the
      chosen platform only, so choosing the platform already chosen changes
      nothing. Any other choice counts as a new selection and runs the
      effect: a platform is loaded from page 1, clearing shows the page's list. */
  function SelectPlatform(g: GridState, platform: Option<string>, defaults: seq<ShowRecord>): (r: (GridState, Option<Request>))
    ensures platform == g.platform ==> r.0 == g && r.1.None?
    ensures platform != g.platform ==>
              r.0.platform == platform && r.0.page == 1 && r.0.selection == g.selection + 1
    ensures platform != g.platform && Present(platform) ==>
              r.0.shows == [] && r.0.hasMore && r.0.loading && r.1 == Some(Request(platform.value, 1, r.0.selection))
    ensures platform != g.platform && !Present(platform) ==>
              r.0.shows == defaults && !r.0.hasMore && r.0.loading == g.loading && r.1.None?
  {
    if platform == g.platform then (g, None)
    else Reset(g.(selection := g.selection + 1), platform, defaults)
  }

  /** The scroll trigger: a request for the current page, only with a
      platform chosen, more pages to load and no request in flight. */
  function Trigger(g: GridState): (r: (GridState, Option<Request>))
    ensures r.1.Some? <==> Present(g.platform) && g.hasMore && !g.loading
    ensures r.1.Some? ==> r.1.value == Request(g.platform.value, g.page, g.selection) && r.0 == g.(loading := true)
    ensures r.1.None? ==> r.0 == g
  {
    if Present(g.platform) && g.hasMore && !g.loading then
      (g.(loading := true), Some(Request(g.platform.value, g.page, g.selection)))
    else (g, None)
  }

  /** A reply that carries shows: a listing with at least one. */
  predicate NonEmptyListing(reply: Option<ShowsResponse>) {
    reply.Some? && reply.value.Listing? && |reply.value.shows| > 0
  }

  /** The outcome of the request `req`: `None` when the request or its JSON
      threw, otherwise the route's answer. A reply with an error, an empty
      listing or a throw stops the scrolling and leaves the list and page
      alone; a listing with shows is appended after the list and moves the
      page past the requested one, and stops the scrolling when it is short. */
  function Complete(g: GridState, req: Request, reply: Option<ShowsResponse>): (r: GridState)
    ensures !r.loading && r.platform == g.platform && r.selection == g.selection
    ensures NonEmptyListing(reply) ==>
              && |r.shows| == |g.shows| + |reply.value.shows|
              && r.shows[..|g.shows|] == g.shows
              && r.shows[|g.shows|..] == reply.value.shows
              && r.page == req.page + 1
    ensures !NonEmptyListing(reply) ==> r.shows == g.shows && r.page == g.page
    ensures r.hasMore <==> g.hasMore && NonEmptyListing(reply) && |reply.value.shows| >= PageSize
  {
    match reply
    case None => g.(hasMore := false, loading := false)
    case Some(Rejected(_, _)) =>
      // A non-empty `data.error` takes the error branch, an empty one the
      // no-shows branch; both stop the scrolling and nothing else.
      g.(hasMore := false, loading := false)
    case Some(Listing(shows, _, _)) =>
      if |shows| > 0 then
        var r := g.(shows := g.shows + shows, page := req.page + 1, loading := false);
        if |shows| < PageSize then r.(hasMore := false) else r
      else g.(hasMore := false, loading := false)
  }

  /** The stagger of card `idx`: `(idx % 20) * 50` ms, a multiple of 50
      between 0 and 950 that repeats every page. */
  function AnimationDelay(idx: nat): (ms: nat)
    ensures ms <= (PageSize - 1) * DelayStepMs && ms % DelayStepMs == 0
    ensures ms == DelayStepMs * (idx % PageSize)
  {
    (idx % PageSize) * DelayStepMs
  }

  /** The delay depends only on the card's place in its page. */
  lemma {:induction false} AnimationDelayPeriodic(idx: nat)
    ensures AnimationDelay(idx + PageSize) == AnimationDelay(idx)
    ensures AnimationDelay(idx) == 0 <==> idx % PageSize == 0
  {
  }

  // ---------------------------------------------------------------------
  // Runs of the machine.

  /** The grid is scrolling `platform`: chosen, more to load, and the request
      for the current page in flight. */
  predicate Scrolling(g: GridState, req: Request) {
    Present(g.platform) && g.hasMore && g.loading && req == Request(g.platform.value, g.page, g.selection)
  }

  function Flatten(pages: seq<seq<ShowRecord>>): seq<ShowRecord> {
    if |pages| == 0 then [] else Flatten(pages[..|pages| - 1]) + pages[|pages| - 1]
  }

  /** Answers the outstanding request with each reply in turn, firing the
      trigger after each answer; stops when the trigger stays silent. The
      result is the final state and the requests fired along the way. */
  function Drive(g: GridState, req: Request, replies: seq<Option<ShowsResponse>>): (r: (GridState, seq<Request>))
    decreases |replies|
  {
    if |replies| == 0 then (g, [])
    else
      var (g1, next) := Trigger(Complete(g, req, replies[0]));
      match next
      case None => (g1, [])
      case Some(req1) =>
        var (g2, reqs) := Drive(g1, req1, replies[1..]);
        (g2, [req1] + reqs)
  }

  /** Full pages load one after another: each is appended in order, the
      next page is requested each time, and the grid keeps scrolling. */
  lemma {:induction false} FullPagesLoadInOrder(g: GridState, req: Request, pages: seq<seq<ShowRecord>>,
                                                 replies: seq<Option<ShowsResponse>>)
    requires Scrolling(g, req)
    requires |replies| == |pages|
    requires forall k :: 0 <= k < |pages| ==>
               |pages[k]| >= PageSize && replies[k].Some? && replies[k].value.Listing? && replies[k].value.shows == pages[k]
    ensures var (g', reqs) := Drive(g, req, replies);
            && g'.shows == g.shows + Flatten(pages)
            && g'.page == g.page + |pages|
            && |reqs| == |pages|
            && (forall k :: 0 <= k < |reqs| ==> reqs[k] == Request(g.platform.value, g.page + k + 1, g.selection))
            && (|pages| > 0 ==> Scrolling(g', reqs[|reqs| - 1]))
    decreases |pages|
  {
    if |pages| > 0 {
      var g0 := Complete(g, req, replies[0]);
      var (g1, next) := Trigger(g0);
      assert next == Some(Request(g.platform.value, g.page + 1, g.selection));
      FullPagesLoadInOrder(g1, next.value, pages[1..], replies[1..]);
      var (g2, reqs) := Drive(g1, next.value, replies[1..]);
      FlattenCons(pages);
      assert g2.shows == g1.shows + Flatten(pages[1..]);
      assert g1.shows == g.shows + pages[0];
      assert Drive(g, req, replies) == (g2, [next.value] + reqs);
    }
  }

  lemma {:induction false} FlattenCons(pages: seq<seq<ShowRecord>>)
    requires |pages| > 0
    ensures Flatten(pages) == pages[0] + Flatten(pages[1..])
    decreases |pages|
  {
    if |pages| > 1 {
      FlattenCons(pages[..|pages| - 1]);
      assert pages[..|pages| - 1][1..] == pages[1..][..|pages[1..]| - 1];
      assert pages[..|pages| - 1][0] == pages[0];
    } else {
      assert pages[1..] == [];
      assert Flatten(pages[..0]) == [];
    }
  }

  /** A short page is the last: scrolling stops and the trigger stays silent. */
  lemma {:induction false} ShortPageStops(g: GridState, req: Request, shows: seq<ShowRecord>, page: int, total: int)
    requires |shows| < PageSize
    ensures var r := Complete(g, req, Some(Listing(shows, page, total)));
            !r.hasMore && Trigger(r).1.None?
  {
  }

  /** Clearing the platform shows the page's own list for good: the
      trigger never fires until a platform is chosen again. */
  lemma {:induction false} ClearedGridNeverLoads(g: GridState, defaults: seq<ShowRecord>)
    ensures var (r, req) := SelectPlatform(g, None, defaults);
            && req.None? && Trigger(r).1.None?
            && (g.platform.Some? ==> r.shows == defaults && !r.hasMore)
  {
  }

  /** Choosing the chosen platform again neither clears the list nor
      rewinds the page nor sends a request. */
  lemma {:induction false} ReselectKeepsScrolling(g: GridState, req: Request, defaults: seq<ShowRecord>)
    requires Scrolling(g, req)
    ensures var (r, next) := SelectPlatform(g, g.platform, defaults);
            r == g && next.None? && Scrolling(r, req)
  {
  }

  // ---------------------------------------------------------------------
  // Replies to an earlier selection.

  /** As written, a reply is applied whatever selection it was requested
      under: a page-1 reply for the previous platform that arrives after a
      switch fills the new platform's list with the old platform's shows. */
  lemma {:induction false} StaleReplyAppendedAsWritten(g: GridState, shows: seq<ShowRecord>)
    requires |shows| > 0
    ensures var (g1, _) := SelectPlatform(g, Some("Netflix"), []);
            var (g2, _) := SelectPlatform(g1, Some("Hulu"), []);
            var g3 := Complete(g2, Request("Netflix", 1, g1.selection), Some(Listing(shows, 1, |shows|)));
            g3.platform == Some("Hulu") && g3.shows == shows && g3.page == 2
  {
  }

  /** As written, switching away and back does not tell the two page-1
      requests of the same platform apart: when both replies arrive, the
      list holds the first page twice. */
  lemma {:induction false} ReselectDuplicatesAsWritten(defaults: seq<ShowRecord>, shows: seq<ShowRecord>)
    requires |shows| > 0
    ensures var (g1, q1) := SelectPlatform(Mount(defaults), Some("Netflix"), defaults);
            var (g2, _) := SelectPlatform(g1, Some("Hulu"), defaults);
            var (g3, q3) := SelectPlatform(g2, Some("Netflix"), defaults);
            var reply := Some(Listing(shows, 1, |shows|));
            && q1.Some? && q3.Some? && q1.value.platform == q3.value.platform && q1.value.page == q3.value.page
            && Complete(Complete(g3, q1.value, reply), q3.value, reply).shows == shows + shows
  {
    var (g1, q1) := SelectPlatform(Mount(defaults), Some("Netflix"), defaults);
    var (g2, _) := SelectPlatform(g1, Some("Hulu"), defaults);
    var (g3, q3) := SelectPlatform(g2, Some("Netflix"), defaults);
    assert g3.shows + shows == shows;
  }

  /** A reply counts only when it answers a request of the current
      selection; a reply to an earlier selection is dropped and the grid
      stays as it is. */
  function CompleteCurrent(g: GridState, req: Request, reply: Option<ShowsResponse>): (r: GridState)
    ensures req.selection != g.selection ==> r == g
    ensures req.selection == g.selection ==> r == Complete(g, req, reply)
  {
    if req.selection == g.selection then Complete(g, req, reply) else g
  }

  /** With replies to earlier selections dropped, a switch followed by the
      previous platform's reply leaves the new list empty and loading. */
  lemma {:induction false} StaleReplyDropped(g: GridState, shows: seq<ShowRecord>)
    ensures var (g1, _) := SelectPlatform(g, Some("Netflix"), []);
            var (g2, _) := SelectPlatform(g1, Some("Hulu"), []);
            var g3 := CompleteCurrent(g2, Request("Netflix", 1, g1.selection), Some(Listing(shows, 1, |shows|)));
            g3 == g2 && g3.shows == [] && g3.loading
  {
  }

  /** Switching away and back: the reply to the first page-1 request is
      dropped and the list holds the first page once. */
  lemma {:induction false} ReselectDropsEarlierReply(defaults: seq<ShowRecord>, shows: seq<ShowRecord>)
    ensures var (g1, q1) := SelectPlatform(Mount(defaults), Some("Netflix"), defaults);
            var (g2, _) := SelectPlatform(g1, Some("Hulu"), defaults);
            var (g3, q3) := SelectPlatform(g2, Some("Netflix"), defaults);
            var reply := Some(Listing(shows, 1, |shows|));
            && q1.Some? && q3.Some?
            && CompleteCurrent(g3, q1.value, reply) == g3
            && CompleteCurrent(CompleteCurrent(g3, q1.value, reply), q3.value, reply).shows == shows
  {
    var (g1, q1) := SelectPlatform(Mount(defaults), Some("Netflix"), defaults);
    var (g2, _) := SelectPlatform(g1, Some("Hulu"), defaults);
    var (g3, q3) := SelectPlatform(g2, Some("Netflix"), defaults);
    assert g3.shows + shows == shows;
  }

  /** The scroll trigger asks under the current selection, so a reply that
      arrives before any switch is handled as before. */
  lemma {:induction false} TriggeredRepliesAreCurrent(g: GridState, reply: Option<ShowsResponse>)
    requires Trigger(g).1.Some?
    ensures var (g1, req) := Trigger(g);
            CompleteCurrent(g1, req.value, reply) == Complete(g1, req.value, reply)
  {
  }

  // ---------------------------------------------------------------------
  // Arbitrary runs under the corrected reply handling.

  /** What can happen to the grid: a choice in the filter, the sentinel
      scrolling into view, or the reply to a request arriving. */
  datatype Event =
    | Pick(choice: Option<string>)
    | Scroll
    | Arrive(req: Request, reply: Option<ShowsResponse>)

  function Step(g: GridState, e: Event, defaults: seq<ShowRecord>): GridState {
    match e
    case Pick(p) => SelectPlatform(g, p, defaults).0
    case Scroll => Trigger(g).0
    case Arrive(req, reply) => CompleteCurrent(g, req, reply)
  }

  function Run(g: GridState, events: seq<Event>, defaults: seq<ShowRecord>): GridState
    decreases |events|
  {
    if |events| == 0 then g else Run(Step(g, events[0], defaults), events[1..], defaults)
  }

  /** Some choice of the run differs from the platform chosen at that moment. */
  predicate Switches(g: GridState, events: seq<Event>, defaults: seq<ShowRecord>)
    decreases |events|
  {
    && |events| > 0
    && ((events[0].Pick? && events[0].choice != g.platform) || Switches(Step(g, events[0], defaults), events[1..], defaults))
  }

  /** The selection counter never goes back; it moves on exactly when the
      chosen platform changes, and a run without a change keeps the platform. */
  lemma {:induction false} RunSelection(g: GridState, events: seq<Event>, defaults: seq<ShowRecord>)
    ensures Run(g, events, defaults).selection >= g.selection
    ensures Switches(g, events, defaults) ==> Run(g, events, defaults).selection > g.selection
    ensures !Switches(g, events, defaults) ==>
              Run(g, events, defaults).selection == g.selection && Run(g, events, defaults).platform == g.platform
    decreases |events|
  {
    if |events| > 0 {
      RunSelection(Step(g, events[0], defaults), events[1..], defaults);
    }
  }

  /** Whatever happens in between, once the platform has changed the reply
      to any request issued before the change leaves the grid as it is. */
  lemma {:induction false} EarlierRepliesDropped(g: GridState, req: Request, events: seq<Event>,
                                                 defaults: seq<ShowRecord>, reply: Option<ShowsResponse>)
    requires req.selection <= g.selection
    requires Switches(g, events, defaults)
    ensures var h := Run(g, events, defaults);
            CompleteCurrent(h, req, reply) == h
  {
    RunSelection(g, events, defaults);
  }

  /** Conversely, while the platform does not change, the reply to a
      request of the current selection is handled as written. */
  lemma {:induction false} CurrentRepliesApplied(g: GridState, req: Request, events: seq<Event>,
                                                 defaults: seq<ShowRecord>, reply: Option<ShowsResponse>)
    requires req.selection == g.selection
    requires !Switches(g, events, defaults)
    ensures var h := Run(g, events, defaults);
            CompleteCurrent(h, req, reply) == Complete(h, req, reply)
  {
    RunSelection(g, events, defaults);
  }
}
