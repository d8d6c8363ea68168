/** The schedule fallback of lib/tvmaze.ts (`fetchFromTvmazeSchedule`): a
    left fold over the days of a window, and within each day over its
    episodes, into an insertion-ordered map from show id to record that keeps,
    per show, the record built from its earliest announced episode. */
module Schedule {
  import opened Wrappers
  import opened Shows
  import opened Payloads

  /** The number of days the fallback scans, starting today. */
  const WindowDays: nat := 14

  /** A JavaScript `Map<number, ShowWithNext>`: its keys in insertion order,
      and its entries. */
  datatype ShowIndex = ShowIndex(order: seq<int>, records: map<int, ShowRecord>)

  predicate Distinct(s: seq<int>) {
    forall i, j :: 0 <= i < j < |s| ==> s[i] != s[j]
  }

  predicate WellFormed(m: ShowIndex) {
    && Distinct(m.order)
    && (forall k :: k in m.records ==> k in m.order)
    && (forall i :: 0 <= i < |m.order| ==> m.order[i] in m.records)
  }

  const EmptyIndex: ShowIndex := ShowIndex([], map[])

  /** `map.set(k, v)`: a new key goes to the end, an existing key keeps its place. */
  function Store(m: ShowIndex, k: int, v: ShowRecord): (r: ShowIndex)
    requires WellFormed(m)
    ensures WellFormed(r)
    ensures r.records == m.records[k := v]
    ensures k in m.records ==> r.order == m.order
    ensures k !in m.records ==> r.order == m.order + [k]
  {
    if k in m.records then ShowIndex(m.order, m.records[k := v])
    else ShowIndex(m.order + [k], m.records[k := v])
  }

  /** `Array.from(map.values())`. */
  function Values(m: ShowIndex): (r: seq<ShowRecord>)
    requires WellFormed(m)
    ensures |r| == |m.order|
    ensures forall i :: 0 <= i < |r| ==> r[i] == m.records[m.order[i]]
  {
    seq(|m.order|, i requires 0 <= i < |m.order| => m.records[m.order[i]])
  }

  /** The record stored for a schedule entry that has a show. */
  function RecordOf(e: ScheduleEntry): (r: ShowRecord)
    requires e.show.Some?
  {
    var show := e.show.value;
    ShowRecord(NumId(show.id), show.name, show.url, show.image, show.summary, show.premiered,
               show.status, show.network, e.episode.airstamp, Some(e.episode), None, None, None, None)
  }

  /** Whether a newly seen airstamp displaces the stored one: it must be
      present, and the stored one absent or strictly later. */
  predicate Supersedes(stored: Option<Stamp>, candidate: Option<Stamp>) {
    && StampPresent(candidate)
    && (!StampPresent(stored) || candidate.value.instant < stored.value.instant)
  }

  /** One episode of the scan. An entry without a show is skipped; the first
      sighting of a show is always stored, even without an airstamp; later
      sightings replace the record only when their airstamp supersedes it. */
  function Step(m: ShowIndex, e: ScheduleEntry): (r: ShowIndex)
    requires WellFormed(m)
    ensures WellFormed(r)
    ensures e.show.None? ==> r == m
    ensures forall j :: j in m.records && (e.show.None? || j != e.show.value.id) ==>
              j in r.records && r.records[j] == m.records[j]
    ensures e.show.Some? ==> r.records.Keys == m.records.Keys + {e.show.value.id}
    ensures e.show.Some? && e.show.value.id !in m.records ==>
              r.order == m.order + [e.show.value.id] && r.records[e.show.value.id] == RecordOf(e)
    ensures e.show.Some? && e.show.value.id in m.records ==>
              && r.order == m.order
              && r.records[e.show.value.id] ==
                 (if Supersedes(m.records[e.show.value.id].nextAirstamp, e.episode.airstamp)
                  then RecordOf(e) else m.records[e.show.value.id])
  {
    if e.show.None? then m
    else
      var k := e.show.value.id;
      if k !in m.records || Supersedes(m.records[k].nextAirstamp, e.episode.airstamp) then
        Store(m, k, RecordOf(e))
      else m
  }

  /** The inner loop over one day's episodes, as a left fold. */
  function ScanEntries(m: ShowIndex, es: seq<ScheduleEntry>): (r: ShowIndex)
    requires WellFormed(m)
    ensures WellFormed(r)
    ensures |m.order| <= |r.order| && r.order[..|m.order|] == m.order
    decreases |es|
  {
    if |es| == 0 then m else Step(ScanEntries(m, es[..|es| - 1]), es[|es| - 1])
  }

  /** One day: a failed request is skipped and the scan goes on. */
  function ScanDay(m: ShowIndex, day: DayResult): (r: ShowIndex)
    requires WellFormed(m)
    ensures WellFormed(r)
  {
    match day
    case DayFailed => m
    case DayListed(es) => ScanEntries(m, es)
  }

  /** The outer loop over the days of the window. */
  function ScanDays(m: ShowIndex, days: seq<DayResult>): (r: ShowIndex)
    requires WellFormed(m)
    ensures WellFormed(r)
    decreases |days|
  {
    if |days| == 0 then m else ScanDay(ScanDays(m, days[..|days| - 1]), days[|days| - 1])
  }

  /** `fetchFromTvmazeSchedule(|days|)`, with the outcome of each day's
      request given in order. */
  function Aggregate(days: seq<DayResult>): seq<ShowRecord> {
    Values(ScanDays(EmptyIndex, days))
  }

  /** The default 14-day scan; `outcome(i)` is the result of the request for
      the date `i` days after today. */
  function FetchSchedule(outcome: nat -> DayResult): seq<ShowRecord> {
    Aggregate(seq(WindowDays, i requires 0 <= i => outcome(i)))
  }

  // ---------------------------------------------------------------------
  // Reference definitions: what the scan is meant to compute.

  /** The entries of the successful days, in scan order. */
  function Listed(days: seq<DayResult>): seq<ScheduleEntry>
    decreases |days|
  {
    if |days| == 0 then []
    else
      Listed(days[..|days| - 1]) +
      match days[|days| - 1]
      case DayFailed => []
      case DayListed(es) => es
  }

  /** The show ids of the entries that have a show, in scan order. */
  function Sightings(es: seq<ScheduleEntry>): seq<int>
    decreases |es|
  {
    if |es| == 0 then []
    else
      var e := es[|es| - 1];
      Sightings(es[..|es| - 1]) + (if e.show.Some? then [e.show.value.id] else [])
  }

  /** The position of the first occurrence of `x`. */
  function FirstIndex(ids: seq<int>, x: int): (i: nat)
    requires x in ids
    ensures i < |ids| && ids[i] == x && x !in ids[..i]
    decreases |ids|
  {
    var n := |ids|;
    assert ids == ids[..n - 1] + [ids[n - 1]];
    if x in ids[..n - 1] then
      var i := FirstIndex(ids[..n - 1], x);
      assert ids[..n - 1][..i] == ids[..i];
      i
    else n - 1
  }

  /** Each id once, in order of first occurrence. */
  function FirstSeen(ids: seq<int>): (r: seq<int>)
    ensures Distinct(r)
    ensures forall x :: x in r <==> x in ids
    decreases |ids|
  {
    if |ids| == 0 then []
    else
      var p := FirstSeen(ids[..|ids| - 1]);
      assert ids == ids[..|ids| - 1] + [ids[|ids| - 1]];
      if ids[|ids| - 1] in p then p else p + [ids[|ids| - 1]]
  }

  predicate Sighted(e: ScheduleEntry, k: int) {
    e.show.Some? && e.show.value.id == k
  }

  /** The entries that sighted show `k`, in scan order. */
  function EntriesFor(k: int, es: seq<ScheduleEntry>): (r: seq<ScheduleEntry>)
    ensures forall j :: 0 <= j < |r| ==> Sighted(r[j], k)
    decreases |es|
  {
    if |es| == 0 then []
    else
      var e := es[|es| - 1];
      EntriesFor(k, es[..|es| - 1]) + (if Sighted(e, k) then [e] else [])
  }

  predicate Stamped(e: ScheduleEntry) {
    StampPresent(e.episode.airstamp)
  }

  function InstantOf(e: ScheduleEntry): int
    requires Stamped(e)
  {
    e.episode.airstamp.value.instant
  }

  /** `E[i]` is the entry a show's record should come from: when some entry
      has an airstamp, the first of those with the least instant; when none
      has, the first entry. */
  ghost predicate IsEarliest(E: seq<ScheduleEntry>, i: int) {
    && 0 <= i < |E|
    && ((exists j :: 0 <= j < |E| && Stamped(E[j])) ==>
          && Stamped(E[i])
          && (forall j :: 0 <= j < |E| && Stamped(E[j]) ==> InstantOf(E[i]) <= InstantOf(E[j]))
          && (forall j :: 0 <= j < i && Stamped(E[j]) ==> InstantOf(E[i]) < InstantOf(E[j])))
    && ((forall j :: 0 <= j < |E| ==> !Stamped(E[j])) ==> i == 0)
  }

  // ---------------------------------------------------------------------
  // The scan against the reference.

  lemma {:induction false} ScanEntriesAppend(m: ShowIndex, a: seq<ScheduleEntry>, b: seq<ScheduleEntry>)
    requires WellFormed(m)
    ensures ScanEntries(m, a + b) == ScanEntries(ScanEntries(m, a), b)
    decreases |b|
  {
    if |b| == 0 {
      assert a + b == a;
    } else {
      assert (a + b)[..|a + b| - 1] == a + b[..|b| - 1];
      ScanEntriesAppend(m, a, b[..|b| - 1]);
    }
  }

  lemma {:induction false} ListedAppend(a: seq<DayResult>, b: seq<DayResult>)
    ensures Listed(a + b) == Listed(a) + Listed(b)
    decreases |b|
  {
    if |b| == 0 {
      assert a + b == a;
    } else {
      assert (a + b)[..|a + b| - 1] == a + b[..|b| - 1];
      ListedAppend(a, b[..|b| - 1]);
    }
  }

  /** Scanning day by day is scanning the successful days' entries in one go. */
  lemma {:induction false} ScanDaysIsScanListed(m: ShowIndex, days: seq<DayResult>)
    requires WellFormed(m)
    ensures ScanDays(m, days) == ScanEntries(m, Listed(days))
    decreases |days|
  {
    if |days| > 0 {
      var init := days[..|days| - 1];
      ScanDaysIsScanListed(m, init);
      match days[|days| - 1]
      case DayFailed =>
        assert Listed(days) == Listed(init) + [];
        assert Listed(days) == Listed(init);
      case DayListed(es) =>
        ScanEntriesAppend(m, Listed(init), es);
    }
  }

  /** A failed day adds nothing and does not stop the days after it. */
  lemma {:induction false} FailedDayIgnored(a: seq<DayResult>, b: seq<DayResult>)
    ensures Aggregate(a + [DayFailed] + b) == Aggregate(a + b)
  {
    ScanDaysIsScanListed(EmptyIndex, a + [DayFailed] + b);
    ScanDaysIsScanListed(EmptyIndex, a + b);
    ListedAppend(a + [DayFailed], b);
    ListedAppend(a, [DayFailed]);
    ListedAppend(a, b);
    assert Listed([DayFailed]) == Listed([]) + [];
    assert Listed([DayFailed]) == [];
    assert Listed(a + [DayFailed]) == Listed(a);
    assert Listed(a + [DayFailed] + b) == Listed(a + b);
  }

  /** The map's key order is the order in which the ids were first sighted. */
  lemma {:induction false} ScanOrder(es: seq<ScheduleEntry>)
    ensures ScanEntries(EmptyIndex, es).order == FirstSeen(Sightings(es))
    decreases |es|
  {
    if |es| > 0 {
      var init := es[..|es| - 1];
      var e := es[|es| - 1];
      ScanOrder(init);
      if e.show.Some? {
        assert Sightings(es) == Sightings(init) + [e.show.value.id];
        assert Sightings(es)[..|Sightings(es)| - 1] == Sightings(init);
      } else {
        assert Sightings(es) == Sightings(init);
      }
    }
  }

  /** The first occurrences in `FirstSeen` come in increasing order. */
  lemma {:induction false} FirstSeenOrdered(ids: seq<int>)
    ensures forall i, j :: 0 <= i < j < |FirstSeen(ids)| ==>
              FirstIndex(ids, FirstSeen(ids)[i]) < FirstIndex(ids, FirstSeen(ids)[j])
    decreases |ids|
  {
    if |ids| > 0 {
      var n := |ids|;
      var init := ids[..n - 1];
      var y := ids[n - 1];
      var p := FirstSeen(init);
      FirstSeenOrdered(init);
      assert ids == init + [y];
      forall x | x in init
        ensures FirstIndex(ids, x) == FirstIndex(init, x)
      {
      }
      var r := FirstSeen(ids);
      assert r == if y in p then p else p + [y];
      forall i, j | 0 <= i < j < |r|
        ensures FirstIndex(ids, r[i]) < FirstIndex(ids, r[j])
      {
        assert r[i] == p[i] && p[i] in init;
        assert FirstIndex(ids, r[i]) == FirstIndex(init, p[i]);
        if j < |p| {
          assert r[j] == p[j] && p[j] in init;
          assert FirstIndex(ids, r[j]) == FirstIndex(init, p[j]);
          assert FirstIndex(init, p[i]) < FirstIndex(init, p[j]);
        } else {
          assert y !in init && r[j] == y;
          assert FirstIndex(ids, y) == n - 1;
          assert FirstIndex(init, p[i]) < |init|;
        }
      }
    }
  }

  /** Extending a show's entries by one keeps the earliest-entry choice in
      step with the replacement rule. */
  lemma {:induction false} EarliestExtend(E: seq<ScheduleEntry>, i: int, e: ScheduleEntry)
    requires IsEarliest(E, i)
    ensures Supersedes(E[i].episode.airstamp, e.episode.airstamp) ==> IsEarliest(E + [e], |E|)
    ensures !Supersedes(E[i].episode.airstamp, e.episode.airstamp) ==> IsEarliest(E + [e], i)
  {
    var F := E + [e];
    assert F[|E|] == e;
    assert forall j :: 0 <= j < |E| ==> F[j] == E[j];
    if Supersedes(E[i].episode.airstamp, e.episode.airstamp) {
      assert Stamped(e);
      if exists j :: 0 <= j < |E| && Stamped(E[j]) {
        assert Stamped(E[i]);
      }
    } else if Stamped(e) {
      assert Stamped(E[i]);
    }
  }

  ghost predicate KeepsEarliest(m: ShowIndex, es: seq<ScheduleEntry>) {
    forall k ::
      && (k in m.records <==> |EntriesFor(k, es)| > 0)
      && (k in m.records ==>
            exists i :: IsEarliest(EntriesFor(k, es), i) && m.records[k] == RecordOf(EntriesFor(k, es)[i]))
  }

  /** After the scan, every stored record is the one built from its show's
      earliest entry. */
  lemma {:induction false} ScanKeepsEarliest(es: seq<ScheduleEntry>)
    ensures KeepsEarliest(ScanEntries(EmptyIndex, es), es)
    decreases |es|
  {
    if |es| > 0 {
      var init := es[..|es| - 1];
      var e := es[|es| - 1];
      var m := ScanEntries(EmptyIndex, init);
      var m' := Step(m, e);
      ScanKeepsEarliest(init);
      forall k
        ensures && (k in m'.records <==> |EntriesFor(k, es)| > 0)
                && (k in m'.records ==>
                      exists i :: IsEarliest(EntriesFor(k, es), i) && m'.records[k] == RecordOf(EntriesFor(k, es)[i]))
      {
        var E := EntriesFor(k, init);
        if !Sighted(e, k) {
          assert EntriesFor(k, es) == E;
        } else {
          assert EntriesFor(k, es) == E + [e];
          if k in m.records {
            var i :| IsEarliest(E, i) && m.records[k] == RecordOf(E[i]);
            EarliestExtend(E, i, e);
            if Supersedes(E[i].episode.airstamp, e.episode.airstamp) {
              assert (E + [e])[|E|] == e;
            } else {
              assert (E + [e])[i] == E[i];
            }
          } else {
            assert E == [];
            assert IsEarliest([e], 0);
            assert E + [e] == [e];
          }
        }
      }
    }
  }

  /** `r` holds one record per id of `ids`, in that order, each built from
      the earliest of that show's entries in `es`. */
  ghost predicate OnePerShowEarliest(r: seq<ShowRecord>, ids: seq<int>, es: seq<ScheduleEntry>) {
    && |r| == |ids|
    && (forall i :: 0 <= i < |r| ==> r[i].id == NumId(ids[i]))
    && (forall i :: 0 <= i < |r| ==> EarliestAt(r, ids, es, i))
  }

  ghost predicate EarliestAt(r: seq<ShowRecord>, ids: seq<int>, es: seq<ScheduleEntry>, i: int)
    requires 0 <= i < |r| && |r| == |ids|
  {
    exists j :: IsEarliest(EntriesFor(ids[i], es), j) && r[i] == RecordOf(EntriesFor(ids[i], es)[j])
  }

  /** The scan's result, stated on the list of entries. */
  lemma {:induction false} ScanResult(es: seq<ScheduleEntry>)
    ensures var ids := FirstSeen(Sightings(es)); var r := Values(ScanEntries(EmptyIndex, es));
      OnePerShowEarliest(r, ids, es)
  {
    ScanOrder(es);
    ScanKeepsEarliest(es);
    var m := ScanEntries(EmptyIndex, es);
    var ids := FirstSeen(Sightings(es));
    var r := Values(m);
    assert m.order == ids;
    forall i | 0 <= i < |r|
      ensures r[i].id == NumId(ids[i])
      ensures EarliestAt(r, ids, es, i)
    {
      var k := ids[i];
      assert r[i] == m.records[k];
      var E := EntriesFor(k, es);
      var j :| IsEarliest(E, j) && m.records[k] == RecordOf(E[j]);
      assert Sighted(E[j], k);
    }
    assert OnePerShowEarliest(r, ids, es);
  }

  /** The schedule result: one record per show, in order of first sighting,
      each built from that show's earliest entry (see `IsEarliest`). */
  lemma {:induction false} AggregateResult(days: seq<DayResult>)
    ensures var es := Listed(days); var ids := FirstSeen(Sightings(es)); var r := Aggregate(days);
      OnePerShowEarliest(r, ids, es)
  {
    ScanDaysIsScanListed(EmptyIndex, days);
    ScanResult(Listed(days));
  }

  /** The schedule path never fills in a rating. */
  lemma {:induction false} AggregateUnrated(days: seq<DayResult>)
    ensures forall x :: x in Aggregate(days) ==> x.rating.None?
  {
    AggregateResult(days);
    var es := Listed(days);
    assert OnePerShowEarliest(Aggregate(days), FirstSeen(Sightings(es)), es);
    var ids := FirstSeen(Sightings(es));
    var r := Aggregate(days);
    forall i | 0 <= i < |r|
      ensures r[i].rating.None?
    {
      assert EarliestAt(r, ids, es, i);
      var j :| IsEarliest(EntriesFor(ids[i], es), j) && r[i] == RecordOf(EntriesFor(ids[i], es)[j]);
    }
  }

  /** A show seen on the first day at instant 200 and again on the third day
      at the earlier instant 100, with the second day failing, yields exactly
      one record, carrying the third day's airstamp. */
  lemma {:induction false} EarlierSightingWins()
    ensures var show := TvShow(1, "X", None, None, None, None, None, None);
      var first := ScheduleEntry(Some(show), Episode(None, None, None, None, Some(Stamp("A", 200)), None));
      var third := ScheduleEntry(Some(show), Episode(None, None, None, None, Some(Stamp("B", 100)), None));
      Aggregate([DayListed([first]), DayFailed, DayListed([third])]) == [RecordOf(third)]
  {
    var show := TvShow(1, "X", None, None, None, None, None, None);
    var first := ScheduleEntry(Some(show), Episode(None, None, None, None, Some(Stamp("A", 200)), None));
    var third := ScheduleEntry(Some(show), Episode(None, None, None, None, Some(Stamp("B", 100)), None));
    var days := [DayListed([first]), DayFailed, DayListed([third])];
    var m1 := Step(EmptyIndex, first);
    var m2 := Step(m1, third);
    assert m1.order == [1] && m1.records == map[1 := RecordOf(first)] by {
      assert EmptyIndex.order + [1] == [1];
    }
    assert m2.order == [1] && m2.records == map[1 := RecordOf(third)] by {
      assert Supersedes(RecordOf(first).nextAirstamp, third.episode.airstamp);
    }
    assert ScanDays(EmptyIndex, days) == m2 by {
      assert days[..1] == [DayListed([first])] && days[..2] == [DayListed([first]), DayFailed];
      assert days[..1][..0] == [] && days[..2][..1] == days[..1] && [first][..0] == [] && [third][..0] == [];
      assert ScanDays(EmptyIndex, days[..1]) == m1;
      assert ScanDays(EmptyIndex, days[..2]) == m1;
    }
  }
}
