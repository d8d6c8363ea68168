/** The home page's feed (app/page.tsx): keep the highly rated shows whose
    next episode has not aired, sort them by rating and then by nearest
    airstamp, feature the first, and preview its summary. */
module Ranking {
  import opened Wrappers
  import opened Shows
  import opened Payloads
  import Catalog

  const MinRating: real := 7.0
  const PreviewLength: nat := 220
  const Ellipsis := "..."
  const NoDescription := "No description available"

  // ---------------------------------------------------------------------
  // The filter.

  /** The filter predicate as the page writes it: a falsy or low rating
      rejects; a truthy airstamp must be later than `now`; no airstamp
      passes. */
  predicate Qualifies(s: ShowRecord, now: int) {
    if s.rating.None? || s.rating.value == 0.0 || s.rating.value < MinRating then false
    else if StampPresent(s.nextAirstamp) then s.nextAirstamp.value.instant > now
    else true
  }

  /** `shows.filter(…)`: exactly the qualifying shows, in their order. */
  function Filtered(shows: seq<ShowRecord>, now: int): (r: seq<ShowRecord>)
    ensures |r| <= |shows|
    ensures forall x :: x in r <==>
              && x in shows
              && x.rating.Some? && x.rating.value >= MinRating
              && (StampPresent(x.nextAirstamp) ==> x.nextAirstamp.value.instant > now)
    ensures multiset(r) <= multiset(shows)
  {
    if |shows| == 0 then []
    else
      var rest := Filtered(shows[1..], now);
      assert shows == [shows[0]] + shows[1..];
      if Qualifies(shows[0], now) then [shows[0]] + rest else rest
  }

  /** Filtering distributes over concatenation. */
  lemma {:induction false} FilteredAppend(a: seq<ShowRecord>, b: seq<ShowRecord>, now: int)
    ensures Filtered(a + b, now) == Filtered(a, now) + Filtered(b, now)
  {
    if |a| == 0 {
      assert a + b == b;
    } else {
      assert (a + b)[1..] == a[1..] + b;
      FilteredAppend(a[1..], b, now);
    }
  }

  // ---------------------------------------------------------------------
  // The comparator and the sort.

  /** `b.rating ?? 0` as a sort key. */
  function RatingKey(s: ShowRecord): real {
    s.rating.GetOr(0.0)
  }

  /** The airstamp's instant, or `None` for the comparator's `Infinity`. */
  function AirKey(s: ShowRecord): Option<int> {
    if StampPresent(s.nextAirstamp) then Some(s.nextAirstamp.value.instant) else None
  }

  /** The sign of the page's comparator: negative when `a` goes first.
      Equal ratings fall back to `aHasAir - bHasAir`, where two infinities
      give `NaN`, which the sort treats as 0. */
  function Compare(a: ShowRecord, b: ShowRecord): (c: int)
    ensures -1 <= c <= 1
    ensures RatingKey(a) > RatingKey(b) ==> c == -1
    ensures RatingKey(a) < RatingKey(b) ==> c == 1
    ensures RatingKey(a) == RatingKey(b) ==>
              (c == 0 <==> AirKey(a) == AirKey(b)) &&
              (c == -1 <==> AirKey(a).Some? && (AirKey(b).None? || AirKey(a).value < AirKey(b).value))
  {
    var ratingDiff := RatingKey(b) - RatingKey(a);
    if ratingDiff > 0.0 then 1
    else if ratingDiff < 0.0 then -1
    else match (AirKey(a), AirKey(b))
      case (None, None) => 0
      case (None, Some(_)) => 1
      case (Some(_), None) => -1
      case (Some(x), Some(y)) => if x < y then -1 else if x > y then 1 else 0
  }

  /** `a` may stand before `b`. */
  predicate Before(a: ShowRecord, b: ShowRecord) {
    Compare(a, b) <= 0
  }

  /** The comparator is consistent, so the sort's order is well defined:
      swapping the arguments negates it, and `Before` is a total preorder. */
  lemma {:induction false} CompareConsistent(a: ShowRecord, b: ShowRecord, c: ShowRecord)
    ensures Compare(a, b) == -Compare(b, a)
    ensures Before(a, b) || Before(b, a)
    ensures Before(a, b) && Before(b, c) ==> Before(a, c)
  {
  }

  /** Adjacent shows are in comparator order. */
  predicate Ranked(s: seq<ShowRecord>) {
    forall i :: 0 <= i < |s| - 1 ==> Before(s[i], s[i + 1])
  }

  /** Inserts `x` before the first show it may stand before; behind every
      show that must precede it or ties with it. */
  function Insert(x: ShowRecord, s: seq<ShowRecord>): (r: seq<ShowRecord>)
    requires Ranked(s)
    ensures Ranked(r)
    ensures multiset(r) == multiset(s) + multiset{x}
    ensures |r| == |s| + 1 && (r[0] == x || (|s| > 0 && r[0] == s[0]))
  {
    if |s| == 0 || Before(x, s[0]) then [x] + s
    else
      CompareConsistent(x, s[0], x);
      var rest := Insert(x, s[1..]);
      assert s == [s[0]] + s[1..];
      [s[0]] + rest
  }

  /** `filtered.slice().sort(…)`: a ranked rearrangement of its input. */
  function SortFeed(xs: seq<ShowRecord>): (r: seq<ShowRecord>)
    ensures Ranked(r)
    ensures multiset(r) == multiset(xs)
  {
    if |xs| == 0 then []
    else
      assert xs == [xs[0]] + xs[1..];
      Insert(xs[0], SortFeed(xs[1..]))
  }

  /** A ranked feed is ordered between any two positions, not only
      neighbours: ratings never increase, and among equal ratings airstamps
      never decrease, with no airstamp last. */
  lemma {:induction false} RankedOrder(s: seq<ShowRecord>, i: int, j: int)
    requires Ranked(s) && 0 <= i <= j < |s|
    ensures Before(s[i], s[j])
    ensures RatingKey(s[i]) >= RatingKey(s[j])
    ensures RatingKey(s[i]) == RatingKey(s[j]) && AirKey(s[i]).None? ==> AirKey(s[j]).None?
    ensures RatingKey(s[i]) == RatingKey(s[j]) && AirKey(s[j]).Some? ==>
              AirKey(s[i]).Some? && AirKey(s[i]).value <= AirKey(s[j]).value
    decreases j - i
  {
    if i < j {
      RankedOrder(s, i + 1, j);
      CompareConsistent(s[i], s[i + 1], s[j]);
    } else {
      CompareConsistent(s[i], s[i], s[i]);
    }
  }

  // ---------------------------------------------------------------------
  // The feed and its featured show.

  datatype Feed = Feed(sorted: seq<ShowRecord>, featured: Option<ShowRecord>)

  /** The page's feed at `now`: the sorted qualifying shows and
      `sorted[0] ?? null`. */
  function HomeFeed(shows: seq<ShowRecord>, now: int): (f: Feed)
    ensures Ranked(f.sorted)
    ensures multiset(f.sorted) == multiset(Filtered(shows, now))
    ensures f.featured.None? <==> f.sorted == []
    ensures f.featured.Some? ==> f.featured.value == f.sorted[0]
  {
    var sorted := SortFeed(Filtered(shows, now));
    Feed(sorted, if |sorted| > 0 then Some(sorted[0]) else None)
  }

  /** The featured show is a qualifying show that may stand before every
      qualifying show: the best rated, and among those the soonest. It is
      missing only when nothing qualifies. */
  lemma {:induction false} FeaturedIsFirst(shows: seq<ShowRecord>, now: int)
    ensures var f := HomeFeed(shows, now);
            && (f.featured.None? <==> Filtered(shows, now) == [])
            && (f.featured.Some? ==> f.featured.value in Filtered(shows, now))
            && (f.featured.Some? ==> forall x :: x in Filtered(shows, now) ==> Before(f.featured.value, x))
  {
    var f := HomeFeed(shows, now);
    var q := Filtered(shows, now);
    if f.featured.None? {
      assert |multiset(q)| == 0;
    } else {
      assert f.featured.value in multiset(f.sorted);
      forall x | x in q ensures Before(f.featured.value, x) {
        assert x in multiset(q);
        var j :| 0 <= j < |f.sorted| && f.sorted[j] == x;
        RankedOrder(f.sorted, 0, j);
      }
    }
  }

  /** Ratings 9.0 (aired already), 8.5 (airing later), 7.0 (no airstamp)
      and 6.9 (airing later) feed exactly the 8.5 and then the 7.0 show:
      the 9.0 show has aired and 6.9 is under the floor. */
  lemma {:induction false} FeedExample(aired: ShowRecord, soon: ShowRecord, undated: ShowRecord, low: ShowRecord, now: int)
    requires aired.rating == Some(9.0) && StampPresent(aired.nextAirstamp) && aired.nextAirstamp.value.instant <= now
    requires soon.rating == Some(8.5) && StampPresent(soon.nextAirstamp) && soon.nextAirstamp.value.instant > now
    requires undated.rating == Some(7.0) && undated.nextAirstamp.None?
    requires low.rating == Some(6.9) && StampPresent(low.nextAirstamp) && low.nextAirstamp.value.instant > now
    ensures HomeFeed([aired, soon, undated, low], now) == Feed([soon, undated], Some(soon))
  {
    FilteredStep(low, [], now);
    FilteredStep(undated, [low], now);
    FilteredStep(soon, [undated, low], now);
    FilteredStep(aired, [soon, undated, low], now);
    SortTwo(soon, undated);
  }

  /** One step of the filter: the head is kept exactly when it qualifies. */
  lemma {:induction false} FilteredStep(x: ShowRecord, rest: seq<ShowRecord>, now: int)
    ensures Filtered([x] + rest, now) == (if Qualifies(x, now) then [x] else []) + Filtered(rest, now)
  {
    assert ([x] + rest)[1..] == rest;
  }

  /** Two shows already in comparator order sort to themselves. */
  lemma {:induction false} SortTwo(a: ShowRecord, b: ShowRecord)
    requires Before(a, b)
    ensures SortFeed([a, b]) == [a, b]
  {
    assert [a, b][1..] == [b];
    assert SortFeed([b]) == [b] by {
      assert [b][1..] == [];
    }
  }

  // ---------------------------------------------------------------------
  // The hero.

  /** `featured.image?.original ?? featured.image?.medium ?? ''`: `??`
      keeps an empty string. */
  function HeroImage(s: ShowRecord): (url: string)
    ensures s.image.Some? && s.image.value.original.Some? ==> url == s.image.value.original.value
    ensures s.image.Some? && s.image.value.original.None? && s.image.value.medium.Some? ==>
              url == s.image.value.medium.value
    ensures (s.image.None? || (s.image.value.original.None? && s.image.value.medium.None?)) ==> url == ""
  {
    match s.image
    case None => ""
    case Some(img) => img.original.GetOr(img.medium.GetOr(""))
  }

  /** For a catalog poster the hero is the poster URL, or nothing. */
  lemma {:induction false} HeroOfPoster(s: ShowRecord, path: Option<string>)
    requires s.image == Catalog.PosterImage(path)
    ensures Present(path) ==> HeroImage(s) == Catalog.ImageBase + path.value
    ensures !Present(path) ==> HeroImage(s) == ""
  {
  }

  /** A tag of the pattern `<[^>]+>` starts at `i`: a `<`, at least one
      character that is not `>`, and a later `>`. */
  predicate TagAt(s: string, i: int)
    requires 0 <= i < |s|
  {
    s[i] == '<' && i + 1 < |s| && s[i + 1] != '>' && '>' in s[i + 2..]
  }

  /** No tag starts anywhere. */
  predicate NoTags(s: string) {
    forall i :: 0 <= i < |s| ==> !TagAt(s, i)
  }

  /** The position of the first `c`. */
  function IndexOf(s: string, c: char): (i: nat)
    requires c in s
    ensures i < |s| && s[i] == c && c !in s[..i]
  {
    if s[0] == c then 0
    else
      assert s == [s[0]] + s[1..];
      1 + IndexOf(s[1..], c)
  }

  /** `s.replace(/<[^>]+>/g, '')`: every tag, scanned left to right, is
      removed; a tag ends at the first `>` after its first character. */
  function StripTags(s: string): (r: string)
    ensures |r| <= |s|
    ensures forall i :: 0 <= i < |r| ==> r[i] in s
    ensures '<' !in s ==> r == s
    ensures |s| > 0 && s[0] != '<' ==> |r| > 0 && r[0] == s[0]
    decreases |s|
  {
    if |s| == 0 then ""
    else if TagAt(s, 0) then
      var close := 2 + IndexOf(s[2..], '>');
      var rest := StripTags(s[close + 1..]);
      assert forall i :: 0 <= i < |rest| ==> rest[i] in s by {
        forall i | 0 <= i < |rest| ensures rest[i] in s {
          assert rest[i] in s[close + 1..];
        }
      }
      rest
    else
      var rest := StripTags(s[1..]);
      assert s == [s[0]] + s[1..];
      assert forall i :: 0 <= i < |rest| ==> rest[i] in s by {
        forall i | 0 <= i < |rest| ensures rest[i] in s {
          assert rest[i] in s[1..];
        }
      }
      [s[0]] + rest
  }

  /** What is left contains no tag: removing one never joins the pieces
      around it into a new one. */
  lemma {:induction false} StripTagsLeavesNoTags(s: string)
    ensures NoTags(StripTags(s))
    decreases |s|
  {
    if |s| == 0 {
    } else if TagAt(s, 0) {
      var close := 2 + IndexOf(s[2..], '>');
      StripTagsLeavesNoTags(s[close + 1..]);
    } else {
      StripTagsLeavesNoTags(s[1..]);
      KeptCharStartsNoTag(s);
    }
  }

  /** A character that starts no tag, kept in front of tag-free text, does
      not start one there either. */
  lemma {:induction false} KeptCharStartsNoTag(s: string)
    requires |s| > 0 && !TagAt(s, 0) && NoTags(StripTags(s[1..]))
    ensures NoTags(StripTags(s))
  {
    var rest := StripTags(s[1..]);
    assert StripTags(s) == [s[0]] + rest;
    FirstKeptStartsNoTag(s);
    PrependNoTags(s[0], rest);
  }

  lemma {:induction false} FirstKeptStartsNoTag(s: string)
    requires |s| > 0 && !TagAt(s, 0)
    ensures !TagAt(StripTags(s), 0)
  {
    var rest := StripTags(s[1..]);
    var r := StripTags(s);
    assert r == [s[0]] + rest;
    if s[0] == '<' && |s| > 1 {
      if s[1] == '>' {
        assert s[1..][0] == '>';
        assert rest[0] == '>';
        assert r[1] == '>';
      } else {
        NoCloseKept(s[1..]);
        assert '>' !in rest;
        assert r[2..] == rest[1..];
        assert '>' !in r[2..];
      }
    }
  }

  /** Without a `>` after its first character, a `<` starts no tag, and
      what is left of the rest has no `>` either. */
  lemma {:induction false} NoCloseKept(t: string)
    requires |t| > 0 && t[0] != '>' && '>' !in t[1..]
    ensures '>' !in StripTags(t)
  {
    assert '>' !in t by {
      assert t == [t[0]] + t[1..];
    }
    var r := StripTags(t);
    forall k | 0 <= k < |r| ensures r[k] != '>' {
      assert r[k] in t;
    }
  }

  /** Tag-free text stays tag-free behind a character that starts no tag. */
  lemma {:induction false} PrependNoTags(c: char, rest: string)
    requires NoTags(rest) && !TagAt([c] + rest, 0)
    ensures NoTags([c] + rest)
  {
    var r := [c] + rest;
    forall i | 0 < i < |r| ensures !TagAt(r, i) {
      assert r[i..] == rest[i - 1..];
      assert TagAt(r, i) == TagAt(rest, i - 1);
    }
  }

  /** Only the tags go: the text before a tag is kept as it is, the tag
      `<w>` is removed whole, and the stripping carries on after it. */
  lemma {:induction false} StripTagsKeepsText(a: string, w: string, b: string)
    requires '<' !in a && |w| > 0 && '>' !in w
    ensures StripTags(a + ['<'] + w + ['>'] + b) == a + StripTags(b)
  {
    assert a + ['<'] + w + ['>'] + b == a + (['<'] + w + ['>'] + b);
    StripTagsKeepsPrefix(a, ['<'] + w + ['>'] + b);
    StripTagAtFront(w, b);
  }

  /** Text without `<` in front is kept as it is. */
  lemma {:induction false} StripTagsKeepsPrefix(a: string, t: string)
    requires '<' !in a
    ensures StripTags(a + t) == a + StripTags(t)
    decreases |a|
  {
    if |a| > 0 {
      var s := a + t;
      assert s[0] == a[0] && !TagAt(s, 0);
      assert s[1..] == a[1..] + t;
      StripTagsKeepsPrefix(a[1..], t);
      assert a == [a[0]] + a[1..];
    } else {
      assert a + t == t;
    }
  }

  /** A tag at the front is removed whole, up to its first `>`. */
  lemma {:induction false} StripTagAtFront(w: string, b: string)
    requires |w| > 0 && '>' !in w
    ensures StripTags(['<'] + w + ['>'] + b) == StripTags(b)
  {
    var s := ['<'] + w + ['>'] + b;
    var t := w[1..] + ['>'] + b;
    assert s[1] == w[0] && s[2..] == t;
    assert t[|w| - 1] == '>';
    assert TagAt(s, 0);
    assert t[..|w| - 1] == w[1..];
    IndexOfFirst(t, '>', |w| - 1);
    assert s[|w| + 2..] == b;
  }

  /** The first `c` is at `k` when `t[k]` is `c` and no `c` comes before. */
  lemma {:induction false} IndexOfFirst(t: string, c: char, k: nat)
    requires k < |t| && t[k] == c && c !in t[..k]
    ensures IndexOf(t, c) == k
  {
  }

  /** Text without tags is left as it is, so stripping twice is stripping once. */
  lemma {:induction false} StripTagsIdempotent(s: string)
    ensures NoTags(s) ==> StripTags(s) == s
    ensures StripTags(StripTags(s)) == StripTags(s)
    decreases |s|
  {
    if NoTags(s) && |s| > 0 {
      assert !TagAt(s, 0);
      assert NoTags(s[1..]) by {
        forall i | 0 <= i < |s[1..]| ensures !TagAt(s[1..], i) {
          assert s[1..][i..] == s[i + 1..];
          assert TagAt(s[1..], i) == TagAt(s, i + 1);
        }
      }
      StripTagsIdempotent(s[1..]);
      assert s == [s[0]] + s[1..];
    }
    StripTagsLeavesNoTags(s);
    var r := StripTags(s);
    if |r| < |s| {
      StripTagsIdempotent(r);
    } else if NoTags(r) && |r| > 0 {
      StripTagsIdempotent(r[1..]);
      assert NoTags(r[1..]) by {
        forall i | 0 <= i < |r[1..]| ensures !TagAt(r[1..], i) {
          assert r[1..][i..] == r[i + 1..];
          assert TagAt(r[1..], i) == TagAt(r, i + 1);
        }
      }
      assert !TagAt(r, 0);
      assert r == [r[0]] + r[1..];
    }
  }

  /** The featured summary preview: the tag-free text cut to 220
      characters and followed by `...`, or a fixed notice when the summary
      is missing or empty. */
  function Preview(summary: Option<string>): (p: string)
    ensures !Present(summary) ==> p == NoDescription
    ensures Present(summary) ==>
              var text := StripTags(summary.value);
              && |p| == (if |text| < PreviewLength then |text| else PreviewLength) + |Ellipsis|
              && p[..|p| - |Ellipsis|] == text[..|p| - |Ellipsis|]
              && p[|p| - |Ellipsis|..] == Ellipsis
              && NoTags(p[..|p| - |Ellipsis|])
    ensures |p| <= PreviewLength + |Ellipsis|
  {
    if Present(summary) then
      var text := StripTags(summary.value);
      var cut := if |text| < PreviewLength then text else text[..PreviewLength];
      StripTagsLeavesNoTags(summary.value);
      assert NoTags(cut) by {
        forall i | 0 <= i < |cut| ensures !TagAt(cut, i) {
          assert TagAt(cut, i) ==> TagAt(text, i) by {
            if TagAt(cut, i) {
              var k := IndexOf(cut[i + 2..], '>');
              assert text[i + 2..][k] == '>';
            }
          }
        }
      }
      var p := cut + Ellipsis;
      assert p[..|p| - |Ellipsis|] == cut;
      p
    else NoDescription
  }

  // ---------------------------------------------------------------------
  // What the page is fed.

  /** As written, the page's feed is always empty: neither path of
      `fetchShows` sets a rating, and the filter needs one. */
  lemma {:induction false} HomeFeedEmptyAsWritten(key: Option<string>, popular: Option<ListPage>,
                               fetchDetail: int -> Option<TmdbDetails>, outcome: nat -> DayResult, now: int)
    ensures Filtered(Catalog.FetchShows(key, popular, fetchDetail, outcome), now) == []
    ensures HomeFeed(Catalog.FetchShows(key, popular, fetchDetail, outcome), now) == Feed([], None)
  {
    var shows := Catalog.FetchShows(key, popular, fetchDetail, outcome);
    Catalog.FetchShowsUnrated(key, popular, fetchDetail, outcome);
    UnratedNeverKept(shows, now);
    assert SortFeed([]) == [];
  }

  /** A list without ratings filters down to nothing. */
  lemma {:induction false} UnratedNeverKept(shows: seq<ShowRecord>, now: int)
    requires forall x :: x in shows ==> x.rating.None?
    ensures Filtered(shows, now) == []
    decreases |shows|
  {
    if |shows| > 0 {
      assert shows[0] in shows;
      assert !Qualifies(shows[0], now);
      assert forall x :: x in shows[1..] ==> x in shows;
      UnratedNeverKept(shows[1..], now);
    }
  }

  /** With the rated catalog mapping, a single popular show rated 8 with
      no scheduled episode reaches the feed and is featured. */
  lemma {:induction false} RatedCatalogFeedsHome(item: ListItem, d: TmdbDetails, fetchDetail: int -> Option<TmdbDetails>, now: int)
    requires fetchDetail(item.id) == Some(d)
    requires d.voteAverage == Some(8.0) && d.nextEpisodeToAir.None?
    ensures var shows := Catalog.FetchFromTmdbRated(Some(Catalog.PageOf([item])), fetchDetail).value;
            HomeFeed(shows, now) == Feed([Catalog.MapDetailRated(d)], Some(Catalog.MapDetailRated(d)))
  {
    var shows := Catalog.FetchFromTmdbRated(Some(Catalog.PageOf([item])), fetchDetail).value;
    var s := Catalog.MapDetailRated(d);
    assert shows == [s] by {
      assert |shows| <= 1;
      assert |shows| == 1;
    }
    assert Qualifies(s, now);
    assert Filtered(shows, now) == [s];
    assert SortFeed([s]) == [s] by {
      assert SortFeed([s][1..]) == [];
    }
  }
}
