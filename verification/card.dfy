/** A show card (components/ShowCard.tsx): the poster or the initials
    placeholder, the network/premiere subtitle, the next-episode label and
    the large countdown. */
module Card {
  import opened Wrappers
  import opened Shows
  import opened Text
  import opened Payloads
  import Catalog
  import SearchRoute
  import Countdown

  const Tba := "TBA"
  const Streaming := "Streaming"
  const NoPremiere := "—"
  const Separator := " • "
  /** How JavaScript writes a missing value into a template string. */
  const Undefined := "undefined"

  // ---------------------------------------------------------------------
  // Initials.

  /** `piece[0]`, which for an empty piece is `undefined` and joins as nothing. */
  function Head(piece: string): (r: string)
    ensures |r| <= 1
    ensures |r| == 1 <==> |piece| > 0
    ensures |r| == 1 ==> r[0] == piece[0]
  {
    if |piece| > 0 then [piece[0]] else ""
  }

  /** `name.split(" ").map(s => s[0]).slice(0, 2).join("")`: the first
      characters of the first two pieces; an empty piece still takes a
      place but adds nothing. */
  function Initials(name: string): (r: string)
    ensures |r| <= 2
    ensures forall i :: 0 <= i < |r| ==> r[i] in name && r[i] != ' '
    ensures |name| > 0 && name[0] != ' ' ==> |r| >= 1 && r[0] == name[0]
    ensures ' ' !in name ==> r == Head(name)
  {
    var pieces := Split(name, ' ');
    var r := Head(pieces[0]) + (if |pieces| > 1 then Head(pieces[1]) else "");
    assert forall i :: 0 <= i < |r| ==> r[i] in name && r[i] != ' ' by {
      forall i | 0 <= i < |r| ensures r[i] in name && r[i] != ' ' {
        if i < |Head(pieces[0])| {
          assert r[i] == pieces[0][0];
        } else {
          assert r[i] == pieces[1][0];
        }
      }
    }
    r
  }

  /** Two words give both initials. */
  lemma {:induction false} InitialsOfTwoWords(a: string, b: string)
    requires |a| > 0 && |b| > 0 && ' ' !in a && ' ' !in b
    ensures Initials(a + " " + b) == [a[0], b[0]]
  {
    assert a + " " + b == a + [' '] + b;
    SplitPiece(a, ' ', b);
  }

  /** Whatever follows the second word is ignored. */
  lemma {:induction false} InitialsIgnoreRest(a: string, b: string, rest: string)
    requires |a| > 0 && |b| > 0 && ' ' !in a && ' ' !in b
    ensures Initials(a + " " + b + " " + rest) == [a[0], b[0]]
  {
    assert a + " " + b + " " + rest == a + [' '] + (b + [' '] + rest);
    SplitPiece(a, ' ', b + [' '] + rest);
    SplitPiece(b, ' ', rest);
  }

  /** A leading blank uses up a place with an empty piece, so only one
      initial is left. */
  lemma {:induction false} InitialsAfterBlank(a: string, b: string)
    requires |a| > 0 && |b| > 0 && ' ' !in a && ' ' !in b
    ensures Initials(" " + a + " " + b) == [a[0]]
  {
    assert " " + a + " " + b == [] + [' '] + (a + [' '] + b);
    SplitPiece([], ' ', a + [' '] + b);
    SplitPiece(a, ' ', b);
  }

  // ---------------------------------------------------------------------
  // The next-episode label.

  /** A number as a template string writes it; a missing field is `undefined`. */
  function Field(v: Option<int>): (r: string)
    ensures v.Some? ==> ParseInt(r) == Some(v.value)
    ensures v.None? ==> r == Undefined
  {
    match v
    case Some(n) => IntToStringRoundTrip(n); IntToString(n)
    case None => Undefined
  }

  /** The label as written: `S${next.season} E${next.number}`, or "TBA"
      without a next episode. It reads only the schedule provider's field
      names. */
  function EpisodeLabel(next: Option<Episode>): (r: string)
    ensures next.None? ==> r == Tba
    ensures next.Some? && next.value.season.Some? && next.value.number.Some? ==>
              ParseEpisodeLabel(r) == Some((next.value.season.value, next.value.number.value))
  {
    match next
    case None => Tba
    case Some(e) =>
      var r := "S" + Field(e.season) + " E" + Field(e.number);
      assert e.season.Some? && e.number.Some? ==> ParseEpisodeLabel(r) == Some((e.season.value, e.number.value)) by {
        if e.season.Some? && e.number.Some? {
          LabelReadsBack(e.season.value, e.number.value);
        }
      }
      r
  }

  /** As written, a catalog episode, which carries `season_number` and
      `episode_number` instead, is labelled "Sundefined Eundefined". */
  lemma {:induction false} CatalogEpisodeLabelAsWritten(e: Episode)
    requires e.season.None? && e.number.None?
    ensures EpisodeLabel(Some(e)) == "S" + Undefined + " E" + Undefined
    ensures ParseEpisodeLabel(EpisodeLabel(Some(e))) == None
  {
    assert Field(e.season) == Undefined && Field(e.number) == Undefined;
    UndefinedLabelUnreadable();
  }

  /** `Sundefined Eundefined` does not read as a season and an episode. */
  lemma {:induction false} UndefinedLabelUnreadable()
    ensures ParseEpisodeLabel("S" + Undefined + " E" + Undefined) == None
  {
    var t := "S" + Undefined + " E" + Undefined;
    var tail := "E" + Undefined;
    assert t[1..] == Undefined + [' '] + tail;
    SplitPiece(Undefined, ' ', tail);
    assert ' ' !in tail;
    assert Split(tail, ' ') == [tail];
    assert !IsDigit(Undefined[0]) && Undefined[0] != '-';
    assert ParseInt(Undefined) == None;
  }

  /** The label as intended: the season and episode numbers of either
      provider, schedule fields first. */
  function EpisodeLabelUnified(next: Option<Episode>): (r: string)
    ensures next.None? ==> r == Tba
    ensures next.Some? ==>
              var season := if next.value.season.Some? then next.value.season else next.value.seasonNumber;
              var number := if next.value.number.Some? then next.value.number else next.value.episodeNumber;
              season.Some? && number.Some? ==> ParseEpisodeLabel(r) == Some((season.value, number.value))
  {
    match next
    case None => Tba
    case Some(e) =>
      var season := if e.season.Some? then e.season else e.seasonNumber;
      var number := if e.number.Some? then e.number else e.episodeNumber;
      var r := "S" + Field(season) + " E" + Field(number);
      assert season.Some? && number.Some? ==> ParseEpisodeLabel(r) == Some((season.value, number.value)) by {
        if season.Some? && number.Some? {
          LabelReadsBack(season.value, number.value);
        }
      }
      r
  }

  /** Reads an `S<season> E<number>` label back. */
  function ParseEpisodeLabel(text: string): Option<(int, int)> {
    if |text| == 0 || text[0] != 'S' then None
    else
      var pieces := Split(text[1..], ' ');
      if |pieces| != 2 || |pieces[1]| == 0 || pieces[1][0] != 'E' then None
      else match (ParseInt(pieces[0]), ParseInt(pieces[1][1..]))
        case (Some(s), Some(n)) => Some((s, n))
        case _ => None
  }

  /** A label of two numbers reads back as those numbers. */
  lemma {:induction false} LabelReadsBack(season: int, number: int)
    ensures ParseEpisodeLabel("S" + IntToString(season) + " E" + IntToString(number)) == Some((season, number))
  {
    NoBlankIn(season);
    NoBlankIn(number);
    IntToStringRoundTrip(season);
    IntToStringRoundTrip(number);
    LabelParts(IntToString(season), IntToString(number));
  }

  /** `S<a> E<n>` with blank-free `a` and `n` reads back as the two
      integers they spell, when they do. */
  lemma {:induction false} LabelParts(a: string, n: string)
    requires ' ' !in a && ' ' !in n
    requires ParseInt(a).Some? && ParseInt(n).Some?
    ensures ParseEpisodeLabel("S" + a + " E" + n) == Some((ParseInt(a).value, ParseInt(n).value))
  {
    var b := "E" + n;
    var text := "S" + a + " E" + n;
    assert text[1..] == a + [' '] + b;
    assert ' ' !in b by {
      assert b == ['E'] + n;
    }
    SplitPiece(a, ' ', b);
    var pieces := Split(text[1..], ' ');
    assert pieces == [a, b];
    assert pieces[1][1..] == n;
  }

  /** An integer's spelling has no blank. */
  lemma {:induction false} NoBlankIn(i: int)
    ensures ' ' !in IntToString(i)
  {
    var a := IntToString(i);
    IntToStringChars(i);
    forall k | 0 <= k < |a| ensures a[k] != ' ' {
      assert IsDigit(a[k]) || a[k] == '-';
    }
  }

  /** With the intended label a catalog episode shows its numbers. */
  lemma {:induction false} CatalogEpisodeLabelUnified(e: Episode, season: int, number: int)
    requires e.season.None? && e.number.None?
    requires e.seasonNumber == Some(season) && e.episodeNumber == Some(number)
    ensures ParseEpisodeLabel(EpisodeLabelUnified(Some(e))) == Some((season, number))
    ensures EpisodeLabelUnified(Some(e)) != EpisodeLabel(Some(e))
  {
    CatalogEpisodeLabelAsWritten(e);
  }

  // ---------------------------------------------------------------------
  // Subtitle and picture.

  /** `network?.name ?? type ?? "Streaming"`: `??` keeps an empty name. */
  function NetworkLabel(s: ShowRecord): (r: string)
    ensures s.network.Some? && s.network.value.name.Some? ==> r == s.network.value.name.value
    ensures (s.network.None? || s.network.value.name.None?) && s.showType.Some? ==> r == s.showType.value
    ensures (s.network.None? || s.network.value.name.None?) && s.showType.None? ==> r == Streaming
  {
    if s.network.Some? && s.network.value.name.Some? then s.network.value.name.value
    else s.showType.GetOr(Streaming)
  }

  /** `<network> • <premiered ?? "—">`. */
  function Subtitle(s: ShowRecord): (r: string)
    ensures |r| == |NetworkLabel(s)| + |Separator| + |s.premiered.GetOr(NoPremiere)|
    ensures r[..|NetworkLabel(s)|] == NetworkLabel(s)
    ensures r[|NetworkLabel(s)|..|NetworkLabel(s)| + |Separator|] == Separator
    ensures r[|NetworkLabel(s)| + |Separator|..] == s.premiered.GetOr(NoPremiere)
  {
    var r := NetworkLabel(s) + Separator + s.premiered.GetOr(NoPremiere);
    assert r[|NetworkLabel(s)|..|NetworkLabel(s)| + |Separator|] == Separator;
    r
  }

  /** A searched show has no type, so its card names its network or says
      "Streaming". */
  lemma {:induction false} SearchedShowSubtitle(js: SearchShow)
    ensures var s := SearchRoute.Normalise(js);
            NetworkLabel(s) == (if js.show.network.Some? && js.show.network.value.name.Some?
                                then js.show.network.value.name.value else Streaming)
  {
  }

  datatype Picture = Poster(src: string) | Placeholder(initials: string)

  /** The poster when `image.medium` is truthy and has not failed to load;
      otherwise the name's initials. */
  function PictureOf(s: ShowRecord, imgError: bool): (p: Picture)
    ensures p.Poster? <==> s.image.Some? && Present(s.image.value.medium) && !imgError
    ensures p.Poster? ==> p.src == s.image.value.medium.value
    ensures p.Placeholder? ==> p.initials == Initials(s.name)
  {
    if s.image.Some? && Present(s.image.value.medium) && !imgError then Poster(s.image.value.medium.value)
    else Placeholder(Initials(s.name))
  }

  /** A catalog record shows its poster until it fails to load, and its
      initials when it has no poster. */
  lemma {:induction false} CatalogPicture(s: ShowRecord, path: Option<string>, imgError: bool)
    requires s.image == Catalog.PosterImage(path)
    ensures Present(path) && !imgError ==> PictureOf(s, imgError) == Poster(Catalog.ImageBase + path.value)
    ensures !Present(path) || imgError ==> PictureOf(s, imgError) == Placeholder(Initials(s.name))
  {
  }

  // ---------------------------------------------------------------------
  // The card.

  datatype CardView = CardView(
    picture: Picture,
    title: string,
    subtitle: string,
    episode: string,
    countdown: Countdown.Display)

  /** The card at `now`, as written: the episode label reads the schedule
      provider's fields only. */
  function Card(s: ShowRecord, imgError: bool, now: int): (c: CardView)
    ensures c.picture == PictureOf(s, imgError) && c.title == s.name && c.subtitle == Subtitle(s)
    ensures c.episode == EpisodeLabel(s.nextEpisode)
    ensures c.countdown == Countdown.Render(s.nextAirstamp, now, Countdown.Large)
  {
    CardView(PictureOf(s, imgError), s.name, Subtitle(s), EpisodeLabel(s.nextEpisode),
             Countdown.Render(s.nextAirstamp, now, Countdown.Large))
  }

  /** The card as intended: the same card with the episode label read from
      either provider's fields. It differs from the card as written only for
      an episode without both schedule fields, and a catalog episode's
      label then reads back as its season and number. */
  function CardUnified(s: ShowRecord, imgError: bool, now: int): (c: CardView)
    ensures c.(episode := "") == Card(s, imgError, now).(episode := "")
    ensures s.nextEpisode.None? || (s.nextEpisode.value.season.Some? && s.nextEpisode.value.number.Some?) ==>
              c == Card(s, imgError, now)
    ensures s.nextEpisode.Some? && s.nextEpisode.value.season.None? && s.nextEpisode.value.number.None? &&
            s.nextEpisode.value.seasonNumber.Some? && s.nextEpisode.value.episodeNumber.Some? ==>
              ParseEpisodeLabel(c.episode) == Some((s.nextEpisode.value.seasonNumber.value, s.nextEpisode.value.episodeNumber.value))
  {
    Card(s, imgError, now).(episode := EpisodeLabelUnified(s.nextEpisode))
  }
}
