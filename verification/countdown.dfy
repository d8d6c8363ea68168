/** The countdown pill (components/Countdown.tsx): the split of a millisecond
    difference into days, hours, minutes and seconds, the choice between
    "No date", "Dropped" and an ETA, the pulse, and the `[Nd ]hh:mm:ss` clock. */
module Countdown {
  import opened Wrappers
  import opened Shows
  import opened Text

  const MsPerSecond: nat := 1000
  const SecondsPerDay: nat := 86400
  const SecondsPerHour: nat := 3600
  const SecondsPerMinute: nat := 60
  /** `1000 * 60 * 60`: the last hour, during which a large pill pulses. */
  const PulseWindowMs: nat := 3600000

  datatype Parts = Parts(days: int, hours: int, minutes: int, seconds: int)

  /** The number of whole seconds a split stands for. */
  function TotalSeconds(p: Parts): int {
    p.days * SecondsPerDay + p.hours * SecondsPerHour + p.minutes * SecondsPerMinute + p.seconds
  }

  /** A split whose hours, minutes and seconds are in clock range. */
  predicate InRange(p: Parts) {
    p.days >= 0 && 0 <= p.hours < 24 && 0 <= p.minutes < 60 && 0 <= p.seconds < 60
  }

  /** `msToParts`: all zeros for a non-positive difference, otherwise the
      in-range split of its whole seconds. (`ms` is a difference of two
      integral `getTime()` values, so `Math.floor` of a positive quotient
      is integer division.) */
  function MsToParts(ms: int): (p: Parts)
    ensures ms <= 0 ==> p == Parts(0, 0, 0, 0)
    ensures InRange(p)
    ensures ms > 0 ==> TotalSeconds(p) == ms / MsPerSecond
  {
    if ms <= 0 then Parts(0, 0, 0, 0)
    else
      var total := ms / MsPerSecond;
      var p := Parts(total / SecondsPerDay, (total % SecondsPerDay) / SecondsPerHour,
                     (total % SecondsPerHour) / SecondsPerMinute, total % SecondsPerMinute);
      SplitAdds(total);
      p
  }

  lemma {:induction false} SplitAdds(total: nat)
    ensures (total / SecondsPerDay) * SecondsPerDay + ((total % SecondsPerDay) / SecondsPerHour) * SecondsPerHour
            + ((total % SecondsPerHour) / SecondsPerMinute) * SecondsPerMinute + total % SecondsPerMinute == total
  {
    var d := total / SecondsPerDay;
    var r := total % SecondsPerDay;
    var h := r / SecondsPerHour;
    var r2 := r % SecondsPerHour;
    assert total == d * SecondsPerDay + h * SecondsPerHour + r2;
    assert total % SecondsPerHour == r2 by {
      assert total == (d * 24 + h) * SecondsPerHour + r2;
      DivModUnique(total, SecondsPerHour, d * 24 + h, r2);
    }
    var m := r2 / SecondsPerMinute;
    var s := r2 % SecondsPerMinute;
    assert total % SecondsPerMinute == s by {
      assert total == (d * 1440 + h * 60 + m) * SecondsPerMinute + s;
      DivModUnique(total, SecondsPerMinute, d * 1440 + h * 60 + m, s);
    }
  }

  /** Quotient and remainder are the only such pair. */
  lemma {:induction false} DivModUnique(a: int, b: int, q: int, r: int)
    requires 0 < b && 0 <= r < b && a == q * b + r
    ensures q == a / b && r == a % b
  {
    var q0, r0 := a / b, a % b;
    var k := q - q0;
    assert k * b == r0 - r by {
      assert a == q0 * b + r0;
      assert q * b - q0 * b == (q - q0) * b;
    }
    if k >= 1 {
      MulAtLeast(k, b);
    } else if k <= -1 {
      assert (-k) * b == -(k * b);
      MulAtLeast(-k, b);
    }
  }

  lemma {:induction false} MulAtLeast(k: int, b: int)
    requires k >= 1 && b > 0
    ensures k * b >= b
  {
    assert k * b == (k - 1) * b + b;
    assert (k - 1) * b >= 0;
  }

  /** The split is the unique in-range one: any in-range split of the same
      whole seconds is `msToParts`' own. */
  lemma {:induction false} MsToPartsUnique(ms: int, p: Parts)
    requires ms > 0 && InRange(p) && TotalSeconds(p) == ms / MsPerSecond
    ensures p == MsToParts(ms)
  {
    var total := ms / MsPerSecond;
    var q := MsToParts(ms);
    var low := p.hours * SecondsPerHour + p.minutes * SecondsPerMinute + p.seconds;
    assert 0 <= low < SecondsPerDay;
    DivModUnique(total, SecondsPerDay, p.days, low);
    var low2 := p.minutes * SecondsPerMinute + p.seconds;
    DivModUnique(low, SecondsPerHour, p.hours, low2);
    DivModUnique(low2, SecondsPerMinute, p.minutes, p.seconds);
    assert total % SecondsPerHour == low2 by {
      assert total == (p.days * 24 + p.hours) * SecondsPerHour + low2;
      DivModUnique(total, SecondsPerHour, p.days * 24 + p.hours, low2);
    }
    assert total % SecondsPerMinute == p.seconds by {
      assert total == (p.days * 1440 + p.hours * 60 + p.minutes) * SecondsPerMinute + p.seconds;
      DivModUnique(total, SecondsPerMinute, p.days * 1440 + p.hours * 60 + p.minutes, p.seconds);
    }
  }

  datatype Size = Normal | Large

  /** What the pill shows; an ETA pill reads `Clock(parts)`. */
  datatype Display =
    | NoDate
    | Dropped(cls: string)
    | Eta(cls: string, parts: Parts)

  const PillClass := "countdown-pill"
  const LargePillClass := "countdown-pill-large"

  /** Whether the large pill pulses: a positive difference of at most an hour. */
  predicate Pulses(size: Size, diff: int) {
    size == Large && 0 < diff <= PulseWindowMs
  }

  /** The ETA pill's class: the large class followed by `pulse` or nothing. */
  function EtaClass(size: Size, diff: int): (cls: string)
    ensures size == Normal ==> cls == PillClass
    ensures size == Large ==> (cls == LargePillClass + " pulse" <==> diff <= PulseWindowMs)
    ensures size == Large ==> (cls == LargePillClass + " " <==> diff > PulseWindowMs)
  {
    if size == Large then LargePillClass + " " + (if diff <= PulseWindowMs then "pulse" else "") else PillClass
  }

  /** `hh:mm:ss`, each part padded to two digits. */
  function Hms(p: Parts): (t: string)
    requires InRange(p)
    ensures |t| == 8 && t[2] == ':' && t[5] == ':'
    ensures t[..2] == TwoDigits(p.hours) && t[3..5] == TwoDigits(p.minutes) && t[6..] == TwoDigits(p.seconds)
  {
    Colons(TwoDigits(p.hours), TwoDigits(p.minutes), TwoDigits(p.seconds))
  }

  /** Three two-character fields joined by colons. */
  function Colons(hh: string, mm: string, ss: string): (t: string)
    requires |hh| == 2 && |mm| == 2 && |ss| == 2
    ensures |t| == 8 && t[2] == ':' && t[5] == ':'
    ensures t[..2] == hh && t[3..5] == mm && t[6..] == ss
  {
    hh + ":" + mm + ":" + ss
  }

  /** `hh:mm:ss` reads back as the hours, minutes and seconds it shows. */
  lemma {:induction false} HmsReadsBack(p: Parts)
    requires InRange(p)
    ensures var t := Hms(p);
            && AllDigits(t[..2]) && DigitsValue(t[..2]) == p.hours
            && AllDigits(t[3..5]) && DigitsValue(t[3..5]) == p.minutes
            && AllDigits(t[6..]) && DigitsValue(t[6..]) == p.seconds
  {
    var t := Hms(p);
    assert t[..2] == TwoDigits(p.hours);
    assert t[3..5] == TwoDigits(p.minutes);
    assert t[6..] == TwoDigits(p.seconds);
  }

  /** `${days}d ` when there are whole days left, nothing otherwise. */
  function DayPrefix(days: int): string {
    if days > 0 then NatToString(days) + "d " else ""
  }

  /** `[${days}d ]hh:mm:ss`: the day count and `d ` only when there are
      whole days left, then the `hh:mm:ss` of the rest. */
  function Clock(p: Parts): (c: string)
    requires InRange(p)
    ensures |c| >= 8 && c[|c| - 8..] == Hms(p)
    ensures p.days == 0 ==> |c| == 8
    ensures p.days > 0 ==> |c| >= 11 && c[..|c| - 10] == NatToString(p.days) && c[|c| - 10..|c| - 8] == "d "
  {
    var c := DayPrefix(p.days) + Hms(p);
    assert c[|c| - 8..] == Hms(p);
    assert p.days > 0 ==> c[..|c| - 10] == NatToString(p.days) && c[|c| - 10..|c| - 8] == "d " by {
      if p.days > 0 {
        assert c == NatToString(p.days) + "d " + Hms(p);
      }
    }
    c
  }

  /** The pill for `targetIso` at `now`: "No date" when the target is
      missing or empty, "Dropped" once the difference is not positive, the
      ETA clock of `msToParts(diff)` otherwise. */
  function Render(target: Option<Stamp>, now: int, size: Size): (d: Display)
    ensures d == NoDate <==> !StampPresent(target)
    ensures d.Dropped? <==> StampPresent(target) && target.value.instant - now <= 0
    ensures d.Dropped? ==> d.cls == (if size == Large then LargePillClass else PillClass)
    ensures d.Eta? ==> d.cls == EtaClass(size, target.value.instant - now)
                       && d.parts == MsToParts(target.value.instant - now)
  {
    if !StampPresent(target) then NoDate
    else
      var diff := target.value.instant - now;
      if diff <= 0 then Dropped(if size == Large then LargePillClass else PillClass)
      else Eta(EtaClass(size, diff), MsToParts(diff))
  }

  /** A shown ETA pulses exactly when the pill is large and the target is at
      most an hour away; a dropped or undated pill never pulses. */
  lemma {:induction false} PulseOnlyInLastHour(target: Option<Stamp>, now: int, size: Size)
    ensures var d := Render(target, now, size);
            d.Eta? && d.cls == LargePillClass + " pulse" <==>
            StampPresent(target) && Pulses(size, target.value.instant - now)
  {
    var d := Render(target, now, size);
    if d.Eta? && size == Normal {
      assert d.cls != LargePillClass + " pulse" by {
        assert |d.cls| == |PillClass|;
      }
    }
    if d.Eta? && size == Large {
      var diff := target.value.instant - now;
      if diff > PulseWindowMs {
        assert d.cls == LargePillClass + " ";
      }
    }
  }

  /** Either side of a day boundary: 86 399 999 ms is 0 days 23:59:59 and
      86 400 000 ms is 1 day 00:00:00. */
  lemma {:induction false} DayBoundary()
    ensures MsToParts(86399999) == Parts(0, 23, 59, 59)
    ensures MsToParts(86400000) == Parts(1, 0, 0, 0)
  {
    MsToPartsUnique(86399999, Parts(0, 23, 59, 59));
    MsToPartsUnique(86400000, Parts(1, 0, 0, 0));
  }

  /** The clock at a whole day: the day count, then a zero clock. */
  lemma {:induction false} OneDayClock()
    ensures Clock(Parts(1, 0, 0, 0)) == "1d 00:00:00"
  {
    assert NatToString(0) == "0" && TwoDigits(0) == "00";
    assert Hms(Parts(1, 0, 0, 0)) == "00:00:00";
    assert NatToString(1) == "1" && DayPrefix(1) == "1d ";
  }
}
