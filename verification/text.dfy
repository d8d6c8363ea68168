/** The string operations the program leans on: JavaScript's decimal
    rendering of integers (template literals and `String(n)`),
    `padStart`, and `split` on a one-character separator with its inverse
    `join`. */
module Text {
  import opened Wrappers

  predicate IsDigit(c: char) {
    '0' <= c <= '9'
  }

  predicate AllDigits(s: string) {
    forall i :: 0 <= i < |s| ==> IsDigit(s[i])
  }

  function DigitChar(d: nat): (c: char)
    requires d < 10
    ensures IsDigit(c) && c as int - '0' as int == d
  {
    (d + '0' as int) as char
  }

  /** The decimal spelling of a natural number, with no leading zero. */
  function NatToString(n: nat): (s: string)
    ensures 1 <= |s| && AllDigits(s)
    ensures n >= 1 ==> s[0] != '0'
    ensures n < 10 <==> |s| == 1
    decreases n
  {
    if n < 10 then [DigitChar(n)] else NatToString(n / 10) + [DigitChar(n % 10)]
  }

  /** The number a string of decimal digits denotes. */
  function DigitsValue(s: string): nat
    requires AllDigits(s)
  {
    if |s| == 0 then 0 else 10 * DigitsValue(s[..|s| - 1]) + (s[|s| - 1] as int - '0' as int)
  }

  lemma {:induction false} NatToStringRoundTrip(n: nat)
    ensures DigitsValue(NatToString(n)) == n
    decreases n
  {
    if n >= 10 {
      var s := NatToString(n);
      assert s[..|s| - 1] == NatToString(n / 10);
      NatToStringRoundTrip(n / 10);
    }
  }

  /** `${i}` for an integer `i`. */
  function IntToString(i: int): (s: string)
    ensures 1 <= |s|
    ensures i < 0 <==> s[0] == '-'
  {
    if i < 0 then "-" + NatToString(-i) else NatToString(i)
  }

  /** An integer's spelling holds digits and the sign only. */
  lemma {:induction false} IntToStringChars(i: int)
    ensures forall k :: 0 <= k < |IntToString(i)| ==> IsDigit(IntToString(i)[k]) || IntToString(i)[k] == '-'
  {
  }

  /** Reads back an integer written by `IntToString`; `None` for anything else. */
  function ParseInt(s: string): Option<int> {
    if 2 <= |s| && s[0] == '-' && AllDigits(s[1..]) then Some(-(DigitsValue(s[1..]) as int))
    else if 1 <= |s| && AllDigits(s) then Some(DigitsValue(s))
    else None
  }

  lemma {:induction false} IntToStringRoundTrip(i: int)
    ensures ParseInt(IntToString(i)) == Some(i)
  {
    var s := IntToString(i);
    if i < 0 {
      var n := NatToString(-i);
      assert s == "-" + n;
      assert s[1..] == n;
      NatToStringRoundTrip(-i);
      assert ParseInt(s) == Some(-(DigitsValue(n) as int));
    } else {
      assert s == NatToString(i);
      assert IsDigit(s[0]);
      NatToStringRoundTrip(i);
      assert ParseInt(s) == Some(DigitsValue(s));
    }
  }

  /** Distinct integers are spelled differently. */
  lemma {:induction false} IntToStringInjective(i: int, j: int)
    requires IntToString(i) == IntToString(j)
    ensures i == j
  {
    IntToStringRoundTrip(i);
    IntToStringRoundTrip(j);
  }

  /** `s.padStart(width, fill)`. */
  function PadStart(s: string, width: nat, fill: char): (r: string)
    ensures |r| == if |s| < width then width else |s|
    ensures r[|r| - |s|..] == s
    ensures forall i :: 0 <= i < |r| - |s| ==> r[i] == fill
  {
    if |s| < width then seq(width - |s|, _ => fill) + s else s
  }

  /** `String(n).padStart(2, "0")`: below 100 it is exactly two digits that
      spell `n`. */
  function TwoDigits(n: nat): (r: string)
    ensures AllDigits(r)
    ensures n < 100 ==> |r| == 2 && DigitsValue(r) == n
  {
    var s := NatToString(n);
    NatToStringRoundTrip(n);
    var r := PadStart(s, 2, '0');
    if |s| < 2 then
      assert r == ['0'] + s;
      assert r[..|r| - 1] == "0";
      r
    else
      r
  }

  /** `s.split(sep)` for a one-character separator: the pieces between the
      separators, including empty ones. */
  function Split(s: string, sep: char): (pieces: seq<string>)
    ensures 1 <= |pieces|
    ensures forall i :: 0 <= i < |pieces| ==> sep !in pieces[i]
    ensures forall i, j :: 0 <= i < |pieces| && 0 <= j < |pieces[i]| ==> pieces[i][j] in s
    ensures sep !in s ==> pieces == [s]
    ensures 1 <= |s| && s[0] != sep ==> 1 <= |pieces[0]| && pieces[0][0] == s[0]
    ensures 1 <= |s| && s[0] == sep ==> pieces[0] == ""
  {
    if |s| == 0 then [""]
    else if s[0] == sep then [""] + Split(s[1..], sep)
    else
      var rest := Split(s[1..], sep);
      assert s == [s[0]] + s[1..];
      [[s[0]] + rest[0]] + rest[1..]
  }

  /** `pieces.join(sep)`. */
  function Join(pieces: seq<string>, sep: char): string
    requires 1 <= |pieces|
  {
    if |pieces| == 1 then pieces[0] else pieces[0] + [sep] + Join(pieces[1..], sep)
  }

  /** Joining the pieces of a split with the same separator gives back the string. */
  lemma {:induction false} JoinSplit(s: string, sep: char)
    ensures Join(Split(s, sep), sep) == s
  {
    if |s| == 0 {
    } else {
      var rest := Split(s[1..], sep);
      JoinSplit(s[1..], sep);
      if s[0] == sep {
        JoinEmptyFirst(rest, sep);
      } else {
        JoinExtendFirst(s[0], rest, sep);
      }
      assert s == [s[0]] + s[1..];
    }
  }

  /** An empty first piece contributes only its separator. */
  lemma {:induction false} JoinEmptyFirst(rest: seq<string>, sep: char)
    requires 1 <= |rest|
    ensures Join([""] + rest, sep) == [sep] + Join(rest, sep)
  {
    assert ([""] + rest)[1..] == rest;
  }

  /** A character in front of the first piece lands in front of the join. */
  lemma {:induction false} JoinExtendFirst(c: char, rest: seq<string>, sep: char)
    requires 1 <= |rest|
    ensures Join([[c] + rest[0]] + rest[1..], sep) == [c] + Join(rest, sep)
  {
    var pieces := [[c] + rest[0]] + rest[1..];
    if |rest| > 1 {
      assert pieces[1..] == rest[1..];
    }
  }

  /** A piece free of the separator, then the separator, splits off as the
      first piece. */
  lemma {:induction false} SplitPiece(a: string, sep: char, t: string)
    requires sep !in a
    ensures Split(a + [sep] + t, sep) == [a] + Split(t, sep)
    decreases |a|
  {
    var s := a + [sep] + t;
    if |a| == 0 {
      assert s[1..] == t;
    } else {
      assert s[1..] == a[1..] + [sep] + t;
      SplitPiece(a[1..], sep, t);
      assert [a[0]] + a[1..] == a;
    }
  }
}
