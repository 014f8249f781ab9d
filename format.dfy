/**
 * Display text for durations and counts (`src/utils/format.ts`). Durations
 * are whole, non-negative numbers of seconds and counts whole numbers; the
 * fractional inputs JavaScript would also accept are not modelled.
 */
module Format {
  import opened Wrappers
  import opened Text

  predicate AllDigits(s: string) {
    forall i :: 0 <= i < |s| ==> IsDigit(s[i])
  }

  /** The seconds field: a leading zero below 10. */
  function Padded(secs: nat): string {
    (if secs < 10 then "0" else "") + NatToString(secs)
  }

  /** `formatDuration`: the whole minutes, a colon, and the seconds within the minute. */
  function FormatDuration(seconds: nat): string {
    NatToString(seconds / 60) + ":" + Padded(seconds % 60)
  }

  /** Reads an `m:ss` text back: minutes before the first colon, seconds after it. */
  function DurationValue(t: string): Option<nat> {
    var k := IndexOf(t, ':');
    if k < 0 || !AllDigits(t[..k]) || !AllDigits(t[k + 1..]) then None
    else Some(DigitsValue(t[..k]) * 60 + DigitsValue(t[k + 1..]))
  }

  /** Below 100 the seconds field is two digits holding the value. */
  lemma PaddedDigits(secs: nat)
    requires secs < 100
    ensures |Padded(secs)| == 2 && AllDigits(Padded(secs)) && DigitsValue(Padded(secs)) == secs
  {
    var p := Padded(secs);
    DigitsOfNatToString(secs);
    if secs < 10 {
      assert p[..1] == "0";
    } else {
      assert NatToString(secs) == NatToString(secs / 10) + [DigitChar(secs % 10)];
    }
  }

  /**
   * The duration text is the minutes in decimal, one colon, and exactly two
   * digits holding the seconds within the minute, which is below 60.
   */
  lemma FormatDurationShape(seconds: nat)
    ensures var r := FormatDuration(seconds);
      var k := IndexOf(r, ':');
      && k >= 0 && |r| == k + 3
      && AllDigits(r[..k]) && DigitsValue(r[..k]) == seconds / 60
      && AllDigits(r[k + 1..]) && DigitsValue(r[k + 1..]) == seconds % 60 < 60
  {
    var r := FormatDuration(seconds);
    var m := NatToString(seconds / 60);
    PaddedDigits(seconds % 60);
    DigitsOfNatToString(seconds / 60);
    assert r == m + ":" + Padded(seconds % 60);
    assert r[|m|] == ':';
    assert ':' !in m by {
      forall i | 0 <= i < |m|
        ensures m[i] != ':'
      {
        assert IsDigit(m[i]);
      }
    }
    assert r[..|m|] == m;
    assert IndexOf(r, ':') == |m|;
    assert r[|m| + 1..] == Padded(seconds % 60);
  }

  /** Reading a duration text back gives the seconds it was made from. */
  lemma DurationRoundTrip(seconds: nat)
    ensures DurationValue(FormatDuration(seconds)) == Some(seconds)
  {
    FormatDurationShape(seconds);
  }

  /** `${count} ${count === 1 ? noun : nouns}` with the plural made by adding `s`. */
  function CountText(count: int, noun: string): string {
    IntToString(count) + " " + (if count == 1 then noun else noun + "s")
  }

  /** `formatTrackCount`. */
  function FormatTrackCount(count: int): string {
    CountText(count, "track")
  }

  /** `formatSongCount`. */
  function FormatSongCount(count: int): string {
    CountText(count, "song")
  }

  /** A decimal number starts with `-` exactly when it is negative. */
  lemma SignOf(n: int)
    ensures IntToString(n)[0] == '-' <==> n < 0
  {
    if n >= 0 {
      assert IsDigit(IntToString(n)[0]);
    }
  }

  lemma IntToStringInjective(a: int, b: int)
    requires IntToString(a) == IntToString(b)
    ensures a == b
  {
    SignOf(a);
    SignOf(b);
    if a >= 0 {
      NatToStringInjective(a, b);
    } else {
      assert NatToString(-a) == IntToString(a)[1..];
      NatToStringInjective(-a, -b);
    }
  }

  /** A decimal number holds no space. */
  lemma NoSpaceInNumber(n: int)
    ensures ' ' !in IntToString(n)
  {
    var s := IntToString(n);
    if n >= 0 {
      assert forall i :: 0 <= i < |s| ==> IsDigit(s[i]);
    } else {
      assert forall i :: 1 <= i < |s| ==> s[i] == NatToString(-n)[i - 1];
    }
  }

  lemma FirstSpace(x: string, w: string)
    requires ' ' !in x
    ensures IndexOf(x + " " + w, ' ') == |x|
  {
    var r := x + " " + w;
    assert r[|x|] == ' ';
    assert r[..|x|] == x;
  }

  /** Different counts never share a label. */
  lemma CountTextInjective(a: int, b: int, noun: string)
    requires CountText(a, noun) == CountText(b, noun)
    ensures a == b
  {
    var x, y := IntToString(a), IntToString(b);
    var r := CountText(a, noun);
    NoSpaceInNumber(a);
    NoSpaceInNumber(b);
    FirstSpace(x, if a == 1 then noun else noun + "s");
    FirstSpace(y, if b == 1 then noun else noun + "s");
    assert x == r[..|x|] == y;
    IntToStringInjective(a, b);
  }

  /** The label ends in `s` exactly when the count is not 1. */
  lemma CountTextPlural(count: int, noun: string)
    requires noun != [] && noun[|noun| - 1] != 's'
    ensures var r := CountText(count, noun);
      r[|r| - 1] == 's' <==> count != 1
  {
  }

  /** "1 track" and "1 song"; every other count takes the plural. */
  lemma CountLabels(count: int)
    ensures var t := FormatTrackCount(count);
      && (t[|t| - 1] == 's' <==> count != 1)
      && (forall other :: FormatTrackCount(other) == t ==> other == count)
    ensures var s := FormatSongCount(count);
      && (s[|s| - 1] == 's' <==> count != 1)
      && (forall other :: FormatSongCount(other) == s ==> other == count)
  {
    CountTextPlural(count, "track");
    CountTextPlural(count, "song");
    forall other | FormatTrackCount(other) == FormatTrackCount(count)
      ensures other == count
    {
      CountTextInjective(other, count, "track");
    }
    forall other | FormatSongCount(other) == FormatSongCount(count)
      ensures other == count
    {
      CountTextInjective(other, count, "song");
    }
  }
}
