/**
 * String helpers shared by the model: the parts of JavaScript's `String`
 * API the source relies on (trim, case mapping, prefix/substring tests,
 * splitting at one character, decimal rendering of whole numbers).
 * Case mapping covers ASCII letters only.
 */
module Text {

  /** The characters `String.prototype.trim` removes. */
  predicate IsWhitespace(c: char) {
    c == ' ' || c == '\t' || c == '\n' || c == '\r' || c == '\U{000B}' || c == '\U{000C}'
    || c == '\U{00A0}' || c == '\U{1680}' || ('\U{2000}' <= c <= '\U{200A}')
    || c == '\U{2028}' || c == '\U{2029}' || c == '\U{202F}' || c == '\U{205F}'
    || c == '\U{3000}' || c == '\U{FEFF}'
  }

  /**
   * `s.trim()`: drops leading and trailing whitespace and nothing else
   * (`TrimSlice` says which part of `s` is kept).
   */
  function Trim(s: string): (r: string)
    ensures |r| <= |s|
    ensures IsTrimmed(r)
    decreases |s|
  {
    if s == [] then s
    else if IsWhitespace(s[0]) then Trim(s[1..])
    else if IsWhitespace(s[|s| - 1]) then Trim(s[..|s| - 1])
    else s
  }

  predicate IsTrimmed(s: string) {
    s == [] || (!IsWhitespace(s[0]) && !IsWhitespace(s[|s| - 1]))
  }

  lemma TrimOfTrimmed(s: string)
    requires IsTrimmed(s)
    ensures Trim(s) == s
  {
  }

  /** `Trim(s)` is the slice `s[lo..hi]`, and everything outside it is whitespace. */
  lemma {:induction false} TrimSlice(s: string) returns (lo: nat, hi: nat)
    ensures lo <= hi <= |s| && Trim(s) == s[lo..hi]
    ensures forall i :: 0 <= i < lo ==> IsWhitespace(s[i])
    ensures forall i :: hi <= i < |s| ==> IsWhitespace(s[i])
    decreases |s|
  {
    if s == [] {
      lo, hi := 0, 0;
    } else if IsWhitespace(s[0]) {
      var l, h := TrimSlice(s[1..]);
      lo, hi := l + 1, h + 1;
      assert s[1..][l..h] == s[lo..hi];
    } else if IsWhitespace(s[|s| - 1]) {
      lo, hi := TrimSlice(s[..|s| - 1]);
      assert s[..|s| - 1][lo..hi] == s[lo..hi];
    } else {
      lo, hi := 0, |s|;
    }
  }

  lemma TrimIdempotent(s: string)
    ensures Trim(Trim(s)) == Trim(s)
  {
    TrimOfTrimmed(Trim(s));
  }

  /** Nothing but whitespace. */
  predicate AllBlank(w: string) {
    forall i :: 0 <= i < |w| ==> IsWhitespace(w[i])
  }

  /** Trimming drops whitespace in front of the text. */
  lemma {:induction false} TrimBlankPrefix(w: string, a: string)
    requires AllBlank(w)
    ensures Trim(w + a) == Trim(a)
    decreases |w|
  {
    if w != [] {
      assert (w + a)[0] == w[0] && (w + a)[1..] == w[1..] + a;
      TrimBlankPrefix(w[1..], a);
    } else {
      assert w + a == a;
    }
  }

  /** Trimming drops whitespace after the text. */
  lemma {:induction false} TrimBlankSuffix(a: string, w: string)
    requires AllBlank(w)
    ensures Trim(a + w) == Trim(a)
    decreases |a| + |w|
  {
    if a == [] {
      assert a + w == w && w + [] == w;
      TrimBlankPrefix(w, []);
    } else if IsWhitespace(a[0]) {
      assert (a + w)[0] == a[0] && (a + w)[1..] == a[1..] + w;
      TrimBlankSuffix(a[1..], w);
    } else if w != [] {
      var n := |a + w| - 1;
      assert (a + w)[n] == w[|w| - 1] && (a + w)[..n] == a + w[..|w| - 1];
      TrimBlankSuffix(a, w[..|w| - 1]);
    } else {
      assert a + w == a;
    }
  }

  function LowerChar(c: char): (r: char)
    ensures 'A' <= c <= 'Z' ==> r as int == c as int + 32
    ensures !('A' <= c <= 'Z') ==> r == c
  {
    if 'A' <= c <= 'Z' then (c as int + 32) as char else c
  }

  function UpperChar(c: char): (r: char)
    ensures 'a' <= c <= 'z' ==> r as int == c as int - 32
    ensures !('a' <= c <= 'z') ==> r == c
  {
    if 'a' <= c <= 'z' then (c as int - 32) as char else c
  }

  /** `s.toLowerCase()` on ASCII letters. */
  function ToLower(s: string): (r: string)
    ensures |r| == |s| && forall i :: 0 <= i < |s| ==> r[i] == LowerChar(s[i])
  {
    seq(|s|, i requires 0 <= i < |s| => LowerChar(s[i]))
  }

  /** `s.toUpperCase()` on ASCII letters. */
  function ToUpper(s: string): (r: string)
    ensures |r| == |s| && forall i :: 0 <= i < |s| ==> r[i] == UpperChar(s[i])
  {
    seq(|s|, i requires 0 <= i < |s| => UpperChar(s[i]))
  }

  lemma ToLowerIdempotent(s: string)
    ensures ToLower(ToLower(s)) == ToLower(s)
  {
  }

  lemma ToUpperOfToLower(s: string)
    ensures ToUpper(ToLower(s)) == ToUpper(s)
  {
  }

  lemma ToUpperIdempotent(s: string)
    ensures ToUpper(ToUpper(s)) == ToUpper(s)
  {
  }

  lemma ToLowerOfToUpper(s: string)
    ensures ToLower(ToUpper(s)) == ToLower(s)
  {
  }

  /** Upper-casing leaves no lower-case ASCII letter. */
  predicate NoLowerCase(s: string) {
    forall i :: 0 <= i < |s| ==> !('a' <= s[i] <= 'z')
  }

  /** Case mapping only moves letters, so it keeps every other character where it was. */
  lemma UpperKeepsOthers(s: string, c: char)
    requires !('a' <= c <= 'z') && !('A' <= c <= 'Z')
    ensures c in ToUpper(s) <==> c in s
    ensures forall i :: 0 <= i < |s| ==> (ToUpper(s)[i] == c <==> s[i] == c)
  {
    if c in ToUpper(s) {
      var i :| 0 <= i < |s| && ToUpper(s)[i] == c;
      assert s[i] == c;
    }
  }

  lemma ToUpperSlice(s: string, lo: int, hi: int)
    requires 0 <= lo <= hi <= |s|
    ensures ToUpper(s[lo..hi]) == ToUpper(s)[lo..hi]
  {
  }

  lemma ToLowerSlice(s: string, lo: int, hi: int)
    requires 0 <= lo <= hi <= |s|
    ensures ToLower(s[lo..hi]) == ToLower(s)[lo..hi]
  {
  }

  lemma WhitespaceUpper(c: char)
    ensures IsWhitespace(UpperChar(c)) <==> IsWhitespace(c)
  {
  }

  /** Trimming and upper-casing commute: letters are never whitespace. */
  lemma {:induction false} ToUpperTrim(s: string)
    ensures ToUpper(Trim(s)) == Trim(ToUpper(s))
    decreases |s|
  {
    if s != [] {
      var u := ToUpper(s);
      var n := |s| - 1;
      WhitespaceUpper(s[0]);
      WhitespaceUpper(s[n]);
      assert u[0] == UpperChar(s[0]) && u[n] == UpperChar(s[n]);
      if IsWhitespace(s[0]) {
        ToUpperSlice(s, 1, |s|);
        assert s[1..|s|] == s[1..] && u[1..|s|] == u[1..];
        calc {
          ToUpper(Trim(s));
          ToUpper(Trim(s[1..]));
          { ToUpperTrim(s[1..]); }
          Trim(ToUpper(s[1..]));
          Trim(u[1..]);
          Trim(u);
        }
      } else if IsWhitespace(s[n]) {
        ToUpperSlice(s, 0, n);
        assert s[0..n] == s[..n] && u[0..n] == u[..n];
        calc {
          ToUpper(Trim(s));
          ToUpper(Trim(s[..n]));
          { ToUpperTrim(s[..n]); }
          Trim(ToUpper(s[..n]));
          Trim(u[..n]);
          Trim(u);
        }
      }
    }
  }

  /** Splitting at a character that is not a letter commutes with upper-casing. */
  lemma ToUpperFirstSegment(s: string, c: char)
    requires !('a' <= c <= 'z') && !('A' <= c <= 'Z')
    ensures ToUpper(FirstSegment(s, c)) == FirstSegment(ToUpper(s), c)
  {
    UpperKeepsOthers(s, c);
    var k := IndexOf(s, c);
    var u := ToUpper(s);
    if k >= 0 {
      UpperKeepsOthers(s[..k], c);
      ToUpperSlice(s, 0, k);
      IndexOfAt(u, c, k);
    }
  }

  /** The first `c` is at `k` when `s[k]` is `c` and no earlier character is. */
  lemma {:induction false} IndexOfAt(s: string, c: char, k: int)
    requires 0 <= k < |s| && s[k] == c && c !in s[..k]
    ensures IndexOf(s, c) == k
  {
    if k > 0 {
      assert s[0] == s[..k][0];
      assert s[1..][..k - 1] == s[..k][1..];
      IndexOfAt(s[1..], c, k - 1);
    }
  }

  /** What occurs in a slice occurs in the whole. */
  lemma ContainsSlice(s: string, lo: int, hi: int, sub: string)
    requires 0 <= lo <= hi <= |s| && Contains(s[lo..hi], sub)
    ensures Contains(s, sub)
  {
    var i :| OccursAt(s[lo..hi], sub, i);
    forall j | 0 <= j < |sub| ensures s[lo + i + j] == sub[j] {
      assert s[lo..hi][i..i + |sub|][j] == sub[j];
    }
    assert s[lo + i..lo + i + |sub|] == sub;
    assert OccursAt(s, sub, lo + i);
  }

  predicate StartsWith(s: string, prefix: string) {
    |prefix| <= |s| && s[..|prefix|] == prefix
  }

  /** `sub` occurs in `s` starting at index `i`. */
  predicate OccursAt(s: string, sub: string, i: int) {
    0 <= i && i + |sub| <= |s| && s[i..i + |sub|] == sub
  }

  /** `s.includes(sub)`. */
  ghost predicate Contains(s: string, sub: string) {
    exists i :: OccursAt(s, sub, i)
  }

  /** An executable form of `Contains`. */
  function Includes(s: string, sub: string): (r: bool)
    ensures r <==> Contains(s, sub)
    decreases |s|
  {
    if StartsWith(s, sub) then
      assert OccursAt(s, sub, 0);
      true
    else if |s| <= |sub| then
      false
    else
      var r := Includes(s[1..], sub);
      assert r ==> Contains(s, sub) by {
        if r {
          var i :| OccursAt(s[1..], sub, i);
          assert OccursAt(s, sub, i + 1);
        }
      }
      assert Contains(s, sub) ==> r by {
        if i :| OccursAt(s, sub, i) {
          assert i != 0;
          assert OccursAt(s[1..], sub, i - 1);
        }
      }
      r
  }

  /** Index of the first `c` in `s`, or -1 (`s.indexOf(c)`). */
  function IndexOf(s: string, c: char): (r: int)
    ensures -1 <= r < |s|
    ensures r == -1 <==> c !in s
    ensures r >= 0 ==> s[r] == c && c !in s[..r]
  {
    if s == [] then -1
    else if s[0] == c then 0
    else
      var k := IndexOf(s[1..], c);
      if k == -1 then -1 else k + 1
  }

  /** Index of the last `c` in `s`, or -1 (`s.lastIndexOf(c)`). */
  function LastIndexOf(s: string, c: char): (r: int)
    ensures -1 <= r < |s|
    ensures r == -1 <==> c !in s
    ensures r >= 0 ==> s[r] == c && c !in s[r + 1..]
  {
    if s == [] then -1
    else if s[|s| - 1] == c then |s| - 1
    else
      var p := s[..|s| - 1];
      var k := LastIndexOf(p, c);
      assert s == p + [s[|s| - 1]];
      assert k >= 0 ==> s[k + 1..] == p[k + 1..] + [s[|s| - 1]];
      k
  }

  /** `s.split(c)[0]`: the text before the first `c`. */
  function FirstSegment(s: string, c: char): (r: string)
    ensures StartsWith(s, r) && c !in r
    ensures |r| < |s| ==> s[|r|] == c
  {
    var k := IndexOf(s, c);
    if k == -1 then s else s[..k]
  }

  /** `s.split(c)[1]`: the text between the first and second `c`, absent when `c` does not occur. */
  function SecondSegment(s: string, c: char): (r: (bool, string))
    ensures !r.0 <==> c !in s
    ensures r.0 ==> c !in r.1
  {
    var k := IndexOf(s, c);
    if k == -1 then (false, "") else (true, FirstSegment(s[k + 1..], c))
  }

  /** `s.split(c).pop()`: the text after the last `c`, or all of `s`. */
  function LastSegment(s: string, c: char): (r: string)
    ensures |r| <= |s| && r == s[|s| - |r|..] && c !in r
    ensures |r| < |s| ==> s[|s| - |r| - 1] == c
  {
    var k := LastIndexOf(s, c);
    if k == -1 then s else s[k + 1..]
  }

  predicate IsDigit(c: char) {
    '0' <= c <= '9'
  }

  function DigitChar(d: nat): (c: char)
    requires d < 10
    ensures IsDigit(c) && c as int - '0' as int == d
  {
    ('0' as int + d) as char
  }

  /** The decimal text of `n` (`String(n)` for a whole number). */
  function NatToString(n: nat): (r: string)
    ensures |r| >= 1 && forall i :: 0 <= i < |r| ==> IsDigit(r[i])
    ensures n < 10 <==> |r| == 1
  {
    if n < 10 then [DigitChar(n)] else NatToString(n / 10) + [DigitChar(n % 10)]
  }

  function DigitValue(c: char): nat
    requires IsDigit(c)
  {
    c as int - '0' as int
  }

  /** The value of a run of decimal digits. */
  function DigitsValue(s: string): nat
    requires forall i :: 0 <= i < |s| ==> IsDigit(s[i])
  {
    if s == [] then 0 else DigitsValue(s[..|s| - 1]) * 10 + DigitValue(s[|s| - 1])
  }

  lemma {:induction false} DigitsOfNatToString(n: nat)
    ensures DigitsValue(NatToString(n)) == n
  {
    if n >= 10 {
      var s := NatToString(n);
      assert s[..|s| - 1] == NatToString(n / 10);
      DigitsOfNatToString(n / 10);
    }
  }

  lemma NatToStringInjective(a: nat, b: nat)
    requires NatToString(a) == NatToString(b)
    ensures a == b
  {
    DigitsOfNatToString(a);
    DigitsOfNatToString(b);
  }

  /** `String(n)` for a whole number, with a leading `-` when negative. */
  function IntToString(n: int): (r: string)
    ensures |r| >= 1
    ensures n >= 0 ==> r == NatToString(n)
    ensures n < 0 ==> r == "-" + NatToString(-n)
  {
    if n >= 0 then NatToString(n) else "-" + NatToString(-n)
  }

  /** `parts.join(sep)`. */
  function Join(parts: seq<string>, sep: string): (r: string)
  {
    if parts == [] then ""
    else if |parts| == 1 then parts[0]
    else parts[0] + sep + Join(parts[1..], sep)
  }

  lemma {:induction false} JoinAppend(a: seq<string>, b: seq<string>, sep: string)
    requires a != [] && b != []
    ensures Join(a + b, sep) == Join(a, sep) + sep + Join(b, sep)
  {
    if |a| == 1 {
      assert (a + b)[1..] == b;
    } else {
      assert (a + b)[1..] == a[1..] + b;
      JoinAppend(a[1..], b, sep);
    }
  }
}
