/**
 * `mergeText` (`src/utils/merge-text.ts`): joins display fragments with a
 * bullet separator, skipping the ones that are missing or blank.
 */
module MergeText {
  import opened Text

  /** `MergeTextValue`: a string, a number, `null`, `undefined` or `false`. */
  datatype MergeValue = Str(text: string) | Num(n: int) | Null | Undefined | False

  /**
   * The default separator. The source file holds the UTF-8 bytes of a
   * bullet read as Windows-1252 text, so the separator is the three characters
   * U+00E2 U+20AC U+00A2 between two spaces.
   */
  const DefaultSeparator: string := " \U{00E2}\U{20AC}\U{00A2} "

  /**
   * One value as text: missing values are empty, the rest are rendered and
   * trimmed. A whole number's decimal text has nothing to trim
   * (`NumberTextTrimmed`), so it is used as it is.
   */
  function Piece(v: MergeValue): string {
    match v
    case Null => ""
    case Undefined => ""
    case False => ""
    case Str(text) => Trim(text)
    case Num(n) => IntToString(n)
  }

  lemma NumberTextTrimmed(n: int)
    ensures Trim(IntToString(n)) == IntToString(n)
  {
    var s := IntToString(n);
    assert !IsWhitespace(s[0]) && !IsWhitespace(s[|s| - 1]);
    TrimOfTrimmed(s);
  }

  /** The rendered values, in order, without the empty ones. */
  function Pieces(values: seq<MergeValue>): (r: seq<string>)
    ensures |r| <= |values|
    ensures forall i :: 0 <= i < |r| ==> r[i] != ""
  {
    if values == [] then []
    else
      var p := Piece(values[0]);
      var rest := Pieces(values[1..]);
      if p == "" then rest else [p] + rest
  }

  /** Every piece is trimmed text as `String.prototype.trim` leaves it. */
  lemma {:induction false} PiecesTrimmed(values: seq<MergeValue>)
    ensures forall i :: 0 <= i < |Pieces(values)| ==> IsTrimmed(Pieces(values)[i])
  {
    if values != [] {
      PiecesTrimmed(values[1..]);
    }
  }

  /** No piece is left exactly when every value renders as empty. */
  lemma {:induction false} PiecesEmpty(values: seq<MergeValue>)
    ensures Pieces(values) == [] <==> forall i :: 0 <= i < |values| ==> Piece(values[i]) == ""
  {
    if values != [] {
      PiecesEmpty(values[1..]);
      assert forall i :: 1 <= i < |values| ==> values[i] == values[1..][i - 1];
    }
  }

  /** `mergeText(values, separator)`. */
  function Merge(values: seq<MergeValue>, separator: string := DefaultSeparator): string {
    Join(Pieces(values), separator)
  }

  /** The first value contributes its piece, if any, ahead of the rest. */
  lemma PiecesCons(v: MergeValue, rest: seq<MergeValue>)
    ensures Pieces([v] + rest) == (if Piece(v) == "" then [] else [Piece(v)]) + Pieces(rest)
  {
    assert ([v] + rest)[1..] == rest;
  }

  lemma {:induction false} PiecesAppend(a: seq<MergeValue>, b: seq<MergeValue>)
    ensures Pieces(a + b) == Pieces(a) + Pieces(b)
  {
    if a == [] {
      assert a + b == b;
    } else {
      var v, tail := a[0], a[1..];
      assert a == [v] + tail;
      assert a + b == [v] + (tail + b);
      var head := if Piece(v) == "" then [] else [Piece(v)];
      PiecesCons(v, tail);
      PiecesCons(v, tail + b);
      PiecesAppend(tail, b);
      calc {
        Pieces(a + b);
        head + Pieces(tail + b);
        head + (Pieces(tail) + Pieces(b));
        { assert head + (Pieces(tail) + Pieces(b)) == (head + Pieces(tail)) + Pieces(b); }
        Pieces(a) + Pieces(b);
      }
    }
  }

  lemma JoinStartsWithFirst(parts: seq<string>, sep: string)
    requires parts != []
    ensures |Join(parts, sep)| >= |parts[0]|
  {
  }

  /** The merged text is empty exactly when every value renders as empty. */
  lemma MergeEmpty(values: seq<MergeValue>, separator: string)
    ensures Merge(values, separator) == "" <==> forall i :: 0 <= i < |values| ==> Piece(values[i]) == ""
  {
    var ps := Pieces(values);
    PiecesEmpty(values);
    if ps != [] {
      JoinStartsWithFirst(ps, separator);
    }
  }

  /** Merging two lists is merging each and putting the separator between, unless one side is empty. */
  lemma MergeAppend(a: seq<MergeValue>, b: seq<MergeValue>, separator: string)
    ensures Merge(a + b, separator) ==
      if Pieces(a) == [] then Merge(b, separator)
      else if Pieces(b) == [] then Merge(a, separator)
      else Merge(a, separator) + separator + Merge(b, separator)
  {
    var pa, pb := Pieces(a), Pieces(b);
    PiecesAppend(a, b);
    if pa == [] {
      assert Pieces(a + b) == pb;
    } else if pb == [] {
      assert Pieces(a + b) == pa;
    } else {
      JoinAppend(pa, pb, separator);
    }
  }

  /**
   * Only `null`, `undefined`, `false` and blank text are dropped: the number
   * 0 and the empty-looking text "0" are kept, and text is trimmed.
   */
  lemma WhatIsDropped(s: string)
    ensures Merge([Null, Undefined, False], DefaultSeparator) == ""
    ensures Merge([Num(0)], DefaultSeparator) == "0"
    ensures Merge([Str(s)], DefaultSeparator) == Trim(s)
  {
    assert IntToString(0) == "0";
    assert [Null, Undefined, False][1..] == [Undefined, False];
    assert [Undefined, False][1..] == [False];
  }
}
