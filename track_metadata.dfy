/**
 * Labels shown for a track's audio (`src/modules/tracks/track-metadata.utils.ts`):
 * the codec name, the container format and the sample-rate/bitrate line.
 * Case mapping covers ASCII letters; numbers are exact reals, so the
 * floating-point rounding of `sampleRate / 1000` is not modelled.
 */
module TrackMetadata {
  import opened Wrappers
  import opened Text
  import opened Numbers

  /** A row of a first-match table: any of `patterns` occurring gives `result`. */
  datatype Rule = Rule(patterns: seq<string>, result: string)

  /**
   * The codec table of `normalizeCodecLabel`, in the order it is tried.
   * `mp4a.40.2` and `mp4a.40.5` are the codec strings of section 3 of
   * RFC 6381 for AAC-LC and HE-AAC.
   */
  const CodecRules: seq<Rule> := [
    Rule(["mp4a.40.2", "aac lc"], "AAC LC"),
    Rule(["mp4a.40.5", "he-aac", "heaac"], "HE-AAC"),
    Rule(["aac"], "AAC"),
    Rule(["flac"], "FLAC"),
    Rule(["opus"], "OPUS"),
    Rule(["vorbis"], "VORBIS"),
    Rule(["alac"], "ALAC"),
    Rule(["mp3", "mpeg"], "MP3")
  ]

  /** `patterns.some((p) => value.includes(p))`. */
  function AnyIncludes(value: string, patterns: seq<string>): bool {
    patterns != [] && (Includes(value, patterns[0]) || AnyIncludes(value, patterns[1..]))
  }

  /** The label of the first rule that matches `value`. */
  function FirstMatch(value: string, rules: seq<Rule>): Option<string> {
    if rules == [] then None
    else if AnyIncludes(value, rules[0].patterns) then Some(rules[0].result)
    else FirstMatch(value, rules[1..])
  }

  /** The table is tried in order: the label is the one of the first matching rule, and none only if no rule matches. */
  lemma {:induction false} FirstMatchWins(value: string, rules: seq<Rule>)
    ensures FirstMatch(value, rules).None? <==> forall i :: 0 <= i < |rules| ==> !AnyIncludes(value, rules[i].patterns)
    ensures FirstMatch(value, rules).Some? ==>
      exists i :: 0 <= i < |rules| && AnyIncludes(value, rules[i].patterns)
        && FirstMatch(value, rules).value == rules[i].result
        && forall j :: 0 <= j < i ==> !AnyIncludes(value, rules[j].patterns)
  {
    if rules != [] && !AnyIncludes(value, rules[0].patterns) {
      FirstMatchWins(value, rules[1..]);
      assert forall i :: 1 <= i < |rules| ==> rules[i] == rules[1..][i - 1];
      if FirstMatch(value, rules).Some? {
        var i :| 0 <= i < |rules[1..]| && AnyIncludes(value, rules[1..][i].patterns)
          && FirstMatch(value, rules).value == rules[1..][i].result
          && forall j :: 0 <= j < i ==> !AnyIncludes(value, rules[1..][j].patterns);
        assert forall j :: 0 <= j < i + 1 ==> !AnyIncludes(value, rules[j].patterns) by {
          forall j | 0 <= j < i + 1 ensures !AnyIncludes(value, rules[j].patterns) {
            if j > 0 {
              assert rules[j] == rules[1..][j - 1];
            }
          }
        }
      }
    }
  }

  /** `normalizeCodecLabel`: `None` stands for `undefined`. */
  function NormalizeCodecLabel(codec: Option<string>): Option<string> {
    if codec.None? || codec.value == "" then None
    else
      var matched := FirstMatch(ToLower(codec.value), CodecRules);
      if matched.Some? then matched
      else
        var primary := Trim(FirstSegment(codec.value, ','));
        if primary == "" then None else Some(ToUpper(primary))
  }

  /** The fallback label: the first comma-separated part, trimmed and upper-cased. */
  function Fallback(codec: string): string {
    ToUpper(Trim(FirstSegment(codec, ',')))
  }

  lemma FallbackEmpty(codec: string)
    ensures Fallback(codec) == "" <==> Trim(FirstSegment(codec, ',')) == ""
  {
  }

  /** Every label of the codec table is non-empty and upper-case. */
  lemma CodecLabelsUpper()
    ensures forall i :: 0 <= i < |CodecRules| ==> CodecRules[i].result != "" && NoLowerCase(CodecRules[i].result)
  {
  }

  /** A label found by the table is the label of one of its rules. */
  lemma MatchedIsRuleLabel(value: string, rules: seq<Rule>)
    requires FirstMatch(value, rules).Some?
    ensures exists i :: 0 <= i < |rules| && FirstMatch(value, rules).value == rules[i].result
  {
    FirstMatchWins(value, rules);
  }

  /**
   * No label for an absent or empty codec; a label is never empty and has
   * no lower-case letter.
   */
  lemma NormalizeCodecLabelShape(codec: Option<string>)
    ensures codec.None? || codec == Some("") ==> NormalizeCodecLabel(codec) == None
    ensures NormalizeCodecLabel(codec).Some? ==>
      NormalizeCodecLabel(codec).value != "" && NoLowerCase(NormalizeCodecLabel(codec).value)
  {
    if codec.Some? && codec.value != "" {
      var matched := FirstMatch(ToLower(codec.value), CodecRules);
      if matched.Some? {
        MatchedIsRuleLabel(ToLower(codec.value), CodecRules);
        CodecLabelsUpper();
      } else {
        var primary := Trim(FirstSegment(codec.value, ','));
        assert NoLowerCase(ToUpper(primary));
      }
    }
  }

  /** Codecs that differ only in letter case get the same label. */
  lemma NormalizeCaseInsensitive(a: string, b: string)
    requires ToLower(a) == ToLower(b)
    ensures NormalizeCodecLabel(Some(a)) == NormalizeCodecLabel(Some(b))
  {
    assert |a| == |ToLower(a)| == |b|;
    if FirstMatch(ToLower(a), CodecRules).None? {
      FallbackCaseInsensitive(a, b);
      FallbackEmpty(a);
      FallbackEmpty(b);
    }
  }

  lemma FallbackCaseInsensitive(a: string, b: string)
    requires ToLower(a) == ToLower(b)
    ensures Fallback(a) == Fallback(b)
  {
    ToUpperOfToLower(a);
    ToUpperOfToLower(b);
    ToUpperTrim(FirstSegment(a, ','));
    ToUpperTrim(FirstSegment(b, ','));
    ToUpperFirstSegment(a, ',');
    ToUpperFirstSegment(b, ',');
  }

  /** Patterns found in a slice of a text are found in the text. */
  lemma {:induction false} AnyIncludesSlice(s: string, lo: int, hi: int, patterns: seq<string>)
    requires 0 <= lo <= hi <= |s| && AnyIncludes(s[lo..hi], patterns)
    ensures AnyIncludes(s, patterns)
  {
    if Includes(s[lo..hi], patterns[0]) {
      ContainsSlice(s, lo, hi, patterns[0]);
    } else {
      AnyIncludesSlice(s, lo, hi, patterns[1..]);
    }
  }

  /** A slice of a text no rule matches is matched by no rule either. */
  lemma {:induction false} NoMatchSlice(s: string, lo: int, hi: int, rules: seq<Rule>)
    requires 0 <= lo <= hi <= |s| && FirstMatch(s, rules).None?
    ensures FirstMatch(s[lo..hi], rules).None?
  {
    if rules != [] {
      if AnyIncludes(s[lo..hi], rules[0].patterns) {
        AnyIncludesSlice(s, lo, hi, rules[0].patterns);
      }
      NoMatchSlice(s, lo, hi, rules[1..]);
    }
  }

  /** The fallback label is a slice of the codec, upper-cased, without commas or outer whitespace. */
  lemma FallbackSlice(codec: string) returns (lo: nat, hi: nat)
    ensures lo <= hi <= |codec|
    ensures Fallback(codec) == ToUpper(codec[lo..hi])
    ensures ',' !in Fallback(codec) && IsTrimmed(Fallback(codec))
  {
    var first := FirstSegment(codec, ',');
    var l, h := TrimSlice(first);
    assert first == codec[..|first|];
    assert first[l..h] == codec[l..h];
    lo, hi := l, h;
    var t := codec[lo..hi];
    UpperKeepsOthers(t, ',');
    assert ',' !in t by {
      assert forall i :: 0 <= i < |t| ==> t[i] == first[l + i];
    }
    ToUpperTrim(first);
    var u := Fallback(codec);
    if u != [] {
      WhitespaceUpper(t[0]);
      WhitespaceUpper(t[|t| - 1]);
    }
  }

  /**
   * A label the fallback built normalises to itself: normalising it again
   * finds no rule and gives the same text.
   */
  lemma NormalizeFallbackIdempotent(codec: Option<string>)
    requires codec.Some? && FirstMatch(ToLower(codec.value), CodecRules).None?
    requires NormalizeCodecLabel(codec).Some?
    ensures NormalizeCodecLabel(NormalizeCodecLabel(codec)) == NormalizeCodecLabel(codec)
  {
    var value := ToLower(codec.value);
    var lo, hi := FallbackSlice(codec.value);
    var u := Fallback(codec.value);
    ToLowerOfToUpper(codec.value[lo..hi]);
    ToLowerSlice(codec.value, lo, hi);
    NoMatchSlice(value, lo, hi, CodecRules);
    assert FirstSegment(u, ',') == u;
    TrimOfTrimmed(u);
    ToUpperIdempotent(codec.value[lo..hi]);
  }

  /** `resolveAudioFormat`: `audioFormat` and `codecLabel` are `None` when undefined. */
  function ResolveAudioFormat(audioFormat: Option<string>, fileName: string, codecLabel: Option<string>): string {
    var value := ToLower(audioFormat.GetOr(""));
    var known := KnownMime(value, codecLabel);
    if known.Some? then known.value else MimeOrExtension(value, fileName)
  }

  /** The MIME types `resolveAudioFormat` names itself, tried in its order. */
  function KnownMime(value: string, codecLabel: Option<string>): (r: Option<string>)
    ensures r.Some? ==> r.value in ["AAC", "MP3", "FLAC", "OPUS", "OGG", "WAV", "MP4"]
  {
    if Includes(value, "audio/mp4a-latm") || Includes(value, "audio/aac") then Some("AAC")
    else if Includes(value, "audio/mpeg") then Some("MP3")
    else if Includes(value, "audio/flac") then Some("FLAC")
    else if Includes(value, "audio/ogg") then
      Some(if codecLabel.Some? && Includes(codecLabel.value, "OPUS") then "OPUS" else "OGG")
    else if Includes(value, "audio/wav") || Includes(value, "audio/x-wav") then Some("WAV")
    else if Includes(value, "audio/mp4") then Some("MP4")
    else None
  }

  /** The subtype of an unlisted `audio/` MIME type, else the file's extension. */
  function MimeOrExtension(value: string, fileName: string): string {
    var mimeLabel := Trim(SecondSegment(value, '/').1);
    if Includes(value, "audio/") && mimeLabel != "" then ToUpper(mimeLabel)
    else ExtensionLabel(fileName)
  }

  /** The text after the file name's last dot, trimmed and upper-cased, or `Unknown`. */
  function ExtensionLabel(fileName: string): string {
    var extension := Trim(LastSegment(fileName, '.'));
    if extension != "" then ToUpper(extension) else "Unknown"
  }

  lemma MimeOrExtensionShape(value: string, fileName: string)
    ensures FormatShaped(MimeOrExtension(value, fileName))
  {
    var mimeLabel := Trim(SecondSegment(value, '/').1);
    assert NoLowerCase(ToUpper(mimeLabel));
    var extension := Trim(LastSegment(fileName, '.'));
    assert NoLowerCase(ToUpper(extension));
  }

  /** What every format label looks like: non-empty, and upper-case unless it is `Unknown`. */
  predicate FormatShaped(r: string) {
    r != "" && (r == "Unknown" || NoLowerCase(r))
  }

  lemma FixedFormatsShaped()
    ensures forall r :: r in ["AAC", "MP3", "FLAC", "OPUS", "OGG", "WAV", "MP4"] ==> FormatShaped(r)
  {
  }

  /** The format is never empty, and it is upper-case unless it is `Unknown`. */
  lemma ResolveAudioFormatShape(audioFormat: Option<string>, fileName: string, codecLabel: Option<string>)
    ensures FormatShaped(ResolveAudioFormat(audioFormat, fileName, codecLabel))
  {
    var value := ToLower(audioFormat.GetOr(""));
    var r := ResolveAudioFormat(audioFormat, fileName, codecLabel);
    MimeOrExtensionShape(value, fileName);
    FixedFormatsShaped();
  }

  /** `audio/ogg` is Opus exactly when the codec label says so. */
  lemma ResolveOgg(fileName: string, codecLabel: Option<string>)
    ensures ResolveAudioFormat(Some("audio/ogg"), fileName, codecLabel) ==
      if codecLabel.Some? && Includes(codecLabel.value, "OPUS") then "OPUS" else "OGG"
  {
    var v := "audio/ogg";
    assert ToLower(v) == v;
    assert !Includes(v, "audio/mp4a-latm") && !Includes(v, "audio/mpeg") && !Includes(v, "audio/flac") by {
      TooShort(v, "audio/mp4a-latm");
      TooShort(v, "audio/mpeg");
      TooShort(v, "audio/flac");
    }
    assert !Includes(v, "audio/aac") by {
      SameLength(v, "audio/aac");
    }
    assert Includes(v, v) by {
      assert OccursAt(v, v, 0);
    }
  }

  /** A text shorter than `sub` does not contain it. */
  lemma TooShort(s: string, sub: string)
    requires |s| < |sub|
    ensures !Contains(s, sub)
  {
  }

  /** A text as long as `sub` contains it only by being it. */
  lemma SameLength(s: string, sub: string)
    requires |s| == |sub|
    ensures Contains(s, sub) <==> s == sub
  {
    assert OccursAt(s, s, 0);
  }

  /** With no MIME type the format comes from the file name alone. */
  lemma NoMimeType(fileName: string, codecLabel: Option<string>)
    ensures ResolveAudioFormat(None, fileName, codecLabel) == ExtensionLabel(fileName)
  {
    assert ToLower("") == "";
    assert !Includes("", "audio/");
    assert KnownMime("", codecLabel) == None;
  }

  /**
   * Without a MIME type the format is the file's extension, the text after
   * its last dot, upper-cased.
   */
  lemma ResolveFromExtension(name: string, ext: string, codecLabel: Option<string>)
    requires '.' !in ext && ext != "" && IsTrimmed(ext)
    ensures ResolveAudioFormat(None, name + "." + ext, codecLabel) == ToUpper(ext)
  {
    var fileName := name + "." + ext;
    NoMimeType(fileName, codecLabel);
    assert fileName[|name|] == '.' && fileName[|name| + 1..] == ext;
    assert LastIndexOf(fileName, '.') == |name|;
    TrimOfTrimmed(ext);
  }

  /** `toFixed(1)` of a non-negative number: the nearest tenth, ties away from zero. */
  function FixedOne(x: real): string
    requires x >= 0.0
  {
    var n := Round(x * 10.0);
    NatToString(n / 10) + "." + [DigitChar(n % 10)]
  }

  predicate IsWhole(x: real) {
    x == x.Floor as real
  }

  /** The sample-rate segment: kHz, whole or to one decimal. */
  function RateSegment(sampleRate: Option<Number>): Option<string> {
    match sampleRate
    case Some(Finite(v)) =>
      if v > 0.0 then
        var khz := v / 1000.0;
        Some((if IsWhole(khz) then NatToString(khz.Floor) else FixedOne(khz)) + "KHZ")
      else None
    case _ => None
  }

  /** The bitrate in kbps: a value of at least 10000 is taken as bps. */
  function Kbps(bitrate: Option<Number>): Option<nat> {
    match bitrate
    case Some(Finite(v)) =>
      if v > 0.0 then
        var kbps := if v >= 10000.0 then Round(v / 1000.0) else Round(v);
        if kbps > 0 then Some(kbps) else None
      else None
    case _ => None
  }

  function BitrateSegment(bitrate: Option<Number>): Option<string> {
    var k := Kbps(bitrate);
    if k.Some? then Some(NatToString(k.value) + "KBPS") else None
  }

  function Segments(sampleRate: Option<Number>, bitrate: Option<Number>): seq<string> {
    (if RateSegment(sampleRate).Some? then [RateSegment(sampleRate).value] else [])
    + (if BitrateSegment(bitrate).Some? then [BitrateSegment(bitrate).value] else [])
  }

  /** `formatQualityLabel`. */
  function FormatQualityLabel(sampleRate: Option<Number>, bitrate: Option<Number>): string {
    var segments := Segments(sampleRate, bitrate);
    if |segments| > 0 then Join(segments, " ") else "Unknown"
  }

  lemma EndsWithSegmentMark(s: string, tail: string)
    requires tail == "KHZ" || tail == "KBPS"
    ensures s + tail != "Unknown"
  {
    assert (s + tail)[|s + tail| - 1] == tail[|tail| - 1];
  }

  lemma JoinOne(a: string, sep: string)
    ensures Join([a], sep) == a
  {
  }

  lemma JoinTwo(a: string, b: string, sep: string)
    ensures Join([a, b], sep) == a + sep + b
  {
    assert [a, b][1..] == [b];
  }

  /** Each segment ends in its unit, so no segment and no pair of them reads `Unknown`. */
  lemma SegmentsNotUnknown(sampleRate: Option<Number>, bitrate: Option<Number>)
    ensures RateSegment(sampleRate).Some? ==> RateSegment(sampleRate).value != "Unknown"
    ensures BitrateSegment(bitrate).Some? ==> BitrateSegment(bitrate).value != "Unknown"
    ensures RateSegment(sampleRate).Some? && BitrateSegment(bitrate).Some? ==>
      RateSegment(sampleRate).value + " " + BitrateSegment(bitrate).value != "Unknown"
  {
    var rate := RateSegment(sampleRate);
    if rate.Some? {
      var v := sampleRate.value.value / 1000.0;
      var digits := if IsWhole(v) then NatToString(v.Floor) else FixedOne(v);
      EndsWithSegmentMark(digits, "KHZ");
    }
    var bits := BitrateSegment(bitrate);
    if bits.Some? {
      var k := NatToString(Kbps(bitrate).value);
      EndsWithSegmentMark(k, "KBPS");
      if rate.Some? {
        EndsWithSegmentMark(rate.value + " " + k, "KBPS");
        assert rate.value + " " + bits.value == rate.value + " " + k + "KBPS";
      }
    }
  }

  /**
   * The label is `Unknown` exactly when neither the sample rate nor the
   * bitrate gives a segment; the rate comes first and the bitrate last,
   * separated by one space.
   */
  lemma FormatQualityLabelShape(sampleRate: Option<Number>, bitrate: Option<Number>)
    ensures var r := FormatQualityLabel(sampleRate, bitrate);
      var rate := RateSegment(sampleRate);
      var bits := BitrateSegment(bitrate);
      && (r == "Unknown" <==> rate.None? && bits.None?)
      && (rate.Some? && bits.Some? ==> r == rate.value + " " + bits.value)
      && (rate.Some? && bits.None? ==> r == rate.value)
      && (rate.None? && bits.Some? ==> r == bits.value)
  {
    var rate := RateSegment(sampleRate);
    var bits := BitrateSegment(bitrate);
    SegmentsNotUnknown(sampleRate, bitrate);
    if rate.Some? && bits.Some? {
      assert Segments(sampleRate, bitrate) == [rate.value, bits.value];
      JoinTwo(rate.value, bits.value, " ");
    } else if rate.Some? {
      assert Segments(sampleRate, bitrate) == [rate.value];
    } else if bits.Some? {
      assert Segments(sampleRate, bitrate) == [bits.value];
    } else {
      assert Segments(sampleRate, bitrate) == [];
    }
  }

  /**
   * A bitrate of at least 10000 is read as bits per second and one below
   * as kilobits per second: a whole number of kbps is reported as itself
   * either way, and a bitrate that rounds to 0 gives no segment.
   */
  lemma KbpsUnits(k: nat, v: real)
    ensures k >= 10 ==> Kbps(Some(Finite(k as real * 1000.0))) == Some(k)
    ensures 1 <= k < 10000 ==> Kbps(Some(Finite(k as real))) == Some(k)
    ensures 0.0 < v < 0.5 ==> Kbps(Some(Finite(v))) == None
  {
    if k >= 10 {
      assert k as real * 1000.0 / 1000.0 == k as real;
      RoundOfWhole(k);
    }
    if 1 <= k < 10000 {
      RoundOfWhole(k);
    }
  }

  /**
   * A sample rate that is a whole number `m` of hundreds of hertz shows as
   * `m / 10` kHz, with the tenths digit only when it is not zero.
   */
  /** `q` kHz and `r` tenths, as a sample rate in hertz. */
  lemma TenthsToKhz(v: real, q: nat, r: nat)
    requires r < 10 && v == (10 * q + r) as real * 100.0
    ensures var khz := v / 1000.0;
      khz * 10.0 == (10 * q + r) as real && khz.Floor == q && (IsWhole(khz) <==> r == 0)
  {
    var khz := v / 1000.0;
    assert khz == q as real + r as real / 10.0;
    assert q as real <= khz < q as real + 1.0;
  }

  lemma FixedOneOfTenths(khz: real, q: nat, r: nat)
    requires 0 < r < 10 && khz >= 0.0 && khz * 10.0 == (10 * q + r) as real
    ensures FixedOne(khz) == NatToString(q) + "." + [DigitChar(r)]
  {
    var n := 10 * q + r;
    RoundOfWhole(n);
    var m := Round(khz * 10.0);
    assert m == n;
    assert m / 10 == q && m % 10 == r;
  }

  /**
   * A sample rate of `q` kHz and `r` tenths shows as `q` kHz, with the
   * tenths digit only when it is not zero.
   */
  lemma RateOfTenths(v: real, q: nat, r: nat)
    requires r < 10 && 10 * q + r > 0 && v == (10 * q + r) as real * 100.0
    ensures r == 0 ==> RateSegment(Some(Finite(v))) == Some(NatToString(q) + "KHZ")
    ensures r != 0 ==> RateSegment(Some(Finite(v))) == Some(NatToString(q) + "." + [DigitChar(r)] + "KHZ")
  {
    var khz := v / 1000.0;
    TenthsToKhz(v, q, r);
    var digits := if IsWhole(khz) then NatToString(khz.Floor) else FixedOne(khz);
    assert RateSegment(Some(Finite(v))) == Some(digits + "KHZ");
    if r == 0 {
      assert digits == NatToString(q);
    } else {
      FixedOneOfTenths(khz, q, r);
    }
  }
}
