/**
 * The minimum-duration filter for indexed tracks
 * (`src/modules/indexer/track-duration-filter.ts`): the mode and custom
 * minimum, how they are sanitised, loaded from and saved to their JSON
 * file, and how they decide whether an asset is indexed.
 */
module TrackDurationFilter {
  import opened Wrappers
  import opened Numbers
  import opened Text

  datatype Mode = Off | Min30s | Min60s | Min120s | Custom

  /** `TrackDurationFilterConfig`. */
  datatype Config = Config(mode: Mode, customMinimumSeconds: Number)

  /**
   * `Partial<TrackDurationFilterConfig>` as it comes from JSON or from a
   * caller: each field may be absent, the mode may be any text, and a custom
   * value that is not a number behaves like NaN.
   */
  datatype PartialConfig = PartialConfig(mode: Option<string>, customMinimumSeconds: Option<Number>)

  const DefaultCustomSeconds := 180
  const MaxCustomSeconds := 1200

  /** `DEFAULT_TRACK_DURATION_FILTER`. */
  const Default: Config := Config(Off, Finite(DefaultCustomSeconds as real))

  function ModeName(m: Mode): string {
    match m
    case Off => "off"
    case Min30s => "min30s"
    case Min60s => "min60s"
    case Min120s => "min120s"
    case Custom => "custom"
  }

  /** The mode a stored text stands for; anything unknown is `Off`. */
  function ParseMode(s: Option<string>): Mode {
    if s == Some("min30s") then Min30s
    else if s == Some("min60s") then Min60s
    else if s == Some("min120s") then Min120s
    else if s == Some("custom") then Custom
    else Off
  }

  lemma ParseModeName(m: Mode)
    ensures ParseMode(Some(ModeName(m))) == m
  {
  }

  /** `clampCustomSeconds`. */
  function ClampCustomSeconds(value: Number): nat {
    if !value.IsFinite() then DefaultCustomSeconds
    else
      var r := Round(value.value);
      if r > MaxCustomSeconds as int then MaxCustomSeconds
      else if r < 0 then 0
      else r
  }

  /**
   * Non-finite values give 180; a finite value is rounded, and the result
   * is that whole number when it lies in [0, 1200] and the nearer bound
   * otherwise. A clamped value clamps to itself.
   */
  lemma ClampCustomSecondsSpec(value: Number)
    ensures var r := ClampCustomSeconds(value);
      && r <= MaxCustomSeconds
      && (!value.IsFinite() ==> r == DefaultCustomSeconds)
      && (value.IsFinite() ==>
            var n := Round(value.value);
            r == (if n < 0 then 0 else if n > MaxCustomSeconds as int then MaxCustomSeconds else n))
      && ClampCustomSeconds(Finite(r as real)) == r
  {
    var r := ClampCustomSeconds(value);
    RoundOfWhole(r);
  }

  /** `sanitizeConfig`: a known mode or `Off`, and a clamped custom value defaulting to 180. */
  function Sanitize(p: PartialConfig): Config {
    var custom := if p.customMinimumSeconds.Some? then p.customMinimumSeconds.value else Finite(DefaultCustomSeconds as real);
    Config(ParseMode(p.mode), Finite(ClampCustomSeconds(custom) as real))
  }

  /** A config as it would be written to JSON and read back as a partial one. */
  function ToPartial(c: Config): PartialConfig {
    PartialConfig(Some(ModeName(c.mode)), Some(c.customMinimumSeconds))
  }

  /** What `sanitizeConfig` can return: a whole custom minimum in [0, 1200]. */
  predicate Sanitized(c: Config) {
    && c.customMinimumSeconds.Finite?
    && c.customMinimumSeconds.value == c.customMinimumSeconds.value.Floor as real
    && 0.0 <= c.customMinimumSeconds.value <= MaxCustomSeconds as real
  }

  /** Sanitising gives a sanitised config, and a sanitised config survives a JSON round trip unchanged. */
  lemma SanitizeIdempotent(p: PartialConfig)
    ensures Sanitized(Sanitize(p))
    ensures Sanitize(ToPartial(Sanitize(p))) == Sanitize(p)
  {
    var c := Sanitize(p);
    var custom := if p.customMinimumSeconds.Some? then p.customMinimumSeconds.value else Finite(DefaultCustomSeconds as real);
    ClampCustomSecondsSpec(custom);
    ParseModeName(c.mode);
  }

  lemma SanitizedRoundTrip(c: Config)
    requires Sanitized(c)
    ensures Sanitize(ToPartial(c)) == c
  {
    RoundOfWhole(c.customMinimumSeconds.value.Floor);
    ParseModeName(c.mode);
  }

  /** `{ ...current, ...updates }`: the fields present in `updates` win. */
  function Overlay(current: Config, updates: PartialConfig): PartialConfig {
    PartialConfig(
      if updates.mode.Some? then updates.mode else Some(ModeName(current.mode)),
      if updates.customMinimumSeconds.Some? then updates.customMinimumSeconds else Some(current.customMinimumSeconds))
  }

  /** An update changes only the fields it names, when the current config is sanitised. */
  lemma OverlayKeeps(current: Config, updates: PartialConfig)
    requires Sanitized(current)
    ensures var next := Sanitize(Overlay(current, updates));
      && (updates.mode.None? ==> next.mode == current.mode)
      && (updates.mode.Some? ==> next.mode == ParseMode(updates.mode))
      && (updates.customMinimumSeconds.None? ==> next.customMinimumSeconds == current.customMinimumSeconds)
  {
    SanitizedRoundTrip(current);
  }

  /** `getTrackDurationMinimumSeconds`. */
  function MinimumSeconds(c: Config): nat {
    match c.mode
    case Min30s => 30
    case Min60s => 60
    case Min120s => 120
    case Custom => ClampCustomSeconds(c.customMinimumSeconds)
    case Off => 0
  }

  /** The minimum is at most 1200 s, and 0 only when there is no filter or the custom value is 0. */
  lemma MinimumSecondsRange(c: Config)
    ensures MinimumSeconds(c) <= MaxCustomSeconds
    ensures MinimumSeconds(c) == 0 <==> c.mode == Off || (c.mode == Custom && ClampCustomSeconds(c.customMinimumSeconds) == 0)
  {
    ClampCustomSecondsSpec(c.customMinimumSeconds);
  }

  /** `isAssetAllowedByTrackDuration`. */
  function IsAssetAllowed(duration: Number, c: Config): bool {
    var minimum := MinimumSeconds(c);
    if minimum <= 0 then true
    else if !duration.IsFinite() || duration.value <= 0.0 then false
    else duration.value >= minimum as real
  }

  /**
   * Without a minimum every asset is allowed; with one, exactly the assets
   * with a finite duration of at least the minimum. A longer asset is
   * allowed whenever a shorter one is, and a lower minimum allows whatever
   * a higher one does.
   */
  lemma AllowedMonotone(d: Number, longer: Number, c: Config, laxer: Config)
    ensures MinimumSeconds(c) == 0 ==> IsAssetAllowed(d, c)
    ensures MinimumSeconds(c) > 0 ==>
      (IsAssetAllowed(d, c) <==> d.IsFinite() && d.value >= MinimumSeconds(c) as real)
    ensures IsAssetAllowed(d, c) && longer.IsFinite() && d.IsFinite() && longer.value >= d.value ==> IsAssetAllowed(longer, c)
    ensures IsAssetAllowed(d, c) && MinimumSeconds(laxer) <= MinimumSeconds(c) ==> IsAssetAllowed(d, laxer)
  {
  }

  /** The part of a custom label after `Custom `: `45s`, `3m` or `2m 5s`. */
  function CustomBody(seconds: nat): string {
    if seconds < 60 then NatToString(seconds) + "s"
    else
      var minutes := seconds / 60;
      var rem := seconds % 60;
      if rem > 0 then NatToString(minutes) + "m " + NatToString(rem) + "s"
      else NatToString(minutes) + "m"
  }

  function CustomLabel(seconds: nat): string {
    "Custom " + CustomBody(seconds)
  }

  /** `getTrackDurationFilterLabel`. */
  function Label(c: Config): string {
    match c.mode
    case Min30s => "At least 30s"
    case Min60s => "At least 1m"
    case Min120s => "At least 2m"
    case Custom => CustomLabel(MinimumSeconds(c))
    case Off => "No filter"
  }

  /** The value of a run of digits, if it is one. */
  function NumberValue(s: string): Option<nat> {
    if s == [] then Some(0)
    else
      var init := NumberValue(s[..|s| - 1]);
      if init.Some? && IsDigit(s[|s| - 1]) then Some(init.value * 10 + DigitValue(s[|s| - 1])) else None
  }

  function Plus(a: Option<nat>, b: Option<nat>): Option<nat> {
    if a.Some? && b.Some? then Some(a.value + b.value) else None
  }

  function Minutes(a: Option<nat>): Option<nat> {
    if a.Some? then Some(a.value * 60) else None
  }

  /** Reads the seconds back from the part of a custom label after `Custom `. */
  function CustomBodySeconds(body: string): Option<nat> {
    var k := IndexOf(body, 'm');
    if |body| == 0 then None
    else if k < 0 then NumberValue(body[..|body| - 1])
    else if k == |body| - 1 then Minutes(NumberValue(body[..k]))
    else if k + 2 <= |body| - 1 then Plus(Minutes(NumberValue(body[..k])), NumberValue(body[k + 2..|body| - 1]))
    else None
  }

  lemma {:induction false} NumberValueOf(n: nat)
    ensures NumberValue(NatToString(n)) == Some(n)
  {
    var s := NatToString(n);
    if n >= 10 {
      NumberValueOf(n / 10);
      assert s[..|s| - 1] == NatToString(n / 10);
      assert DigitValue(s[|s| - 1]) == n % 10;
    } else {
      assert s[..0] == [];
      assert DigitValue(s[0]) == n;
    }
  }

  lemma NoLetterInNumber(n: nat, c: char)
    requires !IsDigit(c)
    ensures c !in NatToString(n)
  {
    var s := NatToString(n);
    forall i | 0 <= i < |s|
      ensures s[i] != c
    {
      assert IsDigit(s[i]);
    }
  }

  lemma SecondsBodyRoundTrip(seconds: nat)
    requires seconds < 60
    ensures CustomBodySeconds(CustomBody(seconds)) == Some(seconds)
  {
    var d := NatToString(seconds);
    var body := d + "s";
    NoLetterInNumber(seconds, 'm');
    assert 'm' !in body;
    assert body[..|body| - 1] == d;
    NumberValueOf(seconds);
  }

  lemma MinutesBodyRoundTrip(seconds: nat)
    requires seconds >= 60 && seconds % 60 == 0
    ensures CustomBodySeconds(CustomBody(seconds)) == Some(seconds)
  {
    var minutes := seconds / 60;
    assert CustomBody(seconds) == NatToString(minutes) + "m";
    MinutesBodyValue(minutes);
    assert minutes * 60 == seconds;
  }

  /** `Mm` reads back as M minutes. */
  lemma MinutesBodyValue(minutes: nat)
    ensures CustomBodySeconds(NatToString(minutes) + "m") == Some(minutes * 60)
  {
    var m := NatToString(minutes);
    NoLetterInNumber(minutes, 'm');
    MinutesBodySlices(m);
    NumberValueOf(minutes);
  }

  lemma MinutesBodySlices(x: string)
    requires 'm' !in x
    ensures var body := x + "m";
      && IndexOf(body, 'm') == |x| == |body| - 1 && body[..|x|] == x
  {
    var body := x + "m";
    assert body[|x|] == 'm';
    assert body[..|x|] == x;
  }

  /** Reading `Mm Ss` once the `m` is found and both numbers are read. */
  lemma MixedBodyParts(body: string, k: nat, minutes: nat, rem: nat)
    requires k + 2 <= |body| - 1 && IndexOf(body, 'm') == k
    requires NumberValue(body[..k]) == Some(minutes)
    requires NumberValue(body[k + 2..|body| - 1]) == Some(rem)
    ensures CustomBodySeconds(body) == Some(minutes * 60 + rem)
  {
    MixedBodyUnfold(body, k);
    OptionSum(body[..k], body[k + 2..|body| - 1], minutes, rem);
  }

  lemma OptionSum(a: string, b: string, minutes: nat, rem: nat)
    requires NumberValue(a) == Some(minutes)
    requires NumberValue(b) == Some(rem)
    ensures Plus(Minutes(NumberValue(a)), NumberValue(b)) == Some(minutes * 60 + rem)
  {
  }

  lemma MixedBodyUnfold(body: string, k: nat)
    requires k + 2 <= |body| - 1 && IndexOf(body, 'm') == k
    ensures CustomBodySeconds(body) == Plus(Minutes(NumberValue(body[..k])), NumberValue(body[k + 2..|body| - 1]))
  {
  }

  /** The pieces of `x + "m " + y + "s"` when `x` has no `m`. */
  lemma MixedBodySlices(x: string, y: string)
    requires 'm' !in x
    ensures var body := x + "m " + y + "s";
      && IndexOf(body, 'm') == |x| && |x| + 2 <= |body| - 1
      && body[..|x|] == x && body[|x| + 2..|body| - 1] == y
  {
    var body := x + "m " + y + "s";
    assert body[|x|] == 'm';
    assert body[..|x|] == x;
    assert body[|x| + 2..|body| - 1] == y;
  }

  /** `Mm Ss` reads back as M minutes and S seconds. */
  lemma MixedBodyValue(minutes: nat, rem: nat)
    ensures CustomBodySeconds(NatToString(minutes) + "m " + NatToString(rem) + "s") == Some(minutes * 60 + rem)
  {
    var m := NatToString(minutes);
    var r := NatToString(rem);
    var body := m + "m " + r + "s";
    assert && IndexOf(body, 'm') == |m| && |m| + 2 <= |body| - 1
           && NumberValue(body[..|m|]) == Some(minutes)
           && NumberValue(body[|m| + 2..|body| - 1]) == Some(rem) by {
      NoLetterInNumber(minutes, 'm');
      MixedBodySlices(m, r);
      NumberValueOf(minutes);
      NumberValueOf(rem);
    }
    MixedBodyParts(body, |m|, minutes, rem);
  }

  lemma MixedBodyRoundTrip(seconds: nat)
    requires seconds >= 60 && seconds % 60 > 0
    ensures CustomBodySeconds(CustomBody(seconds)) == Some(seconds)
  {
    var minutes, rem := seconds / 60, seconds % 60;
    assert CustomBody(seconds) == NatToString(minutes) + "m " + NatToString(rem) + "s";
    MixedBodyValue(minutes, rem);
    assert minutes * 60 + rem == seconds;
  }

  /** A custom label gives back the minimum it was made from. */
  lemma CustomLabelRoundTrip(seconds: nat)
    ensures CustomLabel(seconds)[..7] == "Custom "
    ensures CustomBodySeconds(CustomLabel(seconds)[7..]) == Some(seconds)
  {
    assert CustomLabel(seconds)[7..] == CustomBody(seconds);
    if seconds < 60 {
      SecondsBodyRoundTrip(seconds);
    } else if seconds % 60 == 0 {
      MinutesBodyRoundTrip(seconds);
    } else {
      MixedBodyRoundTrip(seconds);
    }
  }

  /** Two custom configs with different minimums never share a label. */
  lemma CustomLabelsDiffer(a: Config, b: Config)
    requires a.mode == Custom && b.mode == Custom
    requires Label(a) == Label(b)
    ensures MinimumSeconds(a) == MinimumSeconds(b)
  {
    CustomLabelRoundTrip(MinimumSeconds(a));
    CustomLabelRoundTrip(MinimumSeconds(b));
  }

  /** The JSON file holding the config: missing, unreadable or unparsable, or parsed. */
  datatype StoredFile = Missing | Unreadable | Parsed(content: PartialConfig)

  /** The config a load produces from the file. */
  function Loaded(f: StoredFile): Config {
    match f
    case Parsed(p) => Sanitize(p)
    case _ => Default
  }

  /** A loaded config is always sanitised. */
  lemma LoadedSanitized(f: StoredFile)
    ensures Sanitized(Loaded(f))
    ensures f.Missing? || f.Unreadable? ==> Loaded(f) == Default
  {
    match f
    case Parsed(p) => SanitizeIdempotent(p);
    case _ => assert Default.customMinimumSeconds.value == DefaultCustomSeconds as real;
  }

  /** `$trackDurationFilterConfig`, the load flag, and the file it persists to. */
  class FilterStore {
    var config: Config
    var hasLoadedConfig: bool
    var file: StoredFile

    /** Once loaded, the config is what the file holds, sanitised. */
    predicate Valid()
      reads this
    {
      Sanitized(config) && (hasLoadedConfig ==> file.Parsed? ==> config == Sanitize(file.content))
    }

    constructor(f: StoredFile)
      ensures Valid()
      ensures config == Default && !hasLoadedConfig && file == f
    {
      config, hasLoadedConfig, file := Default, false, f;
      assert Default.customMinimumSeconds.value == DefaultCustomSeconds as real;
    }

    /** `ensureTrackDurationFilterConfigLoaded`: reads the file once, then returns the current value. */
    method EnsureLoaded() returns (r: Config)
      requires Valid()
      modifies this`config, this`hasLoadedConfig
      ensures Valid() && hasLoadedConfig && r == config
      ensures old(hasLoadedConfig) ==> config == old(config)
      ensures !old(hasLoadedConfig) ==> config == Loaded(file)
    {
      if hasLoadedConfig {
        return config;
      }
      LoadedSanitized(file);
      config := Loaded(file);
      hasLoadedConfig := true;
      r := config;
    }

    /** `setTrackDurationFilterConfig`: overlay the updates, sanitise, store and write the file. */
    method SetConfig(updates: PartialConfig) returns (r: Config)
      requires Valid()
      modifies this`config, this`hasLoadedConfig, this`file
      ensures Valid() && hasLoadedConfig && r == config
      ensures var current := if old(hasLoadedConfig) then old(config) else Loaded(old(file));
        config == Sanitize(Overlay(current, updates))
      ensures file == Parsed(ToPartial(config))
      ensures Loaded(file) == config
    {
      var current := EnsureLoaded();
      var next := Sanitize(Overlay(current, updates));
      SanitizeIdempotent(Overlay(current, updates));
      config := next;
      hasLoadedConfig := true;
      file := Parsed(ToPartial(next));
      r := next;
    }
  }
}
