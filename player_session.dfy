/**
 * The saved playback session (`src/modules/player/player-session.ts`): the
 * sanitiser that every saved and every loaded session goes through, and
 * the session file. The file holds the parsed form of what was written
 * (`JSON.parse(JSON.stringify(x))` is taken to give `x` back); the clock
 * is a parameter.
 */
module PlayerSession {
  import opened Wrappers
  import opened Numbers
  import opened PlayerTypes

  /** One property of the object being sanitised, as far as the sanitiser looks at it. */
  datatype Value = Absent | Null | Bool(b: bool) | Num(n: Number) | Str(s: string) | Composite

  /** `Boolean(v)`. */
  predicate Truthy(v: Value) {
    match v
    case Absent => false
    case Null => false
    case Bool(b) => b
    case Num(n) => n.IsTruthy()
    case Str(s) => s != ""
    case Composite => true
  }

  /** An entry of the stored queue: `null` (reading a property of it throws), another scalar, or an object. */
  datatype Item = NullItem | ScalarItem | TrackItem(track: Track)

  /** The `queue` property: an array, or anything else. */
  datatype QueueField = NotArray | Items(items: seq<Item>)

  /** `Partial<PersistedPlaybackSession>`: the object handed to the sanitiser. */
  datatype Payload = Payload(
    queue: QueueField,
    currentTrackId: Value,
    positionSeconds: Value,
    repeatMode: Value,
    wasPlaying: Value,
    savedAt: Value)

  /** `PersistedPlaybackSession`. */
  datatype Session = Session(
    queue: seq<Track>,
    currentTrackId: Option<string>,
    positionSeconds: real,
    repeatMode: RepeatModeType,
    wasPlaying: bool,
    savedAt: real)

  /** What `sanitizeSession` does: returns `null`, throws, or returns a session. */
  datatype Outcome = Rejected | Threw | Sanitized(session: Session)

  /** The properties `sanitizeTrack` copies besides the ones `Track` names. */
  const ListedFields: set<string> := {
    "artistId", "albumArtist", "albumId", "lyrics", "fileHash", "scanTime", "isDeleted",
    "playCount", "year", "filename", "dateAdded", "discNumber", "trackNumber", "genre"
  }

  /** `sanitizeTrack`: the listed properties only, and a duration that is a finite number. */
  function SanitizeTrack(t: Track): Track {
    t.(duration := if t.duration.IsFinite() then t.duration else Finite(0.0),
       fields := map k | k in t.fields && k in ListedFields :: t.fields[k])
  }

  /** A track as the sanitiser leaves it: finite duration, no unlisted property. */
  predicate IsSanitizedTrack(t: Track) {
    t.duration.IsFinite() && t.fields.Keys <= ListedFields
  }

  /**
   * A sanitised track keeps every listed property and its duration when
   * finite, turns a non-finite duration into 0 and drops the rest; doing
   * it again changes nothing.
   */
  lemma SanitizeTrackSpec(t: Track)
    ensures var r := SanitizeTrack(t);
      && IsSanitizedTrack(r)
      && r.(duration := t.duration, fields := t.fields) == t
      && (t.duration.IsFinite() ==> r.duration == t.duration)
      && (!t.duration.IsFinite() ==> r.duration == Finite(0.0))
      && (forall k :: k in ListedFields && k in t.fields ==> k in r.fields && r.fields[k] == t.fields[k])
      && SanitizeTrack(r) == r
  {
    var r := SanitizeTrack(t);
    assert r.fields.Keys <= ListedFields;
    assert SanitizeTrack(r).fields == r.fields;
  }

  /** The filter on the mapped queue: `item.id && item.uri && item.title`. */
  predicate Playable(t: Track) {
    t.id != "" && t.uri != "" && t.title != ""
  }

  /**
   * The queue of `sanitizeSession`: every entry sanitised, in order, those
   * without id, uri or title dropped; `None` when an entry is `null`, on
   * which `sanitizeTrack` throws.
   */
  function SanitizeQueue(items: seq<Item>): (r: Option<seq<Track>>)
    ensures r.Some? ==> |r.value| <= |items|
  {
    if items == [] then Some([])
    else
      var rest := SanitizeQueue(items[1..]);
      assert items == [items[0]] + items[1..];
      match items[0]
      case NullItem => None
      case ScalarItem => rest
      case TrackItem(t) =>
        if rest.None? then None
        else if Playable(SanitizeTrack(t)) then Some([SanitizeTrack(t)] + rest.value)
        else rest
  }

  /** Sanitising the queue throws exactly when one of its entries is `null`. */
  lemma {:induction false} SanitizeQueueThrows(items: seq<Item>)
    ensures SanitizeQueue(items).None? <==> NullItem in items
  {
    if items != [] {
      SanitizeQueueThrows(items[1..]);
      assert items == [items[0]] + items[1..];
    }
  }

  /** The queue of a concatenation is the concatenation of the queues: order is kept. */
  lemma {:induction false} SanitizeQueueAppend(a: seq<Item>, b: seq<Item>)
    requires SanitizeQueue(a).Some? && SanitizeQueue(b).Some?
    ensures SanitizeQueue(a + b) == Some(SanitizeQueue(a).value + SanitizeQueue(b).value)
  {
    if a != [] {
      assert (a + b)[1..] == a[1..] + b;
      SanitizeQueueAppend(a[1..], b);
      assert (a + b)[0] == a[0];
      var x, y := SanitizeQueue(a[1..]).value, SanitizeQueue(b).value;
      if a[0].TrackItem? && Playable(SanitizeTrack(a[0].track)) {
        assert [SanitizeTrack(a[0].track)] + (x + y) == ([SanitizeTrack(a[0].track)] + x) + y;
      }
    } else {
      assert a + b == b;
      assert [] + SanitizeQueue(b).value == SanitizeQueue(b).value;
    }
  }

  /**
   * Exactly the sanitised objects with an id, a uri and a title are kept:
   * a kept track is one of them, and each of them is kept.
   */
  lemma {:induction false} SanitizeQueueMembers(items: seq<Item>, t: Track)
    requires SanitizeQueue(items).Some?
    ensures t in SanitizeQueue(items).value <==>
      exists i :: 0 <= i < |items| && items[i].TrackItem? && t == SanitizeTrack(items[i].track) && Playable(t)
  {
    if items != [] {
      SanitizeQueueMembers(items[1..], t);
      var rest := SanitizeQueue(items[1..]).value;
      if t in SanitizeQueue(items).value && (t !in rest) {
        assert items[0].TrackItem? && t == SanitizeTrack(items[0].track) && Playable(t);
      }
      if exists i :: 0 <= i < |items| && items[i].TrackItem? && t == SanitizeTrack(items[i].track) && Playable(t) {
        var i :| 0 <= i < |items| && items[i].TrackItem? && t == SanitizeTrack(items[i].track) && Playable(t);
        if i > 0 {
          assert items[1..][i - 1] == items[i];
        }
      }
    }
  }

  /** Every kept track is playable and sanitised. */
  lemma {:induction false} SanitizeQueueClean(items: seq<Item>)
    requires SanitizeQueue(items).Some?
    ensures forall t :: t in SanitizeQueue(items).value ==> Playable(t) && IsSanitizedTrack(t)
  {
    forall t | t in SanitizeQueue(items).value
      ensures Playable(t) && IsSanitizedTrack(t)
    {
      SanitizeQueueMembers(items, t);
      var i :| 0 <= i < |items| && items[i].TrackItem? && t == SanitizeTrack(items[i].track) && Playable(t);
      SanitizeTrackSpec(items[i].track);
    }
  }

  /** `Number.isFinite(v) ? Math.max(0, v ?? 0) : 0`. */
  function PositionOf(v: Value): real {
    if v.Num? && v.n.Finite? then MaxReal(0.0, v.n.value) else 0.0
  }

  /** `"track"`, `"queue"` and `"off"` are kept, anything else is `"off"`. */
  function RepeatOf(v: Value): RepeatModeType {
    if v == Str("track") then RepeatTrack
    else if v == Str("queue") then RepeatQueue
    else RepeatOff
  }

  /** A non-empty string, else `null`. */
  function CurrentIdOf(v: Value): Option<string> {
    if v.Str? && |v.s| > 0 then Some(v.s) else None
  }

  /** `Number.isFinite(v) ? v ?? now : now`. */
  function SavedAtOf(v: Value, now: real): real {
    if v.Num? && v.n.Finite? then v.n.value else now
  }

  /** `sanitizeSession`. */
  function SanitizeSession(p: Payload, now: real): Outcome {
    if p.queue.NotArray? then Rejected
    else
      var queue := SanitizeQueue(p.queue.items);
      if queue.None? then Threw
      else Sanitized(Session(
        queue.value,
        CurrentIdOf(p.currentTrackId),
        PositionOf(p.positionSeconds),
        RepeatOf(p.repeatMode),
        Truthy(p.wasPlaying),
        SavedAtOf(p.savedAt, now)))
  }

  /** A session as the sanitiser returns it. */
  predicate IsClean(s: Session) {
    && (forall t :: t in s.queue ==> Playable(t) && IsSanitizedTrack(t))
    && s.positionSeconds >= 0.0
    && (s.currentTrackId.Some? ==> s.currentTrackId.value != "")
  }

  /**
   * `null` exactly when the queue is not an array; a throw exactly when an
   * entry of the queue is `null`; otherwise a clean session whose position
   * is the given one when finite and not negative, 0 when negative or not
   * finite, and whose repeat mode and current id fall back to `"off"` and
   * `null`.
   */
  lemma SanitizeSessionSpec(p: Payload, now: real)
    ensures SanitizeSession(p, now) == Rejected <==> p.queue.NotArray?
    ensures SanitizeSession(p, now) == Threw <==> p.queue.Items? && NullItem in p.queue.items
    ensures SanitizeSession(p, now).Sanitized? ==> IsClean(SanitizeSession(p, now).session)
    ensures SanitizeSession(p, now).Sanitized? ==>
      var s := SanitizeSession(p, now).session;
      && (p.positionSeconds.Num? && p.positionSeconds.n.Finite? && p.positionSeconds.n.value >= 0.0 ==>
            s.positionSeconds == p.positionSeconds.n.value)
      && (!(p.positionSeconds.Num? && p.positionSeconds.n.Finite? && p.positionSeconds.n.value > 0.0) ==>
            s.positionSeconds == 0.0)
      && (s.repeatMode == RepeatOff <==> p.repeatMode != Str("track") && p.repeatMode != Str("queue"))
      && (s.currentTrackId.None? <==> !(p.currentTrackId.Str? && p.currentTrackId.s != ""))
      && s.wasPlaying == Truthy(p.wasPlaying)
  {
    if p.queue.Items? {
      SanitizeQueueThrows(p.queue.items);
      if NullItem !in p.queue.items {
        SanitizeQueueClean(p.queue.items);
      }
    }
  }

  /** The JSON name of a repeat mode. */
  function RepeatName(m: RepeatModeType): string {
    match m
    case RepeatOff => "off"
    case RepeatTrack => "track"
    case RepeatQueue => "queue"
  }

  /** Reading a repeat mode's name gives the mode back. */
  lemma RepeatOfName(m: RepeatModeType)
    ensures RepeatOf(Str(RepeatName(m))) == m
  {
    match m
    case RepeatOff =>
      assert |"off"| != |"track"| && |"off"| != |"queue"|;
    case RepeatTrack =>
    case RepeatQueue =>
      assert "queue"[0] != "track"[0];
  }

  /** A queue of tracks as stored entries. */
  function AsItems(ts: seq<Track>): (r: seq<Item>)
    ensures |r| == |ts| && forall i :: 0 <= i < |ts| ==> r[i] == TrackItem(ts[i])
  {
    seq(|ts|, i requires 0 <= i < |ts| => TrackItem(ts[i]))
  }

  /** What reading back the JSON text of a session gives. */
  function Encode(s: Session): Payload {
    Payload(
      Items(AsItems(s.queue)),
      if s.currentTrackId.Some? then Str(s.currentTrackId.value) else Null,
      Num(Finite(s.positionSeconds)),
      Str(RepeatName(s.repeatMode)),
      Bool(s.wasPlaying),
      Num(Finite(s.savedAt)))
  }

  /** A queue of clean tracks goes through the sanitiser unchanged. */
  lemma {:induction false} SanitizeCleanQueue(ts: seq<Track>)
    requires forall t :: t in ts ==> Playable(t) && IsSanitizedTrack(t)
    ensures SanitizeQueue(AsItems(ts)) == Some(ts)
  {
    var items := AsItems(ts);
    if ts != [] {
      assert items[1..] == AsItems(ts[1..]);
      SanitizeCleanQueue(ts[1..]);
      var t := ts[0];
      assert t in ts;
      assert forall k :: k in SanitizeTrack(t).fields <==> k in t.fields;
      assert SanitizeTrack(t).fields == t.fields;
      assert SanitizeTrack(t) == t;
      assert ts == [t] + ts[1..];
    }
  }

  /**
   * A clean session survives being written and read back: sanitising its
   * stored form gives the same session, whatever the clock says.
   */
  lemma EncodeRoundTrip(s: Session, now: real)
    requires IsClean(s)
    ensures SanitizeSession(Encode(s), now) == Sanitized(s)
  {
    SanitizeCleanQueue(s.queue);
    var e := Encode(s);
    RepeatOfName(s.repeatMode);
    assert PositionOf(e.positionSeconds) == s.positionSeconds;
    assert CurrentIdOf(e.currentTrackId) == s.currentTrackId;
    assert SanitizeQueue(e.queue.items) == Some(s.queue);
    assert Truthy(e.wasPlaying) == s.wasPlaying;
    assert SavedAtOf(e.savedAt, now) == s.savedAt;
  }

  /** Sanitising is idempotent: a sanitised session, stored and sanitised again, is unchanged. */
  lemma SanitizeSessionIdempotent(p: Payload, now: real, later: real)
    requires SanitizeSession(p, now).Sanitized?
    ensures SanitizeSession(Encode(SanitizeSession(p, now).session), later) == SanitizeSession(p, now)
  {
    SanitizeSessionSpec(p, now);
    EncodeRoundTrip(SanitizeSession(p, now).session, later);
  }

  /** The session file: absent, not a JSON object (or unreadable), or the object it holds. */
  datatype SessionFile = Missing | Unusable | Stored(payload: Payload)

  /** What `savePlaybackSession` leaves: the file, and whether the call threw. */
  datatype Saved = Saved(file: SessionFile, threw: bool)

  /** `savePlaybackSession`: nothing is written when the sanitiser returns `null` or throws. */
  function Save(p: Payload, file: SessionFile, now: real): Saved {
    match SanitizeSession(p, now)
    case Rejected => Saved(file, false)
    case Threw => Saved(file, true)
    case Sanitized(s) => Saved(Stored(Encode(s)), false)
  }

  /** `loadPlaybackSession`: `null` for a missing or unusable file and for anything the sanitiser refuses or throws on. */
  function Load(file: SessionFile, now: real): Option<Session> {
    match file
    case Missing => None
    case Unusable => None
    case Stored(p) =>
      match SanitizeSession(p, now)
      case Sanitized(s) => Some(s)
      case _ => None
  }

  /**
   * Saving leaves the file untouched unless the sanitiser accepts the
   * session; loading after a save gives back the sanitised session.
   */
  lemma SaveThenLoad(p: Payload, file: SessionFile, now: real, later: real)
    ensures !SanitizeSession(p, now).Sanitized? ==> Save(p, file, now).file == file
    ensures SanitizeSession(p, now).Sanitized? ==>
      Load(Save(p, file, now).file, later) == Some(SanitizeSession(p, now).session)
  {
    if SanitizeSession(p, now).Sanitized? {
      SanitizeSessionIdempotent(p, now, later);
    }
  }

  /** A loaded session is always clean, and there is none without a stored object. */
  lemma LoadClean(file: SessionFile, now: real)
    ensures Load(file, now).Some? ==> file.Stored? && IsClean(Load(file, now).value)
  {
    if file.Stored? {
      SanitizeSessionSpec(file.payload, now);
    }
  }
}
