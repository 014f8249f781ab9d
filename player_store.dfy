/**
 * The player store (`src/modules/player/player.store.ts`): the module-level
 * atoms and flags become the fields of `Player`, the native player's queue
 * and repeat mode become fields the store writes, and what the native
 * player reports (its current index, position and state) and the clock
 * become parameters.
 */
module PlayerStore {
  import opened Wrappers
  import opened Numbers
  import opened PlayerTypes
  import opened PlayerSession

  // ---------------------------------------------------------------------
  // Repeat modes
  // ---------------------------------------------------------------------

  /** The native player's `RepeatMode` values: off, repeat the track, repeat the queue. */
  const NativeRepeatOff := 0
  const NativeRepeatTrack := 1
  const NativeRepeatQueue := 2

  /** `mapRepeatMode`. */
  function MapRepeatMode(m: RepeatModeType): int {
    match m
    case RepeatTrack => NativeRepeatTrack
    case RepeatQueue => NativeRepeatQueue
    case RepeatOff => NativeRepeatOff
  }

  /** `mapTrackPlayerRepeatMode`: an unknown native value reads as off. */
  function MapTrackPlayerRepeatMode(mode: int): RepeatModeType {
    if mode == NativeRepeatTrack then RepeatTrack
    else if mode == NativeRepeatQueue then RepeatQueue
    else RepeatOff
  }

  /**
   * The two mappings are inverse on the three modes; a native value other
   * than the three comes back as off.
   */
  lemma RepeatModeRoundTrip(m: RepeatModeType, mode: int)
    ensures MapTrackPlayerRepeatMode(MapRepeatMode(m)) == m
    ensures MapRepeatMode(MapTrackPlayerRepeatMode(mode)) == if mode == NativeRepeatTrack || mode == NativeRepeatQueue then mode else NativeRepeatOff
  {
  }

  /** The mode `toggleRepeatMode` picks: off, then track, then queue, then off again. */
  function NextRepeatMode(m: RepeatModeType): RepeatModeType {
    if m == RepeatOff then RepeatTrack
    else if m == RepeatTrack then RepeatQueue
    else RepeatOff
  }

  /** Toggling always changes the mode, visits all three, and three toggles come back to the start. */
  lemma RepeatCycle(m: RepeatModeType, other: RepeatModeType)
    ensures NextRepeatMode(m) != m
    ensures NextRepeatMode(NextRepeatMode(NextRepeatMode(m))) == m
    ensures other == m || other == NextRepeatMode(m) || other == NextRepeatMode(NextRepeatMode(m))
  {
  }

  // ---------------------------------------------------------------------
  // Tracks and the native player's tracks
  // ---------------------------------------------------------------------

  /** A track as the native player holds it. */
  /**
   * How the native `setupPlayer` and `updateOptions` calls end: normally,
   * with the error saying the player has already been initialised, or with
   * any other error.
   */
  datatype SetupOutcome = SetupDone | AlreadyInitialized | SetupFailed

  datatype NativeTrack = NativeTrack(
    id: string,
    url: string,
    title: Option<string>,
    artist: Option<string>,
    album: Option<string>,
    artwork: Option<string>,
    duration: Option<Number>)

  /** `mapTrackToTrackPlayerInput`. */
  function ToNative(t: Track): NativeTrack {
    NativeTrack(t.id, t.uri, Some(t.title), t.artist, t.album, t.image, Some(t.duration))
  }

  /** `duration || 0`: an absent, zero or NaN duration becomes 0. */
  function DurationOrZero(d: Option<Number>): Number {
    if d.Some? && d.value.IsTruthy() then d.value else Finite(0.0)
  }

  /** The spread of a missing `existingTrack`: nothing beyond what the mapping sets. */
  const Blank := Track("", "", None, None, Finite(0.0), "", None, false, None, map[])

  /**
   * `mapTrackPlayerTrackToTrack`: the library's track with that id, else
   * nothing, with id, title (`Unknown Track` when not a string), artist,
   * album, duration, uri and image taken from the native track.
   */
  function FromNative(n: NativeTrack, tracks: seq<Track>): Track {
    var k := FindIndex(tracks, n.id);
    var base := if k >= 0 then tracks[k] else Blank;
    base.(id := n.id, title := n.title.GetOr("Unknown Track"), artist := n.artist, album := n.album,
          duration := DurationOrZero(n.duration), uri := n.url, image := n.artwork)
  }

  /**
   * A mapped track takes id, uri, artist, album and image from the native
   * track, falls back to `Unknown Track` and 0, and keeps everything else
   * of the library's track with that id, or has nothing else.
   */
  lemma FromNativeSpec(n: NativeTrack, tracks: seq<Track>)
    ensures var t := FromNative(n, tracks);
      && t.id == n.id && t.uri == n.url && t.artist == n.artist && t.album == n.album && t.image == n.artwork
      && (n.title.None? ==> t.title == "Unknown Track")
      && (n.title.Some? ==> t.title == n.title.value)
      && (n.duration.None? || !n.duration.value.IsTruthy() ==> t.duration == Finite(0.0))
      && (forall u :: u in tracks && u.id == n.id ==>
            t.isFavorite == tracks[FindIndex(tracks, n.id)].isFavorite
            && t.fields == tracks[FindIndex(tracks, n.id)].fields)
      && ((forall u :: u in tracks ==> u.id != n.id) ==> !t.isFavorite && t.lastPlayedAt.None? && t.fields == map[])
  {
  }

  /**
   * Handing a library track to the native player and mapping it back gives
   * the track again, provided its duration survives `|| 0`.
   */
  lemma NativeRoundTrip(t: Track, tracks: seq<Track>)
    requires t in tracks && tracks[FindIndex(tracks, t.id)] == t
    requires t.duration.IsTruthy() || t.duration == Finite(0.0)
    ensures FromNative(ToNative(t), tracks) == t
  {
  }

  /** The native player's queue after `TrackPlayer.add(queue.map(mapTrackToTrackPlayerInput))`. */
  function NativeQueueOf(queue: seq<Track>): seq<NativeTrack> {
    seq(|queue|, i requires 0 <= i < |queue| => ToNative(queue[i]))
  }

  /** The first track with that id is the one found. */
  lemma FirstWithId(tracks: seq<Track>, i: int)
    requires 0 <= i < |tracks| && forall j :: 0 <= j < i ==> tracks[j].id != tracks[i].id
    ensures FindIndex(tracks, tracks[i].id) == i
  {
  }

  /** `.map(mapTrackPlayerTrackToTrack).filter((track) => track.id && track.uri)`. */
  function MappedQueue(native: seq<NativeTrack>, tracks: seq<Track>): seq<Track> {
    if native == [] then []
    else
      var t := FromNative(native[0], tracks);
      (if t.id != "" && t.uri != "" then [t] else []) + MappedQueue(native[1..], tracks)
  }

  /** The mapped queue is no longer than the native one and every track in it has an id and a uri. */
  lemma {:induction false} MappedQueueSpec(native: seq<NativeTrack>, tracks: seq<Track>)
    ensures |MappedQueue(native, tracks)| <= |native|
    ensures forall t :: t in MappedQueue(native, tracks) ==> t.id != "" && t.uri != ""
  {
    if native != [] {
      MappedQueueSpec(native[1..], tracks);
    }
  }

  /** A native track with an id and a url is kept, mapped, in its place in the order. */
  lemma {:induction false} MappedQueueAppend(a: seq<NativeTrack>, b: seq<NativeTrack>, tracks: seq<Track>)
    ensures MappedQueue(a + b, tracks) == MappedQueue(a, tracks) + MappedQueue(b, tracks)
  {
    if a == [] {
      assert a + b == b;
    } else {
      assert (a + b)[0] == a[0] && (a + b)[1..] == a[1..] + b;
      MappedQueueAppend(a[1..], b, tracks);
    }
  }

  // ---------------------------------------------------------------------
  // Queue rotation
  // ---------------------------------------------------------------------

  /** `tracks.slice(k).concat(tracks.slice(0, k))`. */
  function Rotation(tracks: seq<Track>, k: nat): seq<Track>
    requires k <= |tracks|
  {
    tracks[k..] + tracks[..k]
  }

  /** The index `playTrack` starts from: the track's index, or 0 when absent. */
  function StartIndex(track: Track, tracks: seq<Track>): (k: nat)
    ensures k <= |tracks|
  {
    var k := FindIndex(tracks, track.id);
    if k >= 0 then k else 0
  }

  /**
   * The queue is the list rotated to start at index `k`: same length, same
   * tracks, and entry `i` is entry `i + k` of the list, wrapping round past
   * its end.
   */
  lemma RotationSpec(tracks: seq<Track>, k: nat)
    requires k <= |tracks|
    ensures var q := Rotation(tracks, k);
      && |q| == |tracks|
      && multiset(q) == multiset(tracks)
      && forall i :: 0 <= i < |q| ==> q[i] == if i + k < |tracks| then tracks[i + k] else tracks[i + k - |tracks|]
  {
    assert tracks == tracks[..k] + tracks[k..];
  }

  /**
   * `playTrack` starts the queue at the selected track when the list has
   * it, and leaves the list as it is when it does not.
   */
  lemma StartIndexSpec(track: Track, tracks: seq<Track>)
    ensures FindIndex(tracks, track.id) >= 0 ==> Rotation(tracks, StartIndex(track, tracks))[0].id == track.id
    ensures FindIndex(tracks, track.id) < 0 ==> Rotation(tracks, StartIndex(track, tracks)) == tracks
  {
    if FindIndex(tracks, track.id) < 0 {
      assert tracks[..0] == [] && tracks[0..] == tracks;
    }
  }

  // ---------------------------------------------------------------------
  // The saved session
  // ---------------------------------------------------------------------

  /** `MIN_SESSION_SAVE_INTERVAL_MS`. */
  const MinSessionSaveInterval := 2000

  /**
   * The saved current id: the queue entry at the native index when that is
   * in range, else the current track's id, else `null`.
   */
  function CurrentIdToSave(queue: seq<Track>, reportedIndex: Option<int>, currentTrack: Option<Track>): Option<string> {
    if reportedIndex.Some? && 0 <= reportedIndex.value < |queue| then Some(queue[reportedIndex.value].id)
    else if currentTrack.Some? then Some(currentTrack.value.id)
    else None
  }

  /** The object `persistPlaybackSession` hands to `savePlaybackSession`. */
  function SessionToSave(
    queue: seq<Track>, currentId: Option<string>, position: Number,
    repeatMode: RepeatModeType, isPlaying: bool, now: int): Payload
  {
    Payload(
      Items(AsItems(queue)),
      if currentId.Some? then Str(currentId.value) else Null,
      Num(position),
      Str(RepeatName(repeatMode)),
      Bool(isPlaying),
      Num(Finite(now as real)))
  }

  /**
   * What `persistPlaybackSession` does to the session file, given the
   * native queue mapped back to tracks.
   */
  function PersistOutcome(
    file: SessionFile, queue: seq<Track>, reportedIndex: Option<int>, currentTrack: Option<Track>,
    position: Number, repeatMode: RepeatModeType, isPlaying: bool, now: int): Saved
  {
    Save(SessionToSave(queue, CurrentIdToSave(queue, reportedIndex, currentTrack), position, repeatMode, isPlaying, now),
         file, now as real)
  }

  /**
   * What a persisted session loads back as: the mapped queue less the
   * entries without a title, the chosen current id (when not empty), the
   * position when finite and not negative (else 0), the repeat mode, the
   * playing flag and the save time.
   */
  lemma PersistedSessionLoads(
    queue: seq<Track>, reportedIndex: Option<int>, currentTrack: Option<Track>, position: Number,
    repeatMode: RepeatModeType, isPlaying: bool, now: int, file: SessionFile, later: real)
    requires forall t :: t in queue ==> t.id != "" && t.uri != ""
    ensures var currentId := CurrentIdToSave(queue, reportedIndex, currentTrack);
      var p := SessionToSave(queue, currentId, position, repeatMode, isPlaying, now);
      var saved := Save(p, file, now as real);
      && !saved.threw
      && Load(saved.file, later).Some?
      && var s := Load(saved.file, later).value;
      && s.queue == SanitizeQueue(AsItems(queue)).value
      && (s.currentTrackId.Some? <==> currentId.Some? && currentId.value != "")
      && (s.currentTrackId.Some? ==> s.currentTrackId == currentId)
      && (position.Finite? && position.value >= 0.0 ==> s.positionSeconds == position.value)
      && s.repeatMode == repeatMode
      && s.wasPlaying == isPlaying
      && s.savedAt == now as real
  {
    var currentId := CurrentIdToSave(queue, reportedIndex, currentTrack);
    var p := SessionToSave(queue, currentId, position, repeatMode, isPlaying, now);
    assert NullItem !in AsItems(queue);
    SanitizeQueueThrows(AsItems(queue));
    SanitizeSessionSpec(p, now as real);
    SaveThenLoad(p, file, now as real, later);
    RepeatOfName(repeatMode);
  }

  /** The current id a restored session points the player at: the saved id's index, or 0. */
  function TargetIndex(s: Session): nat
    requires |s.queue| > 0
    ensures TargetIndex(s) < |s.queue|
  {
    var k := if s.currentTrackId.Some? then FindIndex(s.queue, s.currentTrackId.value) else 0;
    if k >= 0 then k else 0
  }

  /** `Math.max(0, positionSeconds || 0)`. */
  function TargetPosition(s: Session): real {
    MaxReal(0.0, s.positionSeconds)
  }

  /**
   * The restored index holds the saved current track when the queue has
   * it and is 0 otherwise; the restored position is never negative and is
   * the saved one for a clean session.
   */
  lemma RestoreTarget(s: Session)
    requires |s.queue| > 0
    ensures s.currentTrackId.Some? && FindIndex(s.queue, s.currentTrackId.value) >= 0 ==>
      s.queue[TargetIndex(s)].id == s.currentTrackId.value
    ensures s.currentTrackId.None? || FindIndex(s.queue, s.currentTrackId.value) < 0 ==> TargetIndex(s) == 0
    ensures TargetPosition(s) >= 0.0
    ensures IsClean(s) ==> TargetPosition(s) == s.positionSeconds
  {
  }

  /** `track?.duration || 0`, as the `$duration` atom holds it. */
  function DurationOf(t: Option<Track>): Number {
    if t.Some? then DurationOrZero(Some(t.value.duration)) else Finite(0.0)
  }

  // ---------------------------------------------------------------------
  // Favourites
  // ---------------------------------------------------------------------

  /**
   * The library and current track after `toggleFavorite`: the first track
   * with that id, and the current track when it has that id, get the
   * library track's flag negated.
   */
  function FavoriteToggled(tracks: seq<Track>, current: Option<Track>, trackId: string): (seq<Track>, Option<Track>) {
    var index := FindIndex(tracks, trackId);
    if index == -1 then (tracks, current)
    else
      var newStatus := !tracks[index].isFavorite;
      (tracks[index := tracks[index].(isFavorite := newStatus)],
       if current.Some? && current.value.id == trackId then Some(current.value.(isFavorite := newStatus)) else current)
  }

  /**
   * An unknown id changes nothing; otherwise only the flag of the first
   * track with that id flips, every other entry stays, and the current
   * track follows when it has that id.
   */
  lemma FavoriteToggledSpec(tracks: seq<Track>, current: Option<Track>, trackId: string)
    ensures var (ts, c) := FavoriteToggled(tracks, current, trackId);
      var k := FindIndex(tracks, trackId);
      && (k < 0 ==> ts == tracks && c == current)
      && (k >= 0 ==>
            && |ts| == |tracks|
            && ts[k] == tracks[k].(isFavorite := !tracks[k].isFavorite)
            && (forall i :: 0 <= i < |ts| && i != k ==> ts[i] == tracks[i])
            && (current.Some? && current.value.id == trackId ==>
                  c == Some(current.value.(isFavorite := !tracks[k].isFavorite)))
            && (!(current.Some? && current.value.id == trackId) ==> c == current))
  {
  }

  /**
   * Toggling the same favourite twice gives back the library and the
   * current track, provided a current track with that id agrees with the
   * library on the flag.
   */
  lemma FavoriteToggledTwice(tracks: seq<Track>, current: Option<Track>, trackId: string)
    requires FindIndex(tracks, trackId) >= 0 && current.Some? && current.value.id == trackId ==>
      current.value.isFavorite == tracks[FindIndex(tracks, trackId)].isFavorite
    ensures var (ts, c) := FavoriteToggled(tracks, current, trackId);
      FavoriteToggled(ts, c, trackId) == (tracks, current)
  {
    var k := FindIndex(tracks, trackId);
    if k >= 0 {
      var (ts, c) := FavoriteToggled(tracks, current, trackId);
      assert forall i :: 0 <= i < |ts| ==> ts[i].id == tracks[i].id;
      assert FindIndex(ts, trackId) == k;
      assert ts[k := tracks[k]] == tracks;
    }
  }

  // ---------------------------------------------------------------------
  // The native player and the store
  // ---------------------------------------------------------------------

  /**
   * The native player, as far as the store drives it: its queue, repeat
   * mode, whether it plays, and the index and position of the last `skip`.
   */
  class NativePlayer {
    var queue: seq<NativeTrack>
    var repeatMode: int
    var playing: bool
    var index: int
    var position: real

    constructor()
      ensures queue == [] && repeatMode == NativeRepeatOff && !playing && index == 0 && position == 0.0
    {
      queue := [];
      repeatMode := NativeRepeatOff;
      playing := false;
      index := 0;
      position := 0.0;
    }

    /** `TrackPlayer.reset()`: stops and empties the queue. */
    method Reset()
      modifies this`queue, this`playing
      ensures queue == [] && !playing
    {
      queue := [];
      playing := false;
    }

    /** `TrackPlayer.add(tracks)`: appends to the queue. */
    method Add(tracks: seq<NativeTrack>)
      modifies this`queue
      ensures queue == old(queue) + tracks
    {
      queue := queue + tracks;
    }

    /** `TrackPlayer.skip(i, position)`. */
    method Skip(i: int, pos: real)
      modifies this`index, this`position
      ensures index == i && position == pos
    {
      index, position := i, pos;
    }

    /** `TrackPlayer.setRepeatMode(mode)`. */
    method SetRepeatMode(mode: int)
      modifies this`repeatMode
      ensures repeatMode == mode
    {
      repeatMode := mode;
    }

    /** `TrackPlayer.play()` and `TrackPlayer.pause()`. */
    method SetPlaying(play: bool)
      modifies this`playing
      ensures playing == play
    {
      playing := play;
    }
  }

  /**
   * The player store's module-level state as fields, and the native player
   * it drives. What the native player reports (its current index,
   * position and state) and the clock are parameters of the operations.
   */
  class Player {
    const native: NativePlayer
    var tracks: seq<Track>
    var currentTrack: Option<Track>
    var isPlaying: bool
    var currentTime: real
    var duration: Number
    var repeatMode: RepeatModeType
    var isPlayerReady: bool
    var lastSavedAt: int
    /** The queue store `setQueueStore` writes. */
    var queueStore: seq<Track>
    var sessionFile: SessionFile

    constructor(file: SessionFile)
      ensures fresh(native) && native.queue == [] && native.repeatMode == NativeRepeatOff && !native.playing
      ensures tracks == [] && currentTrack == None && !isPlaying && currentTime == 0.0 && duration == Finite(0.0)
      ensures repeatMode == RepeatOff && !isPlayerReady && lastSavedAt == 0 && queueStore == [] && sessionFile == file
    {
      native := new NativePlayer();
      tracks := [];
      currentTrack := None;
      isPlaying := false;
      currentTime := 0.0;
      duration := Finite(0.0);
      repeatMode := RepeatOff;
      isPlayerReady := false;
      lastSavedAt := 0;
      queueStore := [];
      sessionFile := file;
    }

    /** What saving the session now would write over `file`. */
    function SaveNow(file: SessionFile, reportedIndex: Option<int>, position: Number, now: int): Saved
      reads this, native
    {
      PersistOutcome(file, MappedQueue(native.queue, tracks), reportedIndex, currentTrack, position, repeatMode, isPlaying, now)
    }

    /**
     * `setupPlayer`: a ready player stays ready; otherwise the store becomes
     * ready when the native setup succeeds or reports that it was already
     * initialised, and stays not ready when it fails in any other way.
     */
    method SetupPlayer(outcome: SetupOutcome)
      modifies this`isPlayerReady
      ensures isPlayerReady == (old(isPlayerReady) || outcome != SetupFailed)
    {
      if isPlayerReady {
        return;
      }
      match outcome {
        case SetupDone =>
          isPlayerReady := true;
        case AlreadyInitialized =>
          isPlayerReady := true;
        case SetupFailed =>
      }
    }

    /**
     * `persistPlaybackSession`: nothing before the player is ready, nothing
     * within 2000 ms of the last save unless forced; otherwise the session
     * is written and the save time recorded unless writing threw.
     */
    method PersistPlaybackSession(force: bool, now: int, reportedIndex: Option<int>, position: Number)
      modifies this`sessionFile, this`lastSavedAt
      ensures !old(isPlayerReady) || (!force && now - old(lastSavedAt) < MinSessionSaveInterval) ==>
        sessionFile == old(sessionFile) && lastSavedAt == old(lastSavedAt)
      ensures old(isPlayerReady) && (force || now - old(lastSavedAt) >= MinSessionSaveInterval) ==>
        var saved := SaveNow(old(sessionFile), reportedIndex, position, now);
        sessionFile == saved.file && lastSavedAt == (if saved.threw then old(lastSavedAt) else now)
    {
      if !isPlayerReady {
        return;
      }
      if !force && now - lastSavedAt < MinSessionSaveInterval {
        return;
      }
      var saved := SaveNow(sessionFile, reportedIndex, position, now);
      sessionFile := saved.file;
      if !saved.threw {
        lastSavedAt := now;
      }
    }

    /**
     * `playTrack`: nothing before the player is ready; otherwise the queue
     * store and the native queue get the list rotated to the track, the
     * track plays from 0, and the session is saved.
     */
    method PlayTrack(track: Track, playlistTracks: Option<seq<Track>>, now: int, reportedIndex: Option<int>, position: Number)
      modifies this`queueStore, this`currentTrack, this`isPlaying, this`currentTime, this`duration
      modifies this`sessionFile, this`lastSavedAt, native`queue, native`playing
      ensures !old(isPlayerReady) ==> unchanged(this, native)
      ensures old(isPlayerReady) ==>
        var list := playlistTracks.GetOr(tracks);
        && queueStore == Rotation(list, StartIndex(track, list))
        && native.queue == NativeQueueOf(queueStore) && native.playing
        && currentTrack == Some(track) && isPlaying
        && currentTime == 0.0 && duration == DurationOf(Some(track))
        && var saved := SaveNow(old(sessionFile), reportedIndex, position, now);
           sessionFile == saved.file && lastSavedAt == (if saved.threw then old(lastSavedAt) else now)
    {
      if !isPlayerReady {
        return;
      }
      var list := playlistTracks.GetOr(tracks);
      StartPlayback(track, Rotation(list, StartIndex(track, list)));
      PersistPlaybackSession(true, now, reportedIndex, position);
    }

    /** The body of `playTrack` between the ready guard and the save, for a computed queue. */
    method StartPlayback(track: Track, queue: seq<Track>)
      modifies this`queueStore, this`currentTrack, this`isPlaying, this`currentTime, this`duration
      modifies native`queue, native`playing
      ensures queueStore == queue && native.queue == NativeQueueOf(queue) && native.playing
      ensures currentTrack == Some(track) && isPlaying && currentTime == 0.0 && duration == DurationOf(Some(track))
    {
      native.Reset();
      queueStore := queue;
      native.Add(NativeQueueOf(queue));
      assert native.queue == NativeQueueOf(queue);
      currentTrack := Some(track);
      native.SetPlaying(true);
      isPlaying := true;
      currentTime := 0.0;
      duration := DurationOf(Some(track));
    }

    /** `setRepeatMode`: the mode on the native player and in the store, then a forced save. */
    method SetRepeatMode(mode: RepeatModeType, now: int, reportedIndex: Option<int>, position: Number)
      modifies this`repeatMode, this`sessionFile, this`lastSavedAt, native`repeatMode
      ensures repeatMode == mode && native.repeatMode == MapRepeatMode(mode)
      ensures old(isPlayerReady) ==>
        var saved := SaveNow(old(sessionFile), reportedIndex, position, now);
        sessionFile == saved.file && lastSavedAt == (if saved.threw then old(lastSavedAt) else now)
      ensures !old(isPlayerReady) ==> sessionFile == old(sessionFile) && lastSavedAt == old(lastSavedAt)
    {
      native.SetRepeatMode(MapRepeatMode(mode));
      repeatMode := mode;
      PersistPlaybackSession(true, now, reportedIndex, position);
    }

    /** `toggleRepeatMode`: the next mode in the cycle off, track, queue. */
    method ToggleRepeatMode(now: int, reportedIndex: Option<int>, position: Number)
      modifies this`repeatMode, this`sessionFile, this`lastSavedAt, native`repeatMode
      ensures repeatMode == NextRepeatMode(old(repeatMode)) && repeatMode != old(repeatMode)
      ensures MapTrackPlayerRepeatMode(native.repeatMode) == repeatMode
      ensures old(isPlayerReady) ==>
        var saved := SaveNow(old(sessionFile), reportedIndex, position, now);
        sessionFile == saved.file && lastSavedAt == (if saved.threw then old(lastSavedAt) else now)
      ensures !old(isPlayerReady) ==> sessionFile == old(sessionFile) && lastSavedAt == old(lastSavedAt)
    {
      var currentMode := repeatMode;
      var nextMode := NextRepeatMode(currentMode);
      SetRepeatMode(nextMode, now, reportedIndex, position);
      RepeatModeRoundTrip(nextMode, 0);
      RepeatCycle(currentMode, currentMode);
    }

    /** `toggleFavorite`, without the database write. */
    method ToggleFavorite(trackId: string)
      modifies this`tracks, this`currentTrack
      ensures (tracks, currentTrack) == FavoriteToggled(old(tracks), old(currentTrack), trackId)
    {
      var index := FindIndex(tracks, trackId);
      if index == -1 {
        return;
      }
      var track := tracks[index];
      var newStatus := !track.isFavorite;
      tracks := tracks[index := track.(isFavorite := newStatus)];
      var current := currentTrack;
      if current.Some? && current.value.id == trackId {
        currentTrack := Some(current.value.(isFavorite := newStatus));
      }
    }

    /**
     * `restorePlaybackSession` when the native player still has a queue:
     * the store takes over that queue (when any of it maps to a track), the
     * reported track or else the first, the native position, state and
     * repeat mode, and the session is saved.
     */
    twostate predicate RestoredFromNative(reportedIndex: Option<int>, position: real, playing: bool,
                                          now: int, indexAtSave: Option<int>, positionAtSave: Number)
      reads this, native
    {
      var mapped := MappedQueue(native.queue, tracks);
      && queueStore == (if |mapped| > 0 then mapped else old(queueStore))
      && currentTrack == (if reportedIndex.Some? && 0 <= reportedIndex.value < |mapped| then Some(mapped[reportedIndex.value])
                          else if |mapped| > 0 then Some(mapped[0]) else None)
      && currentTime == position && duration == DurationOf(currentTrack) && isPlaying == playing
      && repeatMode == MapTrackPlayerRepeatMode(native.repeatMode)
      && var saved := SaveNow(old(sessionFile), indexAtSave, positionAtSave, now);
      && sessionFile == saved.file && lastSavedAt == (if saved.threw then old(lastSavedAt) else now)
    }

    /**
     * `restorePlaybackSession` when the native queue is empty: nothing
     * changes without a saved session with a non-empty queue; otherwise
     * the native player gets its queue, is moved to the saved track and
     * position, takes its repeat mode and plays or pauses as it did, the
     * store follows, and the session is saved again.
     */
    twostate predicate RestoredFromSession(now: int, indexAtSave: Option<int>, positionAtSave: Number)
      reads this, native
    {
      var snapshot := Load(old(sessionFile), now as real);
      if snapshot.None? || |snapshot.value.queue| == 0 then
        unchanged(this, native)
      else
        var s := snapshot.value;
        && native.queue == NativeQueueOf(s.queue)
        && native.index == TargetIndex(s) && native.position == TargetPosition(s)
        && native.repeatMode == MapRepeatMode(s.repeatMode)
        && native.playing == s.wasPlaying
        && queueStore == s.queue
        && currentTrack == Some(s.queue[TargetIndex(s)])
        && currentTime == TargetPosition(s)
        && duration == DurationOf(currentTrack)
        && repeatMode == s.repeatMode
        && isPlaying == s.wasPlaying
        && var saved := SaveNow(old(sessionFile), indexAtSave, positionAtSave, now);
        && sessionFile == saved.file && lastSavedAt == (if saved.threw then old(lastSavedAt) else now)
    }

    /**
     * `restorePlaybackSession`: nothing before the player is ready; then
     * the native queue when it has one, else the saved session. The
     * native player's reports before the save (`reportedIndex`, `position`,
     * `playing`) and at the save are parameters.
     */
    method RestorePlaybackSession(reportedIndex: Option<int>, position: real, playing: bool,
                                  now: int, indexAtSave: Option<int>, positionAtSave: Number)
      modifies this`queueStore, this`currentTrack, this`currentTime, this`duration, this`isPlaying, this`repeatMode
      modifies this`sessionFile, this`lastSavedAt
      modifies native`queue, native`playing, native`index, native`position, native`repeatMode
      ensures !old(isPlayerReady) ==> unchanged(this, native)
      ensures old(isPlayerReady) && |old(native.queue)| > 0 ==>
        unchanged(native) && RestoredFromNative(reportedIndex, position, playing, now, indexAtSave, positionAtSave)
      ensures old(isPlayerReady) && |old(native.queue)| == 0 ==> RestoredFromSession(now, indexAtSave, positionAtSave)
    {
      if !isPlayerReady {
        return;
      }
      if |native.queue| > 0 {
        RestoreFromNative(reportedIndex, position, playing, now, indexAtSave, positionAtSave);
      } else {
        RestoreFromSession(now, indexAtSave, positionAtSave);
      }
    }

    /** The native-queue branch of `restorePlaybackSession`. */
    method RestoreFromNative(reportedIndex: Option<int>, position: real, playing: bool,
                             now: int, indexAtSave: Option<int>, positionAtSave: Number)
      requires isPlayerReady
      modifies this`queueStore, this`currentTrack, this`currentTime, this`duration, this`isPlaying, this`repeatMode
      modifies this`sessionFile, this`lastSavedAt
      ensures RestoredFromNative(reportedIndex, position, playing, now, indexAtSave, positionAtSave)
    {
      TakeOverNativeQueue(reportedIndex, position, playing);
      PersistPlaybackSession(true, now, indexAtSave, positionAtSave);
    }

    /** The store updates of the native-queue branch, before the save. */
    method TakeOverNativeQueue(reportedIndex: Option<int>, position: real, playing: bool)
      modifies this`queueStore, this`currentTrack, this`currentTime, this`duration, this`isPlaying, this`repeatMode
      ensures var mapped := MappedQueue(native.queue, tracks);
        && queueStore == (if |mapped| > 0 then mapped else old(queueStore))
        && currentTrack == (if reportedIndex.Some? && 0 <= reportedIndex.value < |mapped| then Some(mapped[reportedIndex.value])
                            else if |mapped| > 0 then Some(mapped[0]) else None)
        && currentTime == position && duration == DurationOf(currentTrack) && isPlaying == playing
        && repeatMode == MapTrackPlayerRepeatMode(native.repeatMode)
    {
      var mappedQueue := MappedQueue(native.queue, tracks);
      if |mappedQueue| > 0 {
        queueStore := mappedQueue;
      }
      if reportedIndex.Some? && 0 <= reportedIndex.value < |mappedQueue| {
        currentTrack := Some(mappedQueue[reportedIndex.value]);
      } else if |mappedQueue| > 0 {
        currentTrack := Some(mappedQueue[0]);
      } else {
        currentTrack := None;
      }
      currentTime := position;
      duration := DurationOf(currentTrack);
      isPlaying := playing;
      repeatMode := MapTrackPlayerRepeatMode(native.repeatMode);
    }

    /** The saved-session branch of `restorePlaybackSession`. */
    method RestoreFromSession(now: int, indexAtSave: Option<int>, positionAtSave: Number)
      requires isPlayerReady
      modifies this`queueStore, this`currentTrack, this`currentTime, this`duration, this`isPlaying, this`repeatMode
      modifies this`sessionFile, this`lastSavedAt
      modifies native`queue, native`playing, native`index, native`position, native`repeatMode
      ensures RestoredFromSession(now, indexAtSave, positionAtSave)
    {
      var snapshot := Load(sessionFile, now as real);
      if snapshot.None? || |snapshot.value.queue| == 0 {
        return;
      }
      ApplySnapshot(snapshot.value);
      PersistPlaybackSession(true, now, indexAtSave, positionAtSave);
    }

    /** The native player and store updates of the saved-session branch, before the save. */
    method ApplySnapshot(snapshot: Session)
      requires |snapshot.queue| > 0
      modifies this`queueStore, this`currentTrack, this`currentTime, this`duration, this`isPlaying, this`repeatMode
      modifies native`queue, native`playing, native`index, native`position, native`repeatMode
      ensures native.queue == NativeQueueOf(snapshot.queue)
      ensures native.index == TargetIndex(snapshot) && native.position == TargetPosition(snapshot)
      ensures native.repeatMode == MapRepeatMode(snapshot.repeatMode) && native.playing == snapshot.wasPlaying
      ensures queueStore == snapshot.queue && currentTrack == Some(snapshot.queue[TargetIndex(snapshot)])
      ensures currentTime == TargetPosition(snapshot) && duration == DurationOf(currentTrack)
      ensures repeatMode == snapshot.repeatMode && isPlaying == snapshot.wasPlaying
    {
      native.Reset();
      native.Add(NativeQueueOf(snapshot.queue));
      assert native.queue == NativeQueueOf(snapshot.queue);
      var targetIndex := TargetIndex(snapshot);
      var targetPosition := TargetPosition(snapshot);
      native.Skip(targetIndex, targetPosition);
      native.SetRepeatMode(MapRepeatMode(snapshot.repeatMode));
      var current := snapshot.queue[targetIndex];
      queueStore := snapshot.queue;
      currentTrack := Some(current);
      currentTime := targetPosition;
      duration := DurationOf(currentTrack);
      repeatMode := snapshot.repeatMode;
      if snapshot.wasPlaying {
        native.SetPlaying(true);
        isPlaying := true;
      } else {
        native.SetPlaying(false);
        isPlaying := false;
      }
    }
  }
}
