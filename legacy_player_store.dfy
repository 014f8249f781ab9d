/**
 * The legacy player store (`src/store/player-store.ts`): a library list, the
 * playing track and its index in the list, next/previous with wrap-around,
 * and the library load that either reuses the cached table or scans the
 * device and rebuilds every record.
 *
 * The audio player is reduced to what it plays and whether it is playing;
 * the system media controls are left out. The device scan is given as its
 * first page of assets with one metadata read per asset, and the clock and
 * the permission answer are parameters.
 */
module LegacyPlayerStore {
  import opened Wrappers
  import opened Numbers
  import opened Text
  import opened Database
  import UiStore
  import MediaIndexer

  // ---------------------------------------------------------------------
  // Positions in the list
  // ---------------------------------------------------------------------

  /** `tracks.findIndex((t) => t.id === id)`: the first index with that id, or -1. */
  function IndexOfId(tracks: seq<Track>, id: string): (r: int)
    ensures -1 <= r < |tracks|
    ensures r == -1 <==> forall i :: 0 <= i < |tracks| ==> tracks[i].id != id
    ensures r >= 0 ==> tracks[r].id == id && forall i :: 0 <= i < r ==> tracks[i].id != id
  {
    if tracks == [] then -1
    else if tracks[0].id == id then 0
    else
      var k := IndexOfId(tracks[1..], id);
      assert forall i :: 1 <= i < |tracks| ==> tracks[i] == tracks[1..][i - 1];
      if k == -1 then -1 else k + 1
  }

  /** No two entries share an id. */
  predicate DistinctIds(tracks: seq<Track>) {
    forall i, j :: 0 <= i < j < |tracks| ==> tracks[i].id != tracks[j].id
  }

  /** With distinct ids, looking a listed track up gives back its own position. */
  lemma IndexOfOwnId(tracks: seq<Track>, k: int)
    requires DistinctIds(tracks) && 0 <= k < |tracks|
    ensures IndexOfId(tracks, tracks[k].id) == k
  {
  }

  /**
   * `playNext`'s index: one past the current one, wrapping to 0 past the
   * end. The current index is never below -1, since `findIndex` sets it.
   */
  function NextIndex(current: int, n: nat): (r: nat)
    requires n > 0 && current >= -1
    ensures r < n
    ensures current + 1 < n ==> r == current + 1
    ensures current + 1 >= n ==> r == 0
  {
    var next := current + 1;
    if next >= n then 0 else next
  }

  /**
   * `playPrevious`'s index as written: one before the current one, wrapping
   * to the last index when negative. An index left over from a longer list
   * is not brought back into range.
   */
  function PreviousIndexAsWritten(current: int, n: nat): (r: int)
    requires n > 0 && current >= -1
    ensures r >= 0
    ensures r < n <==> current <= n
  {
    var prev := current - 1;
    if prev < 0 then n - 1 else prev
  }

  /**
   * A track was playing at index 4 of a five-track list, and a reload left
   * two tracks: the previous index is 3, past the end of the list, and
   * `playTrack` is handed `undefined`.
   */
  lemma PreviousIndexAsWrittenStale()
    ensures PreviousIndexAsWritten(4, 2) == 3
    ensures !(PreviousIndexAsWritten(4, 2) < 2)
  {
  }

  /** `playPrevious`'s index, wrapping to the last index whenever the step leaves the list. */
  function PreviousIndex(current: int, n: nat): (r: nat)
    requires n > 0 && current >= -1
    ensures r < n
    ensures 0 <= current - 1 < n ==> r == current - 1
    ensures !(0 <= current - 1 < n) ==> r == n - 1
  {
    var prev := current - 1;
    if prev < 0 || prev >= n then n - 1 else prev
  }

  /** Whenever the current index is still within the list, the two agree. */
  lemma PreviousIndexAgrees(current: int, n: nat)
    requires n > 0 && -1 <= current <= n
    ensures PreviousIndex(current, n) == PreviousIndexAsWritten(current, n)
  {
  }

  /** Next and previous undo each other on every index of the list. */
  lemma NextPreviousInverse(i: int, n: nat)
    requires 0 <= i < n
    ensures PreviousIndex(NextIndex(i, n), n) == i
    ensures NextIndex(PreviousIndex(i, n), n) == i
  {
  }

  /** `n` steps forward from any index of the list come back to it. */
  lemma {:induction false} NextIndexCycle(i: int, n: nat, steps: nat)
    requires 0 <= i < n && steps <= n
    ensures Advance(i, n, steps) == (if i + steps < n then i + steps else i + steps - n)
  {
    if steps > 0 {
      NextIndexCycle(i, n, steps - 1);
    }
  }

  /** The index after `steps` calls of `playNext` from index `i`. */
  function Advance(i: int, n: nat, steps: nat): (r: nat)
    requires 0 <= i < n
    ensures r < n
  {
    if steps == 0 then i else NextIndex(Advance(i, n, steps - 1), n)
  }

  // ---------------------------------------------------------------------
  // One asset of a scan
  // ---------------------------------------------------------------------

  /** A media-library asset as the scan sees it. */
  datatype Asset = Asset(id: string, filename: string, uri: string, duration: real, modificationTime: int)

  /** The tags the metadata read asks for. */
  datatype Tags = Tags(name: Option<string>, artist: Option<string>, album: Option<string>, artwork: Option<string>)

  /** No tags: what a read that threw, or found no metadata, leaves behind. */
  const NoTags := Tags(None, None, None, None)

  /** The lyrics a rebuilt record gets when there are none to keep. */
  const DefaultLyrics := [LyricLine(0.0, "\U{1F3B6} Start of the song")]

  /** `existing?.scan_time || 0`. */
  function LastScanTime(existing: Option<Track>): int {
    if existing.Some? && existing.value.scanTime.Some? then existing.value.scanTime.value else 0
  }

  /** An existing record is kept when the asset has not changed since its scan and the load is not forced. */
  predicate Reusable(asset: Asset, existing: Option<Track>, force: bool) {
    existing.Some? && !(asset.modificationTime > LastScanTime(existing)) && !force
  }

  /** `value || fallback` on an optional string. */
  function OrElse(o: Option<string>, fallback: string): string {
    if MediaIndexer.Truthy(o) then o.value else fallback
  }

  /** The title of a rebuilt record: the tag, else the file name without extension, else `Untitled Song`. */
  function TitleOf(tags: Tags, filename: string): (r: string)
    ensures r != ""
    ensures MediaIndexer.Truthy(tags.name) ==> r == tags.name.value
    ensures !MediaIndexer.Truthy(tags.name) && MediaIndexer.StripExtension(filename) == "" ==> r == "Untitled Song"
  {
    if MediaIndexer.Truthy(tags.name) then tags.name.value
    else OrElse(Some(MediaIndexer.StripExtension(filename)), "Untitled Song")
  }

  /**
   * What the scan makes of one asset: the existing record when it can be
   * reused, otherwise a record rebuilt from the tags (`None` when the read
   * failed), stamped with the scan time and keeping the old lyrics.
   */
  function LoadedTrack(asset: Asset, existing: Option<Track>, force: bool, read: Option<Tags>, now: int): (r: Track)
    requires existing.Some? ==> existing.value.id == asset.id
    ensures r.id == asset.id
    ensures Reusable(asset, existing, force) ==> r == existing.value
    ensures !Reusable(asset, existing, force) ==>
      && r.uri == asset.uri && r.duration == asset.duration && r.scanTime == Some(now)
      && r.title != "" && r.artist.Some? && r.artist.value != "" && r.album.Some? && r.album.value != ""
      && r.image == read.GetOr(NoTags).artwork
      && r.lyrics == (if existing.Some? && existing.value.lyrics.Some? then existing.value.lyrics else Some(DefaultLyrics))
  {
    if Reusable(asset, existing, force) then existing.value
    else
      var tags := read.GetOr(NoTags);
      Track(
        asset.id,
        TitleOf(tags, asset.filename),
        Some(OrElse(tags.artist, "Unknown Artist")),
        Some(OrElse(tags.album, "Unknown Album")),
        asset.duration,
        asset.uri,
        tags.artwork,
        if existing.Some? && existing.value.lyrics.Some? then existing.value.lyrics else Some(DefaultLyrics),
        Some(now))
  }

  /** A failed read rebuilds the record from the file name and the fallbacks alone. */
  lemma LoadedTrackWithoutTags(asset: Asset, force: bool, now: int)
    requires MediaIndexer.StripExtension(asset.filename) == ""
    ensures var r := LoadedTrack(asset, None, force, None, now);
      && r.title == "Untitled Song" && r.artist == Some("Unknown Artist") && r.album == Some("Unknown Album")
      && r.image == None && r.lyrics == Some(DefaultLyrics)
  {
  }

  /** `new Map(tracks.map((t) => [t.id, t]))`: each id to its last entry. */
  function ById(tracks: seq<Track>): (r: map<string, Track>)
    ensures forall k :: k in r ==> r[k].id == k
    ensures forall i :: 0 <= i < |tracks| ==> tracks[i].id in r
  {
    if tracks == [] then map[]
    else
      var last := tracks[|tracks| - 1];
      ById(tracks[..|tracks| - 1])[last.id := last]
  }

  /** `existingTracksMap.get(id)`. */
  function Existing(byId: map<string, Track>, id: string): (r: Option<Track>)
    ensures r.Some? <==> id in byId
    ensures r.Some? ==> r.value == byId[id]
  {
    if id in byId then Some(byId[id]) else None
  }

  /** `Promise.all(assets.map(...))`: one record per asset, in asset order. */
  function LoadedTracks(assets: seq<Asset>, byId: map<string, Track>, force: bool, tagReads: seq<Option<Tags>>, now: int): (r: seq<Track>)
    requires |tagReads| == |assets|
    requires forall k :: k in byId ==> byId[k].id == k
    ensures |r| == |assets|
    ensures forall i :: 0 <= i < |assets| ==> r[i] == LoadedTrack(assets[i], Existing(byId, assets[i].id), force, tagReads[i], now)
  {
    seq(|assets|, i requires 0 <= i < |assets| => LoadedTrack(assets[i], Existing(byId, assets[i].id), force, tagReads[i], now))
  }

  /**
   * With no stored records, nothing is reused: every asset is rebuilt,
   * stamped with the scan time and given the default lyrics.
   */
  lemma LoadedTracksFresh(assets: seq<Asset>, force: bool, tagReads: seq<Option<Tags>>, now: int, i: int)
    requires |tagReads| == |assets| && 0 <= i < |assets|
    ensures var r := LoadedTracks(assets, map[], force, tagReads, now);
      && r[i].id == assets[i].id && r[i].uri == assets[i].uri
      && r[i].scanTime == Some(now) && r[i].lyrics == Some(DefaultLyrics)
  {
  }

  /** `(completed / total) * 100`. */
  function Percent(completed: nat, total: nat): Number
    requires total > 0
  {
    Finite(completed as real / total as real * 100.0)
  }

  /** The progress line shown after each asset. */
  function ProgressMessage(completed: int, total: int, filename: string): string {
    "Processing " + IntToString(completed) + "/" + IntToString(total) + ": " + (if filename != "" then filename else "Unknown")
  }

  // ---------------------------------------------------------------------
  // The store
  // ---------------------------------------------------------------------

  class LegacyPlayer {
    /** `$tracks`. */
    var tracks: seq<Track>
    /** `$currentTrack`. */
    var currentTrack: Option<Track>
    /** `$isPlaying`, `$currentTime`, `$duration`. */
    var isPlaying: bool
    var currentTime: real
    var duration: real
    /** `currentTrackIndex`. */
    var currentIndex: int
    /** The audio player: `None` before the first play, else the uri it holds. */
    var playerSource: Option<string>
    /** Whether the audio player is playing. */
    var playerPlaying: bool
    /** The SQLite tables and the progress overlay the store writes to. */
    const db: TrackDatabase
    const ui: UiStore.UiState

    /** The index only ever comes from `findIndex`; the table is keyed by id; the overlay is in range. */
    predicate Valid()
      reads this`currentIndex, db`tracks, ui`progress
    {
      currentIndex >= -1 && Keyed(db.tracks) && ui.Valid()
    }

    constructor(d: TrackDatabase, u: UiStore.UiState)
      requires Keyed(d.tracks) && u.Valid()
      ensures db == d && ui == u && Valid()
      ensures tracks == [] && currentTrack == None && !isPlaying && currentTime == 0.0 && duration == 0.0
      ensures currentIndex == -1 && playerSource == None && !playerPlaying
    {
      db, ui := d, u;
      tracks, currentTrack, isPlaying, currentTime, duration := [], None, false, 0.0, 0.0;
      currentIndex, playerSource, playerPlaying := -1, None, false;
    }

    /**
     * `playTrack`: the player takes the track's uri and plays, the track
     * becomes current, its index is looked up in the list, and the play is
     * recorded in the history.
     */
    method PlayTrack(track: Track, now: int)
      requires Valid()
      modifies this`playerSource, this`playerPlaying, this`currentTrack, this`currentIndex, this`isPlaying, db`history
      ensures Valid()
      ensures playerSource == Some(track.uri) && playerPlaying && isPlaying
      ensures currentTrack == Some(track) && currentIndex == IndexOfId(tracks, track.id)
      ensures HistoryAfterAdd(old(db.history), db.history, track.id, now)
    {
      playerSource := Some(track.uri);
      currentTrack := Some(track);
      currentIndex := IndexOfId(tracks, track.id);
      db.AddToHistory(track.id, now);
      playerPlaying := true;
      isPlaying := true;
    }

    /** `playNext`: nothing on an empty list, else the entry after the current one, wrapping to the first. */
    method PlayNext(now: int)
      requires Valid()
      modifies this`playerSource, this`playerPlaying, this`currentTrack, this`currentIndex, this`isPlaying, db`history
      ensures Valid()
      ensures tracks == [] ==> unchanged(this, db)
      ensures tracks != [] ==>
        && currentTrack == Some(tracks[NextIndex(old(currentIndex), |tracks|)]) && isPlaying && playerPlaying
        && playerSource == Some(currentTrack.value.uri)
        && HistoryAfterAdd(old(db.history), db.history, currentTrack.value.id, now)
      ensures tracks != [] && DistinctIds(tracks) ==> currentIndex == NextIndex(old(currentIndex), |tracks|)
    {
      if |tracks| == 0 {
        return;
      }
      var next := NextIndex(currentIndex, |tracks|);
      PlayTrack(tracks[next], now);
      if DistinctIds(tracks) {
        IndexOfOwnId(tracks, next);
      }
    }

    /**
     * `playPrevious`: nothing on an empty list, else the entry before the
     * current one, wrapping to the last. The index is brought back into the
     * list when a shorter list was loaded since the last play.
     */
    method PlayPrevious(now: int)
      requires Valid()
      modifies this`playerSource, this`playerPlaying, this`currentTrack, this`currentIndex, this`isPlaying, db`history
      ensures Valid()
      ensures tracks == [] ==> unchanged(this, db)
      ensures tracks != [] ==>
        && currentTrack == Some(tracks[PreviousIndex(old(currentIndex), |tracks|)]) && isPlaying && playerPlaying
        && playerSource == Some(currentTrack.value.uri)
        && HistoryAfterAdd(old(db.history), db.history, currentTrack.value.id, now)
      ensures tracks != [] && DistinctIds(tracks) ==> currentIndex == PreviousIndex(old(currentIndex), |tracks|)
    {
      if |tracks| == 0 {
        return;
      }
      var prev := PreviousIndex(currentIndex, |tracks|);
      PlayTrack(tracks[prev], now);
      if DistinctIds(tracks) {
        IndexOfOwnId(tracks, prev);
      }
    }

    /** `pauseTrack`: only once there is a player. */
    method PauseTrack()
      modifies this`playerPlaying, this`isPlaying
      ensures playerSource.Some? ==> !playerPlaying && !isPlaying
      ensures playerSource.None? ==> playerPlaying == old(playerPlaying) && isPlaying == old(isPlaying)
    {
      if playerSource.Some? {
        playerPlaying := false;
        isPlaying := false;
      }
    }

    /** `resumeTrack`: only once there is a player. */
    method ResumeTrack()
      modifies this`playerPlaying, this`isPlaying
      ensures playerSource.Some? ==> playerPlaying && isPlaying
      ensures playerSource.None? ==> playerPlaying == old(playerPlaying) && isPlaying == old(isPlaying)
    {
      if playerSource.Some? {
        playerPlaying := true;
        isPlaying := true;
      }
    }

    /** `togglePlayback`: flips whether the player plays. */
    method TogglePlayback()
      modifies this`playerPlaying, this`isPlaying
      ensures playerSource.Some? ==> playerPlaying == !old(playerPlaying) && isPlaying == playerPlaying
      ensures playerSource.None? ==> playerPlaying == old(playerPlaying) && isPlaying == old(isPlaying)
    {
      if playerSource.None? {
        return;
      }
      if playerPlaying {
        PauseTrack();
      } else {
        ResumeTrack();
      }
    }

    /**
     * The player's status listener: it mirrors time, duration and playing
     * state, and moves on to the next entry when the track finishes. The
     * status comes from the player itself, so its playing flag is the
     * player's own flag too, which `togglePlayback` reads next.
     */
    method PlaybackStatusUpdate(time: real, length: real, playing: bool, didJustFinish: bool, now: int)
      requires Valid()
      modifies this`currentTime, this`duration, this`isPlaying
      modifies this`playerSource, this`playerPlaying, this`currentTrack, this`currentIndex, db`history
      ensures Valid()
      ensures currentTime == time && duration == length
      ensures !didJustFinish || tracks == [] ==>
        && isPlaying == playing && playerPlaying == playing
        && currentTrack == old(currentTrack) && currentIndex == old(currentIndex)
        && playerSource == old(playerSource) && db.history == old(db.history)
      ensures didJustFinish && tracks != [] ==>
        && isPlaying && playerPlaying
        && currentTrack == Some(tracks[NextIndex(old(currentIndex), |tracks|)])
        && playerSource == Some(currentTrack.value.uri)
        && HistoryAfterAdd(old(db.history), db.history, currentTrack.value.id, now)
      ensures didJustFinish && tracks != [] && DistinctIds(tracks) ==> currentIndex == NextIndex(old(currentIndex), |tracks|)
    {
      currentTime := time;
      duration := length;
      playerPlaying := playing;
      isPlaying := playing;
      if didJustFinish {
        PlayNext(now);
      }
    }

    /**
     * `loadTracks`: a load that is not forced uses a non-empty cached table
     * as it is. Otherwise (a forced load empties the table first) it asks
     * for permission, scans the first page of assets and rebuilds the list,
     * storing it and showing progress meanwhile. The table is empty by the
     * time the scan looks records up, so no record is ever reused.
     */
    method LoadTracks(force: bool, granted: bool, assets: seq<Asset>, tagReads: seq<Option<Tags>>, now: int)
      requires Valid() && |tagReads| == |assets|
      modifies this`tracks, db`tracks, ui`visible, ui`progress, ui`message
      ensures Valid()
      ensures !force && old(db.tracks) != map[] ==>
        Listing(db.tracks, tracks) && db.tracks == old(db.tracks) && unchanged(ui)
      ensures (force || old(db.tracks) == map[]) && (!granted || assets == []) ==>
        tracks == old(tracks) && db.tracks == map[] && unchanged(ui)
      ensures (force || old(db.tracks) == map[]) && granted && assets != [] ==>
        && tracks == LoadedTracks(assets, map[], force, tagReads, now)
        && db.tracks == InsertAll(map[], tracks, now)
        && !ui.visible && ui.progress == Finite(0.0) && ui.message == ""
    {
      if !force {
        var cached := db.GetTracksFromDB();
        ListingEmpty(db.tracks, cached);
        if |cached| > 0 {
          tracks := cached;
          return;
        }
      } else {
        db.ClearTracksDB();
      }
      ScanLibrary(force, granted, assets, tagReads, now);
    }

    /** The rest of `loadTracks` once the table is empty: permission, scan, store. */
    method ScanLibrary(force: bool, granted: bool, assets: seq<Asset>, tagReads: seq<Option<Tags>>, now: int)
      requires Valid() && |tagReads| == |assets| && db.tracks == map[]
      modifies this`tracks, db`tracks, ui`visible, ui`progress, ui`message
      ensures Valid()
      ensures !granted || assets == [] ==> tracks == old(tracks) && db.tracks == map[] && unchanged(ui)
      ensures granted && assets != [] ==>
        && tracks == LoadedTracks(assets, map[], force, tagReads, now)
        && db.tracks == InsertAll(map[], tracks, now)
        && !ui.visible && ui.progress == Finite(0.0) && ui.message == ""
    {
      if !granted || |assets| == 0 {
        return;
      }
      ui.ShowProgress("Scanning media library...");
      var existing := db.GetTracksFromDB();
      ListingEmpty(db.tracks, existing);
      var loaded := LoadEach(assets, ById(existing), force, tagReads, now);
      ui.HideProgress();
      db.InsertTracksToDB(loaded, now);
      InsertAllKeyed(map[], loaded, now);
      tracks := loaded;
    }

    /** The per-asset work of the scan, reporting progress after each asset. */
    method LoadEach(assets: seq<Asset>, byId: map<string, Track>, force: bool, tagReads: seq<Option<Tags>>, now: int)
      returns (loaded: seq<Track>)
      requires ui.Valid() && |tagReads| == |assets| && assets != []
      requires forall k :: k in byId ==> byId[k].id == k
      modifies ui`progress, ui`message
      ensures ui.Valid()
      ensures loaded == LoadedTracks(assets, byId, force, tagReads, now)
    {
      ghost var all := LoadedTracks(assets, byId, force, tagReads, now);
      var total := |assets|;
      loaded := [];
      for i := 0 to total
        invariant ui.Valid()
        invariant loaded == all[..i]
      {
        var track := LoadedTrack(assets[i], Existing(byId, assets[i].id), force, tagReads[i], now);
        loaded := loaded + [track];
        ui.UpdateProgress(Percent(i + 1, total), Some(ProgressMessage(i + 1, total, assets[i].filename)));
      }
      assert all[..total] == all;
    }
  }
}
