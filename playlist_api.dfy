/**
 * Creating a playlist (`src/modules/playlist/playlist.api.ts`): the values
 * of the `playlists` row and of the `playlistTracks` rows that
 * `createPlaylist` inserts.
 *
 * The database is not modelled: the function returns the rows that reach
 * it. `generateId` draws on a random UUID (or the clock and `Math.random`),
 * so the ids it yields are parameters: `playlistId` for the playlist and
 * `rowIds` for the track rows, one per track. `Date.now()` is the parameter
 * `now`. Which insert throws, if any, is the parameter `failure`; the error
 * is logged and swallowed.
 */
module PlaylistApi {
  import opened Wrappers

  /** A `playlists` row. */
  datatype PlaylistInsert = PlaylistInsert(
    id: string,
    name: string,
    description: string,
    trackCount: nat,
    createdAt: int,
    updatedAt: int)

  /** A `playlistTracks` row. */
  datatype PlaylistTrackInsert = PlaylistTrackInsert(
    id: string,
    playlistId: string,
    trackId: string,
    position: nat,
    addedAt: int)

  /** Which awaited insert throws. */
  datatype InsertFailure = NoFailure | PlaylistInsertFails | TrackInsertFails

  /** What reached the database: the playlist row, if its insert succeeded, and the track rows. */
  datatype Written = Written(playlist: Option<PlaylistInsert>, tracks: seq<PlaylistTrackInsert>)

  /** `trackIds.map((trackId, index) => ({ ... }))`: one row per track id, positioned by its index. */
  function TrackRows(playlistId: string, trackIds: seq<string>, rowIds: seq<string>, now: int)
    : (r: seq<PlaylistTrackInsert>)
    requires |rowIds| == |trackIds|
    ensures |r| == |trackIds|
    ensures forall i :: 0 <= i < |r| ==>
      && r[i].id == rowIds[i]
      && r[i].playlistId == playlistId
      && r[i].trackId == trackIds[i]
      && r[i].position == i
      && r[i].addedAt == now
  {
    seq(|trackIds|, i requires 0 <= i < |trackIds| =>
      PlaylistTrackInsert(rowIds[i], playlistId, trackIds[i], i, now))
  }

  /**
   * `createPlaylist(name, description, trackIds)`. The playlist row counts
   * the tracks and carries one timestamp twice; track rows are inserted only
   * for a non-empty list and only after the playlist row went in.
   */
  function CreatePlaylist(
    name: string, description: string, trackIds: seq<string>,
    playlistId: string, rowIds: seq<string>, now: int, failure: InsertFailure)
    : (w: Written)
    requires |rowIds| == |trackIds|
    ensures failure == PlaylistInsertFails ==> w == Written(None, [])
    ensures failure != PlaylistInsertFails ==>
      w.playlist == Some(PlaylistInsert(playlistId, name, description, |trackIds|, now, now))
    ensures trackIds == [] || failure != NoFailure <==> w.tracks == []
    ensures w.playlist.Some? ==> w.playlist.value.createdAt == w.playlist.value.updatedAt == now
    ensures failure == NoFailure ==> w.playlist.Some? && w.playlist.value.trackCount == |w.tracks|
    ensures forall i :: 0 <= i < |w.tracks| ==>
      && w.playlist.Some?
      && w.tracks[i].playlistId == w.playlist.value.id
      && w.tracks[i].trackId == trackIds[i]
      && w.tracks[i].position == i
      && w.tracks[i].addedAt == w.playlist.value.createdAt
  {
    if failure == PlaylistInsertFails then Written(None, [])
    else
      var playlist := PlaylistInsert(playlistId, name, description, |trackIds|, now, now);
      if |trackIds| > 0 && failure == NoFailure then
        Written(Some(playlist), TrackRows(playlistId, trackIds, rowIds, now))
      else
        Written(Some(playlist), [])
  }

  // ---------------------------------------------------------------------
  // Reading the playlist back
  // ---------------------------------------------------------------------

  /** The track id of the first row at position `p`, as a query ordered by position finds it. */
  function TrackAtPosition(rows: seq<PlaylistTrackInsert>, p: nat): Option<string> {
    if rows == [] then None
    else if rows[0].position == p then Some(rows[0].trackId)
    else TrackAtPosition(rows[1..], p)
  }

  /** The playlist's tracks in position order: the track at each position `0 .. count - 1`. */
  function TracksInOrder(rows: seq<PlaylistTrackInsert>, count: nat): seq<Option<string>> {
    seq(count, p requires 0 <= p < count => TrackAtPosition(rows, p))
  }

  /** Rows numbered consecutively from `base` hold the track at each position in range, and none outside it. */
  lemma {:induction false} TrackAtConsecutive(rows: seq<PlaylistTrackInsert>, base: nat, p: nat)
    requires forall i :: 0 <= i < |rows| ==> rows[i].position == base + i
    ensures base <= p < base + |rows| ==> TrackAtPosition(rows, p) == Some(rows[p - base].trackId)
    ensures !(base <= p < base + |rows|) ==> TrackAtPosition(rows, p) == None
    decreases |rows|
  {
    if rows != [] && rows[0].position != p {
      TrackAtConsecutive(rows[1..], base + 1, p);
    }
  }

  /**
   * A created playlist reads back as exactly `trackIds`, in order, even
   * when an id repeats: its count covers every row and each position holds
   * the track at that index.
   */
  lemma CreatePlaylistReadsBack(
    name: string, description: string, trackIds: seq<string>,
    playlistId: string, rowIds: seq<string>, now: int)
    requires |rowIds| == |trackIds|
    ensures var w := CreatePlaylist(name, description, trackIds, playlistId, rowIds, now, NoFailure);
      && w.playlist.Some?
      && TracksInOrder(w.tracks, w.playlist.value.trackCount) == seq(|trackIds|, i requires 0 <= i < |trackIds| => Some(trackIds[i]))
  {
    var w := CreatePlaylist(name, description, trackIds, playlistId, rowIds, now, NoFailure);
    forall p | 0 <= p < |trackIds|
      ensures TrackAtPosition(w.tracks, p) == Some(trackIds[p])
    {
      TrackAtConsecutive(w.tracks, 0, p);
    }
  }
}
