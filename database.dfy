/**
 * The legacy SQLite layer (`src/utils/database.ts`): a `tracks` table keyed
 * by id, a `history` table of plays, and the column migration run at start.
 * Tables are maps keyed by their primary key; the clock is a parameter.
 */
module Database {
  import opened Wrappers
  import opened Text

  /** One timed lyric line. */
  datatype LyricLine = LyricLine(time: real, text: string)

  /** A track as the legacy player store hands it over and reads it back. */
  datatype Track = Track(
    id: string,
    title: string,
    artist: Option<string>,
    album: Option<string>,
    duration: real,
    uri: string,
    image: Option<string>,
    lyrics: Option<seq<LyricLine>>,
    scanTime: Option<int>)

  /**
   * A row of `tracks`. The `lyrics` column holds the JSON text of the lines
   * or SQL `NULL`; the model keeps the lines the text encodes.
   */
  datatype TrackRow = TrackRow(
    id: string,
    title: string,
    artist: Option<string>,
    album: Option<string>,
    duration: real,
    uri: string,
    image: Option<string>,
    lyrics: Option<seq<LyricLine>>,
    scanTime: int)

  /** A row of `history`. */
  datatype HistoryRow = HistoryRow(id: string, trackId: string, timestamp: int)

  /** The row `insertTracksToDB` writes: a missing or zero `scan_time` becomes the current time. */
  function RowOf(t: Track, now: int): TrackRow {
    TrackRow(t.id, t.title, t.artist, t.album, t.duration, t.uri, t.image, t.lyrics,
             if t.scanTime.Some? && t.scanTime.value != 0 then t.scanTime.value else now)
  }

  /** `getTracksFromDB` on one row: the lyrics are parsed back, `NULL` reads as absent. */
  function ReadRow(r: TrackRow): Track {
    Track(r.id, r.title, r.artist, r.album, r.duration, r.uri, r.image, r.lyrics, Some(r.scanTime))
  }

  /** Storing a track and reading it back gives the track, with the scan time filled in. */
  lemma StoredTrackReadsBack(t: Track, now: int)
    ensures var back := ReadRow(RowOf(t, now));
      && back.(scanTime := t.scanTime) == t
      && back.scanTime == Some(if t.scanTime == None || t.scanTime == Some(0) then now else t.scanTime.value)
  {
  }

  /** The table after inserting `ts` one by one with `INSERT OR REPLACE`. */
  function InsertAll(m: map<string, TrackRow>, ts: seq<Track>, now: int): map<string, TrackRow> {
    if ts == [] then m
    else
      var t := ts[|ts| - 1];
      InsertAll(m, ts[..|ts| - 1], now)[t.id := RowOf(t, now)]
  }

  function IdsOf(ts: seq<Track>): set<string> {
    set i | 0 <= i < |ts| :: ts[i].id
  }

  /** `id` does not occur in `ts` after position `i`. */
  predicate LastOccurrence(ts: seq<Track>, i: int)
    requires 0 <= i < |ts|
  {
    forall j :: i < j < |ts| ==> ts[j].id != ts[i].id
  }

  lemma IdsOfSnoc(ts: seq<Track>)
    requires ts != []
    ensures IdsOf(ts) == IdsOf(ts[..|ts| - 1]) + {ts[|ts| - 1].id}
  {
    var init := ts[..|ts| - 1];
    forall x | x in IdsOf(ts)
      ensures x in IdsOf(init) + {ts[|ts| - 1].id}
    {
      var i :| 0 <= i < |ts| && ts[i].id == x;
      if i < |init| {
        assert init[i].id == x;
      }
    }
    forall x | x in IdsOf(init)
      ensures x in IdsOf(ts)
    {
      var i :| 0 <= i < |init| && init[i].id == x;
      assert ts[i].id == x;
    }
  }

  /** The inserts add exactly the ids of `ts` to the table's keys. */
  lemma {:induction false} InsertAllKeys(m: map<string, TrackRow>, ts: seq<Track>, now: int)
    ensures InsertAll(m, ts, now).Keys == m.Keys + IdsOf(ts)
  {
    if ts != [] {
      InsertAllKeys(m, ts[..|ts| - 1], now);
      IdsOfSnoc(ts);
    }
  }

  /** Each id of `ts` ends up holding the row of its last occurrence. */
  lemma {:induction false} InsertAllLast(m: map<string, TrackRow>, ts: seq<Track>, now: int, i: int)
    requires 0 <= i < |ts| && LastOccurrence(ts, i)
    ensures var r := InsertAll(m, ts, now);
      ts[i].id in r && r[ts[i].id] == RowOf(ts[i], now)
  {
    var init := ts[..|ts| - 1];
    if i < |init| {
      assert ts[i].id != ts[|ts| - 1].id;
      assert init[i] == ts[i];
      assert LastOccurrence(init, i);
      InsertAllLast(m, init, now, i);
    }
  }

  /** Rows whose id does not occur in `ts` are left as they were. */
  lemma {:induction false} InsertAllOthers(m: map<string, TrackRow>, ts: seq<Track>, now: int, id: string)
    requires id in m && id !in IdsOf(ts)
    ensures var r := InsertAll(m, ts, now);
      id in r && r[id] == m[id]
  {
    if ts != [] {
      IdsOfSnoc(ts);
      InsertAllOthers(m, ts[..|ts| - 1], now, id);
    }
  }

  /** The history row id: the track id, a dash and the timestamp. */
  function HistoryId(trackId: string, timestamp: int): string {
    trackId + "-" + IntToString(timestamp)
  }

  /** Splits a history id back at its last dash. */
  function HistoryIdParts(id: string): Option<(string, string)> {
    var k := LastIndexOf(id, '-');
    if k < 0 then None else Some((id[..k], id[k + 1..]))
  }

  /** For a timestamp that is not negative, the history id gives back the track id and the timestamp. */
  lemma HistoryIdRoundTrip(trackId: string, timestamp: nat)
    ensures HistoryIdParts(HistoryId(trackId, timestamp)) == Some((trackId, NatToString(timestamp)))
  {
    var digits := NatToString(timestamp);
    var id := HistoryId(trackId, timestamp);
    assert id == trackId + "-" + digits;
    assert id[|trackId|] == '-';
    assert id[|trackId| + 1..] == digits;
    assert '-' !in digits by {
      forall i | 0 <= i < |digits|
        ensures digits[i] != '-'
      {
        assert IsDigit(digits[i]);
      }
    }
    assert LastIndexOf(id, '-') == |trackId|;
    assert id[..|trackId|] == trackId;
  }

  /** Two plays at non-negative times share a history id only when they are the same play. */
  lemma HistoryIdInjective(a: string, ta: nat, b: string, tb: nat)
    requires HistoryId(a, ta) == HistoryId(b, tb)
    ensures a == b && ta == tb
  {
    HistoryIdRoundTrip(a, ta);
    HistoryIdRoundTrip(b, tb);
    NatToStringInjective(ta, tb);
  }

  /** The number of rows `addToHistory` keeps. */
  const HistoryLimit: nat := 50

  /** How many of `n` rows the history keeps. */
  function Kept(n: nat): nat {
    if n < HistoryLimit then n else HistoryLimit
  }

  /** Every row of `h` is at least as new as the row at `k`. */
  predicate Oldest(h: map<string, HistoryRow>, k: string)
    requires k in h
  {
    forall j :: j in h ==> h[k].timestamp <= h[j].timestamp
  }

  /** A non-empty history has an oldest row. */
  lemma {:induction false} OldestExists(h: map<string, HistoryRow>)
    requires h != map[]
    ensures exists k :: k in h && Oldest(h, k)
    decreases |h|
  {
    var k0 :| k0 in h;
    var rest := h - {k0};
    assert rest.Keys == h.Keys - {k0};
    if rest == map[] {
      forall j | j in h
        ensures h[k0].timestamp <= h[j].timestamp
      {
        assert j !in rest;
      }
      assert Oldest(h, k0);
    } else {
      OldestExists(rest);
      var k :| k in rest && Oldest(rest, k);
      var best := if h[k0].timestamp <= h[k].timestamp then k0 else k;
      forall j | j in h
        ensures h[best].timestamp <= h[j].timestamp
      {
        if j != k0 {
          assert j in rest;
        }
      }
      assert Oldest(h, best);
    }
  }

  /**
   * `after` is `before` with the play of `trackId` at `now` recorded and all
   * but the `HistoryLimit` newest rows deleted: no row is invented or
   * altered, and no deleted row is newer than a kept one.
   */
  predicate HistoryAfterAdd(before: map<string, HistoryRow>, after: map<string, HistoryRow>, trackId: string, now: int) {
    var inserted := before[HistoryId(trackId, now) := HistoryRow(HistoryId(trackId, now), trackId, now)];
    && after.Keys <= inserted.Keys
    && (forall k :: k in after ==> after[k] == inserted[k])
    && |after| == Kept(|inserted|)
    && (forall d, k :: d in inserted && d !in after && k in after ==>
          inserted[d].timestamp <= after[k].timestamp)
  }

  // ---------------------------------------------------------------------
  // Reading the table back
  // ---------------------------------------------------------------------

  /** Every row of the table is stored under its own id, the primary key. */
  predicate Keyed(m: map<string, TrackRow>) {
    forall k :: k in m ==> m[k].id == k
  }

  /** Inserting tracks keeps every row under its own id. */
  lemma {:induction false} InsertAllKeyed(m: map<string, TrackRow>, ts: seq<Track>, now: int)
    requires Keyed(m)
    ensures Keyed(InsertAll(m, ts, now))
  {
    if ts != [] {
      InsertAllKeyed(m, ts[..|ts| - 1], now);
    }
  }

  /**
   * `ts` is what `SELECT * FROM tracks` may return for `m`, in whatever
   * order the database chooses: each row read back once.
   */
  predicate Listing(m: map<string, TrackRow>, ts: seq<Track>) {
    && (forall i :: 0 <= i < |ts| ==> ts[i].id in m && ts[i] == ReadRow(m[ts[i].id]))
    && (forall k :: k in m ==> exists i :: 0 <= i < |ts| && ts[i].id == k)
    && (forall i, j :: 0 <= i < j < |ts| ==> ts[i].id != ts[j].id)
  }

  /** A listing is empty exactly when the table is. */
  lemma ListingEmpty(m: map<string, TrackRow>, ts: seq<Track>)
    requires Listing(m, ts)
    ensures ts == [] <==> m == map[]
  {
    if m != map[] {
      var k :| k in m;
      assert exists i :: 0 <= i < |ts| && ts[i].id == k;
    }
    if ts != [] {
      assert ts[0].id in m;
    }
  }

  /** The columns `initDatabase` creates `tracks` with. */
  const TrackColumns: set<string> :=
    {"id", "title", "artist", "album", "duration", "uri", "image", "lyrics", "scan_time"}

  /** The columns the migration adds when they are missing. */
  const MigratedColumns: set<string> := {"lyrics", "album", "scan_time"}

  /** The columns of `tracks` after `initDatabase`, given those before (`None` when there is no table). */
  function ColumnsAfterInit(before: Option<set<string>>): set<string> {
    (if before.Some? then before.value else TrackColumns) + MigratedColumns
  }

  /** Running the start-up again changes nothing, and the migrated columns are always there. */
  lemma InitIdempotent(before: Option<set<string>>)
    ensures MigratedColumns <= ColumnsAfterInit(before)
    ensures ColumnsAfterInit(Some(ColumnsAfterInit(before))) == ColumnsAfterInit(before)
    ensures before.Some? ==> before.value <= ColumnsAfterInit(before)
  {
  }

  class TrackDatabase {
    /** The `tracks` table by id. */
    var tracks: map<string, TrackRow>
    /** The `history` table by id. */
    var history: map<string, HistoryRow>
    /** The columns of `tracks`, or `None` before the table exists. */
    var columns: Option<set<string>>

    constructor()
      ensures tracks == map[] && history == map[] && columns == None
    {
      tracks, history, columns := map[], map[], None;
    }

    /** `initDatabase`: creates the tables if missing, then adds each missing column. */
    method InitDatabase()
      modifies this`columns
      ensures columns == Some(ColumnsAfterInit(old(columns)))
    {
      var cols := if columns.Some? then columns.value else TrackColumns;
      ghost var base := cols;
      if "lyrics" !in cols {
        cols := cols + {"lyrics"};
      }
      if "album" !in cols {
        cols := cols + {"album"};
      }
      if "scan_time" !in cols {
        cols := cols + {"scan_time"};
      }
      assert cols == base + MigratedColumns;
      columns := Some(cols);
    }

    /** `insertTracksToDB`: insert-or-replace each track in order, in one transaction. */
    method InsertTracksToDB(ts: seq<Track>, now: int)
      modifies this`tracks
      ensures tracks == InsertAll(old(tracks), ts, now)
    {
      for i := 0 to |ts|
        invariant tracks == InsertAll(old(tracks), ts[..i], now)
      {
        assert ts[..i + 1][..i] == ts[..i];
        tracks := tracks[ts[i].id := RowOf(ts[i], now)];
      }
      assert ts[..|ts|] == ts;
    }

    /**
     * `getTracksFromDB`: every row, with its lyrics parsed back, in the
     * order the database returns them.
     */
    method GetTracksFromDB() returns (ts: seq<Track>)
      requires Keyed(tracks)
      ensures Listing(tracks, ts)
    {
      ts := [];
      var rest := tracks.Keys;
      while rest != {}
        invariant rest <= tracks.Keys
        invariant forall i :: 0 <= i < |ts| ==> ts[i].id in tracks.Keys - rest && ts[i] == ReadRow(tracks[ts[i].id])
        invariant forall k :: k in tracks.Keys - rest ==> exists i :: 0 <= i < |ts| && ts[i].id == k
        invariant forall i, j :: 0 <= i < j < |ts| ==> ts[i].id != ts[j].id
        decreases rest
      {
        var k :| k in rest;
        assert forall i :: 0 <= i < |ts| ==> ts[i].id != k;
        var seen := ts;
        ts := ts + [ReadRow(tracks[k])];
        assert ts[|ts| - 1].id == k;
        forall x | x in tracks.Keys - (rest - {k})
          ensures exists i :: 0 <= i < |ts| && ts[i].id == x
        {
          if x != k {
            assert x in tracks.Keys - rest;
            var i :| 0 <= i < |seen| && seen[i].id == x;
            assert ts[i] == seen[i];
          }
        }
        rest := rest - {k};
      }
      assert tracks.Keys - rest == tracks.Keys;
    }

    /** `clearTracksDB`. */
    method ClearTracksDB()
      modifies this`tracks
      ensures tracks == map[]
    {
      tracks := map[];
    }

    /** `clearTrackById`: only the row with that id goes. */
    method ClearTrackById(id: string)
      modifies this`tracks
      ensures tracks == old(tracks) - {id}
    {
      tracks := tracks - {id};
    }

    /**
     * `addToHistory`: records a play at `now`, then deletes all but the 50
     * newest rows. Which of several rows with the same timestamp survive is
     * up to the database, so the contract allows any choice among them.
     */
    method AddToHistory(trackId: string, now: int)
      modifies this`history
      ensures HistoryAfterAdd(old(history), history, trackId, now)
    {
      var id := HistoryId(trackId, now);
      var inserted := history[id := HistoryRow(id, trackId, now)];
      var h := inserted;
      while |h| > HistoryLimit
        invariant h.Keys <= inserted.Keys
        invariant forall k :: k in h ==> h[k] == inserted[k]
        invariant Kept(|inserted|) <= |h| <= |inserted|
        invariant |h| < |inserted| ==> |h| >= HistoryLimit
        invariant forall d, k :: d in inserted && d !in h && k in h ==> inserted[d].timestamp <= h[k].timestamp
        decreases |h|
      {
        OldestExists(h);
        var k :| k in h && Oldest(h, k);
        var next := h - {k};
        assert next.Keys == h.Keys - {k};
        h := next;
      }
      history := h;
    }
  }
}
