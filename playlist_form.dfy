/**
 * The playlist form (`src/modules/playlist/hooks/use-playlist-form.ts`):
 * the ordered list of selected track ids the user edits, the draft set of
 * the track picker, the list of tracks the picker shows, and the guard in
 * front of saving.
 *
 * React state is the arguments and results of these functions: each
 * `setState` updater is a function from the previous value. The search text
 * is taken after its debounce; the `localeCompare` collation of titles is a
 * parameter.
 */
module PlaylistForm {
  import opened Wrappers
  import opened Text
  import opened Grouping
  import opened Ordering
  import opened PlayerTypes
  import FolderFilters

  /** `TRACK_PICKER_LIMIT`. */
  const TrackPickerLimit: nat := 20

  // ---------------------------------------------------------------------
  // Filtering
  // ---------------------------------------------------------------------

  /** `s.filter(keep)`. */
  function Filter<T(!new)>(s: seq<T>, keep: T -> bool): (r: seq<T>)
    ensures |r| <= |s|
    ensures forall x :: x in r <==> x in s && keep(x)
  {
    if s == [] then []
    else
      assert s == [s[0]] + s[1..];
      (if keep(s[0]) then [s[0]] else []) + Filter(s[1..], keep)
  }

  /** Filtering a list without repeats leaves one without repeats. */
  lemma {:induction false} FilterNoDuplicates<T(!new)>(s: seq<T>, keep: T -> bool)
    requires NoDuplicates(s)
    ensures NoDuplicates(Filter(s, keep))
  {
    if s != [] {
      FilterNoDuplicates(s[1..], keep);
      assert s[0] !in s[1..];
    }
  }

  /** `s.slice(0, n)`. */
  function Take<T>(s: seq<T>, n: nat): (r: seq<T>)
    ensures |r| <= n && |r| <= |s|
    ensures r == s[..|r|]
    ensures |s| <= n ==> r == s
  {
    if |s| <= n then s else s[..n]
  }

  // ---------------------------------------------------------------------
  // Reordering
  // ---------------------------------------------------------------------

  /** `ids` with the entry at `from` taken out and put back in at `to`. */
  function Moved(ids: seq<string>, from: nat, to: nat): seq<string>
    requires from < |ids| && to < |ids|
  {
    var rest := ids[..from] + ids[from + 1..];
    rest[..to] + [ids[from]] + rest[to..]
  }

  /**
   * Moving is a permutation that puts the moved entry at `to` and keeps the
   * others in their relative order.
   */
  lemma MovedSpec(ids: seq<string>, from: nat, to: nat)
    requires from < |ids| && to < |ids|
    ensures |Moved(ids, from, to)| == |ids|
    ensures multiset(Moved(ids, from, to)) == multiset(ids)
    ensures Moved(ids, from, to)[to] == ids[from]
    ensures Moved(ids, from, to)[..to] + Moved(ids, from, to)[to + 1..] == ids[..from] + ids[from + 1..]
  {
    var rest := ids[..from] + ids[from + 1..];
    var r := Moved(ids, from, to);
    assert r == rest[..to] + [ids[from]] + rest[to..];
    assert ids == ids[..from] + [ids[from]] + ids[from + 1..];
    assert rest == rest[..to] + rest[to..];
    assert multiset(r) == multiset(rest[..to]) + multiset([ids[from]]) + multiset(rest[to..]);
    assert multiset(rest) == multiset(rest[..to]) + multiset(rest[to..]);
    assert multiset(rest) == multiset(ids[..from]) + multiset(ids[from + 1..]);
    assert multiset(ids) == multiset(ids[..from]) + multiset([ids[from]]) + multiset(ids[from + 1..]);
    assert multiset(r) == multiset(rest) + multiset([ids[from]]);
    assert multiset(ids) == multiset(rest) + multiset([ids[from]]);
    assert r[..to] == rest[..to];
    assert r[to + 1..] == rest[to..];
  }

  /** Moving back from `to` to `from` restores the list. */
  lemma MovedBack(ids: seq<string>, from: nat, to: nat)
    requires from < |ids| && to < |ids|
    ensures Moved(Moved(ids, from, to), to, from) == ids
  {
    var r := Moved(ids, from, to);
    MovedSpec(ids, from, to);
    var rest := r[..to] + r[to + 1..];
    assert rest == ids[..from] + ids[from + 1..];
    assert Moved(r, to, from) == rest[..from] + [ids[from]] + rest[from..];
    assert rest[..from] == ids[..from];
    assert rest[from..] == ids[from + 1..];
    assert ids == ids[..from] + [ids[from]] + ids[from + 1..];
  }

  /**
   * `reorderIds`: the list is copied and the entry at `from` spliced out and
   * back in at `to`. Out-of-range indices, `from == to`, and an empty id
   * (which `!moved` takes for a failed splice) leave the list as it was.
   */
  method ReorderIds(ids: seq<string>, from: int, to: int) returns (r: seq<string>)
    ensures !(0 <= from < |ids| && 0 <= to < |ids|) || from == to ==> r == ids
    ensures 0 <= from < |ids| && 0 <= to < |ids| && from != to ==>
      r == if ids[from] == "" then ids else Moved(ids, from, to)
  {
    if from < 0 || to < 0 || from >= |ids| || to >= |ids| || from == to {
      return ids;
    }
    var next := ids;
    var moved := next[from];
    next := next[..from] + next[from + 1..];
    if moved == "" {
      return ids;
    }
    next := next[..to] + [moved] + next[to..];
    r := next;
  }

  // ---------------------------------------------------------------------
  // The selected ids
  // ---------------------------------------------------------------------

  /** `toggleSelectedTrack`'s updater: drop the id if present, else append it. */
  function ToggleSelected(prev: seq<string>, id: string): (r: seq<string>)
    ensures id in r <==> id !in prev
    ensures forall x :: x != id ==> multiset(r)[x] == multiset(prev)[x]
  {
    FolderFilters.WithoutCounts(prev, id);
    if id in prev then FolderFilters.Without(prev, id) else prev + [id]
  }

  /** Filtering out an id that is not there changes nothing. */
  lemma {:induction false} WithoutAbsent(s: seq<string>, id: string)
    requires id !in s
    ensures FolderFilters.Without(s, id) == s
  {
    if s != [] {
      WithoutAbsent(s[1..], id);
      assert s == [s[0]] + s[1..];
    }
  }

  /** Toggling an id that was not selected twice gives back the list. */
  lemma ToggleSelectedTwice(prev: seq<string>, id: string)
    requires id !in prev
    ensures ToggleSelected(ToggleSelected(prev, id), id) == prev
  {
    WithoutAppend(prev, id);
  }

  /** Filtering `id` out of `s + [id]` gives `s` back when `id` was absent from `s`. */
  lemma {:induction false} WithoutAppend(s: seq<string>, id: string)
    requires id !in s
    ensures FolderFilters.Without(s + [id], id) == s
  {
    if s == [] {
      assert FolderFilters.Without([id], id) == [] + FolderFilters.Without([], id);
    } else {
      assert (s + [id])[1..] == s[1..] + [id];
      WithoutAppend(s[1..], id);
      assert s == [s[0]] + s[1..];
    }
  }

  /**
   * `applyTrackSheetSelection`'s updater: the previously selected ids that
   * are still drafted, in their old order, then the newly drafted ids in
   * library order.
   */
  function ApplySelection(prev: seq<string>, draft: set<string>, libraryIds: seq<string>): seq<string> {
    Filter(prev, (id: string) => id in draft) + Filter(libraryIds, (id: string) => id in draft && id !in prev)
  }

  /**
   * The applied selection holds exactly the drafted ids that were selected
   * or are in the library, and repeats none when neither input does.
   */
  lemma ApplySelectionSpec(prev: seq<string>, draft: set<string>, libraryIds: seq<string>)
    ensures var r := ApplySelection(prev, draft, libraryIds);
      forall x :: x in r <==> x in draft && (x in prev || x in libraryIds)
    ensures NoDuplicates(prev) && NoDuplicates(libraryIds) ==> NoDuplicates(ApplySelection(prev, draft, libraryIds))
  {
    var kept := Filter(prev, (id: string) => id in draft);
    var added := Filter(libraryIds, (id: string) => id in draft && id !in prev);
    if NoDuplicates(prev) && NoDuplicates(libraryIds) {
      FilterNoDuplicates(prev, (id: string) => id in draft);
      FilterNoDuplicates(libraryIds, (id: string) => id in draft && id !in prev);
      forall i, j | 0 <= i < j < |kept + added|
        ensures (kept + added)[i] != (kept + added)[j]
      {
        if i < |kept| && j >= |kept| {
          assert (kept + added)[i] in prev;
          assert (kept + added)[j] in added;
        }
      }
    }
  }

  // ---------------------------------------------------------------------
  // Merging without repeats
  // ---------------------------------------------------------------------

  function IdsOf(ts: seq<Track>): set<string> {
    set t | t in ts :: t.id
  }

  lemma IdsOfSnoc(ts: seq<Track>, t: Track)
    ensures IdsOf(ts + [t]) == IdsOf(ts) + {t.id}
  {
    assert forall x :: x in ts + [t] <==> x in ts || x == t;
  }

  /** The entries of `s` whose id is neither in `seen` nor taken by an earlier entry. */
  function Unseen(seen: set<string>, s: seq<Track>): seq<Track> {
    if s == [] then []
    else
      var f := Unseen(seen, s[..|s| - 1]);
      var t := s[|s| - 1];
      if t.id in seen + IdsOf(f) then f else f + [t]
  }

  /**
   * `Unseen` takes entries of `s` only, with ids outside `seen` and no two
   * alike, and leaves out no id: every id of `s` is seen or taken.
   */
  lemma {:induction false} UnseenSpec(seen: set<string>, s: seq<Track>)
    ensures var r := Unseen(seen, s);
      && |r| <= |s|
      && (forall t :: t in r ==> t in s && t.id !in seen)
      && (forall i, j :: 0 <= i < j < |r| ==> r[i].id != r[j].id)
      && (forall t :: t in s ==> t.id in seen + IdsOf(r))
  {
    if s != [] {
      var init := s[..|s| - 1];
      var t := s[|s| - 1];
      var f := Unseen(seen, init);
      UnseenSpec(seen, init);
      assert s == init + [t];
      if t.id !in seen + IdsOf(f) {
        IdsOfSnoc(f, t);
        forall i | 0 <= i < |f|
          ensures f[i].id != t.id
        {
          assert f[i] in f;
        }
      }
    }
  }

  /** `mergeUniqueById`'s result: all of `primary`, then the entries of `secondary` with unseen ids. */
  function MergeUnique(primary: seq<Track>, secondary: seq<Track>): seq<Track> {
    primary + Unseen(IdsOf(primary), secondary)
  }

  /**
   * The merge starts with `primary` unchanged, appends only entries of
   * `secondary` whose id `primary` lacks, and every id of `secondary` ends
   * up in it.
   */
  lemma MergeUniqueSpec(primary: seq<Track>, secondary: seq<Track>)
    ensures var r := MergeUnique(primary, secondary);
      && |primary| <= |r| <= |primary| + |secondary|
      && r[..|primary|] == primary
      && (forall t :: t in r[|primary|..] ==> t in secondary && t.id !in IdsOf(primary))
      && (forall t :: t in secondary ==> t.id in IdsOf(r))
  {
    var u := Unseen(IdsOf(primary), secondary);
    UnseenSpec(IdsOf(primary), secondary);
    var r := primary + u;
    assert r[..|primary|] == primary;
    assert r[|primary|..] == u;
    forall t | t in secondary
      ensures t.id in IdsOf(r)
    {
      if t.id in IdsOf(primary) {
        var p :| p in primary && p.id == t.id;
        assert p in r;
      } else {
        var p :| p in u && p.id == t.id;
        assert p in r;
      }
    }
  }

  /**
   * `mergeUniqueById`: copy `primary`, then push each entry of `secondary`
   * whose id is not yet in the `seen` set, adding its id.
   */
  method MergeUniqueById(primary: seq<Track>, secondary: seq<Track>) returns (merged: seq<Track>)
    ensures merged == MergeUnique(primary, secondary)
  {
    merged := primary;
    var seen := IdsOf(primary);
    for i := 0 to |secondary|
      invariant merged == primary + Unseen(IdsOf(primary), secondary[..i])
      invariant seen == IdsOf(primary) + IdsOf(Unseen(IdsOf(primary), secondary[..i]))
    {
      var t := secondary[i];
      assert secondary[..i + 1][..i] == secondary[..i];
      assert secondary[..i + 1][i] == t;
      if t.id in seen {
        continue;
      }
      IdsOfSnoc(Unseen(IdsOf(primary), secondary[..i]), t);
      merged := merged + [t];
      seen := seen + {t.id};
    }
    assert secondary[..|secondary|] == secondary;
  }

  // ---------------------------------------------------------------------
  // The picker's list
  // ---------------------------------------------------------------------

  /** `track.lastPlayedAt ?? 0`. */
  function LastPlayed(t: Track): real {
    t.lastPlayedAt.GetOr(0.0)
  }

  /** The picker's order: most recently played first, then by title. */
  function RecentFirst(titleLe: (string, string) -> bool): (Track, Track) -> bool {
    (a: Track, b: Track) => LastPlayed(a) > LastPlayed(b) || (LastPlayed(a) == LastPlayed(b) && titleLe(a.title, b.title))
  }

  function TrackIds(ts: seq<Track>): (r: seq<string>)
    ensures |r| == |ts| && forall i :: 0 <= i < |ts| ==> r[i] == ts[i].id
  {
    seq(|ts|, i requires 0 <= i < |ts| => ts[i].id)
  }

  /** `new Map(ts.map((t) => [t.id, t]))`: each id to its last entry. */
  function TracksById(ts: seq<Track>): (r: map<string, Track>)
    ensures forall k :: k in r ==> r[k].id == k && r[k] in ts
  {
    if ts == [] then map[]
    else
      var last := ts[|ts| - 1];
      var m := TracksById(ts[..|ts| - 1]);
      assert forall k :: k in m ==> m[k] in ts;
      m[last.id := last]
  }

  /** `ids.map((id) => byId.get(id)).filter(Boolean)`: the tracks the ids name, unknown ids dropped. */
  function LookUpAll(ids: seq<string>, byId: map<string, Track>): (r: seq<Track>)
    ensures |r| <= |ids|
    ensures forall t :: t in r ==> t.id in ids && t.id in byId && byId[t.id] == t
    requires forall k :: k in byId ==> byId[k].id == k
  {
    if ids == [] then []
    else
      assert ids == [ids[0]] + ids[1..];
      (if ids[0] in byId then [byId[ids[0]]] else []) + LookUpAll(ids[1..], byId)
  }

  /**
   * `selectedTopTracks`: the selected ids still drafted, then the other
   * drafted ids in picker order, as tracks of the library.
   */
  function SelectedTop(sorted: seq<Track>, selectedIds: seq<string>, draft: set<string>): seq<Track> {
    var persisted := Filter(selectedIds, (id: string) => id in draft);
    var newly := Filter(TrackIds(sorted), (id: string) => id in draft && id !in persisted);
    LookUpAll(persisted + newly, TracksById(sorted))
  }

  /** `suggestedTracks`: recently played tracks first, topped up with the others, 20 at most. */
  function Suggested(sorted: seq<Track>): (r: seq<Track>)
    ensures |r| <= TrackPickerLimit
    ensures forall t :: t in r ==> t in sorted
  {
    var recent := Filter(sorted, (t: Track) => LastPlayed(t) > 0.0);
    var remaining := Filter(sorted, (t: Track) => LastPlayed(t) <= 0.0);
    if |recent| >= TrackPickerLimit then Take(recent, TrackPickerLimit)
    else recent + Take(remaining, TrackPickerLimit - |recent|)
  }

  /** The search filter: the query in the lower-cased title, artist or album. */
  predicate Matches(t: Track, query: string) {
    Includes(ToLower(t.title), query)
    || Includes(ToLower(t.artist.GetOr("")), query)
    || Includes(ToLower(t.album.GetOr("")), query)
  }

  /** `debouncedSearchQuery.trim().toLowerCase()`. */
  function NormalizedQuery(query: string): string {
    ToLower(Trim(query))
  }

  /** The list without a query: the selected tracks, then suggestions, cut at `max(20, #selected)`. */
  function Browse(sorted: seq<Track>, selectedIds: seq<string>, draft: set<string>): seq<Track> {
    var top := SelectedTop(sorted, selectedIds, draft);
    var maxVisible := if TrackPickerLimit >= |top| then TrackPickerLimit else |top|;
    Take(MergeUnique(top, Suggested(sorted)), maxVisible)
  }

  /** `filteredTracks`. */
  function FilteredTracks(allTracks: seq<Track>, selectedIds: seq<string>, draft: set<string>, query: string,
                          titleLe: (string, string) -> bool): seq<Track>
  {
    var sorted := SortBy(allTracks, RecentFirst(titleLe));
    var q := NormalizedQuery(query);
    if |q| == 0 then Browse(sorted, selectedIds, draft)
    else Take(Filter(sorted, (t: Track) => Matches(t, q)), TrackPickerLimit)
  }

  /** Sorting keeps exactly the tracks of the library. */
  lemma SortedMembers(allTracks: seq<Track>, titleLe: (string, string) -> bool, t: Track)
    ensures t in SortBy(allTracks, RecentFirst(titleLe)) <==> t in allTracks
  {
    var sorted := SortBy(allTracks, RecentFirst(titleLe));
    assert t in sorted <==> t in multiset(sorted);
    assert t in allTracks <==> t in multiset(allTracks);
  }

  /** The selected tracks are library tracks whose ids are drafted. */
  lemma SelectedTopSpec(sorted: seq<Track>, selectedIds: seq<string>, draft: set<string>)
    ensures forall t :: t in SelectedTop(sorted, selectedIds, draft) ==> t in sorted && t.id in draft
  {
    var persisted := Filter(selectedIds, (id: string) => id in draft);
    var newly := Filter(TrackIds(sorted), (id: string) => id in draft && id !in persisted);
    forall t | t in SelectedTop(sorted, selectedIds, draft)
      ensures t in sorted && t.id in draft
    {
      assert t.id in persisted + newly;
    }
  }

  /** The browse list starts with the selected tracks and is at most `max(20, #selected)` long. */
  lemma BrowseShape(sorted: seq<Track>, selectedIds: seq<string>, draft: set<string>)
    ensures var top := SelectedTop(sorted, selectedIds, draft);
      var r := Browse(sorted, selectedIds, draft);
      && |top| <= |r| <= (if TrackPickerLimit >= |top| then TrackPickerLimit else |top|)
      && r[..|top|] == top
  {
    var top := SelectedTop(sorted, selectedIds, draft);
    var merged := MergeUnique(top, Suggested(sorted));
    MergeUniqueSpec(top, Suggested(sorted));
    assert Browse(sorted, selectedIds, draft)[..|top|] == merged[..|top|];
  }

  /** The browse list shows tracks of the sorted library only. */
  lemma BrowseMembers(sorted: seq<Track>, selectedIds: seq<string>, draft: set<string>)
    ensures forall t :: t in Browse(sorted, selectedIds, draft) ==> t in sorted
  {
    var top := SelectedTop(sorted, selectedIds, draft);
    var merged := MergeUnique(top, Suggested(sorted));
    MergeUniqueSpec(top, Suggested(sorted));
    SelectedTopSpec(sorted, selectedIds, draft);
    forall t | t in Browse(sorted, selectedIds, draft)
      ensures t in sorted
    {
      var k :| 0 <= k < |merged| && merged[k] == t;
      if k >= |top| {
        assert merged[k] in merged[|top|..];
      }
    }
  }

  /**
   * Without a query, the list starts with the selected tracks (all of them
   * drafted), is at most `max(20, #selected)` long, and shows library
   * tracks only.
   */
  lemma FilteredTracksBrowse(allTracks: seq<Track>, selectedIds: seq<string>, draft: set<string>, query: string,
                             titleLe: (string, string) -> bool)
    requires NormalizedQuery(query) == ""
    ensures var sorted := SortBy(allTracks, RecentFirst(titleLe));
      var top := SelectedTop(sorted, selectedIds, draft);
      var r := FilteredTracks(allTracks, selectedIds, draft, query, titleLe);
      && |top| <= |r| <= (if TrackPickerLimit >= |top| then TrackPickerLimit else |top|)
      && r[..|top|] == top
      && (forall t :: t in top ==> t.id in draft)
      && (forall t :: t in r ==> t in allTracks)
  {
    var sorted := SortBy(allTracks, RecentFirst(titleLe));
    BrowseShape(sorted, selectedIds, draft);
    BrowseMembers(sorted, selectedIds, draft);
    SelectedTopSpec(sorted, selectedIds, draft);
    forall t | t in Browse(sorted, selectedIds, draft)
      ensures t in allTracks
    {
      SortedMembers(allTracks, titleLe, t);
    }
  }

  /** With a query, the list holds at most 20 library tracks, each matching it. */
  lemma FilteredTracksSearch(allTracks: seq<Track>, selectedIds: seq<string>, draft: set<string>, query: string,
                             titleLe: (string, string) -> bool)
    requires NormalizedQuery(query) != ""
    ensures var r := FilteredTracks(allTracks, selectedIds, draft, query, titleLe);
      && |r| <= TrackPickerLimit
      && forall t :: t in r ==> t in allTracks && Matches(t, NormalizedQuery(query))
  {
    var sorted := SortBy(allTracks, RecentFirst(titleLe));
    var q := NormalizedQuery(query);
    var hits := Filter(sorted, (t: Track) => Matches(t, q));
    forall t | t in Take(hits, TrackPickerLimit)
      ensures t in allTracks && Matches(t, q)
    {
      SortedMembers(allTracks, titleLe, t);
    }
  }

  // ---------------------------------------------------------------------
  // Saving
  // ---------------------------------------------------------------------

  /** `PlaylistFormPayload`. */
  datatype Payload = Payload(id: Option<string>, name: string, description: Option<string>, trackIds: seq<string>)

  /** `playlistId?.trim() ?? ""`. */
  function NormalizedId(playlistId: Option<string>): string {
    if playlistId.Some? then Trim(playlistId.value) else ""
  }

  /** Editing an existing playlist rather than creating one. */
  predicate IsEditMode(playlistId: Option<string>) {
    |NormalizedId(playlistId)| > 0
  }

  /** `canSave`: a non-blank name, no save in flight, and in edit mode a loaded playlist. */
  predicate CanSave(name: string, isPending: bool, playlistId: Option<string>, playlistLoaded: bool) {
    |Trim(name)| > 0 && !isPending && (!IsEditMode(playlistId) || playlistLoaded)
  }

  /**
   * `save`: nothing for a blank name, a save in flight, or edit mode before
   * the playlist has loaded; otherwise the payload handed to the mutation.
   */
  function SavePayload(name: string, description: string, selectedIds: seq<string>, isPending: bool,
                       playlistId: Option<string>, playlistLoaded: bool): Option<Payload>
  {
    if Trim(name) == "" || isPending || (IsEditMode(playlistId) && !playlistLoaded) then None
    else
      Some(Payload(
        if IsEditMode(playlistId) then Some(NormalizedId(playlistId)) else None,
        name,
        if |Trim(description)| > 0 then Some(description) else None,
        selectedIds))
  }

  /**
   * `save` goes ahead exactly when `canSave` holds, and then sends the name
   * as typed, the playlist id only in edit mode, a blank description as
   * absent, and the selected ids in order.
   */
  lemma SavePayloadSpec(name: string, description: string, selectedIds: seq<string>, isPending: bool,
                        playlistId: Option<string>, playlistLoaded: bool)
    ensures var r := SavePayload(name, description, selectedIds, isPending, playlistId, playlistLoaded);
      && (r.Some? <==> CanSave(name, isPending, playlistId, playlistLoaded))
      && (r.Some? ==>
            && r.value.name == name && r.value.trackIds == selectedIds
            && (r.value.id.Some? <==> IsEditMode(playlistId))
            && (r.value.id.Some? ==> r.value.id.value != "")
            && (r.value.description.None? <==> Trim(description) == ""))
  {
  }
}
