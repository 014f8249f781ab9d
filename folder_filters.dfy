/**
 * The folder-filter settings screen (`src/app/settings/folder-filters.tsx`):
 * the list of folders the library's tracks live in, and the pending
 * whitelist/blacklist the user edits before applying it.
 *
 * `getFolderPathFromUri`, `getFolderNameFromPath` and `normalizeFolderPath`
 * belong to the indexer module, which is not part of this model: they are
 * parameters here, as is the `localeCompare` collation, which is only
 * assumed to be a total preorder where sortedness is claimed.
 */
module FolderFilters {
  import opened Wrappers
  import opened Grouping
  import opened Ordering

  /** `FolderEntry`. */
  datatype FolderEntry = FolderEntry(path: string, name: string, trackCount: nat)

  /** `FolderFilterMode`. */
  datatype FilterMode = Whitelist | Blacklist

  /** `FolderFilterConfig`. */
  datatype FilterConfig = FilterConfig(whitelist: seq<string>, blacklist: seq<string>)

  /** `EMPTY_PENDING`. */
  const EmptyPending := FilterConfig([], [])

  /** `getFolderPathFromUri`; the empty string stands for a falsy result. */
  type FolderOfUri = string -> string

  /** `getFolderNameFromPath`. */
  type NameOfPath = string -> string

  /** `a.localeCompare(b, undefined, { sensitivity: "base" }) <= 0`. */
  type Collation = (string, string) -> bool

  /** `track.uri || ""`. */
  function UriText(uri: Option<string>): string {
    match uri
    case Some(s) => s
    case None => ""
  }

  /** The folder a track is counted under, if its folder path is not empty. */
  function FolderKey(folderOf: FolderOfUri): Option<string> -> Option<string> {
    (u: Option<string>) => var p := folderOf(UriText(u)); if p == "" then None else Some(p)
  }

  /** The non-empty folder paths of the tracks, one per track that has one, in track order. */
  function TrackFolders(uris: seq<Option<string>>, folderOf: FolderOfUri): seq<string> {
    KeysOf(uris, FolderKey(folderOf))
  }

  function CountIn(counts: map<string, nat>, k: string): nat {
    if k in counts then counts[k] else 0
  }

  /** `Array.from(folderMap.values())` for a map whose keys were added in `order`. */
  function EntriesOf(order: seq<string>, counts: map<string, nat>, nameOf: NameOfPath): seq<FolderEntry> {
    seq(|order|, i requires 0 <= i < |order| => FolderEntry(order[i], nameOf(order[i]), CountIn(counts, order[i])))
  }

  /** The comparator of the entry sort: by name. */
  function ByName(le: Collation): (FolderEntry, FolderEntry) -> bool {
    (a: FolderEntry, b: FolderEntry) => le(a.name, b.name)
  }

  /** What `buildFolderEntries` returns: the grouped folders, sorted by name. */
  function FolderEntries(uris: seq<Option<string>>, folderOf: FolderOfUri, nameOf: NameOfPath, le: Collation): seq<FolderEntry> {
    var g := GroupAll(uris, FolderKey(folderOf));
    SortBy(EntriesOf(g.order, g.counts, nameOf), ByName(le))
  }

  /**
   * `buildFolderEntries`: one pass over the tracks filling a map from folder
   * path to entry, raising the count of a folder already seen, then the
   * entries in insertion order, sorted by name.
   */
  method BuildFolderEntries(uris: seq<Option<string>>, folderOf: FolderOfUri, nameOf: NameOfPath, le: Collation)
    returns (entries: seq<FolderEntry>)
    ensures entries == FolderEntries(uris, folderOf, nameOf, le)
  {
    var key := FolderKey(folderOf);
    var order: seq<string> := [];
    var folderMap: map<string, FolderEntry> := map[];
    ghost var g := GroupAll(uris[..0], key);
    for i := 0 to |uris|
      invariant g == GroupAll(uris[..i], key)
      invariant order == g.order
      invariant folderMap.Keys == g.counts.Keys
      invariant forall k :: k in folderMap ==> folderMap[k] == FolderEntry(k, nameOf(k), g.counts[k])
    {
      assert uris[..i + 1][..i] == uris[..i];
      var folderPath := folderOf(UriText(uris[i]));
      assert key(uris[i]) == if folderPath == "" then None else Some(folderPath);
      g := AddItem(g, uris[i], key);
      if folderPath != "" {
        if folderPath in folderMap {
          var existing := folderMap[folderPath];
          folderMap := folderMap[folderPath := existing.(trackCount := existing.trackCount + 1)];
        } else {
          order := order + [folderPath];
          folderMap := folderMap[folderPath := FolderEntry(folderPath, nameOf(folderPath), 1)];
        }
      }
    }
    assert uris[..|uris|] == uris;
    GroupAllOrder(uris, key);
    var values := seq(|order|, j requires 0 <= j < |order| => folderMap[order[j]]);
    MapValuesInOrder(g, folderMap, nameOf, values);
    entries := SortBy(values, ByName(le));
  }

  /** The map's values in insertion order are the entries of the grouped folders. */
  lemma MapValuesInOrder(g: Groups<Option<string>, string>, folderMap: map<string, FolderEntry>, nameOf: NameOfPath, values: seq<FolderEntry>)
    requires folderMap.Keys == g.counts.Keys
    requires forall k :: k in folderMap ==> folderMap[k] == FolderEntry(k, nameOf(k), g.counts[k])
    requires |values| == |g.order| && forall j :: 0 <= j < |values| ==> g.order[j] in folderMap && values[j] == folderMap[g.order[j]]
    ensures values == EntriesOf(g.order, g.counts, nameOf)
  {
  }

  /** Every entry is the entry of its own path, and the path is one of the tracks' folders. */
  lemma EntriesOfMembers(uris: seq<Option<string>>, folderOf: FolderOfUri, nameOf: NameOfPath, e: FolderEntry)
    requires var g := GroupAll(uris, FolderKey(folderOf)); e in EntriesOf(g.order, g.counts, nameOf)
    ensures e.path in TrackFolders(uris, folderOf)
    ensures e.name == nameOf(e.path)
    ensures e.trackCount == multiset(TrackFolders(uris, folderOf))[e.path]
  {
    var key := FolderKey(folderOf);
    var g := GroupAll(uris, key);
    GroupAllOrder(uris, key);
    var i :| 0 <= i < |g.order| && EntriesOf(g.order, g.counts, nameOf)[i] == e;
    assert e.path == g.order[i] && g.order[i] in g.counts;
    GroupAllCounts(uris, key, e.path);
  }

  /**
   * The entries hold exactly the folders of the tracks, each with its name
   * and the number of tracks in it.
   */
  lemma FolderEntriesMembers(uris: seq<Option<string>>, folderOf: FolderOfUri, nameOf: NameOfPath, le: Collation)
    ensures var r := FolderEntries(uris, folderOf, nameOf, le);
      forall i :: 0 <= i < |r| ==>
        && r[i].path in TrackFolders(uris, folderOf)
        && r[i].name == nameOf(r[i].path)
        && r[i].trackCount == multiset(TrackFolders(uris, folderOf))[r[i].path]
  {
    var g := GroupAll(uris, FolderKey(folderOf));
    var unsorted := EntriesOf(g.order, g.counts, nameOf);
    var r := FolderEntries(uris, folderOf, nameOf, le);
    forall i | 0 <= i < |r|
      ensures r[i].path in TrackFolders(uris, folderOf)
      ensures r[i].name == nameOf(r[i].path)
      ensures r[i].trackCount == multiset(TrackFolders(uris, folderOf))[r[i].path]
    {
      assert r[i] in multiset(unsorted);
      EntriesOfMembers(uris, folderOf, nameOf, r[i]);
    }
  }

  /** Every folder a track lives in has an entry. */
  lemma FolderEntriesCover(uris: seq<Option<string>>, folderOf: FolderOfUri, nameOf: NameOfPath, le: Collation, p: string)
    requires p in TrackFolders(uris, folderOf)
    ensures var r := FolderEntries(uris, folderOf, nameOf, le);
      exists i :: 0 <= i < |r| && r[i].path == p
  {
    var key := FolderKey(folderOf);
    var g := GroupAll(uris, key);
    var unsorted := EntriesOf(g.order, g.counts, nameOf);
    var r := FolderEntries(uris, folderOf, nameOf, le);
    GroupAllOrder(uris, key);
    DistinctMembers(KeysOf(uris, key), p);
    var j :| 0 <= j < |g.order| && g.order[j] == p;
    assert unsorted[j] in multiset(r);
    var i :| 0 <= i < |r| && r[i] == unsorted[j];
  }

  /** No folder is listed twice. */
  lemma FolderEntriesDistinct(uris: seq<Option<string>>, folderOf: FolderOfUri, nameOf: NameOfPath, le: Collation)
    ensures var r := FolderEntries(uris, folderOf, nameOf, le);
      forall i, j :: 0 <= i < j < |r| ==> r[i].path != r[j].path
  {
    var key := FolderKey(folderOf);
    var g := GroupAll(uris, key);
    var unsorted := EntriesOf(g.order, g.counts, nameOf);
    var r := FolderEntries(uris, folderOf, nameOf, le);
    GroupAllOrder(uris, key);
    assert NoDuplicates(unsorted) by {
      assert forall i, j :: 0 <= i < j < |unsorted| ==> unsorted[i].path != unsorted[j].path;
    }
    PermutationNoDuplicates(unsorted, r);
    forall i, j | 0 <= i < j < |r| ensures r[i].path != r[j].path {
      assert r[i] in multiset(r) && r[j] in multiset(r);
      assert r[i] in unsorted && r[j] in unsorted;
    }
  }

  /** The sum of the entries' track counts. */
  function TotalTracks(es: seq<FolderEntry>): nat {
    if es == [] then 0 else es[0].trackCount + TotalTracks(es[1..])
  }

  lemma {:induction false} TotalTracksSnoc(es: seq<FolderEntry>, e: FolderEntry)
    ensures TotalTracks(es + [e]) == TotalTracks(es) + e.trackCount
  {
    if es != [] {
      assert (es + [e])[1..] == es[1..] + [e];
      TotalTracksSnoc(es[1..], e);
    }
  }

  lemma {:induction false} EntriesOfTotal(order: seq<string>, counts: map<string, nat>, nameOf: NameOfPath)
    ensures TotalTracks(EntriesOf(order, counts, nameOf)) == SumCounts(order, counts)
  {
    if order != [] {
      var n := |order| - 1;
      var es := EntriesOf(order, counts, nameOf);
      EntriesOfTotal(order[..n], counts, nameOf);
      assert es == EntriesOf(order[..n], counts, nameOf) + [es[n]];
      TotalTracksSnoc(EntriesOf(order[..n], counts, nameOf), es[n]);
    }
  }

  lemma {:induction false} InsertTotal(x: FolderEntry, s: seq<FolderEntry>, le: (FolderEntry, FolderEntry) -> bool)
    ensures TotalTracks(Insert(x, s, le)) == x.trackCount + TotalTracks(s)
  {
    if s == [] || le(x, s[0]) {
      assert ([x] + s)[1..] == s;
    } else {
      InsertTotal(x, s[1..], le);
      assert ([s[0]] + Insert(x, s[1..], le))[1..] == Insert(x, s[1..], le);
    }
  }

  lemma {:induction false} SortByTotal(s: seq<FolderEntry>, le: (FolderEntry, FolderEntry) -> bool)
    ensures TotalTracks(SortBy(s, le)) == TotalTracks(s)
  {
    if s != [] {
      SortByTotal(s[1..], le);
      InsertTotal(s[0], SortBy(s[1..], le), le);
    }
  }

  /** The track counts add up to the number of tracks that have a folder. */
  lemma FolderEntriesTotal(uris: seq<Option<string>>, folderOf: FolderOfUri, nameOf: NameOfPath, le: Collation)
    ensures TotalTracks(FolderEntries(uris, folderOf, nameOf, le)) == |TrackFolders(uris, folderOf)|
  {
    var key := FolderKey(folderOf);
    var g := GroupAll(uris, key);
    SortByTotal(EntriesOf(g.order, g.counts, nameOf), ByName(le));
    EntriesOfTotal(g.order, g.counts, nameOf);
    GroupAllSum(uris, key);
  }

  /** With a total collation, the entries come out in name order. */
  lemma FolderEntriesSorted(uris: seq<Option<string>>, folderOf: FolderOfUri, nameOf: NameOfPath, le: Collation)
    requires forall a, b :: le(a, b) || le(b, a)
    ensures var r := FolderEntries(uris, folderOf, nameOf, le);
      forall i :: 0 < i < |r| ==> le(r[i - 1].name, r[i].name)
  {
    var g := GroupAll(uris, FolderKey(folderOf));
    var unsorted := EntriesOf(g.order, g.counts, nameOf);
    assert TotalAmong(unsorted, ByName(le));
    SortBySorted(unsorted, ByName(le));
  }

  /** `allFolders.find((entry) => entry.path === path)`. */
  function FindEntry(entries: seq<FolderEntry>, path: string): (r: Option<FolderEntry>)
    ensures r.Some? ==> r.value in entries && r.value.path == path
    ensures r.None? ==> forall i :: 0 <= i < |entries| ==> entries[i].path != path
  {
    if entries == [] then None
    else if entries[0].path == path then Some(entries[0])
    else FindEntry(entries[1..], path)
  }

  /** `FolderRow`'s name: `folder?.name || getFolderNameFromPath(path)`. */
  function RowName(entries: seq<FolderEntry>, path: string, nameOf: NameOfPath): string {
    var f := FindEntry(entries, path);
    if f.Some? && f.value.name != "" then f.value.name else nameOf(path)
  }

  /** `FolderRow`'s count: `folder?.trackCount ?? 0`. */
  function RowCount(entries: seq<FolderEntry>, path: string): nat {
    var f := FindEntry(entries, path);
    if f.Some? then f.value.trackCount else 0
  }

  /**
   * A row of a filtered folder shows the folder's own name and the number
   * of tracks in it, which is 0 for a folder no track lives in.
   */
  lemma RowMatchesTracks(uris: seq<Option<string>>, folderOf: FolderOfUri, nameOf: NameOfPath, le: Collation, path: string)
    ensures var entries := FolderEntries(uris, folderOf, nameOf, le);
      && RowName(entries, path, nameOf) == nameOf(path)
      && RowCount(entries, path) == multiset(TrackFolders(uris, folderOf))[path]
  {
    var entries := FolderEntries(uris, folderOf, nameOf, le);
    FolderEntriesMembers(uris, folderOf, nameOf, le);
    var f := FindEntry(entries, path);
    if path in TrackFolders(uris, folderOf) {
      FolderEntriesCover(uris, folderOf, nameOf, le, path);
      assert f.Some?;
      var k :| 0 <= k < |entries| && entries[k] == f.value;
    } else {
      assert forall i :: 0 <= i < |entries| ==> entries[i].path != path;
      assert f.None?;
    }
  }

  /** `list.filter((p) => p !== path)`. */
  function Without(s: seq<string>, path: string): (r: seq<string>)
    ensures path !in r
    ensures |r| <= |s|
  {
    if s == [] then []
    else (if s[0] == path then [] else [s[0]]) + Without(s[1..], path)
  }

  /** Filtering keeps every other path, as often as it occurred, and nothing else. */
  lemma {:induction false} WithoutCounts(s: seq<string>, path: string)
    ensures forall q :: q != path ==> multiset(Without(s, path))[q] == multiset(s)[q]
  {
    if s != [] {
      WithoutCounts(s[1..], path);
      assert s == [s[0]] + s[1..];
    }
  }

  /** Filtering out a path that is not there changes nothing. */
  lemma {:induction false} WithoutAbsent(s: seq<string>, path: string)
    requires path !in s
    ensures Without(s, path) == s
  {
    if s != [] {
      WithoutAbsent(s[1..], path);
    }
  }

  lemma {:induction false} WithoutAppend(a: seq<string>, b: seq<string>, path: string)
    ensures Without(a + b, path) == Without(a, path) + Without(b, path)
  {
    if a == [] {
      assert a + b == b;
    } else {
      var head := if a[0] == path then [] else [a[0]];
      assert (a + b)[0] == a[0] && (a + b)[1..] == a[1..] + b;
      WithoutAppend(a[1..], b, path);
      assert Without(a + b, path) == head + Without(a[1..] + b, path);
      assert head + (Without(a[1..], path) + Without(b, path)) == (head + Without(a[1..], path)) + Without(b, path);
    }
  }

  lemma {:induction false} WithoutNoDuplicates(s: seq<string>, path: string)
    requires NoDuplicates(s)
    ensures NoDuplicates(Without(s, path))
  {
    if s != [] {
      WithoutNoDuplicates(s[1..], path);
      var rest := Without(s[1..], path);
      WithoutCounts(s[1..], path);
      if s[0] != path {
        assert s[0] !in s[1..];
        assert multiset(rest)[s[0]] == 0;
        assert forall j :: 0 <= j < |rest| ==> rest[j] != s[0] by {
          forall j | 0 <= j < |rest| ensures rest[j] != s[0] {
            assert rest[j] in multiset(rest);
          }
        }
      }
    }
  }

  /** The list a mode edits, and the other one. */
  function ListOf(c: FilterConfig, mode: FilterMode): seq<string> {
    if mode == Whitelist then c.whitelist else c.blacklist
  }

  function OtherList(c: FilterConfig, mode: FilterMode): seq<string> {
    if mode == Whitelist then c.blacklist else c.whitelist
  }

  /** The initial mode: the whitelist if it has folders, else the blacklist if it has, else the whitelist. */
  function InitialMode(c: FilterConfig): FilterMode {
    if |c.whitelist| > 0 then Whitelist
    else if |c.blacklist| > 0 then Blacklist
    else Whitelist
  }

  /** The screen opens on a list that holds folders whenever there are any, preferring the whitelist. */
  lemma InitialModeShowsFolders(c: FilterConfig)
    ensures c.whitelist + c.blacklist != [] ==> ListOf(c, InitialMode(c)) != []
    ensures c.whitelist != [] ==> InitialMode(c) == Whitelist
    ensures InitialMode(c) == Blacklist <==> c.whitelist == [] && c.blacklist != []
  {
  }

  /** The `pickFolder` updater: `path` moves to the end of the selected list and out of the other. */
  function Picked(prev: FilterConfig, path: string, mode: FilterMode): FilterConfig {
    var whitelist := Without(prev.whitelist, path);
    var blacklist := Without(prev.blacklist, path);
    if mode == Whitelist then FilterConfig(whitelist + [path], blacklist)
    else FilterConfig(whitelist, blacklist + [path])
  }

  /**
   * After a pick the path is in the selected list exactly once, last, and
   * not in the other; every other path occurs in each list as before.
   */
  lemma PickedSpec(prev: FilterConfig, path: string, mode: FilterMode)
    ensures var r := Picked(prev, path, mode);
      && multiset(ListOf(r, mode))[path] == 1
      && ListOf(r, mode)[|ListOf(r, mode)| - 1] == path
      && path !in OtherList(r, mode)
      && forall q :: q != path ==>
           multiset(r.whitelist)[q] == multiset(prev.whitelist)[q] &&
           multiset(r.blacklist)[q] == multiset(prev.blacklist)[q]
  {
    WithoutCounts(prev.whitelist, path);
    WithoutCounts(prev.blacklist, path);
    var w := Without(prev.whitelist, path);
    var b := Without(prev.blacklist, path);
    assert multiset(w)[path] == 0 && multiset(b)[path] == 0;
  }

  /** Filtering a path out again after it was filtered out and pushed back leaves the first filtering. */
  lemma WithoutPushed(s: seq<string>, path: string)
    ensures Without(Without(s, path) + [path], path) == Without(s, path)
    ensures Without(Without(s, path), path) == Without(s, path)
  {
    var w := Without(s, path);
    WithoutAbsent(w, path);
    WithoutAppend(w, [path], path);
    assert Without([path], path) == [];
    assert w + [] == w;
  }

  /** Picking the same folder again changes nothing. */
  lemma PickedIdempotent(prev: FilterConfig, path: string, mode: FilterMode)
    ensures Picked(Picked(prev, path, mode), path, mode) == Picked(prev, path, mode)
  {
    WithoutPushed(prev.whitelist, path);
    WithoutPushed(prev.blacklist, path);
  }

  /** The `removeFolder` updater. */
  function Removed(prev: FilterConfig, path: string): FilterConfig {
    FilterConfig(Without(prev.whitelist, path), Without(prev.blacklist, path))
  }

  /** Removing a folder takes it out of both lists and keeps every other one as often as before. */
  lemma RemovedSpec(prev: FilterConfig, path: string)
    ensures var r := Removed(prev, path);
      && path !in r.whitelist && path !in r.blacklist
      && forall q :: q != path ==>
           multiset(r.whitelist)[q] == multiset(prev.whitelist)[q] &&
           multiset(r.blacklist)[q] == multiset(prev.blacklist)[q]
  {
    WithoutCounts(prev.whitelist, path);
    WithoutCounts(prev.blacklist, path);
  }

  /** Removing a folder undoes picking it: the pick leaves no trace. */
  lemma RemovedUndoesPicked(prev: FilterConfig, path: string, mode: FilterMode)
    ensures Removed(Picked(prev, path, mode), path) == Removed(prev, path)
  {
    WithoutPushed(prev.whitelist, path);
    WithoutPushed(prev.blacklist, path);
  }

  /** Every folder of either list, once, in order of first appearance (`Array.from(new Set([...]))`). */
  function AllFolders(c: FilterConfig): seq<string> {
    Distinct(c.whitelist + c.blacklist)
  }

  /** The `setUnifiedMode` updater: every folder goes to the chosen list and the other is emptied. */
  function Unified(prev: FilterConfig, mode: FilterMode): FilterConfig {
    var folders := AllFolders(prev);
    if mode == Whitelist then FilterConfig(folders, []) else FilterConfig([], folders)
  }

  /**
   * After unifying, the chosen list holds each folder of either list once,
   * and the other list is empty.
   */
  lemma UnifiedSpec(prev: FilterConfig, mode: FilterMode)
    ensures var r := Unified(prev, mode);
      && NoDuplicates(ListOf(r, mode))
      && (forall p :: p in ListOf(r, mode) <==> p in prev.whitelist || p in prev.blacklist)
      && OtherList(r, mode) == []
  {
    forall p ensures p in AllFolders(prev) <==> p in prev.whitelist || p in prev.blacklist {
      DistinctMembers(prev.whitelist + prev.blacklist, p);
    }
  }

  /** Unifying twice in the same mode is unifying once. */
  lemma UnifiedIdempotent(prev: FilterConfig, mode: FilterMode)
    ensures Unified(Unified(prev, mode), mode) == Unified(prev, mode)
  {
    var folders := AllFolders(prev);
    assert folders + [] == folders && [] + folders == folders;
    DistinctOfDistinct(folders);
  }

  /** Switching mode keeps the set of filtered folders. */
  lemma UnifiedKeepsFolders(prev: FilterConfig, mode: FilterMode, p: string)
    ensures var r := Unified(prev, mode);
      p in r.whitelist || p in r.blacklist <==> p in prev.whitelist || p in prev.blacklist
  {
    UnifiedSpec(prev, mode);
  }

  function ByFolderName(nameOf: NameOfPath, le: Collation): (string, string) -> bool {
    (a: string, b: string) => le(nameOf(a), nameOf(b))
  }

  /** `folderPaths`: every filtered folder once, sorted by folder name. */
  function FolderPaths(c: FilterConfig, nameOf: NameOfPath, le: Collation): seq<string> {
    SortBy(AllFolders(c), ByFolderName(nameOf, le))
  }

  /** The folder list shows each filtered folder exactly once. */
  lemma FolderPathsMembers(c: FilterConfig, nameOf: NameOfPath, le: Collation)
    ensures var r := FolderPaths(c, nameOf, le);
      && NoDuplicates(r)
      && (forall p :: p in r <==> p in c.whitelist || p in c.blacklist)
  {
    var all := AllFolders(c);
    var r := FolderPaths(c, nameOf, le);
    PermutationNoDuplicates(all, r);
    forall p ensures p in r <==> p in c.whitelist || p in c.blacklist {
      assert p in r <==> p in multiset(all);
      DistinctMembers(c.whitelist + c.blacklist, p);
    }
  }

  /** `hasAnyFilters`: the folder list is empty exactly when both lists are. */
  lemma FolderPathsEmpty(c: FilterConfig, nameOf: NameOfPath, le: Collation)
    ensures FolderPaths(c, nameOf, le) == [] <==> c.whitelist == [] && c.blacklist == []
  {
    FolderPathsMembers(c, nameOf, le);
    if c.whitelist != [] {
      assert c.whitelist[0] in FolderPaths(c, nameOf, le);
    } else if c.blacklist != [] {
      assert c.blacklist[0] in FolderPaths(c, nameOf, le);
    }
  }

  /** With a total collation, the folder list is in folder-name order. */
  lemma FolderPathsSorted(c: FilterConfig, nameOf: NameOfPath, le: Collation)
    requires forall a, b :: le(a, b) || le(b, a)
    ensures var r := FolderPaths(c, nameOf, le);
      forall i :: 0 < i < |r| ==> le(nameOf(r[i - 1]), nameOf(r[i]))
  {
    assert TotalAmong(AllFolders(c), ByFolderName(nameOf, le));
    SortBySorted(AllFolders(c), ByFolderName(nameOf, le));
  }

  /** A pending configuration without repeats in either list and no folder in both. */
  predicate WellFormed(c: FilterConfig) {
    && NoDuplicates(c.whitelist) && NoDuplicates(c.blacklist)
    && forall p :: p in c.whitelist ==> p !in c.blacklist
  }

  /** Removing a folder keeps a well-formed configuration well-formed. */
  lemma RemovedWellFormed(prev: FilterConfig, path: string)
    requires WellFormed(prev)
    ensures WellFormed(Removed(prev, path))
  {
    var w := Without(prev.whitelist, path);
    var b := Without(prev.blacklist, path);
    WithoutNoDuplicates(prev.whitelist, path);
    WithoutNoDuplicates(prev.blacklist, path);
    WithoutCounts(prev.whitelist, path);
    WithoutCounts(prev.blacklist, path);
    forall p | p in w ensures p !in b {
      assert p in multiset(w) && p != path;
      assert p in multiset(prev.whitelist);
      assert p in prev.whitelist;
      assert p !in multiset(prev.blacklist);
    }
  }

  lemma PushNoDuplicates(s: seq<string>, x: string)
    requires NoDuplicates(s) && x !in s
    ensures NoDuplicates(s + [x])
  {
    forall i, j | 0 <= i < j < |s + [x]| ensures (s + [x])[i] != (s + [x])[j] {
      if j == |s| {
        assert (s + [x])[i] == s[i];
      }
    }
  }

  /** Picking a folder keeps a well-formed configuration well-formed. */
  lemma PickedWellFormed(prev: FilterConfig, path: string, mode: FilterMode)
    requires WellFormed(prev)
    ensures WellFormed(Picked(prev, path, mode))
  {
    RemovedWellFormed(prev, path);
    var w := Without(prev.whitelist, path);
    var b := Without(prev.blacklist, path);
    if mode == Whitelist {
      PushNoDuplicates(w, path);
    } else {
      PushNoDuplicates(b, path);
    }
  }

  /** Clearing and unifying always give a well-formed configuration. */
  lemma UnifiedWellFormed(prev: FilterConfig, mode: FilterMode)
    ensures WellFormed(EmptyPending)
    ensures WellFormed(Unified(prev, mode))
  {
    UnifiedSpec(prev, mode);
  }

  /**
   * The screen's state: the pending configuration being edited, the mode
   * picked folders go to, and whether there is something to apply.
   */
  class FolderFilterScreen {
    var pending: FilterConfig
    var selectedMode: FilterMode
    var hasPendingChanges: bool
    var isLoaded: bool
    /** The configurations handed to `commitFolderFilterConfig`, oldest first; each is followed by a re-index that is not forced. */
    var commits: seq<FilterConfig>

    constructor()
      ensures pending == EmptyPending && selectedMode == Whitelist
      ensures !hasPendingChanges && !isLoaded && commits == []
    {
      pending := EmptyPending;
      selectedMode := Whitelist;
      hasPendingChanges := false;
      isLoaded := false;
      commits := [];
    }

    /** The stored configuration has been loaded: it becomes the pending one and picks the mode. */
    method ConfigLoaded(config: FilterConfig)
      modifies this`pending, this`selectedMode, this`isLoaded
      ensures pending == config && selectedMode == InitialMode(config) && isLoaded
    {
      pending := config;
      selectedMode := InitialMode(config);
      isLoaded := true;
    }

    /**
     * `pickFolder`, given what the directory picker returned (`None` when it
     * was cancelled or failed): nothing happens without a directory or a
     * normalised path.
     */
    method PickFolder(picked: Option<string>, normalize: string -> string)
      modifies this`pending, this`hasPendingChanges
      ensures picked.None? || picked.value == "" || normalize(picked.value) == "" ==>
        pending == old(pending) && hasPendingChanges == old(hasPendingChanges)
      ensures picked.Some? && picked.value != "" && normalize(picked.value) != "" ==>
        pending == Picked(old(pending), normalize(picked.value), selectedMode) && hasPendingChanges
    {
      if picked.None? || picked.value == "" {
        return;
      }
      var normalizedPath := normalize(picked.value);
      if normalizedPath == "" {
        return;
      }
      pending := Picked(pending, normalizedPath, selectedMode);
      hasPendingChanges := true;
    }

    /** `removeFolder`. */
    method RemoveFolder(path: string)
      modifies this`pending, this`hasPendingChanges
      ensures pending == Removed(old(pending), path) && hasPendingChanges
    {
      pending := Removed(pending, path);
      hasPendingChanges := true;
    }

    /** `clearAllFolders`. */
    method ClearAllFolders()
      modifies this`pending, this`hasPendingChanges
      ensures pending == EmptyPending && hasPendingChanges
    {
      pending := EmptyPending;
      hasPendingChanges := true;
    }

    /**
     * `setUnifiedMode`: choosing the current mode does nothing; without any
     * filtered folder only the mode changes; otherwise every folder moves to
     * the chosen list.
     */
    method SetUnifiedMode(mode: FilterMode, nameOf: NameOfPath, le: Collation)
      modifies this`selectedMode, this`pending, this`hasPendingChanges
      ensures mode == old(selectedMode) ==>
        selectedMode == old(selectedMode) && pending == old(pending) && hasPendingChanges == old(hasPendingChanges)
      ensures mode != old(selectedMode) ==> selectedMode == mode
      ensures mode != old(selectedMode) && old(pending).whitelist == [] && old(pending).blacklist == [] ==>
        pending == old(pending) && hasPendingChanges == old(hasPendingChanges)
      ensures mode != old(selectedMode) && (old(pending).whitelist != [] || old(pending).blacklist != []) ==>
        pending == Unified(old(pending), mode) && hasPendingChanges
    {
      if mode == selectedMode {
        return;
      }
      selectedMode := mode;
      FolderPathsEmpty(pending, nameOf, le);
      var hasAnyFilters := |FolderPaths(pending, nameOf, le)| > 0;
      if !hasAnyFilters {
        return;
      }
      pending := Unified(pending, mode);
      hasPendingChanges := true;
    }

    /** `applyFilter`: commits the pending configuration and starts a non-forced re-index, only when there are changes. */
    method ApplyFilter()
      modifies this`commits, this`hasPendingChanges
      ensures !old(hasPendingChanges) ==> commits == old(commits)
      ensures old(hasPendingChanges) ==> commits == old(commits) + [pending]
      ensures !hasPendingChanges
    {
      if !hasPendingChanges {
        return;
      }
      commits := commits + [pending];
      hasPendingChanges := false;
    }
  }
}
