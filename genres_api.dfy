/**
 * The album list of a genre (`getAlbumsByGenre` in
 * `src/modules/genres/genres.api.ts`): the genre's tracks grouped by album,
 * one entry per album with the number of its tracks in the genre, largest
 * albums first.
 *
 * The two database queries (the genres whose name matches, the tracks of
 * those genres with their album and artist) are inputs; `None` stands for a
 * query that threw.
 */
module GenresApi {
  import opened Wrappers
  import opened Grouping
  import opened Ordering
  import opened MediaIndexer

  /** The `album` relation of a track row. */
  datatype AlbumRow = AlbumRow(title: Option<string>, artistId: Option<string>, artwork: Option<string>, year: Option<int>)

  /** The `artist` relation of a track row. */
  datatype ArtistRow = ArtistRow(name: Option<string>)

  /** A track row of the genre, with its relations. */
  datatype GenreTrack = GenreTrack(
    albumId: Option<string>,
    album: Option<AlbumRow>,
    artist: Option<ArtistRow>,
    artwork: Option<string>,
    year: Option<int>)

  /** `GenreAlbumInfo`. */
  datatype GenreAlbumInfo = GenreAlbumInfo(
    name: string,
    artist: Option<string>,
    image: Option<string>,
    trackCount: nat,
    year: Option<int>)

  const UnknownAlbum := "Unknown Album"

  /** `track.album.title || "Unknown Album"`. */
  function AlbumName(a: AlbumRow): (r: string)
    ensures r != ""
    ensures Truthy(a.title) ==> r == a.title.value
  {
    if Truthy(a.title) then a.title.value else UnknownAlbum
  }

  /** `track.album.artistId || ""`. */
  function ArtistIdText(a: AlbumRow): (r: string)
    ensures r == "" <==> !Truthy(a.artistId)
  {
    if Truthy(a.artistId) then a.artistId.value else ""
  }

  /** A year is falsy when it is missing or 0. */
  function YearOr(first: Option<int>, second: Option<int>): (r: Option<int>)
    ensures r.Some? ==> r.value != 0 && (r == first || r == second)
    ensures first.Some? && first.value != 0 ==> r == first
    ensures r.None? <==> (first.None? || first.value == 0) && (second.None? || second.value == 0)
  {
    if first.Some? && first.value != 0 then first
    else if second.Some? && second.value != 0 then second
    else None
  }

  /**
   * The album a track is counted under: only tracks with an album id and an
   * album row count, and the album is told apart by its name and its
   * artist id.
   */
  function AlbumKey(t: GenreTrack): (r: Option<(string, string)>)
    ensures r.Some? <==> Truthy(t.albumId) && t.album.Some?
    ensures r.Some? ==> r.value == (AlbumName(t.album.value), ArtistIdText(t.album.value))
  {
    if Truthy(t.albumId) && t.album.Some? then Some((AlbumName(t.album.value), ArtistIdText(t.album.value)))
    else None
  }

  /**
   * The key as the source writes it, `${albumName}-${artistId || ""}`: the
   * two parts joined into one string.
   */
  function WrittenKey(t: GenreTrack): (r: Option<string>)
    ensures r.Some? <==> AlbumKey(t).Some?
  {
    match AlbumKey(t)
    case Some((name, artistId)) => Some(name + "-" + artistId)
    case None => None
  }

  /**
   * Two different albums whose names and artist ids contain dashes share one
   * string key, so the source merges them into a single entry counting the
   * tracks of both; the pair key keeps them apart.
   */
  lemma WrittenKeyMergesAlbums()
    ensures var a := GenreTrack(Some("1"), Some(AlbumRow(Some("A-B"), Some("C"), None, None)), None, None, None);
      var b := GenreTrack(Some("2"), Some(AlbumRow(Some("A"), Some("B-C"), None, None)), None, None, None);
      && AlbumKey(a) != AlbumKey(b)
      && WrittenKey(a) == WrittenKey(b)
      && GroupAll([a, b], WrittenKey).order == ["A-B-C"]
      && "A-B-C" in GroupAll([a, b], WrittenKey).counts
      && GroupAll([a, b], WrittenKey).counts["A-B-C"] == 2
      && |GroupAll([a, b], AlbumKey).order| == 2
  {
    var a := GenreTrack(Some("1"), Some(AlbumRow(Some("A-B"), Some("C"), None, None)), None, None, None);
    var b := GenreTrack(Some("2"), Some(AlbumRow(Some("A"), Some("B-C"), None, None)), None, None, None);
    assert AlbumKey(a) == Some(("A-B", "C"));
    assert AlbumKey(b) == Some(("A", "B-C"));
    assert "A-B" + "-" + "C" == "A-B-C";
    assert "A" + "-" + "B-C" == "A-B-C";
    assert WrittenKey(a) == Some("A-B-C");
    assert WrittenKey(b) == Some("A-B-C");
    assert [a, b][..1] == [a];
    assert [a][..0] == [];
    var g0: Groups<GenreTrack, string> := Groups([], map[], map[]);
    assert GroupAll([a], WrittenKey) == AddItem(g0, a, WrittenKey);
    var g1 := Groups(["A-B-C"], map["A-B-C" := a], map["A-B-C" := 1]);
    assert GroupAll([a], WrittenKey) == g1;
    assert GroupAll([a, b], WrittenKey) == AddItem(g1, b, WrittenKey);
    var h0: Groups<GenreTrack, (string, string)> := Groups([], map[], map[]);
    assert GroupAll([a], AlbumKey) == AddItem(h0, a, AlbumKey);
    assert GroupAll([a, b], AlbumKey) == AddItem(GroupAll([a], AlbumKey), b, AlbumKey);
  }

  /**
   * The entry the first track of an album creates: the album's name, the
   * track's artist, the album's artwork else the track's, the album's year
   * else the track's, and a count of 0.
   */
  function NewEntry(t: GenreTrack): GenreAlbumInfo
    requires t.album.Some?
  {
    var a := t.album.value;
    GenreAlbumInfo(
      AlbumName(a),
      if t.artist.Some? then OrUndefined(t.artist.value.name) else None,
      if Truthy(a.artwork) then a.artwork else OrUndefined(t.artwork),
      0,
      YearOr(a.year, t.year))
  }

  /** The entry of an album whose first track is `t`, holding `count`. */
  function InfoOf(t: GenreTrack, count: nat): GenreAlbumInfo
    requires t.album.Some?
  {
    NewEntry(t).(trackCount := count)
  }

  /** The albums of `ts` in order of first appearance. */
  function AlbumOrder(ts: seq<GenreTrack>): seq<(string, string)> {
    Distinct(KeysOf(ts, AlbumKey))
  }

  /**
   * The reference definition of the entries: for each album, in order of
   * first appearance, the entry of its first track, counting every track of
   * the album.
   */
  function Albums(ts: seq<GenreTrack>): (r: seq<GenreAlbumInfo>)
    ensures |r| == |AlbumOrder(ts)|
  {
    var keys := KeysOf(ts, AlbumKey);
    var order := AlbumOrder(ts);
    seq(|order|, i requires 0 <= i < |order| =>
      DistinctMembers(keys, order[i]);
      InfoOf(FirstOf(ts, AlbumKey, order[i]), multiset(keys)[order[i]]))
  }

  /** The sort's comparator, `b.trackCount - a.trackCount <= 0`. */
  function MoreTracks(): (GenreAlbumInfo, GenreAlbumInfo) -> bool {
    (a: GenreAlbumInfo, b: GenreAlbumInfo) => a.trackCount >= b.trackCount
  }

  /** What `getAlbumsByGenre` returns on success: the albums, largest first. */
  function AlbumsByGenre(ts: seq<GenreTrack>): seq<GenreAlbumInfo> {
    SortBy(Albums(ts), MoreTracks())
  }

  /**
   * The map after the loop over `g`'s tracks: one entry per album, built from
   * the album's first track and holding its count.
   */
  ghost predicate Collected(g: Groups<GenreTrack, (string, string)>, albumMap: map<(string, string), GenreAlbumInfo>) {
    && albumMap.Keys == g.counts.Keys == g.first.Keys
    && forall k :: k in albumMap ==>
         && k in g.first && k in g.counts
         && g.first[k].album.Some?
         && albumMap[k] == InfoOf(g.first[k], g.counts[k])
  }

  /**
   * `getAlbumsByGenre`: no matching genre or a failed query gives `[]`;
   * otherwise the tracks are grouped by album and the entries sorted by
   * count, descending.
   */
  method GetAlbumsByGenre(matchingGenres: Option<seq<string>>, tracksInGenre: Option<seq<GenreTrack>>)
    returns (r: seq<GenreAlbumInfo>)
    ensures matchingGenres.None? || matchingGenres.value == [] || tracksInGenre.None? ==> r == []
    ensures matchingGenres.Some? && matchingGenres.value != [] && tracksInGenre.Some? ==>
      r == AlbumsByGenre(tracksInGenre.value)
  {
    if matchingGenres.None? || matchingGenres.value == [] || tracksInGenre.None? {
      return [];
    }
    var ts := tracksInGenre.value;
    var order, albumMap := CollectAlbums(ts);
    ghost var g := GroupAll(ts, AlbumKey);
    GroupAllOrder(ts, AlbumKey);
    assert forall j :: 0 <= j < |order| ==> order[j] in albumMap by {
      forall j | 0 <= j < |order| ensures order[j] in albumMap {
        assert order[j] in (set x | x in g.order);
      }
    }
    var values := seq(|order|, j requires 0 <= j < |order| && order[j] in albumMap => albumMap[order[j]]);
    MapValuesAreAlbums(ts, g, albumMap, values);
    r := SortBy(values, MoreTracks());
  }

  /**
   * The loop of `getAlbumsByGenre`: one pass over the tracks filling a map
   * from album to entry, creating the entry with a count of 0 on an album's
   * first track and raising the count on every track of an album.
   */
  method CollectAlbums(ts: seq<GenreTrack>) returns (order: seq<(string, string)>, albumMap: map<(string, string), GenreAlbumInfo>)
    ensures order == GroupAll(ts, AlbumKey).order
    ensures Collected(GroupAll(ts, AlbumKey), albumMap)
  {
    order, albumMap := [], map[];
    ghost var g := GroupAll(ts[..0], AlbumKey);
    for i := 0 to |ts|
      invariant g == GroupAll(ts[..i], AlbumKey)
      invariant order == g.order
      invariant Collected(g, albumMap)
    {
      assert ts[..i + 1][..i] == ts[..i];
      var t := ts[i];
      if Truthy(t.albumId) && t.album.Some? {
        var key := (AlbumName(t.album.value), ArtistIdText(t.album.value));
        assert AlbumKey(t) == Some(key);
        ghost var h := g;
        if key !in albumMap {
          CollectedNew(g, albumMap, t, key);
          h := Groups(g.order + [key], g.first[key := t], g.counts[key := 0]);
          order := order + [key];
          albumMap := albumMap[key := NewEntry(t)];
        }
        CollectedBump(h, albumMap, key);
        AddItemCounts(g, h, t, key);
        var entry := albumMap[key];
        albumMap := albumMap[key := entry.(trackCount := entry.trackCount + 1)];
        g := h.(counts := h.counts[key := h.counts[key] + 1]);
      } else {
        g := AddItem(g, t, AlbumKey);
      }
    }
    assert ts[..|ts|] == ts;
  }

  /** Counting `t` under `k` is the grouping step, whether `h` is `g` or `g` with `k` added at a count of 0. */
  lemma AddItemCounts(g: Groups<GenreTrack, (string, string)>, h: Groups<GenreTrack, (string, string)>, t: GenreTrack, k: (string, string))
    requires AlbumKey(t) == Some(k)
    requires k in g.counts ==> h == g
    requires k !in g.counts ==> h == Groups(g.order + [k], g.first[k := t], g.counts[k := 0])
    ensures AddItem(g, t, AlbumKey) == h.(counts := h.counts[k := h.counts[k] + 1])
  {
    if k !in g.counts {
      assert g.counts[k := 0][k := 1] == g.counts[k := 1];
    }
  }

  /** An album's first track adds its entry, with a count of 0 until the track is counted. */
  lemma CollectedNew(g: Groups<GenreTrack, (string, string)>, albumMap: map<(string, string), GenreAlbumInfo>,
                     t: GenreTrack, k: (string, string))
    requires Collected(g, albumMap) && t.album.Some? && k !in albumMap
    ensures Collected(Groups(g.order + [k], g.first[k := t], g.counts[k := 0]), albumMap[k := NewEntry(t)])
  {
  }

  /** Every further track of an album raises its entry's count by one. */
  lemma CollectedBump(g: Groups<GenreTrack, (string, string)>, albumMap: map<(string, string), GenreAlbumInfo>, k: (string, string))
    requires Collected(g, albumMap) && k in albumMap
    ensures Collected(g.(counts := g.counts[k := g.counts[k] + 1]), albumMap[k := albumMap[k].(trackCount := albumMap[k].trackCount + 1)])
  {
    var g2 := g.(counts := g.counts[k := g.counts[k] + 1]);
    var m2 := albumMap[k := albumMap[k].(trackCount := albumMap[k].trackCount + 1)];
    assert m2.Keys == albumMap.Keys && g2.counts.Keys == g.counts.Keys;
    forall j | j in m2 ensures m2[j] == InfoOf(g2.first[j], g2.counts[j]) {
      if j != k {
        assert m2[j] == albumMap[j];
      }
    }
  }

  /** The map's values in insertion order are the reference entries. */
  lemma MapValuesAreAlbums(ts: seq<GenreTrack>, g: Groups<GenreTrack, (string, string)>,
                           albumMap: map<(string, string), GenreAlbumInfo>, values: seq<GenreAlbumInfo>)
    requires g == GroupAll(ts, AlbumKey) && Collected(g, albumMap)
    requires |values| == |g.order| && forall j :: 0 <= j < |g.order| ==> g.order[j] in albumMap && values[j] == albumMap[g.order[j]]
    ensures values == Albums(ts)
  {
    GroupAllOrder(ts, AlbumKey);
    var albums := Albums(ts);
    forall j | 0 <= j < |values| ensures values[j] == albums[j] {
      var k := g.order[j];
      GroupAllCounts(ts, AlbumKey, k);
      GroupAllFirst(ts, AlbumKey, k);
    }
  }

  // ---------------------------------------------------------------------
  // Properties of the result
  // ---------------------------------------------------------------------

  /** The entries are ordered by track count, largest first. */
  lemma AlbumsByGenreSorted(ts: seq<GenreTrack>)
    ensures var r := AlbumsByGenre(ts);
      forall i :: 0 < i < |r| ==> r[i - 1].trackCount >= r[i].trackCount
  {
    SortBySorted(Albums(ts), MoreTracks());
  }

  /** Sorting only reorders the entries. */
  lemma AlbumsByGenrePermutation(ts: seq<GenreTrack>)
    ensures multiset(AlbumsByGenre(ts)) == multiset(Albums(ts))
  {
  }

  /**
   * One entry per album: there are as many entries as distinct albums, and
   * each album's entry is built from its first track and counts all of its
   * tracks.
   */
  lemma AlbumsByGenreOnePerAlbum(ts: seq<GenreTrack>, k: (string, string))
    requires k in KeysOf(ts, AlbumKey)
    ensures |AlbumsByGenre(ts)| == |AlbumOrder(ts)|
    ensures FirstOf(ts, AlbumKey, k).album.Some?
    ensures InfoOf(FirstOf(ts, AlbumKey, k), multiset(KeysOf(ts, AlbumKey))[k]) in AlbumsByGenre(ts)
  {
    var order := AlbumOrder(ts);
    DistinctMembers(KeysOf(ts, AlbumKey), k);
    var i :| 0 <= i < |order| && order[i] == k;
    assert Albums(ts)[i] in multiset(AlbumsByGenre(ts));
  }

  /** Every entry belongs to an album of the genre's tracks. */
  lemma AlbumsByGenreMembers(ts: seq<GenreTrack>, e: GenreAlbumInfo)
    requires e in AlbumsByGenre(ts)
    ensures exists k :: (k in KeysOf(ts, AlbumKey) && FirstOf(ts, AlbumKey, k).album.Some? &&
      e == InfoOf(FirstOf(ts, AlbumKey, k), multiset(KeysOf(ts, AlbumKey))[k]))
  {
    var albums := Albums(ts);
    assert e in multiset(albums);
    var i :| 0 <= i < |albums| && albums[i] == e;
    var k := AlbumOrder(ts)[i];
    DistinctMembers(KeysOf(ts, AlbumKey), k);
    assert e == InfoOf(FirstOf(ts, AlbumKey, k), multiset(KeysOf(ts, AlbumKey))[k]);
  }

  /** The sum of the entries' track counts. */
  function TotalTracks(es: seq<GenreAlbumInfo>): nat {
    if es == [] then 0 else TotalTracks(es[..|es| - 1]) + es[|es| - 1].trackCount
  }

  lemma {:induction false} TotalTracksAppend(a: seq<GenreAlbumInfo>, b: seq<GenreAlbumInfo>)
    ensures TotalTracks(a + b) == TotalTracks(a) + TotalTracks(b)
    decreases |b|
  {
    if b == [] {
      assert a + b == a;
    } else {
      var n := |b| - 1;
      var ab := a + b;
      assert ab[..|ab| - 1] == a + b[..n];
      assert ab[|ab| - 1] == b[n];
      TotalTracksAppend(a, b[..n]);
    }
  }

  lemma TotalTracksOne(x: GenreAlbumInfo)
    ensures TotalTracks([x]) == x.trackCount
  {
    assert [x][..0] == [];
  }

  /** Taking one entry out lowers the total by its count. */
  lemma TotalTracksRemove(b: seq<GenreAlbumInfo>, j: int)
    requires 0 <= j < |b|
    ensures TotalTracks(b) == TotalTracks(b[..j] + b[j + 1..]) + b[j].trackCount
  {
    var x, front, back := b[j], b[..j], b[j + 1..];
    assert b == (front + [x]) + back;
    calc {
      TotalTracks(b);
      { TotalTracksAppend(front + [x], back); }
      TotalTracks(front + [x]) + TotalTracks(back);
      { TotalTracksAppend(front, [x]); TotalTracksOne(x); }
      TotalTracks(front) + x.trackCount + TotalTracks(back);
      { TotalTracksAppend(front, back); }
      TotalTracks(front + back) + x.trackCount;
    }
  }

  /** Reordering keeps the total. */
  lemma {:induction false} TotalTracksPermutation(a: seq<GenreAlbumInfo>, b: seq<GenreAlbumInfo>)
    requires multiset(a) == multiset(b)
    ensures TotalTracks(a) == TotalTracks(b)
    decreases |a|
  {
    if a != [] {
      var n := |a| - 1;
      var x := a[n];
      assert x in multiset(b);
      var j :| 0 <= j < |b| && b[j] == x;
      var rest := b[..j] + b[j + 1..];
      assert a == a[..n] + [x];
      assert multiset(a) == multiset(a[..n]) + multiset{x};
      assert b == b[..j] + [x] + b[j + 1..];
      assert multiset(b) == multiset(b[..j]) + multiset{x} + multiset(b[j + 1..]);
      assert multiset(rest) == multiset(b[..j]) + multiset(b[j + 1..]);
      assert multiset(a[..n]) == multiset(a) - multiset{x};
      assert multiset(rest) == multiset(b) - multiset{x};
      TotalTracksPermutation(a[..n], rest);
      TotalTracksRemove(b, j);
    }
  }

  /** Entries whose counts are the counts of their keys total the keys' counts. */
  lemma {:induction false} TotalOfCounts(es: seq<GenreAlbumInfo>, order: seq<(string, string)>, counts: map<(string, string), nat>, n: nat)
    requires n <= |es| == |order|
    requires forall i :: 0 <= i < |es| ==> order[i] in counts && es[i].trackCount == counts[order[i]]
    ensures TotalTracks(es[..n]) == SumCounts(order[..n], counts)
  {
    if n > 0 {
      TotalOfCounts(es, order, counts, n - 1);
      assert es[..n][..n - 1] == es[..n - 1];
      assert order[..n][..n - 1] == order[..n - 1];
    }
  }

  /** Each reference entry holds its album's group count. */
  lemma AlbumsCounts(ts: seq<GenreTrack>)
    ensures var g := GroupAll(ts, AlbumKey);
      && |Albums(ts)| == |g.order|
      && forall i :: 0 <= i < |g.order| ==> g.order[i] in g.counts && Albums(ts)[i].trackCount == g.counts[g.order[i]]
  {
    var g := GroupAll(ts, AlbumKey);
    var albums := Albums(ts);
    GroupAllOrder(ts, AlbumKey);
    forall i | 0 <= i < |albums| ensures g.order[i] in g.counts && albums[i].trackCount == g.counts[g.order[i]] {
      assert g.order[i] in (set x | x in g.order);
      GroupAllCounts(ts, AlbumKey, g.order[i]);
    }
  }

  lemma AlbumsTotal(ts: seq<GenreTrack>)
    ensures TotalTracks(Albums(ts)) == |KeysOf(ts, AlbumKey)|
  {
    var g := GroupAll(ts, AlbumKey);
    var albums := Albums(ts);
    AlbumsCounts(ts);
    TotalOfCounts(albums, g.order, g.counts, |albums|);
    assert albums[..|albums|] == albums;
    assert g.order[..|albums|] == g.order;
    GroupAllSum(ts, AlbumKey);
  }

  /** The track counts add up to the number of tracks that have an album. */
  lemma AlbumsByGenreTotal(ts: seq<GenreTrack>)
    ensures TotalTracks(AlbumsByGenre(ts)) == |KeysOf(ts, AlbumKey)|
  {
    AlbumsTotal(ts);
    TotalTracksPermutation(Albums(ts), AlbumsByGenre(ts));
  }
}
