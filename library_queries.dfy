/**
 * The library queries of `src/modules/library/library.queries.ts`: the
 * lookup normalisation used to match albums and artists by name, the
 * artist ordering of the album list, and the logic of the search screen
 * around its database queries (which related tracks are fetched, how they
 * are merged with the title matches, and the preview images of a
 * playlist).
 *
 * The queries themselves are inputs: their rows are given, and a query
 * that threw is a flag. `localeCompare` is a parameter returning a
 * negative, zero or positive number.
 */
module LibraryQueries {
  import opened Wrappers
  import opened Text
  import opened Grouping
  import opened Ordering
  import opened MediaIndexer

  // ---------------------------------------------------------------------
  // normalizeLookup
  // ---------------------------------------------------------------------

  /** No upper-case ASCII letter. */
  predicate LowerCased(s: string) {
    forall i :: 0 <= i < |s| ==> !('A' <= s[i] <= 'Z')
  }

  /** `(value || "").trim().toLowerCase()`. */
  function NormalizeLookup(value: Option<string>): (r: string)
    ensures value.None? ==> r == ""
    ensures IsTrimmed(r) && LowerCased(r)
  {
    var s := Trim(match value case Some(v) => v case None => "");
    LowerTrimmed(s);
    ToLower(s)
  }

  /** Lower-casing keeps a trimmed string trimmed: no letter is whitespace. */
  lemma LowerTrimmed(s: string)
    requires IsTrimmed(s)
    ensures IsTrimmed(ToLower(s)) && LowerCased(ToLower(s))
  {
  }

  /** Normalising a normalised name changes nothing. */
  lemma NormalizeLookupIdempotent(value: Option<string>)
    ensures NormalizeLookup(Some(NormalizeLookup(value))) == NormalizeLookup(value)
  {
    var r := NormalizeLookup(value);
    TrimOfTrimmed(r);
    ToLowerIdempotent(Trim(match value case Some(v) => v case None => ""));
  }

  /** Whitespace around a name does not change its lookup key. */
  lemma NormalizeLookupIgnoresSpace(w1: string, a: string, w2: string)
    requires AllBlank(w1) && AllBlank(w2)
    ensures NormalizeLookup(Some(w1 + a + w2)) == NormalizeLookup(Some(a))
  {
    TrimBlankSuffix(w1 + a, w2);
    TrimBlankPrefix(w1, a);
  }

  /** Names that differ only in ASCII letter case have the same lookup key. */
  lemma NormalizeLookupIgnoresCase(a: string, b: string)
    requires ToUpper(a) == ToUpper(b)
    ensures NormalizeLookup(Some(a)) == NormalizeLookup(Some(b))
  {
    ToUpperTrim(a);
    ToUpperTrim(b);
    ToLowerOfToUpper(Trim(a));
    ToLowerOfToUpper(Trim(b));
  }

  // ---------------------------------------------------------------------
  // Album ordering by artist (useAlbums)
  // ---------------------------------------------------------------------

  /** The `artist` relation of an album. */
  datatype ArtistRef = ArtistRef(name: Option<string>, sortName: Option<string>)

  /** An album row with its artist. */
  datatype LibraryAlbum = LibraryAlbum(id: string, title: Option<string>, artwork: Option<string>, artist: Option<ArtistRef>)

  /** `a.localeCompare(b, undefined, { sensitivity: "base" })`. */
  type Collator = (string, string) -> int

  /** A comparison that swaps its sign when its arguments are swapped. */
  ghost predicate Antisymmetric(cmp: Collator) {
    forall x, y :: cmp(x, y) == -cmp(y, x)
  }

  function OrEmpty(o: Option<string>): string {
    if Truthy(o) then o.value else ""
  }

  /** `album.artist?.sortName || album.artist?.name || ""`. */
  function ArtistSortKey(a: LibraryAlbum): (r: string)
    ensures a.artist.Some? && Truthy(a.artist.value.sortName) ==> r == a.artist.value.sortName.value
    ensures a.artist.Some? && !Truthy(a.artist.value.sortName) ==> r == OrEmpty(a.artist.value.name)
    ensures a.artist.None? ==> r == ""
  {
    match a.artist
    case None => ""
    case Some(artist) => if Truthy(artist.sortName) then artist.sortName.value else OrEmpty(artist.name)
  }

  /**
   * The comparator of the album sort: by artist key, then by title, each
   * multiplied by 1 in ascending and by -1 in descending order.
   */
  function CompareAlbums(cmp: Collator, ascending: bool, a: LibraryAlbum, b: LibraryAlbum): int {
    var multiplier := if ascending then 1 else -1;
    var byArtist := cmp(ArtistSortKey(a), ArtistSortKey(b));
    if byArtist != 0 then byArtist * multiplier
    else cmp(OrEmpty(a.title), OrEmpty(b.title)) * multiplier
  }

  /** Descending order is ascending order reversed. */
  lemma CompareAlbumsDescending(cmp: Collator, a: LibraryAlbum, b: LibraryAlbum)
    ensures CompareAlbums(cmp, false, a, b) == -CompareAlbums(cmp, true, a, b)
  {
  }

  /** The artist decides unless the artists compare equal; then the title does. */
  lemma CompareAlbumsArtistFirst(cmp: Collator, ascending: bool, a: LibraryAlbum, b: LibraryAlbum)
    ensures cmp(ArtistSortKey(a), ArtistSortKey(b)) < 0 ==> (CompareAlbums(cmp, ascending, a, b) < 0 <==> ascending)
    ensures cmp(ArtistSortKey(a), ArtistSortKey(b)) > 0 ==> (CompareAlbums(cmp, ascending, a, b) > 0 <==> ascending)
    ensures cmp(ArtistSortKey(a), ArtistSortKey(b)) == 0 ==>
      CompareAlbums(cmp, ascending, a, b) == (if ascending then 1 else -1) * cmp(OrEmpty(a.title), OrEmpty(b.title))
  {
  }

  /** With an antisymmetric collation the comparator is antisymmetric too. */
  lemma CompareAlbumsAntisymmetric(cmp: Collator, ascending: bool, a: LibraryAlbum, b: LibraryAlbum)
    requires Antisymmetric(cmp)
    ensures CompareAlbums(cmp, ascending, a, b) == -CompareAlbums(cmp, ascending, b, a)
  {
    assert cmp(ArtistSortKey(a), ArtistSortKey(b)) == -cmp(ArtistSortKey(b), ArtistSortKey(a));
    assert cmp(OrEmpty(a.title), OrEmpty(b.title)) == -cmp(OrEmpty(b.title), OrEmpty(a.title));
  }

  function AlbumLe(cmp: Collator, ascending: bool): (LibraryAlbum, LibraryAlbum) -> bool {
    (a: LibraryAlbum, b: LibraryAlbum) => CompareAlbums(cmp, ascending, a, b) <= 0
  }

  /** The album list: in query order unless it is ordered by artist. */
  function OrderAlbums(albums: seq<LibraryAlbum>, byArtist: bool, cmp: Collator, ascending: bool): (r: seq<LibraryAlbum>)
    ensures multiset(r) == multiset(albums)
    ensures !byArtist ==> r == albums
  {
    if byArtist then SortBy(albums, AlbumLe(cmp, ascending)) else albums
  }

  /** Ordered by artist, each album compares at most equal to the next. */
  lemma OrderAlbumsSorted(albums: seq<LibraryAlbum>, cmp: Collator, ascending: bool)
    requires Antisymmetric(cmp)
    ensures var r := OrderAlbums(albums, true, cmp, ascending);
      forall i :: 0 < i < |r| ==> CompareAlbums(cmp, ascending, r[i - 1], r[i]) <= 0
  {
    var le := AlbumLe(cmp, ascending);
    forall a, b | a in albums && b in albums ensures le(a, b) || le(b, a) {
      CompareAlbumsAntisymmetric(cmp, ascending, a, b);
    }
    SortBySorted(albums, le);
  }

  // ---------------------------------------------------------------------
  // Search: the related-track filter
  // ---------------------------------------------------------------------

  /** A track row as the search reads it. */
  datatype TrackRow = TrackRow(id: string, title: Option<string>, artistId: Option<string>, albumId: Option<string>)

  /** The `where` condition of the related-track query. */
  datatype RelationFilter =
    | ArtistOrAlbum(artistIds: seq<string>, albumIds: seq<string>)
    | ByArtist(artistIds: seq<string>)
    | ByAlbum(albumIds: seq<string>)

  /** `relationTrackFilter`: `None` is the `null` that skips the query. */
  function RelationTrackFilter(artistIds: seq<string>, albumIds: seq<string>): (r: Option<RelationFilter>)
    ensures r.None? <==> artistIds == [] && albumIds == []
  {
    if |artistIds| > 0 && |albumIds| > 0 then Some(ArtistOrAlbum(artistIds, albumIds))
    else if |artistIds| > 0 then Some(ByArtist(artistIds))
    else if |albumIds| > 0 then Some(ByAlbum(albumIds))
    else None
  }

  /** `inArray(tracks.artistId, ids)` / `inArray(tracks.albumId, ids)` / `or(...)`. */
  predicate Selects(f: RelationFilter, t: TrackRow) {
    match f
    case ArtistOrAlbum(artistIds, albumIds) =>
      (t.artistId.Some? && t.artistId.value in artistIds) || (t.albumId.Some? && t.albumId.value in albumIds)
    case ByArtist(artistIds) => t.artistId.Some? && t.artistId.value in artistIds
    case ByAlbum(albumIds) => t.albumId.Some? && t.albumId.value in albumIds
  }

  /** Whatever the filter's shape, it selects exactly the tracks of a matched artist or a matched album. */
  lemma RelationTrackFilterSelects(artistIds: seq<string>, albumIds: seq<string>, t: TrackRow)
    requires RelationTrackFilter(artistIds, albumIds).Some?
    ensures Selects(RelationTrackFilter(artistIds, albumIds).value, t) <==>
      (t.artistId.Some? && t.artistId.value in artistIds) || (t.albumId.Some? && t.albumId.value in albumIds)
  {
  }

  // ---------------------------------------------------------------------
  // Search: merging title matches with related tracks
  // ---------------------------------------------------------------------

  /** The number of tracks the merged list is meant to stop at. */
  const MaxSearchTracks: nat := 20

  function IdsOf(s: seq<TrackRow>): set<string> {
    set t | t in s :: t.id
  }

  /**
   * The merge loop as the source writes it: a related track whose id was
   * seen is skipped; otherwise it is appended, and the length is checked
   * only after the append.
   */
  function AppendUnseenAsWritten(merged: seq<TrackRow>, seen: set<string>, rest: seq<TrackRow>): seq<TrackRow>
    decreases |rest|
  {
    if rest == [] then merged
    else if rest[0].id in seen then AppendUnseenAsWritten(merged, seen, rest[1..])
    else if |merged + [rest[0]]| >= MaxSearchTracks then merged + [rest[0]]
    else AppendUnseenAsWritten(merged + [rest[0]], seen + {rest[0].id}, rest[1..])
  }

  function MergedAsWritten(titles: seq<TrackRow>, relations: seq<TrackRow>): seq<TrackRow> {
    AppendUnseenAsWritten(titles, IdsOf(titles), relations)
  }

  /**
   * With 20 title matches (the title query's limit) and one related track
   * not among them, the source returns 21 tracks.
   */
  lemma MergedAsWrittenOverflows(titles: seq<TrackRow>, extra: TrackRow)
    requires |titles| == MaxSearchTracks && extra.id !in IdsOf(titles)
    ensures |MergedAsWritten(titles, [extra])| == MaxSearchTracks + 1
  {
  }

  /** The merge with the length checked before each append. */
  function AppendUnseen(merged: seq<TrackRow>, seen: set<string>, rest: seq<TrackRow>): seq<TrackRow>
    decreases |rest|
  {
    if rest == [] || |merged| >= MaxSearchTracks then merged
    else if rest[0].id in seen then AppendUnseen(merged, seen, rest[1..])
    else AppendUnseen(merged + [rest[0]], seen + {rest[0].id}, rest[1..])
  }

  /** The merged track results. */
  function Merged(titles: seq<TrackRow>, relations: seq<TrackRow>): seq<TrackRow> {
    AppendUnseen(titles, IdsOf(titles), relations)
  }

  /** Below the limit the two merges agree: the correction only matters when the title matches fill the list. */
  lemma {:induction false} AppendUnseenAgrees(merged: seq<TrackRow>, seen: set<string>, rest: seq<TrackRow>)
    requires |merged| < MaxSearchTracks
    ensures AppendUnseenAsWritten(merged, seen, rest) == AppendUnseen(merged, seen, rest)
    decreases |rest|
  {
    if rest != [] {
      if rest[0].id in seen {
        AppendUnseenAgrees(merged, seen, rest[1..]);
      } else if |merged + [rest[0]]| < MaxSearchTracks {
        AppendUnseenAgrees(merged + [rest[0]], seen + {rest[0].id}, rest[1..]);
      }
    }
  }

  lemma MergedAgreesAsWritten(titles: seq<TrackRow>, relations: seq<TrackRow>)
    requires |titles| < MaxSearchTracks
    ensures MergedAsWritten(titles, relations) == Merged(titles, relations)
  {
    AppendUnseenAgrees(titles, IdsOf(titles), relations);
  }

  /** The list only grows at its end, and never past the limit unless it started past it. */
  lemma {:induction false} AppendUnseenPrefix(merged: seq<TrackRow>, seen: set<string>, rest: seq<TrackRow>)
    ensures var r := AppendUnseen(merged, seen, rest);
      |merged| <= |r| && r[..|merged|] == merged && |r| <= if |merged| > MaxSearchTracks then |merged| else MaxSearchTracks
    decreases |rest|
  {
    if rest != [] && |merged| < MaxSearchTracks {
      if rest[0].id in seen {
        AppendUnseenPrefix(merged, seen, rest[1..]);
      } else {
        var m := merged + [rest[0]];
        AppendUnseenPrefix(m, seen + {rest[0].id}, rest[1..]);
        assert m[..|merged|] == merged;
      }
    }
  }

  /** Past index `n`, `r` holds only tracks of `rest` whose ids are not in `seen`, each id once. */
  predicate FreshAfter(r: seq<TrackRow>, n: nat, rest: seq<TrackRow>, seen: set<string>) {
    && (forall i :: n <= i < |r| ==> r[i] in rest && r[i].id !in seen)
    && (forall i, j :: n <= i < j < |r| ==> r[i].id != r[j].id)
  }

  /** Every appended track is a related track whose id had not been seen, and no id is appended twice. */
  lemma {:induction false} AppendUnseenFresh(merged: seq<TrackRow>, seen: set<string>, rest: seq<TrackRow>)
    ensures FreshAfter(AppendUnseen(merged, seen, rest), |merged|, rest, seen)
    decreases |rest|
  {
    if rest != [] && |merged| < MaxSearchTracks {
      if rest[0].id in seen {
        AppendUnseenFresh(merged, seen, rest[1..]);
        var r := AppendUnseen(merged, seen, rest[1..]);
        forall i | |merged| <= i < |r| ensures r[i] in rest {
          assert r[i] in rest[1..];
        }
      } else {
        var x := rest[0];
        var m := merged + [x];
        AppendUnseenFresh(m, seen + {x.id}, rest[1..]);
        AppendUnseenPrefix(m, seen + {x.id}, rest[1..]);
        var r := AppendUnseen(m, seen + {x.id}, rest[1..]);
        assert r[|merged|] == x;
        forall i | |merged| < i < |r| ensures r[i] in rest {
          assert r[i] in rest[1..];
        }
      }
    }
  }

  /** A merged list still short of the limit holds every related track. */
  lemma {:induction false} AppendUnseenComplete(merged: seq<TrackRow>, seen: set<string>, rest: seq<TrackRow>)
    requires IdsOf(merged) <= seen
    ensures var r := AppendUnseen(merged, seen, rest);
      |r| < MaxSearchTracks ==> forall t :: t in rest ==> t.id in seen + IdsOf(r)
    decreases |rest|
  {
    if rest != [] && |merged| < MaxSearchTracks {
      var x := rest[0];
      if x.id in seen {
        AppendUnseenComplete(merged, seen, rest[1..]);
      } else {
        var m := merged + [x];
        assert IdsOf(m) == IdsOf(merged) + {x.id};
        AppendUnseenComplete(m, seen + {x.id}, rest[1..]);
        AppendUnseenPrefix(m, seen + {x.id}, rest[1..]);
        var r := AppendUnseen(m, seen + {x.id}, rest[1..]);
        assert r[|merged|] == x;
      }
    }
  }

  /**
   * The merged tracks: all title matches first, in order; then related
   * tracks not among them, each id once; at most 20 when the title matches
   * are at most 20; and, short of 20, no related track is missing.
   */
  lemma MergedSpec(titles: seq<TrackRow>, relations: seq<TrackRow>)
    ensures var r := Merged(titles, relations);
      && |titles| <= |r| && r[..|titles|] == titles
      && (|titles| <= MaxSearchTracks ==> |r| <= MaxSearchTracks)
      && (forall i :: |titles| <= i < |r| ==> r[i] in relations && r[i].id !in IdsOf(titles))
      && (forall i, j :: |titles| <= i < j < |r| ==> r[i].id != r[j].id)
      && (|r| < MaxSearchTracks ==> forall t :: t in relations ==> t.id in IdsOf(r))
  {
    var r := Merged(titles, relations);
    AppendUnseenPrefix(titles, IdsOf(titles), relations);
    AppendUnseenFresh(titles, IdsOf(titles), relations);
    AppendUnseenComplete(titles, IdsOf(titles), relations);
    assert IdsOf(titles) <= IdsOf(r) by {
      forall id | id in IdsOf(titles) ensures id in IdsOf(r) {
        var t :| t in titles && t.id == id;
        var k :| 0 <= k < |titles| && titles[k] == t;
        assert r[k] == t;
      }
    }
  }

  /**
   * The merge loop of `useSearch`, with the length checked before each
   * append: start from the title matches and their ids, then append each
   * related track whose id was not seen.
   */
  method MergeTrackResults(titles: seq<TrackRow>, relations: seq<TrackRow>) returns (merged: seq<TrackRow>)
    ensures merged == Merged(titles, relations)
  {
    merged := titles;
    var trackIds := IdsOf(titles);
    var i := 0;
    while i < |relations|
      invariant 0 <= i <= |relations|
      invariant AppendUnseen(merged, trackIds, relations[i..]) == Merged(titles, relations)
    {
      if |merged| >= MaxSearchTracks {
        break;
      }
      var track := relations[i];
      assert relations[i..][1..] == relations[i + 1..];
      i := i + 1;
      if track.id in trackIds {
        continue;
      }
      trackIds := trackIds + {track.id};
      merged := merged + [track];
    }
  }

  // ---------------------------------------------------------------------
  // Search: playlist preview images
  // ---------------------------------------------------------------------

  /** The preview images stop at four. */
  const MaxPreviewImages: nat := 4

  datatype TrackArt = TrackArt(artwork: Option<string>, albumArtwork: Option<Option<string>>)

  /** A track of the playlist (the first four by position), with its track and album. */
  datatype PlaylistTrackRow = PlaylistTrackRow(track: Option<TrackArt>)

  /** `playlistTrack.track?.artwork || playlistTrack.track?.album?.artwork || undefined`. */
  function TrackImage(pt: PlaylistTrackRow): (r: Option<string>)
    ensures r.Some? ==> r.value != ""
  {
    match pt.track
    case None => None
    case Some(t) =>
      if Truthy(t.artwork) then t.artwork
      else if t.albumArtwork.Some? then OrUndefined(t.albumArtwork.value)
      else None
  }

  /** `images.add(image)` on a `Set`, whose iteration order is insertion order. */
  function AddImage(images: seq<string>, image: Option<string>): seq<string> {
    if image.Some? && image.value !in images then images + [image.value] else images
  }

  /** The image loop: add each track's image, stopping once there are four. */
  function CollectImages(images: seq<string>, rest: seq<PlaylistTrackRow>): seq<string>
    decreases |rest|
  {
    if rest == [] then images
    else
      var next := AddImage(images, TrackImage(rest[0]));
      if |next| >= MaxPreviewImages then next else CollectImages(next, rest[1..])
  }

  /** The images of a playlist: its own artwork first, then its tracks'. */
  function PreviewImages(artwork: Option<string>, tracks: seq<PlaylistTrackRow>): seq<string> {
    CollectImages(if Truthy(artwork) then [artwork.value] else [], tracks)
  }

  /** The loop keeps what it had, adds only track images, never repeats one and stops at four. */
  lemma {:induction false} CollectImagesSpec(images: seq<string>, rest: seq<PlaylistTrackRow>)
    requires NoDuplicates(images) && |images| < MaxPreviewImages
    ensures var r := CollectImages(images, rest);
      && NoDuplicates(r) && |images| <= |r| <= MaxPreviewImages && r[..|images|] == images
      && forall i :: |images| <= i < |r| ==> exists t :: t in rest && TrackImage(t) == Some(r[i])
    decreases |rest|
  {
    if rest != [] {
      var next := AddImage(images, TrackImage(rest[0]));
      assert next[..|images|] == images;
      if |next| < MaxPreviewImages {
        CollectImagesSpec(next, rest[1..]);
        var r := CollectImages(next, rest[1..]);
        assert r[..|images|] == images by {
          assert r[..|next|][..|images|] == images;
        }
        forall i | |images| <= i < |r| ensures exists t :: t in rest && TrackImage(t) == Some(r[i]) {
          if i < |next| {
            assert r[i] == next[i];
            assert TrackImage(rest[0]) == Some(r[i]);
          } else {
            var t :| t in rest[1..] && TrackImage(t) == Some(r[i]);
            assert t in rest;
          }
        }
      } else if |next| > |images| {
        assert TrackImage(rest[0]) == Some(next[|images|]);
      }
    }
  }

  /** A list short of four images holds every track's image. */
  lemma {:induction false} CollectImagesComplete(images: seq<string>, rest: seq<PlaylistTrackRow>)
    requires |images| < MaxPreviewImages
    ensures var r := CollectImages(images, rest);
      |r| < MaxPreviewImages ==> forall t :: t in rest && TrackImage(t).Some? ==> TrackImage(t).value in r
    ensures forall x :: x in images ==> x in CollectImages(images, rest)
    decreases |rest|
  {
    if rest != [] {
      var next := AddImage(images, TrackImage(rest[0]));
      if |next| < MaxPreviewImages {
        CollectImagesComplete(next, rest[1..]);
      }
    }
  }

  /**
   * The preview images are distinct and at most four; the playlist's own
   * artwork comes first when it has one; every other image is a track's;
   * and short of four, no track's image is missing.
   */
  lemma PreviewImagesSpec(artwork: Option<string>, tracks: seq<PlaylistTrackRow>)
    ensures var r := PreviewImages(artwork, tracks);
      && NoDuplicates(r) && |r| <= MaxPreviewImages
      && (Truthy(artwork) ==> |r| > 0 && r[0] == artwork.value)
      && (forall i :: 0 <= i < |r| && !(Truthy(artwork) && i == 0) ==> exists t :: t in tracks && TrackImage(t) == Some(r[i]))
      && (|r| < MaxPreviewImages ==> forall t :: t in tracks && TrackImage(t).Some? ==> TrackImage(t).value in r)
  {
    var start := if Truthy(artwork) then [artwork.value] else [];
    CollectImagesSpec(start, tracks);
    CollectImagesComplete(start, tracks);
  }

  /** The image loop of `useSearch` for one playlist. */
  method PlaylistImages(artwork: Option<string>, tracks: seq<PlaylistTrackRow>) returns (images: seq<string>)
    ensures images == PreviewImages(artwork, tracks)
  {
    images := [];
    if Truthy(artwork) {
      images := [artwork.value];
    }
    var i := 0;
    while i < |tracks|
      invariant 0 <= i <= |tracks|
      invariant CollectImages(images, tracks[i..]) == PreviewImages(artwork, tracks)
    {
      var image := TrackImage(tracks[i]);
      assert tracks[i..][1..] == tracks[i + 1..];
      if image.Some? && image.value !in images {
        images := images + [image.value];
      }
      i := i + 1;
      if |images| >= MaxPreviewImages {
        break;
      }
    }
  }

  // ---------------------------------------------------------------------
  // Search: the results
  // ---------------------------------------------------------------------

  /** An artist row, with the artwork of its first album. */
  datatype ArtistRow = ArtistRow(id: string, name: Option<string>, artwork: Option<string>, albumArtworks: seq<Option<string>>)

  /** A playlist row with its first tracks. */
  datatype PlaylistRow = PlaylistRow(id: string, name: Option<string>, trackCount: Option<nat>, artwork: Option<string>, tracks: seq<PlaylistTrackRow>)

  datatype ArtistHit = ArtistHit(id: string, name: Option<string>, image: Option<string>)
  datatype AlbumHit = AlbumHit(id: string, title: Option<string>, artist: string, image: Option<string>)
  datatype PlaylistHit = PlaylistHit(id: string, title: Option<string>, trackCount: nat, image: Option<string>, images: seq<string>)

  /** `SearchResults`. */
  datatype SearchResults = SearchResults(tracks: seq<TrackRow>, artists: seq<ArtistHit>, albums: seq<AlbumHit>, playlists: seq<PlaylistHit>)

  const EmptyResults := SearchResults([], [], [], [])

  /** `artist.artwork || artist.albums[0]?.artwork || undefined`. */
  function ArtistImage(a: ArtistRow): (r: Option<string>)
    ensures Truthy(a.artwork) ==> r == a.artwork
    ensures !Truthy(a.artwork) && a.albumArtworks != [] ==> r == OrUndefined(a.albumArtworks[0])
    ensures r.None? <==> !Truthy(a.artwork) && (a.albumArtworks == [] || !Truthy(a.albumArtworks[0]))
  {
    if Truthy(a.artwork) then a.artwork
    else if a.albumArtworks != [] then OrUndefined(a.albumArtworks[0])
    else None
  }

  function ArtistHitOf(a: ArtistRow): ArtistHit {
    ArtistHit(a.id, a.name, ArtistImage(a))
  }

  const UnknownArtist := "Unknown Artist"

  /** `album.artist?.name || "Unknown Artist"`. */
  function AlbumArtistName(a: LibraryAlbum): (r: string)
    ensures r != ""
  {
    if a.artist.Some? && Truthy(a.artist.value.name) then a.artist.value.name.value else UnknownArtist
  }

  function AlbumHitOf(a: LibraryAlbum): AlbumHit {
    AlbumHit(a.id, a.title, AlbumArtistName(a), OrUndefined(a.artwork))
  }

  function PlaylistHitOf(p: PlaylistRow, images: seq<string>): PlaylistHit {
    PlaylistHit(p.id, p.name, if p.trackCount.Some? then p.trackCount.value else 0, OrUndefined(p.artwork), images)
  }

  function ArtistIds(rows: seq<ArtistRow>): seq<string> {
    seq(|rows|, i requires 0 <= i < |rows| => rows[i].id)
  }

  function AlbumIds(rows: seq<LibraryAlbum>): seq<string> {
    seq(|rows|, i requires 0 <= i < |rows| => rows[i].id)
  }

  /** The related tracks: the query's rows when there is a filter, none otherwise. */
  function RelatedTracks(artists: seq<ArtistRow>, albums: seq<LibraryAlbum>, relationRows: seq<TrackRow>): seq<TrackRow> {
    if RelationTrackFilter(ArtistIds(artists), AlbumIds(albums)).Some? then relationRows else []
  }

  /**
   * `useSearch`'s query function. The query is trimmed; an empty query
   * gives four empty lists without querying, and so does a query that
   * throws. Otherwise the tracks are the merged title and related matches,
   * the artists and albums the mapped rows, and each playlist carries its
   * preview images.
   */
  method Search(query: string, failed: bool, artistRows: seq<ArtistRow>, albumRows: seq<LibraryAlbum>,
                playlistRows: seq<PlaylistRow>, titleRows: seq<TrackRow>, relationRows: seq<TrackRow>)
    returns (r: SearchResults)
    ensures Trim(query) == "" || failed ==> r == EmptyResults
    ensures Trim(query) != "" && !failed ==>
      && r.tracks == Merged(titleRows, RelatedTracks(artistRows, albumRows, relationRows))
      && r.artists == seq(|artistRows|, i requires 0 <= i < |artistRows| => ArtistHitOf(artistRows[i]))
      && r.albums == seq(|albumRows|, i requires 0 <= i < |albumRows| => AlbumHitOf(albumRows[i]))
      && |r.playlists| == |playlistRows|
      && forall i :: 0 <= i < |playlistRows| ==>
           r.playlists[i] == PlaylistHitOf(playlistRows[i], PreviewImages(playlistRows[i].artwork, playlistRows[i].tracks))
  {
    var normalizedQuery := Trim(query);
    if normalizedQuery == "" || failed {
      return EmptyResults;
    }
    var filter := RelationTrackFilter(ArtistIds(artistRows), AlbumIds(albumRows));
    var related := if filter.Some? then relationRows else [];
    var tracks := MergeTrackResults(titleRows, related);
    var playlists: seq<PlaylistHit> := [];
    for i := 0 to |playlistRows|
      invariant |playlists| == i
      invariant forall j :: 0 <= j < i ==>
        playlists[j] == PlaylistHitOf(playlistRows[j], PreviewImages(playlistRows[j].artwork, playlistRows[j].tracks))
    {
      var images := PlaylistImages(playlistRows[i].artwork, playlistRows[i].tracks);
      playlists := playlists + [PlaylistHitOf(playlistRows[i], images)];
    }
    r := SearchResults(
      tracks,
      seq(|artistRows|, i requires 0 <= i < |artistRows| => ArtistHitOf(artistRows[i])),
      seq(|albumRows|, i requires 0 <= i < |albumRows| => AlbumHitOf(albumRows[i])),
      playlists);
  }
}
