/**
 * The local media indexer (src/utils/media-indexer.ts): it fingerprints
 * every audio asset the device enumerates, rebuilds the record of a new or
 * changed asset (metadata, artwork cached on disk), keeps the in-memory
 * track list `$tracks` and the track table up to date batch by batch,
 * reports its progress through `$indexerState`, and finally removes the
 * records of assets that are gone.
 *
 * The device (permission, the enumerator's pages, the metadata decoder and
 * the artwork directory) is the `Device` parameter; the clock is `now`; a
 * stop request arriving while the run awaits is the `Cancellation` parameter.
 */
module MediaIndexer {
  import opened Wrappers
  import opened Text

  /** Assets are processed in batches of this many. */
  const BatchSize: nat := 10

  /** The longest fingerprint the source keeps. */
  const HashLength: nat := 64

  // ---------------------------------------------------------------------
  // Records
  // ---------------------------------------------------------------------

  /** An audio file as the device enumerates it (whole seconds, milliseconds since the epoch). */
  datatype Asset = Asset(id: string, filename: string, uri: string, modificationTime: nat, duration: nat)

  /** One page of the enumerator and whether another one follows. */
  datatype Page = Page(assets: seq<Asset>, hasNextPage: bool)

  /** The tags the decoder reads (`METADATA_TAGS`); an absent or empty tag is missing. */
  datatype Metadata = Metadata(name: Option<string>, artist: Option<string>, album: Option<string>, artwork: Option<string>)

  const NoMetadata := Metadata(None, None, None, None)

  /**
   * Everything the indexer asks of the device: the media permission, the
   * enumerator's pages in order, the decoder's answer per uri (a uri the
   * decoder fails on is absent), the artwork cache directory's uri, whether
   * creating that directory or writing a file in it throws, and the assets
   * whose record cannot be built at all (any other exception).
   */
  datatype Device = Device(
    permissionGranted: bool,
    pages: seq<Page>,
    metadata: map<string, Metadata>,
    cacheDir: string,
    dirFails: bool,
    writeFails: bool,
    unreadable: set<string>)

  /** A row of the track table and an entry of `$tracks`. */
  datatype IndexedTrack = IndexedTrack(
    id: string,
    title: string,
    artist: Option<string>,
    album: Option<string>,
    duration: nat,
    uri: string,
    image: Option<string>,
    fileHash: string,
    scanTime: int,
    isDeleted: bool)

  /** JavaScript truthiness of an optional string: present and non-empty. */
  predicate Truthy(o: Option<string>) {
    o.Some? && o.value != ""
  }

  /** `value || undefined`. */
  function OrUndefined(o: Option<string>): (r: Option<string>)
    ensures r.Some? <==> Truthy(o)
    ensures r.Some? ==> r == o
  {
    if Truthy(o) then o else None
  }

  // ---------------------------------------------------------------------
  // Fingerprint
  // ---------------------------------------------------------------------

  predicate IsAsciiAlnum(c: char) {
    'a' <= c <= 'z' || 'A' <= c <= 'Z' || '0' <= c <= '9'
  }

  /** The characters a fingerprint or a safe file name may contain. */
  predicate IsHashChar(c: char) {
    IsAsciiAlnum(c) || c == '_'
  }

  /** `s.replace(/[^a-zA-Z0-9]/g, '_')`. */
  function ReplaceNonAlnum(s: string): (r: string)
    ensures |r| == |s|
    ensures forall i :: 0 <= i < |s| ==> r[i] == (if IsAsciiAlnum(s[i]) then s[i] else '_')
  {
    if s == [] then [] else ReplaceNonAlnum(s[..|s| - 1]) + [if IsAsciiAlnum(s[|s| - 1]) then s[|s| - 1] else '_']
  }

  lemma ReplaceNonAlnumAppend(a: string, b: string)
    ensures ReplaceNonAlnum(a + b) == ReplaceNonAlnum(a) + ReplaceNonAlnum(b)
  {
    assert forall i :: 0 <= i < |a + b| ==> ReplaceNonAlnum(a + b)[i] == (ReplaceNonAlnum(a) + ReplaceNonAlnum(b))[i];
  }

  lemma ReplaceNonAlnumDigits(n: nat)
    ensures ReplaceNonAlnum(NatToString(n)) == NatToString(n)
  {
    var s := NatToString(n);
    assert forall i :: 0 <= i < |s| ==> IsDigit(s[i]);
  }

  /** `${uri}-${modificationTime}-${size}`: the text a fingerprint is made from. */
  function HashSource(uri: string, modificationTime: nat, size: nat): string {
    uri + "-" + NatToString(modificationTime) + "-" + NatToString(size)
  }

  /**
   * `calculateFileHash` as written: the source text with every character
   * other than an ASCII letter or digit replaced by `_`, cut to 64 characters.
   */
  function FileHashAsWritten(uri: string, modificationTime: nat, size: nat): (r: string)
    ensures |r| <= HashLength
    ensures forall i :: 0 <= i < |r| ==> IsHashChar(r[i])
  {
    var full := ReplaceNonAlnum(HashSource(uri, modificationTime, size));
    if |full| <= HashLength then full else full[..HashLength]
  }

  /**
   * Once the uri alone fills the 64 characters, the fingerprint no longer
   * depends on the modification time or the size: a changed file keeps the
   * fingerprint of its previous version and is never re-read.
   */
  lemma FileHashAsWrittenIgnoresChanges(uri: string, m1: nat, s1: nat, m2: nat, s2: nat)
    requires |uri| >= HashLength
    ensures FileHashAsWritten(uri, m1, s1) == FileHashAsWritten(uri, m2, s2)
  {
    var a := HashSource(uri, m1, s1);
    var b := HashSource(uri, m2, s2);
    assert a[..HashLength] == uri[..HashLength] == b[..HashLength];
    assert ReplaceNonAlnum(a)[..HashLength] == ReplaceNonAlnum(b)[..HashLength];
  }

  /** A concrete instance: a 64-character uri edited in place. */
  lemma FileHashAsWrittenCollision()
    ensures FileHashAsWritten("file:///storage/emulated/0/Music/Artist/Album/01 - Long Title.mp3", 1700000000000, 215)
         == FileHashAsWritten("file:///storage/emulated/0/Music/Artist/Album/01 - Long Title.mp3", 1700000999000, 231)
  {
    FileHashAsWrittenIgnoresChanges("file:///storage/emulated/0/Music/Artist/Album/01 - Long Title.mp3", 1700000000000, 215, 1700000999000, 231);
  }

  /**
   * The fingerprint the indexer uses: the sanitised source text, not cut, so
   * that the modification time and the size always take part in it.
   */
  function FileHash(uri: string, modificationTime: nat, size: nat): string {
    ReplaceNonAlnum(HashSource(uri, modificationTime, size))
  }

  /** A fingerprint is made of ASCII letters, digits and `_` only. */
  lemma FileHashChars(uri: string, modificationTime: nat, size: nat)
    ensures forall i :: 0 <= i < |FileHash(uri, modificationTime, size)| ==> IsHashChar(FileHash(uri, modificationTime, size)[i])
  {
  }

  /** The fingerprint is the sanitised uri followed by the two numbers, each after a `_`. */
  lemma FileHashShape(uri: string, modificationTime: nat, size: nat)
    ensures FileHash(uri, modificationTime, size) == ReplaceNonAlnum(uri) + "_" + NatToString(modificationTime) + "_" + NatToString(size)
  {
    var m, z := NatToString(modificationTime), NatToString(size);
    ReplaceNonAlnumAppend(uri + "-" + m + "-", z);
    ReplaceNonAlnumAppend(uri + "-" + m, "-");
    ReplaceNonAlnumAppend(uri + "-", m);
    ReplaceNonAlnumAppend(uri, "-");
    ReplaceNonAlnumDigits(modificationTime);
    ReplaceNonAlnumDigits(size);
    assert ReplaceNonAlnum("-") == "_";
  }

  /** In digits, `_`, anything: the first `_` sits right after the digits. */
  lemma UnderscoreAfterDigits(a: string, b: string)
    requires forall i :: 0 <= i < |a| ==> IsDigit(a[i])
    ensures IndexOf(a + "_" + b, '_') == |a|
  {
    var s := a + "_" + b;
    assert s[|a|] == '_';
    assert forall i :: 0 <= i < |a| ==> s[i] == a[i];
  }

  /** Two digit strings joined by `_` to some text can be split back apart. */
  lemma SplitAtUnderscore(a1: string, b1: string, a2: string, b2: string)
    requires forall i :: 0 <= i < |a1| ==> IsDigit(a1[i])
    requires forall i :: 0 <= i < |a2| ==> IsDigit(a2[i])
    requires a1 + "_" + b1 == a2 + "_" + b2
    ensures a1 == a2 && b1 == b2
  {
    var s := a1 + "_" + b1;
    UnderscoreAfterDigits(a1, b1);
    UnderscoreAfterDigits(a2, b2);
    assert a1 == s[..|a1|] == a2;
    assert b1 == s[|a1| + 1..] == b2;
  }

  /** The fingerprint as the sanitised uri and `_`, then the two numbers joined by `_`. */
  lemma FileHashSplit(uri: string, m: nat, s: nat)
    ensures FileHash(uri, m, s) == (ReplaceNonAlnum(uri) + "_") + (NatToString(m) + "_" + NatToString(s))
  {
    FileHashShape(uri, m, s);
  }

  lemma PrefixCancel(p: string, t1: string, t2: string)
    requires p + t1 == p + t2
    ensures t1 == t2
  {
    assert t1 == (p + t1)[|p|..];
    assert t2 == (p + t2)[|p|..];
  }

  /** For one uri, the fingerprint changes whenever the modification time or the size does. */
  lemma FileHashDetectsChanges(uri: string, m1: nat, s1: nat, m2: nat, s2: nat)
    requires FileHash(uri, m1, s1) == FileHash(uri, m2, s2)
    ensures m1 == m2 && s1 == s2
  {
    FileHashSplit(uri, m1, s1);
    FileHashSplit(uri, m2, s2);
    PrefixCancel(ReplaceNonAlnum(uri) + "_", NatToString(m1) + "_" + NatToString(s1), NatToString(m2) + "_" + NatToString(s2));
    SplitAtUnderscore(NatToString(m1), NatToString(s1), NatToString(m2), NatToString(s2));
    NatToStringInjective(m1, m2);
    NatToStringInjective(s1, s2);
  }

  // ---------------------------------------------------------------------
  // Artwork cache
  // ---------------------------------------------------------------------

  /** The cache file of a track's artwork: the id made safe, with `.jpg`, in the cache directory. */
  function ArtworkUri(cacheDir: string, trackId: string): string {
    cacheDir + ReplaceNonAlnum(trackId) + ".jpg"
  }

  /** The image a record gets, and the artwork files (uri to base64 content) afterwards. */
  datatype Artwork = Artwork(image: Option<string>, files: map<string, string>)

  /** The base64 payload of the decoder's artwork: after `data:`, the text between the first and second comma. */
  function Base64Payload(data: string): string {
    if StartsWith(data, "data:") then
      var (found, part) := SecondSegment(data, ',');
      if found then part else ""
    else data
  }

  /**
   * `saveArtworkToCache`: nothing without artwork; otherwise, unless making
   * the cache directory throws, an existing cache file wins, a path is used as
   * it is, and any other payload is written (when non-empty) to the cache
   * file whose uri is returned. A failed write yields no image.
   */
  function SaveArtwork(data: Option<string>, trackId: string, files: map<string, string>, dev: Device): (r: Artwork)
  {
    var uri := ArtworkUri(dev.cacheDir, trackId);
    if !Truthy(data) || dev.dirFails then Artwork(None, files)
    else if uri in files then Artwork(Some(uri), files)
    else if StartsWith(data.value, "file://") || StartsWith(data.value, "/") then Artwork(data, files)
    else
      var payload := Base64Payload(data.value);
      if payload == "" then Artwork(Some(uri), files)
      else if dev.writeFails then Artwork(None, files)
      else Artwork(Some(uri), files[uri := payload])
  }

  /**
   * Saving writes at most the track's cache file, with the payload; an image
   * needs a non-empty payload and a cache directory, and is the payload
   * itself or the cache file.
   */
  lemma SaveArtworkEffect(data: Option<string>, trackId: string, files: map<string, string>, dev: Device)
    ensures var r := SaveArtwork(data, trackId, files, dev);
      var uri := ArtworkUri(dev.cacheDir, trackId);
      && (r.files == files || (data.Some? && r.files == files[uri := Base64Payload(data.value)] && r.image == Some(uri)))
      && (r.image.Some? ==> Truthy(data) && !dev.dirFails)
      && (r.image.Some? ==> r.image == data || r.image == Some(uri))
  {
  }

  /** An artwork file already in the cache is returned whatever the payload, and nothing is written. */
  lemma SaveArtworkCached(data: Option<string>, trackId: string, files: map<string, string>, dev: Device)
    requires Truthy(data) && !dev.dirFails && ArtworkUri(dev.cacheDir, trackId) in files
    ensures SaveArtwork(data, trackId, files, dev) == Artwork(Some(ArtworkUri(dev.cacheDir, trackId)), files)
  {
  }

  /** A payload that is a path is the image itself when nothing is cached yet. */
  lemma SaveArtworkPath(data: string, trackId: string, files: map<string, string>, dev: Device)
    requires data != "" && !dev.dirFails && ArtworkUri(dev.cacheDir, trackId) !in files
    requires StartsWith(data, "file://") || StartsWith(data, "/")
    ensures SaveArtwork(Some(data), trackId, files, dev) == Artwork(Some(data), files)
  {
  }

  /** A `data:` uri has the part after its comma written to the cache file. */
  lemma SaveArtworkDataUri(mime: string, payload: string, trackId: string, files: map<string, string>, dev: Device)
    requires ',' !in mime && ',' !in payload && payload != ""
    requires !dev.dirFails && !dev.writeFails && ArtworkUri(dev.cacheDir, trackId) !in files
    ensures var uri := ArtworkUri(dev.cacheDir, trackId);
      SaveArtwork(Some("data:" + mime + "," + payload), trackId, files, dev) == Artwork(Some(uri), files[uri := payload])
  {
    var data := "data:" + mime + "," + payload;
    assert StartsWith(data, "data:");
    assert !StartsWith(data, "file://") && !StartsWith(data, "/") by {
      assert data[0] == 'd';
    }
    var k := IndexOf(data, ',');
    assert data[|"data:" + mime|] == ',';
    assert forall i :: 0 <= i < |"data:" + mime| ==> data[i] != ',';
    assert k == |"data:" + mime|;
    assert data[k + 1..] == payload;
    assert IndexOf(payload, ',') == -1;
  }

  /** Without a payload, or when the cache directory cannot be made, there is no image and nothing is written. */
  lemma SaveArtworkNothing(data: Option<string>, trackId: string, files: map<string, string>, dev: Device)
    requires !Truthy(data) || dev.dirFails
    ensures SaveArtwork(data, trackId, files, dev) == Artwork(None, files)
  {
  }

  /** Saving twice for one track writes at most once: the second call finds the first call's file. */
  lemma SaveArtworkTwice(d1: Option<string>, d2: Option<string>, trackId: string, files: map<string, string>, dev: Device)
    requires Truthy(d2)
    requires SaveArtwork(d1, trackId, files, dev).files != files
    ensures var first := SaveArtwork(d1, trackId, files, dev);
      SaveArtwork(d2, trackId, first.files, dev) == first
  {
  }

  /**
   * A `data:` uri without a comma, or with nothing between its first two
   * commas, writes nothing yet yields the uri of a cache file that does not exist.
   */
  lemma SaveArtworkEmptyPayload(trackId: string, files: map<string, string>, dev: Device)
    requires !dev.dirFails && ArtworkUri(dev.cacheDir, trackId) !in files
    ensures SaveArtwork(Some("data:image/jpeg;base64"), trackId, files, dev).image == Some(ArtworkUri(dev.cacheDir, trackId))
    ensures ArtworkUri(dev.cacheDir, trackId) !in SaveArtwork(Some("data:image/jpeg;base64"), trackId, files, dev).files
  {
    var data := "data:image/jpeg;base64";
    assert StartsWith(data, "data:");
    assert data[0] == 'd';
    assert ',' !in data;
  }

  // ---------------------------------------------------------------------
  // One asset
  // ---------------------------------------------------------------------

  /** `filename.replace(/\.[^/.]+$/, '')`: drops a final extension of at least one character with no `/` in it. */
  function StripExtension(name: string): string {
    var k := LastIndexOf(name, '.');
    if k >= 0 && k + 1 < |name| && '/' !in name[k + 1..] then name[..k] else name
  }

  /**
   * What is stripped is a final `.` followed by at least one character,
   * none of them a `.` or a `/`; the rest is a prefix of the name.
   */
  lemma StripExtensionShape(name: string)
    ensures var r := StripExtension(name);
      && StartsWith(name, r)
      && (r != name ==> name[|r|] == '.' && |name| - |r| >= 2 && '.' !in name[|r| + 1..] && '/' !in name[|r| + 1..])
  {
  }

  /** The title of a rebuilt record: the tag, else the file name without extension, else `Untitled`. */
  function TitleOf(metadata: Metadata, filename: string): (r: string)
    ensures r != ""
  {
    if Truthy(metadata.name) then metadata.name.value
    else if StripExtension(filename) != "" then StripExtension(filename)
    else "Untitled"
  }

  /** What processing one asset yields: a record or `null`, and the artwork files afterwards. */
  datatype Processed = Processed(track: Option<IndexedTrack>, files: map<string, string>)

  /**
   * `processTrack`: an asset whose fingerprint matches its existing record is
   * skipped unless the scan is forced, before anything that can fail is
   * attempted; any other asset is rebuilt from its metadata (a failed read
   * leaves the tags missing) and its artwork, and an asset whose rebuilding
   * fails yields `null`.
   */
  function ProcessTrack(asset: Asset, existing: Option<IndexedTrack>, force: bool, dev: Device, files: map<string, string>, now: int): (r: Processed)
    requires existing.Some? ==> existing.value.id == asset.id
    ensures r.track.Some? ==> r.track.value.id == asset.id
    ensures r.track.None? ==> r.files == files
  {
    var hash := FileHash(asset.uri, asset.modificationTime, asset.duration);
    if existing.Some? && !force && existing.value.fileHash == hash then Processed(existing, files)
    else if asset.id in dev.unreadable then Processed(None, files)
    else
      var metadata := if asset.uri in dev.metadata then dev.metadata[asset.uri] else NoMetadata;
      var art := SaveArtwork(metadata.artwork, asset.id, files, dev);
      var track := IndexedTrack(
        asset.id, TitleOf(metadata, asset.filename), OrUndefined(metadata.artist), OrUndefined(metadata.album),
        asset.duration, asset.uri, art.image, hash, now, false);
      Processed(Some(track), art.files)
  }

  /** An unchanged asset keeps its record as it is and nothing is read or written. */
  lemma ProcessTrackSkipsUnchanged(asset: Asset, existing: IndexedTrack, dev: Device, files: map<string, string>, now: int)
    requires existing.id == asset.id
    requires existing.fileHash == FileHash(asset.uri, asset.modificationTime, asset.duration)
    ensures ProcessTrack(asset, Some(existing), false, dev, files, now) == Processed(Some(existing), files)
  {
  }

  /**
   * A rebuilt record describes the asset: its id, uri and duration, the fresh
   * fingerprint, the scan time, not deleted, the title fallbacks and the tags
   * that are present.
   */
  lemma ProcessTrackRebuilds(asset: Asset, existing: Option<IndexedTrack>, force: bool, dev: Device, files: map<string, string>, now: int)
    requires existing.Some? ==> existing.value.id == asset.id
    requires asset.id !in dev.unreadable
    requires existing.None? || force || existing.value.fileHash != FileHash(asset.uri, asset.modificationTime, asset.duration)
    ensures var r := ProcessTrack(asset, existing, force, dev, files, now);
      var metadata := if asset.uri in dev.metadata then dev.metadata[asset.uri] else NoMetadata;
      && r.track.Some?
      && r.track.value.id == asset.id && r.track.value.uri == asset.uri && r.track.value.duration == asset.duration
      && r.track.value.fileHash == FileHash(asset.uri, asset.modificationTime, asset.duration)
      && r.track.value.scanTime == now && !r.track.value.isDeleted
      && r.track.value.title == TitleOf(metadata, asset.filename)
      && (r.track.value.artist.Some? <==> Truthy(metadata.artist))
      && (r.track.value.album.Some? <==> Truthy(metadata.album))
      && r.track.value.image == SaveArtwork(metadata.artwork, asset.id, files, dev).image
  {
  }

  /** A rebuilt asset whose decoder read failed still gets a record, titled from its file name. */
  lemma ProcessTrackWithoutMetadata(asset: Asset, dev: Device, files: map<string, string>, now: int)
    requires asset.id !in dev.unreadable && asset.uri !in dev.metadata
    ensures var r := ProcessTrack(asset, None, false, dev, files, now);
      && r.track.Some? && r.files == files
      && r.track.value.artist.None? && r.track.value.album.None? && r.track.value.image.None?
      && r.track.value.title == (if StripExtension(asset.filename) != "" then StripExtension(asset.filename) else "Untitled")
  {
  }

  /** An asset that has to be rebuilt but whose record cannot be built yields `null`. */
  lemma ProcessTrackUnreadable(asset: Asset, existing: Option<IndexedTrack>, force: bool, dev: Device, files: map<string, string>, now: int)
    requires existing.Some? ==> existing.value.id == asset.id
    requires asset.id in dev.unreadable
    requires existing.None? || force || existing.value.fileHash != FileHash(asset.uri, asset.modificationTime, asset.duration)
    ensures ProcessTrack(asset, existing, force, dev, files, now) == Processed(None, files)
  {
  }

  // ---------------------------------------------------------------------
  // Track lists keyed by id ($tracks and the track table)
  // ---------------------------------------------------------------------

  /** No two entries share an id. */
  predicate UniqueIds(ts: seq<IndexedTrack>) {
    forall i, j :: 0 <= i < j < |ts| ==> ts[i].id != ts[j].id
  }

  /** `findIndex(t => t.id === id)`. */
  function IndexOfId(ts: seq<IndexedTrack>, id: string): (r: int)
    ensures -1 <= r < |ts|
    ensures r >= 0 ==> ts[r].id == id
  {
    if ts == [] then -1
    else if ts[0].id == id then 0
    else
      var k := IndexOfId(ts[1..], id);
      if k == -1 then -1 else k + 1
  }

  /** The index found is the first with that id, and none is found exactly when no entry has it. */
  lemma {:induction false} IndexOfIdFirst(ts: seq<IndexedTrack>, id: string)
    ensures var r := IndexOfId(ts, id);
      && (r >= 0 ==> forall i :: 0 <= i < r ==> ts[i].id != id)
      && (r == -1 <==> forall i :: 0 <= i < |ts| ==> ts[i].id != id)
  {
    if ts != [] && ts[0].id != id {
      IndexOfIdFirst(ts[1..], id);
      assert forall i :: 1 <= i < |ts| ==> ts[i] == ts[1..][i - 1];
    }
  }

  /** The entry with id `id`, if any (`Map.get` over rows with unique ids). */
  function Lookup(ts: seq<IndexedTrack>, id: string): (r: Option<IndexedTrack>)
    ensures r.Some? ==> r.value.id == id
  {
    var k := IndexOfId(ts, id);
    if k == -1 then None else Some(ts[k])
  }

  /** A lookup finds an entry of the list, and finds nothing exactly when no entry has the id. */
  lemma LookupFinds(ts: seq<IndexedTrack>, id: string)
    ensures Lookup(ts, id).Some? ==> Lookup(ts, id).value in ts
    ensures Lookup(ts, id).None? <==> forall i :: 0 <= i < |ts| ==> ts[i].id != id
  {
    IndexOfIdFirst(ts, id);
  }

  /**
   * Replace the entry with the record's id by the record, or append it when
   * there is none.
   */
  function Upsert(ts: seq<IndexedTrack>, t: IndexedTrack): (r: seq<IndexedTrack>)
  {
    var k := IndexOfId(ts, t.id);
    if k >= 0 then ts[k := t] else ts + [t]
  }

  /**
   * After an upsert the record is present, every other entry keeps its place
   * and value, at most one entry is added, and ids stay unique.
   */
  lemma UpsertProperties(ts: seq<IndexedTrack>, t: IndexedTrack)
    ensures t in Upsert(ts, t)
    ensures |Upsert(ts, t)| == |ts| || Upsert(ts, t) == ts + [t]
    ensures forall i :: 0 <= i < |ts| && ts[i].id != t.id ==> Upsert(ts, t)[i] == ts[i]
    ensures (exists i :: 0 <= i < |ts| && ts[i].id == t.id) ==> |Upsert(ts, t)| == |ts|
  {
    IndexOfIdFirst(ts, t.id);
    var k := IndexOfId(ts, t.id);
    if k >= 0 {
      assert Upsert(ts, t)[k] == t;
    } else {
      assert Upsert(ts, t)[|ts|] == t;
    }
  }

  /** An upsert keeps a list keyed by id. */
  lemma UpsertUnique(ts: seq<IndexedTrack>, t: IndexedTrack)
    requires UniqueIds(ts)
    ensures UniqueIds(Upsert(ts, t))
  {
    UpsertProperties(ts, t);
    IndexOfIdFirst(ts, t.id);
  }

  /** An upsert brings in nothing but the record. */
  lemma UpsertMembers(ts: seq<IndexedTrack>, t: IndexedTrack)
    ensures forall x :: x in Upsert(ts, t) ==> x in ts || x == t
  {
    var k := IndexOfId(ts, t.id);
    forall x | x in Upsert(ts, t)
      ensures x in ts || x == t
    {
      var j :| 0 <= j < |Upsert(ts, t)| && Upsert(ts, t)[j] == x;
      if k >= 0 && j != k {
        assert x == ts[j];
      } else if k < 0 && j < |ts| {
        assert x == ts[j];
      }
    }
  }

  /** With unique ids, an upsert changes what the id of the record looks up to, and nothing else. */
  lemma LookupUpsert(ts: seq<IndexedTrack>, t: IndexedTrack, id: string)
    requires UniqueIds(ts)
    ensures Lookup(Upsert(ts, t), id) == if id == t.id then Some(t) else Lookup(ts, id)
  {
    UpsertProperties(ts, t);
    var r := Upsert(ts, t);
    var k := IndexOfId(ts, t.id);
    IndexOfIdFirst(ts, t.id);
    IndexOfIdFirst(ts, id);
    IndexOfIdFirst(r, id);
    if id == t.id {
      var at := if k >= 0 then k else |ts|;
      assert r[at] == t;
      assert IndexOfId(r, id) == at;
    } else {
      var j := IndexOfId(ts, id);
      if j >= 0 {
        assert r[j] == ts[j];
        assert IndexOfId(r, id) == j;
      } else {
        assert forall i :: 0 <= i < |r| ==> r[i].id != id;
      }
    }
  }

  /** The set of ids of a list. */
  function Ids(ts: seq<IndexedTrack>): set<string> {
    set i | 0 <= i < |ts| :: ts[i].id
  }

  lemma UpsertIds(ts: seq<IndexedTrack>, t: IndexedTrack)
    ensures Ids(Upsert(ts, t)) == Ids(ts) + {t.id}
  {
    var r := Upsert(ts, t);
    var k := IndexOfId(ts, t.id);
    if k >= 0 {
      forall id | id in Ids(ts) ensures id in Ids(r) {
        var i :| 0 <= i < |ts| && ts[i].id == id;
        assert r[i].id == id;
      }
    } else {
      forall id | id in Ids(ts) ensures id in Ids(r) {
        var i :| 0 <= i < |ts| && ts[i].id == id;
        assert r[i].id == id;
      }
      assert r[|ts|].id == t.id;
    }
  }

  /** Upsert every record, in order. */
  function UpsertAll(ts: seq<IndexedTrack>, records: seq<IndexedTrack>): seq<IndexedTrack> {
    if records == [] then ts else Upsert(UpsertAll(ts, records[..|records| - 1]), records[|records| - 1])
  }

  lemma UpsertAllStep(ts: seq<IndexedTrack>, records: seq<IndexedTrack>, t: IndexedTrack)
    ensures UpsertAll(ts, records + [t]) == Upsert(UpsertAll(ts, records), t)
  {
    assert (records + [t])[..|records|] == records;
  }

  lemma {:induction false} UpsertAllAppend(ts: seq<IndexedTrack>, r1: seq<IndexedTrack>, r2: seq<IndexedTrack>)
    ensures UpsertAll(ts, r1 + r2) == UpsertAll(UpsertAll(ts, r1), r2)
  {
    if r2 != [] {
      var n := |r2| - 1;
      assert (r1 + r2)[..|r1 + r2| - 1] == r1 + r2[..n];
      UpsertAllAppend(ts, r1, r2[..n]);
    } else {
      assert r1 + r2 == r1;
    }
  }

  /** The ids of a list with one more entry. */
  lemma IdsSnoc(ts: seq<IndexedTrack>, t: IndexedTrack)
    ensures Ids(ts + [t]) == Ids(ts) + {t.id}
  {
    var r := ts + [t];
    assert r[|ts|] == t;
    assert forall i :: 0 <= i < |ts| ==> r[i] == ts[i];
  }

  /** Upserting records into a list keyed by id keeps it keyed by id. */
  lemma {:induction false} UpsertAllUnique(ts: seq<IndexedTrack>, records: seq<IndexedTrack>)
    requires UniqueIds(ts)
    ensures UniqueIds(UpsertAll(ts, records))
  {
    if records != [] {
      var n := |records| - 1;
      UpsertAllUnique(ts, records[..n]);
      UpsertUnique(UpsertAll(ts, records[..n]), records[n]);
    }
  }

  /** After upserting records, the ids present are the old ones and the records' ones. */
  lemma {:induction false} UpsertAllIds(ts: seq<IndexedTrack>, records: seq<IndexedTrack>)
    ensures Ids(UpsertAll(ts, records)) == Ids(ts) + Ids(records)
  {
    if records != [] {
      var n := |records| - 1;
      UpsertAllIds(ts, records[..n]);
      UpsertIds(UpsertAll(ts, records[..n]), records[n]);
      assert records == records[..n] + [records[n]];
      IdsSnoc(records[..n], records[n]);
    }
  }

  /** Upserting never removes an entry, and an entry whose id no record carries keeps its place and value. */
  lemma {:induction false} UpsertAllKeeps(ts: seq<IndexedTrack>, records: seq<IndexedTrack>)
    ensures |UpsertAll(ts, records)| >= |ts|
    ensures forall i :: 0 <= i < |ts| && ts[i].id !in Ids(records) ==> UpsertAll(ts, records)[i] == ts[i]
  {
    if records != [] {
      var n := |records| - 1;
      var prev := UpsertAll(ts, records[..n]);
      UpsertAllKeeps(ts, records[..n]);
      UpsertProperties(prev, records[n]);
      assert records == records[..n] + [records[n]];
      IdsSnoc(records[..n], records[n]);
    }
  }

  /** Upserting records brings in nothing but the records. */
  lemma {:induction false} UpsertAllMembers(ts: seq<IndexedTrack>, records: seq<IndexedTrack>)
    ensures forall x :: x in UpsertAll(ts, records) ==> x in ts || x in records
  {
    if records != [] {
      var n := |records| - 1;
      UpsertAllMembers(ts, records[..n]);
      UpsertMembers(UpsertAll(ts, records[..n]), records[n]);
      assert forall x :: x in records[..n] ==> x in records;
    }
  }

  /** The last of `records` with id `id`, if any. */
  function LastWithId(records: seq<IndexedTrack>, id: string): (r: Option<IndexedTrack>)
    ensures r.Some? ==> r.value in records && r.value.id == id
    ensures r.None? <==> id !in Ids(records)
  {
    if records == [] then None
    else
      var n := |records| - 1;
      assert records == records[..n] + [records[n]];
      if records[n].id == id then Some(records[n]) else LastWithId(records[..n], id)
  }

  /**
   * Insert-or-replace keyed by id: after upserting `records` into a list with
   * unique ids, each record's id finds the last record with that id, and
   * every other id finds what it found before.
   */
  lemma {:induction false} LookupUpsertAll(ts: seq<IndexedTrack>, records: seq<IndexedTrack>, id: string)
    requires UniqueIds(ts)
    ensures Lookup(UpsertAll(ts, records), id) == if id in Ids(records) then LastWithId(records, id) else Lookup(ts, id)
  {
    if records != [] {
      var n := |records| - 1;
      assert records == records[..n] + [records[n]];
      LookupUpsertAll(ts, records[..n], id);
      UpsertAllUnique(ts, records[..n]);
      IdsSnoc(records[..n], records[n]);
      LookupUpsert(UpsertAll(ts, records[..n]), records[n], id);
    }
  }

  /** The entries whose id is not in `gone`, in order (`filter(t => t.id !== id)` for each id of `gone`). */
  function Without(ts: seq<IndexedTrack>, gone: set<string>): (r: seq<IndexedTrack>)
    ensures |r| <= |ts|
  {
    if ts == [] then []
    else
      var rest := Without(ts[..|ts| - 1], gone);
      var last := ts[|ts| - 1];
      if last.id in gone then rest else rest + [last]
  }

  /** An entry survives exactly when its id is not in `gone`. */
  lemma {:induction false} WithoutMembers(ts: seq<IndexedTrack>, gone: set<string>)
    ensures forall t :: t in Without(ts, gone) <==> t in ts && t.id !in gone
  {
    if ts != [] {
      var n := |ts| - 1;
      WithoutMembers(ts[..n], gone);
      assert ts == ts[..n] + [ts[n]];
    }
  }

  lemma {:induction false} WithoutNothing(ts: seq<IndexedTrack>)
    ensures Without(ts, {}) == ts
  {
    if ts != [] {
      WithoutNothing(ts[..|ts| - 1]);
      assert ts == ts[..|ts| - 1] + [ts[|ts| - 1]];
    }
  }

  lemma {:induction false} WithoutWithout(ts: seq<IndexedTrack>, a: set<string>, b: set<string>)
    ensures Without(Without(ts, a), b) == Without(ts, a + b)
  {
    if ts != [] {
      var n := |ts| - 1;
      WithoutWithout(ts[..n], a, b);
      var w := Without(ts[..n], a);
      if ts[n].id !in a {
        assert (w + [ts[n]])[..|w|] == w;
      }
    }
  }

  lemma {:induction false} WithoutUnique(ts: seq<IndexedTrack>, gone: set<string>)
    requires UniqueIds(ts)
    ensures UniqueIds(Without(ts, gone))
  {
    if ts != [] {
      var n := |ts| - 1;
      WithoutUnique(ts[..n], gone);
      WithoutMembers(ts[..n], gone);
      var w := Without(ts[..n], gone);
      if ts[n].id !in gone {
        forall i | 0 <= i < |w| ensures w[i].id != ts[n].id {
          assert w[i] in ts[..n];
        }
      }
    }
  }

  /** The rows not marked deleted, in order (`filter(t => !t.isDeleted)`). */
  function NotDeleted(ts: seq<IndexedTrack>): (r: seq<IndexedTrack>)
    ensures |r| <= |ts|
  {
    if ts == [] then []
    else
      var rest := NotDeleted(ts[..|ts| - 1]);
      var last := ts[|ts| - 1];
      if last.isDeleted then rest else rest + [last]
  }

  /** A row survives exactly when it is not marked deleted. */
  lemma {:induction false} NotDeletedMembers(ts: seq<IndexedTrack>)
    ensures forall t :: t in NotDeleted(ts) <==> t in ts && !t.isDeleted
  {
    if ts != [] {
      var n := |ts| - 1;
      NotDeletedMembers(ts[..n]);
      assert ts == ts[..n] + [ts[n]];
    }
  }

  lemma {:induction false} NotDeletedUnique(ts: seq<IndexedTrack>)
    requires UniqueIds(ts)
    ensures UniqueIds(NotDeleted(ts))
  {
    if ts != [] {
      var n := |ts| - 1;
      NotDeletedUnique(ts[..n]);
      NotDeletedMembers(ts[..n]);
      var w := NotDeleted(ts[..n]);
      if !ts[n].isDeleted {
        forall i | 0 <= i < |w| ensures w[i].id != ts[n].id {
          assert w[i] in ts[..n];
        }
      }
    }
  }

  /**
   * `markTrackDeleted`: every row keeps its place and everything but its
   * deletion flag, and a row is deleted afterwards exactly when it was
   * before or it has that id.
   */
  function MarkDeleted(ts: seq<IndexedTrack>, id: string): (r: seq<IndexedTrack>)
    ensures |r| == |ts|
    ensures forall i :: 0 <= i < |ts| ==> r[i].(isDeleted := false) == ts[i].(isDeleted := false)
    ensures forall i :: 0 <= i < |ts| ==> (r[i].isDeleted <==> ts[i].isDeleted || ts[i].id == id)
  {
    seq(|ts|, i requires 0 <= i < |ts| => if ts[i].id == id then ts[i].(isDeleted := true) else ts[i])
  }

  // ---------------------------------------------------------------------
  // Many assets
  // ---------------------------------------------------------------------

  /**
   * Processing one asset given the artwork files so far: `processTrack` with
   * the run's stored rows (looked up by the asset's id) and flag bound.
   */
  type Processor = (Asset, map<string, string>) -> Processed

  /** The processor a run uses: each asset against its stored row, if any. */
  function Indexing(existing: seq<IndexedTrack>, force: bool, dev: Device, now: int): Processor {
    (a: Asset, files: map<string, string>) => ProcessTrack(a, Lookup(existing, a.id), force, dev, files, now)
  }

  /**
   * What the indexer holds while a run goes on: the artwork files, `$tracks`,
   * the track table, and the records the run produced so far.
   */
  datatype Holdings = Holdings(files: map<string, string>, tracks: seq<IndexedTrack>, table: seq<IndexedTrack>, records: seq<IndexedTrack>)

  /**
   * Processing the first `k` of `assets` one after the other, from `start`:
   * each asset sees the artwork files the previous ones left, and its record
   * (if any) is upserted into `$tracks` and into the table and added to the
   * records.
   */
  function ProcessFirst(assets: seq<Asset>, k: nat, process: Processor, start: Holdings): Holdings
    requires k <= |assets|
    decreases k, 0
  {
    if k == 0 then start else ProcessNext(assets, k - 1, process, start)
  }

  /** Visiting asset `k` once the first `k` are processed. */
  function ProcessNext(assets: seq<Asset>, k: nat, process: Processor, start: Holdings): Holdings
    requires k < |assets|
    decreases k, 1
  {
    var prev := ProcessFirst(assets, k, process, start);
    var p := process(assets[k], prev.files);
    if p.track.None? then prev.(files := p.files)
    else
      var t := p.track.value;
      Holdings(p.files, Upsert(prev.tracks, t), Upsert(prev.table, t), prev.records + [t])
  }

  /** The records the first `k` assets of a run produce. */
  function Records(assets: seq<Asset>, k: nat, process: Processor, start: Holdings): seq<IndexedTrack>
    requires k <= |assets|
  {
    ProcessFirst(assets, k, process, start).records
  }

  /** A run from no records has upserted exactly its records, in order, into `$tracks` and into the table. */
  lemma {:induction false} ProcessFirstUpserts(assets: seq<Asset>, k: nat, process: Processor, start: Holdings)
    requires k <= |assets| && start.records == []
    ensures var r := ProcessFirst(assets, k, process, start);
      r.tracks == UpsertAll(start.tracks, r.records) && r.table == UpsertAll(start.table, r.records)
  {
    if k > 0 {
      ProcessFirstUpserts(assets, k - 1, process, start);
      var prev := ProcessFirst(assets, k - 1, process, start);
      var p := process(assets[k - 1], prev.files);
      var r := ProcessFirst(assets, k, process, start);
      assert r == ProcessNext(assets, k - 1, process, start);
      if p.track.Some? {
        var t := p.track.value;
        assert r == Holdings(p.files, Upsert(prev.tracks, t), Upsert(prev.table, t), prev.records + [t]);
        UpsertAllStep(start.tracks, prev.records, t);
        UpsertAllStep(start.table, prev.records, t);
      } else {
        assert r == prev.(files := p.files);
      }
    }
  }

  /** A run keeps the table keyed by id. */
  lemma {:induction false} ProcessFirstUnique(assets: seq<Asset>, k: nat, process: Processor, start: Holdings)
    requires k <= |assets| && UniqueIds(start.table)
    ensures UniqueIds(ProcessFirst(assets, k, process, start).table)
  {
    if k > 0 {
      ProcessFirstUnique(assets, k - 1, process, start);
      var prev := ProcessFirst(assets, k - 1, process, start);
      var p := process(assets[k - 1], prev.files);
      if p.track.Some? {
        UpsertUnique(prev.table, p.track.value);
      }
    }
  }

  /** The ids of the first `k` assets. */
  function AssetIds(assets: seq<Asset>, k: nat): set<string>
    requires k <= |assets|
  {
    set i | 0 <= i < k :: assets[i].id
  }

  /**
   * A processor that only produces a record for the asset it is given, and
   * always produces one unless the asset is among `unreadable`.
   */
  ghost predicate Faithful(process: Processor, unreadable: set<string>) {
    forall a: Asset, files: map<string, string> {:trigger process(a, files)} ::
      && (process(a, files).track.Some? ==> process(a, files).track.value.id == a.id)
      && (a.id !in unreadable ==> process(a, files).track.Some?)
  }

  /** The indexer's processor is faithful: every readable asset gets a record with its own id. */
  lemma IndexingFaithful(existing: seq<IndexedTrack>, force: bool, dev: Device, now: int)
    ensures Faithful(Indexing(existing, force, dev, now), dev.unreadable)
  {
    var process := Indexing(existing, force, dev, now);
    forall a: Asset, files: map<string, string>
      ensures process(a, files).track.Some? ==> process(a, files).track.value.id == a.id
      ensures a.id !in dev.unreadable ==> process(a, files).track.Some?
    {
      var p := ProcessTrack(a, Lookup(existing, a.id), force, dev, files, now);
      assert process(a, files) == p;
      if a.id !in dev.unreadable {
        var hash := FileHash(a.uri, a.modificationTime, a.duration);
        assert p.track.Some?;
      }
    }
  }

  /** One more asset adds at most its own record, and adds it when its record can be built. */
  lemma ProcessFirstLast(assets: seq<Asset>, k: nat, process: Processor, unreadable: set<string>, start: Holdings)
    requires 0 < k <= |assets| && Faithful(process, unreadable)
    ensures var prev := ProcessFirst(assets, k - 1, process, start).records;
      var recs := ProcessFirst(assets, k, process, start).records;
      && (recs == prev || exists t :: recs == prev + [t] && t.id == assets[k - 1].id)
      && (assets[k - 1].id !in unreadable ==> recs != prev)
  {
    var prev := ProcessFirst(assets, k - 1, process, start);
    var p := process(assets[k - 1], prev.files);
    if assets[k - 1].id !in unreadable {
      assert p.track.Some?;
      assert |prev.records + [p.track.value]| != |prev.records|;
    }
  }

  /** Every record a run adds belongs to one of its assets, and it adds at most one record per asset. */
  lemma {:induction false} ProcessFirstIdsWithin(assets: seq<Asset>, k: nat, process: Processor, unreadable: set<string>, start: Holdings)
    requires k <= |assets| && Faithful(process, unreadable)
    ensures var recs := ProcessFirst(assets, k, process, start).records;
      Ids(recs) <= Ids(start.records) + AssetIds(assets, k) && |recs| <= |start.records| + k
  {
    if k > 0 {
      ProcessFirstIdsWithin(assets, k - 1, process, unreadable, start);
      ProcessFirstLast(assets, k, process, unreadable, start);
      var prev := ProcessFirst(assets, k - 1, process, start).records;
      var recs := ProcessFirst(assets, k, process, start).records;
      assert AssetIds(assets, k) == AssetIds(assets, k - 1) + {assets[k - 1].id};
      if recs != prev {
        var t :| recs == prev + [t] && t.id == assets[k - 1].id;
        IdsSnoc(prev, t);
      }
    }
  }

  /** Every asset of a run whose record can be built has one. */
  lemma {:induction false} ProcessFirstCovers(assets: seq<Asset>, k: nat, process: Processor, unreadable: set<string>, start: Holdings)
    requires k <= |assets| && Faithful(process, unreadable)
    ensures var recs := ProcessFirst(assets, k, process, start).records;
      forall i :: 0 <= i < k && assets[i].id !in unreadable ==> assets[i].id in Ids(recs)
  {
    if k > 0 {
      ProcessFirstCovers(assets, k - 1, process, unreadable, start);
      ProcessFirstLast(assets, k, process, unreadable, start);
      var prev := ProcessFirst(assets, k - 1, process, start).records;
      var recs := ProcessFirst(assets, k, process, start).records;
      if recs != prev {
        var t :| recs == prev + [t] && t.id == assets[k - 1].id;
        IdsSnoc(prev, t);
      }
    }
  }

  /** A processor that never produces a deleted record. */
  ghost predicate Live(process: Processor) {
    forall a: Asset, files: map<string, string> {:trigger process(a, files)} ::
      process(a, files).track.Some? ==> !process(a, files).track.value.isDeleted
  }

  /** Against stored rows none of which is deleted, the indexer's processor produces no deleted record. */
  lemma IndexingLive(existing: seq<IndexedTrack>, force: bool, dev: Device, now: int)
    requires forall t :: t in existing ==> !t.isDeleted
    ensures Live(Indexing(existing, force, dev, now))
  {
    var process := Indexing(existing, force, dev, now);
    forall a: Asset, files: map<string, string>
      ensures process(a, files).track.Some? ==> !process(a, files).track.value.isDeleted
    {
      LookupFinds(existing, a.id);
      assert process(a, files) == ProcessTrack(a, Lookup(existing, a.id), force, dev, files, now);
    }
  }

  /** A live processor run from no records produces no deleted record. */
  lemma {:induction false} ProcessFirstLive(assets: seq<Asset>, k: nat, process: Processor, start: Holdings)
    requires k <= |assets| && start.records == [] && Live(process)
    ensures forall t :: t in ProcessFirst(assets, k, process, start).records ==> !t.isDeleted
  {
    if k > 0 {
      ProcessFirstLive(assets, k - 1, process, start);
      var prev := ProcessFirst(assets, k - 1, process, start);
      var p := process(assets[k - 1], prev.files);
      if p.track.Some? {
        assert ProcessFirst(assets, k, process, start).records == prev.records + [p.track.value];
      }
    }
  }

  // ---------------------------------------------------------------------
  // Enumeration
  // ---------------------------------------------------------------------

  /** How many fetches a scan that is not stopped attempts: up to the first page without a next one, or one past the last page. */
  function ScanEnd(pages: seq<Page>): (r: nat)
    ensures 1 <= r <= |pages| + 1
  {
    if pages == [] || !pages[0].hasNextPage then 1 else 1 + ScanEnd(pages[1..])
  }

  lemma {:induction false} ScanEndAfter(pages: seq<Page>, k: nat)
    requires k <= |pages|
    requires forall j :: 0 <= j < k ==> pages[j].hasNextPage
    ensures ScanEnd(pages) == k + ScanEnd(pages[k..])
  {
    if k > 0 {
      assert pages[1..][k - 1..] == pages[k..];
      ScanEndAfter(pages[1..], k - 1);
    }
  }

  /** While every page fetched so far announced a next one, the scan goes on past them. */
  lemma ScanGoesOn(pages: seq<Page>, k: nat)
    requires k <= |pages|
    requires forall j :: 0 <= j < k ==> pages[j].hasNextPage
    ensures ScanEnd(pages) > k
  {
    ScanEndAfter(pages, k);
  }

  /** The first page without a next one ends the scan. */
  lemma ScanEndsAt(pages: seq<Page>, k: nat)
    requires 0 < k <= |pages| && !pages[k - 1].hasNextPage
    requires forall j :: 0 <= j < k - 1 ==> pages[j].hasNextPage
    ensures ScanEnd(pages) == k
  {
    ScanEndAfter(pages, k - 1);
  }

  /** How many pages a scan that is not stopped fetches successfully. */
  function Fetched(pages: seq<Page>): nat {
    if ScanEnd(pages) <= |pages| then ScanEnd(pages) else |pages|
  }

  /** The assets of the first `k` pages, in order. */
  function Concat(pages: seq<Page>): seq<Asset> {
    if pages == [] then [] else Concat(pages[..|pages| - 1]) + pages[|pages| - 1].assets
  }

  /** How a stop request meets a run: not at all, while page `pagesFetched` is awaited, or just before asset `index`. */
  datatype Cancellation = NotStopped | StopDuringScan(pagesFetched: nat) | StopBeforeAsset(index: nat)

  /** The stop lands during the scan: at a checkpoint the scan reaches. */
  predicate ScanStopped(pages: seq<Page>, cancel: Cancellation) {
    cancel.StopDuringScan? && cancel.pagesFetched <= Fetched(pages)
  }

  /** Every page announces a next one, so the scan asks for a page that is not there and throws. */
  predicate ScanFails(pages: seq<Page>, cancel: Cancellation) {
    ScanEnd(pages) > |pages| && !ScanStopped(pages, cancel)
  }

  /** The assets an unstopped, successful scan collects. */
  function ScannedAssets(pages: seq<Page>): seq<Asset> {
    Concat(pages[..Fetched(pages)])
  }

  /** How many assets a run processes before a stop that lands in the processing phase. */
  function ProcessedCount(cancel: Cancellation, total: nat): (r: nat)
    ensures r <= total
  {
    if cancel.StopBeforeAsset? && cancel.index <= total then cancel.index else total
  }

  /** The stop lands in the processing phase. */
  predicate ProcessingStopped(cancel: Cancellation, total: nat) {
    cancel.StopBeforeAsset? && cancel.index <= total
  }

  // ---------------------------------------------------------------------
  // Indexer state
  // ---------------------------------------------------------------------

  datatype Phase = Idle | Scanning | Processing | Cleanup | Complete

  datatype IndexerState = IndexerState(isIndexing: bool, progress: real, currentFile: string, totalFiles: nat, processedFiles: nat, phase: Phase)

  const InitialState := IndexerState(false, 0.0, "", 0, 0, Idle)

  /** A `Partial<IndexerState>`: the fields an update sets. */
  datatype StateUpdate = StateUpdate(
    isIndexing: Option<bool>, progress: Option<real>, currentFile: Option<string>,
    totalFiles: Option<nat>, processedFiles: Option<nat>, phase: Option<Phase>)

  const NoChange := StateUpdate(None, None, None, None, None, None)

  /** `{ ...state, ...updates }`. */
  function Apply(s: IndexerState, u: StateUpdate): IndexerState {
    IndexerState(
      u.isIndexing.GetOr(s.isIndexing), u.progress.GetOr(s.progress), u.currentFile.GetOr(s.currentFile),
      u.totalFiles.GetOr(s.totalFiles), u.processedFiles.GetOr(s.processedFiles), u.phase.GetOr(s.phase))
  }

  /** The fields of `u` overridden by those `v` sets. */
  function Overlay(u: StateUpdate, v: StateUpdate): StateUpdate {
    StateUpdate(
      if v.isIndexing.Some? then v.isIndexing else u.isIndexing,
      if v.progress.Some? then v.progress else u.progress,
      if v.currentFile.Some? then v.currentFile else u.currentFile,
      if v.totalFiles.Some? then v.totalFiles else u.totalFiles,
      if v.processedFiles.Some? then v.processedFiles else u.processedFiles,
      if v.phase.Some? then v.phase else u.phase)
  }

  /** Two updates in turn are one update with the later fields winning; an empty update changes nothing. */
  lemma ApplyOverlay(s: IndexerState, u: StateUpdate, v: StateUpdate)
    ensures Apply(Apply(s, u), v) == Apply(s, Overlay(u, v))
    ensures Apply(s, NoChange) == s
    ensures Apply(Apply(s, u), u) == Apply(s, u)
  {
  }

  /** What a run sets first: indexing, scanning, everything counted from zero. */
  const StartUpdate := StateUpdate(Some(true), Some(0.0), Some(""), Some(0), Some(0), Some(Scanning))

  /** What the end of the scan sets: the count of assets found, and the processing phase. */
  function ProcessingUpdate(total: nat): StateUpdate {
    StateUpdate(None, None, None, Some(total), None, Some(Processing))
  }

  /** What the start of the cleanup sets. */
  const CleanupUpdate := StateUpdate(None, None, None, None, None, Some(Cleanup))

  /** What a stop and a failed run set: not indexing, idle. */
  const Halted := StateUpdate(Some(false), None, None, None, None, Some(Idle))

  /** What a finished run sets. */
  const Completed := StateUpdate(Some(false), Some(100.0), None, None, None, Some(Complete))

  /** The label of the asset being processed (`filename || 'Unknown'`). */
  function FileLabel(a: Asset): string {
    if a.filename != "" then a.filename else "Unknown"
  }

  /** `(processed / total) * 100`. */
  function Percent(processed: nat, total: nat): real
    requires total > 0
  {
    (processed as real / total as real) * 100.0
  }

  /** The state once one more asset was visited: it is the current file, it is counted, the progress is recomputed. */
  function Visit(s: IndexerState, a: Asset): (r: IndexerState)
    requires s.totalFiles > 0
  {
    s.(currentFile := FileLabel(a), processedFiles := s.processedFiles + 1, progress := Percent(s.processedFiles + 1, s.totalFiles))
  }

  /** `processBatch` reports the file first and the counts afterwards; together they are one visit. */
  lemma VisitInTwoUpdates(s: IndexerState, a: Asset)
    requires s.totalFiles > 0
    ensures var u := StateUpdate(None, None, Some(FileLabel(a)), None, None, None);
      var v := StateUpdate(None, Some(Percent(s.processedFiles + 1, s.totalFiles)), None, None, Some(s.processedFiles + 1), None);
      Apply(Apply(s, u), v) == Visit(s, a)
  {
  }

  /**
   * The state after the first `k` assets of a batch were visited: each one
   * counted, the progress recomputed, the last one reported as current.
   */
  function AfterVisits(s: IndexerState, batch: seq<Asset>, k: nat): (r: IndexerState)
    requires k <= |batch| && (k > 0 ==> s.totalFiles > 0)
    ensures r.processedFiles == s.processedFiles + k && r.totalFiles == s.totalFiles
    ensures r.isIndexing == s.isIndexing && r.phase == s.phase
  {
    if k == 0 then s
    else s.(processedFiles := s.processedFiles + k, progress := Percent(s.processedFiles + k, s.totalFiles), currentFile := FileLabel(batch[k - 1]))
  }

  /** Visiting one more asset counts it, recomputes the progress and reports it as current. */
  lemma AfterVisitsStep(s: IndexerState, batch: seq<Asset>, k: nat)
    requires k < |batch| && s.totalFiles > 0
    ensures AfterVisits(s, batch, k + 1) == Visit(AfterVisits(s, batch, k), batch[k])
  {
  }

  /** The rows `$tracks` starts from: the stored rows not deleted, unless the scan is forced or there are none. */
  function Seeded(tracks: seq<IndexedTrack>, table: seq<IndexedTrack>, force: bool): seq<IndexedTrack> {
    if !force && NotDeleted(table) != [] then NotDeleted(table) else tracks
  }

  /**
   * `markTrackDeleted` for every id that is not kept: every row keeps its
   * place and everything but its deletion flag, and a row is deleted
   * afterwards exactly when it was before or its id is not kept.
   */
  function MarkAbsent(table: seq<IndexedTrack>, keep: set<string>): (r: seq<IndexedTrack>)
    ensures |r| == |table|
    ensures forall i :: 0 <= i < |table| ==> r[i].(isDeleted := false) == table[i].(isDeleted := false)
    ensures forall i :: 0 <= i < |table| ==> (r[i].isDeleted <==> table[i].isDeleted || table[i].id !in keep)
  {
    seq(|table|, i requires 0 <= i < |table| => if table[i].id in keep then table[i] else table[i].(isDeleted := true))
  }

  /** The table once its first `n` rows were checked: those whose id is not kept are marked deleted. */
  function MarkAbsentBelow(table: seq<IndexedTrack>, keep: set<string>, n: nat): (r: seq<IndexedTrack>)
    ensures |r| == |table|
    ensures forall i :: 0 <= i < |table| ==> r[i].id == table[i].id
  {
    seq(|table|, i requires 0 <= i < |table| => if i < n && table[i].id !in keep then table[i].(isDeleted := true) else table[i])
  }

  /** The ids among the first `n` rows that are not kept. */
  function AbsentBelow(table: seq<IndexedTrack>, keep: set<string>, n: nat): set<string> {
    set i | 0 <= i < n && i < |table| && table[i].id !in keep :: table[i].id
  }

  /** Checking one more row marks it exactly when its id is not kept; ids are keyed, so no other row is touched. */
  lemma MarkAbsentStep(table: seq<IndexedTrack>, keep: set<string>, n: nat)
    requires UniqueIds(table) && n < |table|
    ensures table[n].id in keep ==> MarkAbsentBelow(table, keep, n + 1) == MarkAbsentBelow(table, keep, n)
    ensures table[n].id in keep ==> AbsentBelow(table, keep, n + 1) == AbsentBelow(table, keep, n)
    ensures table[n].id !in keep ==> MarkAbsentBelow(table, keep, n + 1) == MarkDeleted(MarkAbsentBelow(table, keep, n), table[n].id)
    ensures table[n].id !in keep ==> AbsentBelow(table, keep, n + 1) == AbsentBelow(table, keep, n) + {table[n].id}
  {
    var id := table[n].id;
    if id !in keep {
      var m := MarkDeleted(MarkAbsentBelow(table, keep, n), id);
      forall i | 0 <= i < |table| ensures MarkAbsentBelow(table, keep, n + 1)[i] == m[i] {
        if i != n {
          assert table[i].id != id;
        }
      }
    }
  }

  /** Checking every row marks exactly what `MarkAbsent` marks; checking none changes nothing. */
  lemma MarkAbsentDone(table: seq<IndexedTrack>, keep: set<string>)
    ensures MarkAbsentBelow(table, keep, 0) == table && AbsentBelow(table, keep, 0) == {}
    ensures MarkAbsentBelow(table, keep, |table|) == MarkAbsent(table, keep)
    ensures AbsentBelow(table, keep, |table|) == Ids(table) - keep
    ensures UniqueIds(table) ==> UniqueIds(MarkAbsent(table, keep))
  {
    var m := MarkAbsent(table, keep);
    assert forall i :: 0 <= i < |table| ==> m[i].id == table[i].id;
  }

  /** The table after the cleanup phase: absent ids marked, then every deleted row dropped. */
  function Reconciled(table: seq<IndexedTrack>, keep: set<string>): seq<IndexedTrack> {
    NotDeleted(MarkAbsent(table, keep))
  }

  /** After the cleanup a row is kept exactly when it was stored, not deleted, and its id was enumerated. */
  lemma ReconciledRows(table: seq<IndexedTrack>, keep: set<string>, t: IndexedTrack)
    ensures t in Reconciled(table, keep) <==> t in table && t.id in keep && !t.isDeleted
  {
    var m := MarkAbsent(table, keep);
    NotDeletedMembers(m);
    if t in table && t.id in keep && !t.isDeleted {
      var i :| 0 <= i < |table| && table[i] == t;
      assert m[i] == t;
    }
    if t in m && !t.isDeleted {
      var i :| 0 <= i < |m| && m[i] == t;
      assert table[i] == t;
    }
  }

  // ---------------------------------------------------------------------
  // The indexer
  // ---------------------------------------------------------------------

  /** The cleanup keeps a table keyed by id, and leaves only live rows of kept ids. */
  lemma ReconciledKeyed(table: seq<IndexedTrack>, keep: set<string>)
    requires UniqueIds(table)
    ensures UniqueIds(Reconciled(table, keep))
    ensures forall t :: t in Reconciled(table, keep) ==> !t.isDeleted && t.id in keep
  {
    NotDeletedUnique(MarkAbsent(table, keep));
    forall t | t in Reconciled(table, keep)
      ensures !t.isDeleted && t.id in keep
    {
      ReconciledRows(table, keep, t);
    }
  }

  /** In a table with no deleted row, the cleanup keeps a row for every kept id present. */
  lemma ReconciledCovers(table: seq<IndexedTrack>, keep: set<string>, id: string)
    requires forall t :: t in table ==> !t.isDeleted
    requires id in keep && id in Ids(table)
    ensures id in Ids(Reconciled(table, keep))
  {
    var j :| 0 <= j < |table| && table[j].id == id;
    ReconciledRows(table, keep, table[j]);
    var final := Reconciled(table, keep);
    var m :| 0 <= m < |final| && final[m] == table[j];
  }

  /**
   * After a run over all of `all`, from stored rows keyed by id none of which
   * is deleted, the table is keyed by id, holds no deleted row, and holds a
   * row for every asset whose record can be built.
   */
  lemma RunTable(all: seq<Asset>, force: bool, dev: Device, now: int, start: Holdings)
    requires start.records == [] && UniqueIds(start.table)
    requires forall t :: t in start.table ==> !t.isDeleted
    ensures var table := ProcessFirst(all, |all|, Indexing(start.table, force, dev, now), start).table;
      && UniqueIds(table)
      && (forall t :: t in table ==> !t.isDeleted)
      && (forall i :: 0 <= i < |all| && all[i].id !in dev.unreadable ==> all[i].id in Ids(table))
  {
    var process := Indexing(start.table, force, dev, now);
    var r := ProcessFirst(all, |all|, process, start);
    ProcessFirstUpserts(all, |all|, process, start);
    ProcessFirstUnique(all, |all|, process, start);
    IndexingFaithful(start.table, force, dev, now);
    IndexingLive(start.table, force, dev, now);
    ProcessFirstCovers(all, |all|, process, dev.unreadable, start);
    ProcessFirstLive(all, |all|, process, start);
    UpsertAllIds(start.table, r.records);
    UpsertAllMembers(start.table, r.records);
  }

  /**
   * A completed run over the assets `all`, from stored rows keyed by id none
   * of which is deleted, leaves the table keyed by id, holding no deleted row
   * and no row of an asset that was not enumerated, and holding a row for
   * every asset whose record can be built.
   */
  lemma CompletedRun(all: seq<Asset>, force: bool, dev: Device, now: int, start: Holdings)
    requires start.records == [] && UniqueIds(start.table)
    requires forall t :: t in start.table ==> !t.isDeleted
    ensures var r := ProcessFirst(all, |all|, Indexing(start.table, force, dev, now), start);
      var final := Reconciled(r.table, AssetIds(all, |all|));
      && UniqueIds(final)
      && (forall t :: t in final ==> !t.isDeleted && t.id in AssetIds(all, |all|))
      && (forall i :: 0 <= i < |all| && all[i].id !in dev.unreadable ==> all[i].id in Ids(final))
  {
    var table := ProcessFirst(all, |all|, Indexing(start.table, force, dev, now), start).table;
    var keep := AssetIds(all, |all|);
    RunTable(all, force, dev, now, start);
    ReconciledKeyed(table, keep);
    forall i | 0 <= i < |all| && all[i].id !in dev.unreadable
      ensures all[i].id in Ids(Reconciled(table, keep))
    {
      ReconciledCovers(table, keep, all[i].id);
    }
  }

  /** What the indexer holds: its state, `$tracks`, the table and the artwork files. */
  datatype Snapshot = Snapshot(state: IndexerState, tracks: seq<IndexedTrack>, table: seq<IndexedTrack>, artwork: map<string, string>)

  /**
   * The processing and cleanup phases of a run over the enumerated assets
   * `all`, from `s`: the assets a stop lets through are processed against
   * the rows stored before processing; a stop in this phase ends the run
   * there; otherwise the table is reconciled with `all` and the run completes.
   */
  function AfterScan(s: Snapshot, all: seq<Asset>, force: bool, dev: Device, cancel: Cancellation, now: int): Snapshot {
    var keep := AssetIds(all, |all|);
    var n := ProcessedCount(cancel, |all|);
    var r := ProcessFirst(all, n, Indexing(s.table, force, dev, now), Holdings(s.artwork, s.tracks, s.table, []));
    var counted := AfterVisits(Apply(s.state, ProcessingUpdate(|all|)), all, n);
    if ProcessingStopped(cancel, |all|) then Snapshot(Apply(counted, Halted), r.tracks, r.table, r.files)
    else Snapshot(Apply(Apply(counted, CleanupUpdate), Completed), Without(r.tracks, Ids(r.table) - keep), Reconciled(r.table, keep), r.files)
  }

  /**
   * The body of a run once it has started and holds the permission: seed
   * `$tracks` unless the scan is forced, scan, and end idle when the scan
   * fails or is stopped, or go on over the assets it found.
   */
  function Attempt(s: Snapshot, force: bool, dev: Device, cancel: Cancellation, now: int): Snapshot {
    var seeded := s.(tracks := Seeded(s.tracks, s.table, force));
    if ScanFails(dev.pages, cancel) || ScanStopped(dev.pages, cancel) then seeded.(state := Apply(seeded.state, Halted))
    else AfterScan(seeded, ScannedAssets(dev.pages), force, dev, cancel, now)
  }

  /**
   * A whole call of `startIndexing` from `s`: nothing when a run is in
   * progress; otherwise the run starts, ends idle without the permission,
   * and otherwise goes on as `Attempt` says.
   */
  function IndexingRun(s: Snapshot, force: bool, dev: Device, cancel: Cancellation, now: int): Snapshot {
    if s.state.isIndexing then s
    else
      var started := s.(state := Apply(s.state, StartUpdate));
      if !dev.permissionGranted then started.(state := Apply(started.state, Halted))
      else Attempt(started, force, dev, cancel, now)
  }

  /**
   * Every call that starts a run leaves `isIndexing` false, and a call made
   * while a run is in progress changes nothing. The run completes exactly
   * when it holds the permission, the scan neither fails nor is stopped, and
   * no stop lands while processing; otherwise it ends idle.
   */
  lemma RunEnds(s: Snapshot, force: bool, dev: Device, cancel: Cancellation, now: int)
    ensures var r := IndexingRun(s, force, dev, cancel, now);
      && (s.state.isIndexing ==> r == s)
      && (!s.state.isIndexing ==> !r.state.isIndexing)
      && (!s.state.isIndexing ==>
           var completes := dev.permissionGranted && !ScanFails(dev.pages, cancel) && !ScanStopped(dev.pages, cancel)
             && !ProcessingStopped(cancel, |ScannedAssets(dev.pages)|);
           r.state.phase == (if completes then Complete else Idle))
  {
  }

  /** A run that ends before processing leaves the table and the artwork files as they were. */
  lemma RunEndsBeforeProcessing(s: Snapshot, force: bool, dev: Device, cancel: Cancellation, now: int)
    requires !dev.permissionGranted || ScanFails(dev.pages, cancel) || ScanStopped(dev.pages, cancel)
    ensures var r := IndexingRun(s, force, dev, cancel, now);
      r.table == s.table && r.artwork == s.artwork
  {
  }

  /**
   * A run stopped while processing keeps what it did: every asset it reached
   * whose record can be built has a row, and the table stays keyed by id.
   */
  lemma StoppedRunKeepsProgress(s: Snapshot, force: bool, dev: Device, cancel: Cancellation, now: int)
    requires !s.state.isIndexing && dev.permissionGranted && !ScanFails(dev.pages, cancel) && !ScanStopped(dev.pages, cancel)
    requires ProcessingStopped(cancel, |ScannedAssets(dev.pages)|)
    requires UniqueIds(s.table)
    ensures var r := IndexingRun(s, force, dev, cancel, now);
      var all := ScannedAssets(dev.pages);
      && UniqueIds(r.table)
      && forall i :: 0 <= i < cancel.index && all[i].id !in dev.unreadable ==> all[i].id in Ids(r.table)
  {
    var all := ScannedAssets(dev.pages);
    var n := cancel.index;
    var process := Indexing(s.table, force, dev, now);
    var start := Holdings(s.artwork, Seeded(s.tracks, s.table, force), s.table, []);
    var p := ProcessFirst(all, n, process, start);
    assert IndexingRun(s, force, dev, cancel, now).table == p.table;
    ProcessFirstUpserts(all, n, process, start);
    ProcessFirstUnique(all, n, process, start);
    IndexingFaithful(s.table, force, dev, now);
    ProcessFirstCovers(all, n, process, dev.unreadable, start);
    UpsertAllIds(s.table, p.records);
  }

  /**
   * A completed run, from stored rows keyed by id none of which is deleted,
   * reports every asset found as processed, and leaves the table keyed by id,
   * with no deleted row, no row of an asset that was not found, and a row for
   * every asset found whose record can be built.
   */
  lemma CompletedRunTable(s: Snapshot, force: bool, dev: Device, cancel: Cancellation, now: int)
    requires !s.state.isIndexing && dev.permissionGranted && !ScanFails(dev.pages, cancel) && !ScanStopped(dev.pages, cancel)
    requires !ProcessingStopped(cancel, |ScannedAssets(dev.pages)|)
    requires UniqueIds(s.table) && forall t :: t in s.table ==> !t.isDeleted
    ensures var r := IndexingRun(s, force, dev, cancel, now);
      var all := ScannedAssets(dev.pages);
      && r.state.processedFiles == r.state.totalFiles == |all| && r.state.progress == 100.0
      && UniqueIds(r.table)
      && (forall t :: t in r.table ==> !t.isDeleted && t.id in AssetIds(all, |all|))
      && (forall i :: 0 <= i < |all| && all[i].id !in dev.unreadable ==> all[i].id in Ids(r.table))
  {
    var all := ScannedAssets(dev.pages);
    var start := Holdings(s.artwork, Seeded(s.tracks, s.table, force), s.table, []);
    var p := ProcessFirst(all, |all|, Indexing(s.table, force, dev, now), start);
    assert IndexingRun(s, force, dev, cancel, now).table == Reconciled(p.table, AssetIds(all, |all|));
    CompletedRun(all, force, dev, now, start);
  }

  // ---------------------------------------------------------------------
  // Re-indexing an unchanged device
  // ---------------------------------------------------------------------

  /** The fingerprint the indexer computes for an asset (its duration stands in for the size). */
  function AssetHash(a: Asset): string {
    FileHash(a.uri, a.modificationTime, a.duration)
  }

  /** No two assets share an id. */
  predicate DistinctAssetIds(all: seq<Asset>) {
    forall i, j :: 0 <= i < j < |all| ==> all[i].id != all[j].id
  }

  /** A processor whose records carry the id and the fingerprint of the asset they were made for. */
  ghost predicate Stamped(process: Processor) {
    forall a: Asset, files: map<string, string> {:trigger process(a, files)} ::
      process(a, files).track.Some? ==>
        process(a, files).track.value.id == a.id && process(a, files).track.value.fileHash == AssetHash(a)
  }

  /** A record the indexer yields, kept or rebuilt, carries the asset's current fingerprint. */
  lemma IndexingStamped(existing: seq<IndexedTrack>, force: bool, dev: Device, now: int)
    ensures Stamped(Indexing(existing, force, dev, now))
  {
    var process := Indexing(existing, force, dev, now);
    forall a: Asset, files: map<string, string>
      ensures process(a, files).track.Some? ==>
        process(a, files).track.value.id == a.id && process(a, files).track.value.fileHash == AssetHash(a)
    {
      assert process(a, files) == ProcessTrack(a, Lookup(existing, a.id), force, dev, files, now);
    }
  }

  /** When asset ids are distinct, every record of a run carries the fingerprint of the asset with its id. */
  lemma {:induction false} ProcessFirstStamped(assets: seq<Asset>, k: nat, process: Processor, start: Holdings)
    requires k <= |assets| && start.records == [] && Stamped(process) && DistinctAssetIds(assets)
    ensures forall t, j :: t in ProcessFirst(assets, k, process, start).records && 0 <= j < |assets| && t.id == assets[j].id ==>
      t.fileHash == AssetHash(assets[j])
  {
    if k > 0 {
      ProcessFirstStamped(assets, k - 1, process, start);
      var prev := ProcessFirst(assets, k - 1, process, start);
      var p := process(assets[k - 1], prev.files);
      if p.track.Some? {
        assert ProcessFirst(assets, k, process, start).records == prev.records + [p.track.value];
      }
    }
  }

  /** In a keyed list, looking up a row's id finds that row. */
  lemma LookupUnique(ts: seq<IndexedTrack>, t: IndexedTrack)
    requires UniqueIds(ts) && t in ts
    ensures Lookup(ts, t.id) == Some(t)
  {
    var j :| 0 <= j < |ts| && ts[j] == t;
    IndexOfIdFirst(ts, t.id);
  }

  /** Upserting a row a keyed list already holds changes nothing. */
  lemma UpsertPresent(ts: seq<IndexedTrack>, t: IndexedTrack)
    requires UniqueIds(ts) && t in ts
    ensures Upsert(ts, t) == ts
  {
    LookupUnique(ts, t);
  }

  lemma {:induction false} UpsertAllPresent(ts: seq<IndexedTrack>, records: seq<IndexedTrack>)
    requires UniqueIds(ts) && forall t :: t in records ==> t in ts
    ensures UpsertAll(ts, records) == ts
  {
    if records != [] {
      var n := |records| - 1;
      assert forall t :: t in records[..n] ==> t in records;
      UpsertAllPresent(ts, records[..n]);
      UpsertPresent(ts, records[n]);
    }
  }

  /** Keeping the rows not marked deleted keeps every row of a live list. */
  lemma {:induction false} NotDeletedLive(ts: seq<IndexedTrack>)
    requires forall t :: t in ts ==> !t.isDeleted
    ensures NotDeleted(ts) == ts
  {
    if ts != [] {
      var n := |ts| - 1;
      assert forall t :: t in ts[..n] ==> t in ts;
      NotDeletedLive(ts[..n]);
      assert ts == ts[..n] + [ts[n]];
    }
  }

  /** The cleanup leaves a live table whose ids were all enumerated as it is. */
  lemma ReconciledLive(table: seq<IndexedTrack>, keep: set<string>)
    requires forall t :: t in table ==> !t.isDeleted && t.id in keep
    ensures Reconciled(table, keep) == table
  {
    assert MarkAbsent(table, keep) == table;
    NotDeletedLive(table);
  }

  /**
   * On a live list, dropping the entries whose ids are gone is the cleanup
   * of the kept ids, when exactly the entries not kept are gone.
   */
  lemma {:induction false} WithoutIsReconciled(ts: seq<IndexedTrack>, gone: set<string>, keep: set<string>)
    requires forall t :: t in ts ==> !t.isDeleted && (t.id in gone <==> t.id !in keep)
    ensures Without(ts, gone) == Reconciled(ts, keep)
  {
    if ts != [] {
      var n := |ts| - 1;
      assert forall t :: t in ts[..n] ==> t in ts;
      WithoutIsReconciled(ts[..n], gone, keep);
      assert MarkAbsent(ts, keep) == MarkAbsent(ts[..n], keep) + [MarkAbsent(ts, keep)[n]];
      assert MarkAbsent(ts, keep)[..n] == MarkAbsent(ts[..n], keep);
    }
  }

  /**
   * A table a non-forced run over `all` leaves alone: keyed by id, live,
   * holding only rows of assets in `all`, and for every readable asset a row
   * with the asset's current fingerprint.
   */
  predicate Settled(table: seq<IndexedTrack>, all: seq<Asset>, dev: Device) {
    && UniqueIds(table)
    && (forall t :: t in table ==> !t.isDeleted && t.id in AssetIds(all, |all|))
    && (forall i :: 0 <= i < |all| && all[i].id !in dev.unreadable ==> Current(table, all[i]))
  }

  /** The table holds a row for the asset carrying the asset's current fingerprint. */
  predicate Current(table: seq<IndexedTrack>, a: Asset) {
    Lookup(table, a.id).Some? && Lookup(table, a.id).value.fileHash == AssetHash(a)
  }

  /**
   * Over a settled table a non-forced run reads nothing and writes nothing:
   * each asset with a current row (every readable one has one) is handed
   * that row back, any other yields `null`, the table and the artwork files
   * stay as they were, and every record upserted is a stored row.
   */
  lemma {:induction false} SettledRunKeeps(all: seq<Asset>, k: nat, dev: Device, now: int, start: Holdings)
    requires k <= |all| && start.records == [] && Settled(start.table, all, dev)
    ensures var r := ProcessFirst(all, k, Indexing(start.table, false, dev, now), start);
      && r.files == start.files && r.table == start.table
      && forall t :: t in r.records ==> t in start.table
  {
    if k > 0 {
      var process := Indexing(start.table, false, dev, now);
      SettledRunKeeps(all, k - 1, dev, now, start);
      var prev := ProcessFirst(all, k - 1, process, start);
      var a := all[k - 1];
      assert process(a, prev.files) == ProcessTrack(a, Lookup(start.table, a.id), false, dev, prev.files, now);
      if Current(start.table, a) {
        var row := Lookup(start.table, a.id).value;
        LookupFinds(start.table, a.id);
        ProcessTrackSkipsUnchanged(a, row, dev, prev.files, now);
        UpsertPresent(start.table, row);
        assert ProcessFirst(all, k, process, start).records == prev.records + [row];
      }
    }
  }

  /**
   * Over a settled table every asset with a current row, readable or not,
   * takes the unchanged branch: its stored row comes back and no file is
   * written. Every readable asset has one; an unreadable asset without one
   * yields `null`.
   */
  lemma SettledSkips(table: seq<IndexedTrack>, all: seq<Asset>, dev: Device, now: int)
    requires Settled(table, all, dev)
    ensures forall i :: 0 <= i < |all| && all[i].id !in dev.unreadable ==> Current(table, all[i])
    ensures forall i, files :: 0 <= i < |all| ==>
      ProcessTrack(all[i], Lookup(table, all[i].id), false, dev, files, now) ==
        if Current(table, all[i]) then Processed(Lookup(table, all[i].id), files) else Processed(None, files)
  {
    forall i, files | 0 <= i < |all|
      ensures ProcessTrack(all[i], Lookup(table, all[i].id), false, dev, files, now) ==
        if Current(table, all[i]) then Processed(Lookup(table, all[i].id), files) else Processed(None, files)
    {
      var existing := Lookup(table, all[i].id);
      if existing.Some? {
        LookupFinds(table, all[i].id);
      }
      if Current(table, all[i]) {
        ProcessTrackSkipsUnchanged(all[i], existing.value, dev, files, now);
      } else {
        ProcessTrackUnreadable(all[i], existing, false, dev, files, now);
      }
    }
  }

  /**
   * A completed run over assets with distinct ids, from stored rows keyed by
   * id none of which is deleted, leaves a settled table.
   */
  lemma CompletedRunSettled(s: Snapshot, force: bool, dev: Device, cancel: Cancellation, now: int)
    requires !s.state.isIndexing && dev.permissionGranted && !ScanFails(dev.pages, cancel) && !ScanStopped(dev.pages, cancel)
    requires !ProcessingStopped(cancel, |ScannedAssets(dev.pages)|)
    requires UniqueIds(s.table) && forall t :: t in s.table ==> !t.isDeleted
    requires DistinctAssetIds(ScannedAssets(dev.pages))
    ensures Settled(IndexingRun(s, force, dev, cancel, now).table, ScannedAssets(dev.pages), dev)
  {
    var all := ScannedAssets(dev.pages);
    var keep := AssetIds(all, |all|);
    var process := Indexing(s.table, force, dev, now);
    var start := Holdings(s.artwork, Seeded(s.tracks, s.table, force), s.table, []);
    var p := ProcessFirst(all, |all|, process, start);
    var final := IndexingRun(s, force, dev, cancel, now).table;
    assert final == Reconciled(p.table, keep);
    CompletedRunTable(s, force, dev, cancel, now);
    RunTable(all, force, dev, now, start);
    ProcessFirstUpserts(all, |all|, process, start);
    IndexingFaithful(s.table, force, dev, now);
    ProcessFirstCovers(all, |all|, process, dev.unreadable, start);
    IndexingStamped(s.table, force, dev, now);
    ProcessFirstStamped(all, |all|, process, start);
    forall i | 0 <= i < |all| && all[i].id !in dev.unreadable
      ensures Current(final, all[i])
    {
      var id := all[i].id;
      LookupUpsertAll(s.table, p.records, id);
      var row := LastWithId(p.records, id).value;
      LookupFinds(p.table, id);
      ReconciledRows(p.table, keep, row);
      LookupUnique(final, row);
      assert Lookup(final, id).Some? && Lookup(final, id).value.fileHash == AssetHash(all[i]);
    }
  }

  /**
   * A non-forced run over a settled table, at any time, completes and leaves
   * the table and the artwork files as they were; `$tracks` ends up holding
   * the stored rows (or stays as it was when nothing is stored).
   */
  lemma SettledRerun(s: Snapshot, dev: Device, now: int)
    requires !s.state.isIndexing && dev.permissionGranted && !ScanFails(dev.pages, NotStopped)
    requires Settled(s.table, ScannedAssets(dev.pages), dev)
    ensures var r := IndexingRun(s, false, dev, NotStopped, now);
      && r.table == s.table && r.artwork == s.artwork
      && r.tracks == (if s.table == [] then s.tracks else s.table)
  {
    var all := ScannedAssets(dev.pages);
    var keep := AssetIds(all, |all|);
    var start := Holdings(s.artwork, Seeded(s.tracks, s.table, false), s.table, []);
    var process := Indexing(s.table, false, dev, now);
    var p := ProcessFirst(all, |all|, process, start);
    var r := IndexingRun(s, false, dev, NotStopped, now);
    assert r.table == Reconciled(p.table, keep) && r.artwork == p.files;
    assert r.tracks == Without(p.tracks, Ids(p.table) - keep);
    SettledRunKeeps(all, |all|, dev, now, start);
    ProcessFirstUpserts(all, |all|, process, start);
    ReconciledLive(s.table, keep);
    assert Ids(s.table) - keep == {} by {
      forall id | id in Ids(s.table) ensures id in keep {
        var i :| 0 <= i < |s.table| && s.table[i].id == id;
        assert s.table[i] in s.table;
      }
    }
    WithoutNothing(p.tracks);
    if s.table != [] {
      NotDeletedLive(s.table);
      UpsertAllPresent(s.table, p.records);
    } else {
      assert p.records == [];
    }
  }

  /**
   * Idempotent re-indexing: after a completed run over assets with distinct
   * ids, a second, non-forced run on the unchanged device, at any later
   * time, keeps every stored row (fingerprint and scan time included) and
   * the artwork files, re-reads no asset, and reports the same state.
   * `$tracks` then holds the stored rows, and when the first run was not
   * forced and found rows stored, the second run changes nothing at all.
   */
  lemma ReindexUnchanged(s: Snapshot, force: bool, dev: Device, cancel: Cancellation, now: int, later: int)
    requires !s.state.isIndexing && dev.permissionGranted && !ScanFails(dev.pages, cancel) && !ScanStopped(dev.pages, cancel)
    requires !ProcessingStopped(cancel, |ScannedAssets(dev.pages)|)
    requires UniqueIds(s.table) && forall t :: t in s.table ==> !t.isDeleted
    requires DistinctAssetIds(ScannedAssets(dev.pages))
    ensures var first := IndexingRun(s, force, dev, cancel, now);
      var second := IndexingRun(first, false, dev, NotStopped, later);
      && second.table == first.table && second.artwork == first.artwork && second.state == first.state
      && second.tracks == (if first.table == [] then first.tracks else first.table)
      && (!force && s.table != [] ==> second == first)
    ensures var first := IndexingRun(s, force, dev, cancel, now);
      var all := ScannedAssets(dev.pages);
      forall i, files :: 0 <= i < |all| ==>
        ProcessTrack(all[i], Lookup(first.table, all[i].id), false, dev, files, later) ==
          if Current(first.table, all[i]) then Processed(Lookup(first.table, all[i].id), files) else Processed(None, files)
    ensures var first := IndexingRun(s, force, dev, cancel, now);
      var all := ScannedAssets(dev.pages);
      forall i :: 0 <= i < |all| && all[i].id !in dev.unreadable ==> Current(first.table, all[i])
  {
    var first := IndexingRun(s, force, dev, cancel, now);
    var all := ScannedAssets(dev.pages);
    CompletedRunSettled(s, force, dev, cancel, now);
    RunEnds(s, force, dev, cancel, now);
    SettledRerun(first, dev, later);
    SettledSkips(first.table, all, dev, later);
    assert Apply(first.state, StartUpdate) == Apply(s.state, StartUpdate);
    if !force && s.table != [] {
      FirstRunTracks(s, dev, cancel, now);
    }
  }

  /** A non-forced completed run from a non-empty live table leaves `$tracks` equal to the table. */
  lemma FirstRunTracks(s: Snapshot, dev: Device, cancel: Cancellation, now: int)
    requires !s.state.isIndexing && dev.permissionGranted && !ScanFails(dev.pages, cancel) && !ScanStopped(dev.pages, cancel)
    requires !ProcessingStopped(cancel, |ScannedAssets(dev.pages)|)
    requires UniqueIds(s.table) && s.table != [] && forall t :: t in s.table ==> !t.isDeleted
    ensures var first := IndexingRun(s, false, dev, cancel, now);
      first.tracks == first.table
  {
    var all := ScannedAssets(dev.pages);
    var keep := AssetIds(all, |all|);
    NotDeletedLive(s.table);
    var start := Holdings(s.artwork, s.table, s.table, []);
    var process := Indexing(s.table, false, dev, now);
    var p := ProcessFirst(all, |all|, process, start);
    var first := IndexingRun(s, false, dev, cancel, now);
    assert first.tracks == Without(p.tracks, Ids(p.table) - keep) && first.table == Reconciled(p.table, keep);
    ProcessFirstUpserts(all, |all|, process, start);
    RunTable(all, false, dev, now, start);
    forall t | t in p.table ensures t.id in Ids(p.table) {
      var i :| 0 <= i < |p.table| && p.table[i] == t;
    }
    WithoutIsReconciled(p.table, Ids(p.table) - keep, keep);
  }

  /**
   * The module state the indexer reads and writes: `$indexerState`,
   * `$tracks`, the track table (rows in storage order, keyed by id), the
   * artwork cache directory, and the abort controller of the current run.
   */
  class Indexer {
    var state: IndexerState
    var tracks: seq<IndexedTrack>
    var table: seq<IndexedTrack>
    var artwork: map<string, string>
    /** `indexerAbortController !== null`. */
    var controllerActive: bool
    /** The controller's `signal.aborted`. */
    var abortRequested: bool

    /** The table is keyed by id. */
    ghost predicate Valid()
      reads this
    {
      UniqueIds(table)
    }

    constructor(rows: seq<IndexedTrack>, files: map<string, string>)
      requires UniqueIds(rows)
      ensures Valid()
      ensures state == InitialState && tracks == [] && table == rows && artwork == files
      ensures !controllerActive && !abortRequested
    {
      state := InitialState;
      tracks := [];
      table := rows;
      artwork := files;
      controllerActive := false;
      abortRequested := false;
    }

    /** `updateIndexerState`: the fields the update sets change, the others keep their values. */
    method UpdateIndexerState(u: StateUpdate)
      modifies this`state
      ensures state == Apply(old(state), u)
    {
      state := Apply(state, u);
    }

    /** `stopIndexing`: with a run in progress, abort it and report idle; otherwise nothing. */
    method StopIndexing()
      modifies this`state, this`abortRequested
      ensures old(controllerActive) ==> abortRequested && state == Apply(old(state), Halted)
      ensures !old(controllerActive) ==> abortRequested == old(abortRequested) && state == old(state)
    {
      if controllerActive {
        abortRequested := true;
        UpdateIndexerState(Halted);
      }
    }

    /**
     * An `await` of a run in progress: the stop request lands here exactly
     * when `cancel` names this point, and aborts the run.
     */
    method Checkpoint(cancel: Cancellation, here: Cancellation)
      requires controllerActive && !abortRequested
      modifies this`state, this`abortRequested
      ensures abortRequested <==> cancel == here
      ensures state == if cancel == here then Apply(old(state), Halted) else old(state)
    {
      if cancel == here {
        StopIndexing();
      }
    }

    /** `loadTracksFromCache`: `$tracks` becomes the stored rows that are not deleted, ids unique. */
    method LoadTracksFromCache()
      requires Valid()
      modifies this`tracks
      ensures tracks == NotDeleted(table)
      ensures UniqueIds(tracks) && forall t :: t in tracks <==> t in table && !t.isDeleted
    {
      NotDeletedUnique(table);
      NotDeletedMembers(table);
      tracks := NotDeleted(table);
    }

    /**
     * One asset of `processBatch`: report it as the current file, process it,
     * upsert its record (if any) into the table and `$tracks`, and count it.
     */
    method IndexAsset(asset: Asset, process: Processor) returns (produced: Option<IndexedTrack>)
      requires state.totalFiles > 0
      modifies this`state, this`tracks, this`table, this`artwork
      ensures var p := process(asset, old(artwork));
        && produced == p.track && artwork == p.files
        && tracks == (if p.track.Some? then Upsert(old(tracks), p.track.value) else old(tracks))
        && table == (if p.track.Some? then Upsert(old(table), p.track.value) else old(table))
      ensures state == Visit(old(state), asset)
    {
      VisitInTwoUpdates(state, asset);
      var processed, total := state.processedFiles + 1, state.totalFiles;
      UpdateIndexerState(StateUpdate(None, None, Some(FileLabel(asset)), None, None, None));
      var p := process(asset, artwork);
      artwork := p.files;
      produced := p.track;
      if p.track.Some? {
        var t := p.track.value;
        table := Upsert(table, t);
        tracks := Upsert(tracks, t);
      }
      UpdateIndexerState(StateUpdate(None, Some(Percent(processed, total)), None, None, Some(processed), None));
    }

    /** The artwork files, `$tracks` and the table are those the first `k` assets of the run leave. */
    ghost predicate Holds(all: seq<Asset>, k: nat, process: Processor, start: Holdings)
      requires k <= |all|
      reads this`artwork, this`tracks, this`table
    {
      var h := ProcessFirst(all, k, process, start);
      artwork == h.files && tracks == h.tracks && table == h.table
    }

    /**
     * Asset `k` of the run through `IndexAsset`, its record (if any) pushed
     * onto the batch's `results`: the run moves from its first `k` assets
     * processed to its first `k + 1`.
     */
    method VisitNext(all: seq<Asset>, k: nat, process: Processor, ghost start: Holdings, ghost state0: IndexerState,
                     ghost before: seq<IndexedTrack>, results: seq<IndexedTrack>)
      returns (results': seq<IndexedTrack>)
      requires k < |all| && state0.totalFiles > 0
      requires Holds(all, k, process, start) && Records(all, k, process, start) == before + results
      requires state == AfterVisits(state0, all, k)
      modifies this`state, this`tracks, this`table, this`artwork
      ensures Holds(all, k + 1, process, start) && Records(all, k + 1, process, start) == before + results'
      ensures state == AfterVisits(state0, all, k + 1)
    {
      AfterVisitsStep(state0, all, k);
      ghost var prev := ProcessFirst(all, k, process, start);
      ghost var p := process(all[k], prev.files);
      var produced := IndexAsset(all[k], process);
      results' := results;
      if produced.Some? {
        var t := produced.value;
        assert ProcessNext(all, k, process, start) == Holdings(p.files, Upsert(prev.tracks, t), Upsert(prev.table, t), prev.records + [t]);
        results' := results + [t];
        assert before + results' == before + results + [t];
      } else {
        assert ProcessNext(all, k, process, start) == prev.(files := p.files);
      }
      assert ProcessFirst(all, k + 1, process, start) == ProcessNext(all, k, process, start);
    }

    /**
     * `processBatch` on the slice `all[offset..end]` of a run whose first
     * `offset` assets are done: visits the slice in order until a stop lands;
     * each visited asset is processed, its record (if any) is upserted into
     * the table and into `$tracks` and returned, and the progress counts it
     * whether or not it produced a record.
     */
    method ProcessBatch(all: seq<Asset>, offset: nat, end: nat, process: Processor, cancel: Cancellation,
                        ghost start: Holdings, ghost state0: IndexerState)
      returns (results: seq<IndexedTrack>)
      requires offset <= end <= |all| && controllerActive && !abortRequested && state0.totalFiles > 0
      requires !(cancel.StopBeforeAsset? && cancel.index < offset)
      requires Holds(all, offset, process, start)
      requires state == AfterVisits(state0, all, offset)
      modifies this`state, this`tracks, this`table, this`artwork, this`abortRequested
      ensures controllerActive
      ensures var d := ProcessedCount(cancel, end);
        && offset <= d && abortRequested == (d < end)
        && Holds(all, d, process, start)
        && Records(all, d, process, start) == Records(all, offset, process, start) + results
        && state == if d < end then Apply(AfterVisits(state0, all, d), Halted) else AfterVisits(state0, all, d)
    {
      ghost var before := Records(all, offset, process, start);
      results := [];
      assert before + results == before;
      var i := offset;
      while i < end
        invariant offset <= i <= end && i <= ProcessedCount(cancel, end)
        invariant controllerActive && !abortRequested
        invariant Holds(all, i, process, start) && Records(all, i, process, start) == before + results
        invariant state == AfterVisits(state0, all, i)
      {
        Checkpoint(cancel, StopBeforeAsset(i));
        if abortRequested {
          break;
        }
        results := VisitNext(all, i, process, start, state0, before, results);
        i := i + 1;
      }
      assert ProcessedCount(cancel, end) == i;
    }

    /**
     * The paging loop of `startIndexing`: fetch pages while the last one
     * announced a next page and no stop has landed. Asking for a page past
     * the last one is the enumerator's error (`failed`).
     */
    method Enumerate(dev: Device, cancel: Cancellation) returns (all: seq<Asset>, failed: bool)
      requires controllerActive && !abortRequested
      modifies this`state, this`abortRequested
      ensures controllerActive
      ensures failed <==> ScanFails(dev.pages, cancel)
      ensures abortRequested <==> ScanStopped(dev.pages, cancel)
      ensures state == if abortRequested then Apply(old(state), Halted) else old(state)
      ensures !failed && !abortRequested ==> all == ScannedAssets(dev.pages)
    {
      var pages := dev.pages;
      all, failed := [], false;
      var hasMore := true;
      var fetched := 0;
      Checkpoint(cancel, StopDuringScan(0));
      while hasMore && !abortRequested
        invariant 0 <= fetched <= |pages| && controllerActive
        invariant all == Concat(pages[..fetched])
        invariant forall j :: 0 <= j < fetched - 1 ==> pages[j].hasNextPage
        invariant hasMore <==> fetched == 0 || pages[fetched - 1].hasNextPage
        invariant fetched <= Fetched(pages)
        invariant abortRequested <==> cancel.StopDuringScan? && cancel.pagesFetched <= fetched
        invariant state == if abortRequested then Apply(old(state), Halted) else old(state)
        decreases |pages| - fetched, hasMore
      {
        ScanGoesOn(pages, fetched);
        if fetched == |pages| {
          failed := true;
          return;
        }
        assert pages[..fetched + 1] == pages[..fetched] + [pages[fetched]];
        all := all + pages[fetched].assets;
        hasMore := pages[fetched].hasNextPage;
        fetched := fetched + 1;
        Checkpoint(cancel, StopDuringScan(fetched));
      }
      if !hasMore {
        ScanEndsAt(pages, fetched);
      }
    }

    /**
     * The batch loop of `startIndexing`: `all` in slices of `BatchSize`, each
     * handed to `processBatch` until a stop lands, then the check after the
     * loop. Every visited asset is processed against the rows `existing`
     * read before the loop.
     */
    method RunBatches(all: seq<Asset>, process: Processor, cancel: Cancellation)
      requires Valid() && controllerActive && !abortRequested
      requires state.totalFiles == |all| && state.processedFiles == 0
      modifies this`state, this`tracks, this`table, this`artwork, this`abortRequested
      ensures Valid() && controllerActive
      ensures abortRequested <==> ProcessingStopped(cancel, |all|)
      ensures var n := ProcessedCount(cancel, |all|);
        var r := ProcessFirst(all, n, process, Holdings(old(artwork), old(tracks), old(table), []));
        && artwork == r.files && tracks == r.tracks && table == r.table
        && state == if abortRequested then Apply(AfterVisits(old(state), all, n), Halted) else AfterVisits(old(state), all, n)
    {
      ghost var start, state0 := Holdings(artwork, tracks, table, []), state;
      ghost var d: nat := 0;
      var i := 0;
      while i < |all| && !abortRequested
        invariant d <= |all| && controllerActive && Holds(all, d, process, start)
        invariant !abortRequested ==> d == (if i <= |all| then i else |all|) && !(cancel.StopBeforeAsset? && cancel.index < d)
        invariant abortRequested ==> cancel == StopBeforeAsset(d) && d < |all|
        invariant state == if abortRequested then Apply(AfterVisits(state0, all, d), Halted) else AfterVisits(state0, all, d)
        decreases |all| - i
      {
        var j := if i + BatchSize <= |all| then i + BatchSize else |all|;
        var results := ProcessBatch(all, i, j, process, cancel, start, state0);
        d := ProcessedCount(cancel, j);
        i := i + BatchSize;
      }
      if !abortRequested {
        Checkpoint(cancel, StopBeforeAsset(|all|));
      }
      ProcessFirstUnique(all, d, process, start);
    }

    /**
     * The cleanup phase of `startIndexing`: every stored id not in `keep` is
     * marked deleted and dropped from `$tracks`, then the deleted rows are
     * removed from the table.
     */
    method Reconcile(keep: set<string>)
      requires Valid()
      modifies this`tracks, this`table
      ensures Valid()
      ensures table == Reconciled(old(table), keep)
      ensures tracks == Without(old(tracks), Ids(old(table)) - keep)
    {
      ghost var tracks0 := tracks;
      var rows := table;
      WithoutNothing(tracks);
      MarkAbsentDone(rows, keep);
      var i := 0;
      while i < |rows|
        invariant 0 <= i <= |rows| && UniqueIds(rows) && rows == old(table)
        invariant table == MarkAbsentBelow(rows, keep, i)
        invariant tracks == Without(tracks0, AbsentBelow(rows, keep, i))
      {
        MarkAbsentStep(rows, keep, i);
        var id := rows[i].id;
        if id !in keep {
          WithoutWithout(tracks0, AbsentBelow(rows, keep, i), {id});
          table := MarkDeleted(table, id);
          tracks := Without(tracks, {id});
        }
        i := i + 1;
      }
      NotDeletedUnique(table);
      table := NotDeleted(table);
    }


    /** What the indexer holds now. */
    function Holding(): Snapshot
      reads this
    {
      Snapshot(state, tracks, table, artwork)
    }

    /**
     * The processing and cleanup phases of `startIndexing`, once the scan
     * found `all`: count them, process them in batches against the rows
     * stored now, and unless a stop lands, reconcile and report completion.
     */
    method IndexScanned(all: seq<Asset>, force: bool, dev: Device, cancel: Cancellation, now: int)
      requires Valid() && controllerActive && !abortRequested && state.processedFiles == 0
      modifies this`state, this`tracks, this`table, this`artwork, this`abortRequested
      ensures Valid() && controllerActive
      ensures abortRequested <==> ProcessingStopped(cancel, |all|)
      ensures Holding() == AfterScan(old(Holding()), all, force, dev, cancel, now)
    {
      UpdateIndexerState(ProcessingUpdate(|all|));
      var existing := table;
      var keep := AssetIds(all, |all|);
      RunBatches(all, Indexing(existing, force, dev, now), cancel);
      if abortRequested {
        return;
      }
      UpdateIndexerState(CleanupUpdate);
      Reconcile(keep);
      UpdateIndexerState(Completed);
    }

    /**
     * The part of `startIndexing` after the permission is granted: seed
     * `$tracks` unless the scan is forced, enumerate the assets, and unless
     * the scan fails or is stopped, process and reconcile them.
     */
    method ScanAndIndex(force: bool, dev: Device, cancel: Cancellation, now: int)
      requires Valid() && controllerActive && !abortRequested && state.processedFiles == 0
      modifies this`state, this`tracks, this`table, this`artwork, this`abortRequested
      ensures Valid() && controllerActive
      ensures Holding() == Attempt(old(Holding()), force, dev, cancel, now)
    {
      if !force {
        var cached := NotDeleted(table);
        if cached != [] {
          tracks := cached;
        }
      }
      var all, failed := Enumerate(dev, cancel);
      if failed {
        UpdateIndexerState(Halted);
        return;
      }
      if abortRequested {
        return;
      }
      IndexScanned(all, force, dev, cancel, now);
    }

    /**
     * `startIndexing`: unless a run is in progress, start one, and end it idle
     * without the permission or go on as `ScanAndIndex` does. A failure
     * reports idle; a stop ends the run where it lands. The controller is
     * released on every path.
     */
    method StartIndexing(force: bool, dev: Device, cancel: Cancellation, now: int)
      requires Valid()
      modifies this`state, this`tracks, this`table, this`artwork, this`abortRequested, this`controllerActive
      ensures Valid()
      ensures Holding() == IndexingRun(old(Holding()), force, dev, cancel, now)
      ensures old(state.isIndexing) ==> controllerActive == old(controllerActive) && abortRequested == old(abortRequested)
      ensures !old(state.isIndexing) ==> !controllerActive
    {
      if state.isIndexing {
        return;
      }
      controllerActive, abortRequested := true, false;
      UpdateIndexerState(StartUpdate);
      if !dev.permissionGranted {
        UpdateIndexerState(Halted);
      } else {
        ScanAndIndex(force, dev, cancel, now);
      }
      controllerActive := false;
    }
  }
}
