/**
 * Playable URIs and containing folders (`src/utils/file-path.ts`). The
 * native lookup of a `content://` URI's real path is a parameter.
 */
module FilePath {
  import opened Wrappers
  import opened Text

  const FileScheme: string := "file://"
  const ContentScheme: string := "content://"

  /** `toFileUri`: adds the `file://` scheme unless it is already there. */
  function ToFileUri(path: string): string {
    if StartsWith(path, FileScheme) then path else FileScheme + path
  }

  /** A `file://` URI; once there, the scheme is not added again, and what follows it is the path. */
  lemma ToFileUriShape(path: string)
    ensures StartsWith(ToFileUri(path), FileScheme)
    ensures ToFileUri(ToFileUri(path)) == ToFileUri(path)
    ensures !StartsWith(path, FileScheme) ==> ToFileUri(path)[|FileScheme|..] == path
  {
    if !StartsWith(path, FileScheme) {
      assert (FileScheme + path)[..|FileScheme|] == FileScheme;
    }
  }

  /**
   * `getActualPath`: the file path behind a content URI, or `None` when the
   * lookup throws or finds nothing.
   */
  type PathLookup = string -> Option<string>

  /** `resolvePlayableFileUri`. */
  function ResolvePlayableFileUri(uri: string, actualPath: PathLookup): string {
    if uri == "" then ""
    else if StartsWith(uri, ContentScheme) then
      var p := actualPath(uri);
      if p.Some? && p.value != "" then ToFileUri(p.value) else uri
    else if Includes(uri, "://") then uri
    else ToFileUri(uri)
  }

  /** A `file://` URI is neither a content URI nor without a scheme. */
  lemma FileUriHasScheme(r: string)
    requires StartsWith(r, FileScheme)
    ensures !StartsWith(r, ContentScheme) && Includes(r, "://")
  {
    assert r[0] == 'f';
    assert OccursAt(r, "://", 4);
  }

  /**
   * The result is empty only for the empty URI; otherwise it is the URI
   * itself or a `file://` URI, and a bare path gets the `file://` scheme.
   */
  lemma ResolveShape(uri: string, actualPath: PathLookup)
    ensures var r := ResolvePlayableFileUri(uri, actualPath);
      && (r == "" <==> uri == "")
      && (r == uri || StartsWith(r, FileScheme))
      && (uri != "" && !StartsWith(uri, ContentScheme) && !Contains(uri, "://") ==>
            r == ToFileUri(uri))
  {
    var r := ResolvePlayableFileUri(uri, actualPath);
    if r != uri {
      var p := actualPath(uri);
      if StartsWith(uri, ContentScheme) {
        ToFileUriShape(p.value);
      } else {
        ToFileUriShape(uri);
      }
    }
  }

  /** Resolving a resolved URI again changes nothing. */
  lemma ResolveIdempotent(uri: string, actualPath: PathLookup)
    ensures var r := ResolvePlayableFileUri(uri, actualPath);
      ResolvePlayableFileUri(r, actualPath) == r
  {
    var r := ResolvePlayableFileUri(uri, actualPath);
    ResolveShape(uri, actualPath);
    if r != uri {
      FileUriHasScheme(r);
    }
  }

  /** `getContainingFolderUri`: `None` stands for `null`. */
  function GetContainingFolderUri(uri: string): Option<string> {
    if !StartsWith(uri, FileScheme) then None
    else
      var lastSlash := LastIndexOf(uri, '/');
      if lastSlash <= |FileScheme| then None
      else Some(uri[..lastSlash])
  }

  /**
   * A folder is a `file://` URI longer than the scheme plus one slash, and
   * the URI is that folder, a slash, and a last segment without slashes.
   */
  lemma FolderShape(uri: string)
    ensures var f := GetContainingFolderUri(uri);
      f.Some? ==>
        && StartsWith(f.value, FileScheme) && |f.value| > |FileScheme|
        && |f.value| < |uri| && uri[..|f.value|] == f.value && uri[|f.value|] == '/'
        && '/' !in uri[|f.value| + 1..]
  {
  }

  /** The folder of `folder + "/" + name` is `folder`, when `name` has no slash. */
  lemma FolderOfChild(folder: string, name: string)
    requires StartsWith(folder, FileScheme) && |folder| > |FileScheme|
    requires '/' !in name
    ensures GetContainingFolderUri(folder + "/" + name) == Some(folder)
  {
    var uri := folder + "/" + name;
    assert uri[..|FileScheme|] == FileScheme;
    assert uri[|folder|] == '/';
    assert uri[|folder| + 1..] == name;
    assert LastIndexOf(uri, '/') == |folder|;
    assert uri[..|folder|] == folder;
  }

  /** Files directly under the root, and anything that is not a `file://` URI, have no folder. */
  lemma NoFolder(uri: string, name: string)
    requires '/' !in name
    ensures GetContainingFolderUri("file:///" + name) == None
    ensures !StartsWith(uri, FileScheme) ==> GetContainingFolderUri(uri) == None
  {
    var root := "file:///" + name;
    assert root[..|FileScheme|] == FileScheme;
    assert root[7] == '/';
    assert root[8..] == name;
    assert LastIndexOf(root, '/') == 7;
  }
}
