/**
 * The upload store of the backend: how an uploaded file's stored name and
 * public path are derived, where it is written, and how a public path is
 * turned back into a file to delete.
 *
 * The filesystem is a map from path to content; a fresh UUID string is a
 * parameter of `Store`.
 */
module Storage {
  import opened Common

  /** An upload: the client's file name (possibly null) and its bytes. */
  datatype MultipartFile = MultipartFile(originalFilename: Option<string>, content: seq<bv8>)

  predicate IsEmpty(file: MultipartFile)
  {
    |file.content| == 0
  }

  /** What `store` gives back: null, a public path, or an IllegalArgumentException. */
  datatype StoreResult = NullPath | PublicPath(path: string) | InvalidFileType

  /** The directory `delete` resolves public paths under. */
  const StaticRoot: string := "src/main/resources/static"

  /** Java's `lastIndexOf(c)`: the last position holding `c`, or -1. */
  function LastIndexOf(s: string, c: char): (i: int)
    ensures -1 <= i < |s|
    ensures i == -1 <==> c !in s
    ensures 0 <= i ==> s[i] == c && c !in s[i + 1..]
  {
    if |s| == 0 then -1
    else if s[|s| - 1] == c then |s| - 1
    else
      var i := LastIndexOf(s[..|s| - 1], c);
      assert s[..|s| - 1] + [s[|s| - 1]] == s;
      if i >= 0 then assert s[i + 1..] == s[..|s| - 1][i + 1..] + [s[|s| - 1]]; i
      else i
  }

  /** A well-formed extension: empty, or one dot and no other. */
  predicate IsExtension(ext: string)
  {
    ext == [] || (ext[0] == '.' && '.' !in ext[1..])
  }

  /** The suffix of the file name from its last dot, or "" for a null or dotless name. */
  function Extension(originalFilename: Option<string>): (ext: string)
    ensures IsExtension(ext)
    ensures originalFilename.Some? ==>
      |ext| <= |originalFilename.value| && originalFilename.value[|originalFilename.value| - |ext|..] == ext
    ensures (originalFilename.None? || '.' !in originalFilename.value) <==> ext == []
  {
    match originalFilename
    case None => ""
    case Some(name) =>
      if '.' in name then name[LastIndexOf(name, '.')..] else ""
  }

  /** The extension is determined by the name's last dot: any dotted suffix with no other dot is it. */
  lemma ExtensionOfSuffix(prefix: string, ext: string)
    requires |ext| > 0 && IsExtension(ext)
    ensures Extension(Some(prefix + ext)) == ext
  {
    var name := prefix + ext;
    var i := LastIndexOf(name, '.');
    assert name[|prefix|] == '.';
    assert i == |prefix|;
    assert name[|prefix|..] == ext;
  }

  /** The characters of `UUID.toString()`: lower-case hex digits and dashes. */
  predicate IsUuidChar(c: char)
  {
    ('0' <= c <= '9') || ('a' <= c <= 'f') || c == '-'
  }

  /** The shape of `UUID.randomUUID().toString()`, as far as this model needs it. */
  predicate IsUuidString(u: string)
  {
    |u| == 36 && forall i :: 0 <= i < |u| ==> IsUuidChar(u[i])
  }

  /** The stored file's name: the UUID followed by the upload's extension. */
  function StoredFilename(uuid: string, originalFilename: Option<string>): (stored: string)
    ensures |stored| >= |uuid| && stored[..|uuid|] == uuid
    ensures stored[|uuid|..] == Extension(originalFilename)
  {
    uuid + Extension(originalFilename)
  }

  /** The stored name keeps the upload's extension: a UUID has no dot of its own. */
  lemma StoredFilenameKeepsExtension(uuid: string, originalFilename: Option<string>)
    requires IsUuidString(uuid)
    ensures Extension(Some(StoredFilename(uuid, originalFilename))) == Extension(originalFilename)
  {
    var ext := Extension(originalFilename);
    var stored := StoredFilename(uuid, originalFilename);
    if ext == [] {
      assert stored == uuid;
      assert '.' !in stored by {
        forall i | 0 <= i < |uuid| ensures uuid[i] != '.' {
          assert IsUuidChar(uuid[i]);
        }
      }
    } else {
      ExtensionOfSuffix(uuid, ext);
    }
  }

  /** The public sub-path for an upload type: images, songs, or none for any other type. */
  function SubPath(fileType: string): (sub: Option<string>)
    ensures fileType == "image" <==> sub == Some("/images/")
    ensures fileType == "song" <==> sub == Some("/songs/")
    ensures sub.None? <==> fileType != "image" && fileType != "song"
  {
    if fileType == "image" then Some("/images/")
    else if fileType == "song" then Some("/songs/")
    else None
  }

  /** `Path.resolve`: an absolute path replaces the base, an empty one leaves it, anything else is appended. */
  function Resolve(base: string, other: string): (p: string)
    ensures other == [] ==> p == base
    ensures |other| > 0 && other[0] == '/' ==> p == other
    ensures |other| > 0 && other[0] != '/' ==> p == base + "/" + other
  {
    if other == [] then base
    else if other[0] == '/' then other
    else base + "/" + other
  }

  /** What `store` returns: null before the type is even looked at, then the type dispatch. */
  function StoreOutcome(file: Option<MultipartFile>, fileType: string, uuid: string): (r: StoreResult)
    ensures r == NullPath <==> file.None? || IsEmpty(file.value)
    ensures r == InvalidFileType <==> file.Some? && !IsEmpty(file.value) && SubPath(fileType).None?
    ensures r.PublicPath? <==> file.Some? && !IsEmpty(file.value) && SubPath(fileType).Some?
    ensures r.PublicPath? ==> r.path == SubPath(fileType).value + StoredFilename(uuid, file.value.originalFilename)
  {
    if file.None? || IsEmpty(file.value) then NullPath
    else match SubPath(fileType)
      case None => InvalidFileType
      case Some(sub) => PublicPath(sub + StoredFilename(uuid, file.value.originalFilename))
  }

  /** Every public path `store` hands out is `/images/` or `/songs/`, the UUID, then the upload's extension. */
  lemma PublicPathShape(file: Option<MultipartFile>, fileType: string, uuid: string)
    requires StoreOutcome(file, fileType, uuid).PublicPath?
    ensures var path := StoreOutcome(file, fileType, uuid).path;
      (fileType == "image" && path == "/images/" + uuid + Extension(file.value.originalFilename))
      || (fileType == "song" && path == "/songs/" + uuid + Extension(file.value.originalFilename))
  {
    var path := StoreOutcome(file, fileType, uuid).path;
    var sub := SubPath(fileType).value;
    assert path == sub + (uuid + Extension(file.value.originalFilename));
  }

  /** The public path keeps the upload's extension. */
  lemma PublicPathKeepsExtension(sub: string, uuid: string, originalFilename: Option<string>)
    requires sub == "/images/" || sub == "/songs/"
    requires IsUuidString(uuid)
    ensures Extension(Some(sub + StoredFilename(uuid, originalFilename))) == Extension(originalFilename)
  {
    var stored := StoredFilename(uuid, originalFilename);
    var path := sub + stored;
    var ext := Extension(originalFilename);
    if ext == [] {
      StoredFilenameKeepsExtension(uuid, originalFilename);
      assert '.' !in path by {
        forall i | 0 <= i < |path| ensures path[i] != '.' {
          if i < |sub| { assert path[i] == sub[i]; } else { assert path[i] == stored[i - |sub|]; }
        }
      }
    } else {
      assert path == (sub + uuid) + ext;
      ExtensionOfSuffix(sub + uuid, ext);
    }
  }

  /** The path `delete` strips: exactly one leading slash goes. */
  function CleanPath(filePath: string): (clean: string)
    ensures |filePath| > 0 && filePath[0] == '/' ==> "/" + clean == filePath
    ensures (|filePath| == 0 || filePath[0] != '/') ==> clean == filePath
  {
    if |filePath| > 0 && filePath[0] == '/' then filePath[1..] else filePath
  }

  /** The file `delete` removes: none for a null or empty path, else the cleaned path under the static root. */
  function DeleteTarget(filePath: Option<string>): (target: Option<string>)
    ensures target.None? <==> filePath.None? || filePath.value == []
    ensures target.Some? ==> target.value == Resolve(StaticRoot, CleanPath(filePath.value))
  {
    match filePath
    case None => None
    case Some(p) => if p == [] then None else Some(Resolve(StaticRoot, CleanPath(p)))
  }

  lemma {:induction false} AppendCancelRight(a: string, b: string, x: string)
    requires a + x == b + x
    ensures a == b
  {
    assert |a| == |b|;
    assert a == (a + x)[..|a|];
    assert b == (b + x)[..|b|];
  }

  /**
   * `delete` of a public path `store` returned reaches the file `store`
   * wrote exactly when the storage location is the static root: the two
   * methods resolve against different directories.
   */
  lemma DeleteFindsStoredFileIff(location: string, dir: string, stored: string)
    requires dir == "images" || dir == "songs"
    requires |stored| > 0 && stored[0] != '/'
    ensures DeleteTarget(Some("/" + dir + "/" + stored)) == Some(Resolve(location + "/" + dir, stored))
      <==> location == StaticRoot
  {
    var tail := "/" + dir + "/" + stored;
    var clean := dir + "/" + stored;
    assert tail == "/" + clean;
    assert CleanPath(tail) == clean;
    assert clean[0] == dir[0];
    var deleted := Resolve(StaticRoot, clean);
    var written := Resolve(location + "/" + dir, stored);
    assert deleted == StaticRoot + tail;
    assert written == location + tail;
    if deleted == written {
      AppendCancelRight(StaticRoot, location, tail);
    }
  }

  /** The service: its two upload directories and the files written so far. */
  class StorageService {
    const imageUploadPath: string
    const songUploadPath: string
    var files: map<string, seq<bv8>>

    /** `${storage.location}/images` and `${storage.location}/songs`. */
    constructor (location: string, existing: map<string, seq<bv8>>)
      ensures imageUploadPath == location + "/images" && songUploadPath == location + "/songs"
      ensures files == existing
    {
      imageUploadPath := location + "/images";
      songUploadPath := location + "/songs";
      files := existing;
    }

    /** The directory a valid upload type is written to. */
    function UploadDirectory(fileType: string): (dir: string)
      requires SubPath(fileType).Some?
      ensures fileType == "image" ==> dir == imageUploadPath
      ensures fileType == "song" ==> dir == songUploadPath
    {
      if fileType == "image" then imageUploadPath else songUploadPath
    }

    /**
     * Store an upload under a fresh UUID name. A null or empty file returns
     * null and writes nothing, whatever the type; an unknown type throws and
     * writes nothing; otherwise the file is written (replacing any file of the
     * same name) and its public path returned.
     */
    method Store(file: Option<MultipartFile>, fileType: string, uuid: string) returns (r: StoreResult)
      requires IsUuidString(uuid)
      modifies this
      ensures r == StoreOutcome(file, fileType, uuid)
      ensures !r.PublicPath? ==> files == old(files)
      ensures r.PublicPath? ==>
        files == old(files)[Resolve(UploadDirectory(fileType), StoredFilename(uuid, file.value.originalFilename)) := file.value.content]
    {
      if file.None? || IsEmpty(file.value) {
        return NullPath;
      }
      var extension := "";
      var originalFilename := file.value.originalFilename;
      if originalFilename.Some? && '.' in originalFilename.value {
        extension := originalFilename.value[LastIndexOf(originalFilename.value, '.')..];
      }
      var storedFilename := uuid + extension;
      var destinationPath: string;
      var subPath: string;
      if fileType == "image" {
        destinationPath := imageUploadPath;
        subPath := "/images/";
      } else if fileType == "song" {
        destinationPath := songUploadPath;
        subPath := "/songs/";
      } else {
        return InvalidFileType;
      }
      files := files[Resolve(destinationPath, storedFilename) := file.value.content];
      r := PublicPath(subPath + storedFilename);
    }

    /** Delete the file behind a public path; a null or empty path is a no-op, and nothing is thrown. */
    method Delete(filePath: Option<string>)
      modifies this
      ensures DeleteTarget(filePath).None? ==> files == old(files)
      ensures DeleteTarget(filePath).Some? ==> files == old(files) - {DeleteTarget(filePath).value}
    {
      if filePath.None? || filePath.value == [] {
        return;
      }
      var p := filePath.value;
      var cleanPath := if p[0] == '/' then p[1..] else p;
      var fileToDelete := Resolve(StaticRoot, cleanPath);
      files := files - {fileToDelete};
    }
  }
}
