/** Upload validation and stored-name derivation (`storeFile`), and the path-traversal guard
    of `deleteFile`. The filesystem itself is not modelled: the random UUID is a parameter, the
    directory tree is a set of absolute paths given as segment sequences. */
module FileStorage {
  import opened Common

  /** A multipart file: its original file name (may be null), its declared content type
      (may be null) and its size in bytes; `isEmpty()` is `size == 0`. */
  datatype Upload = Upload(originalName: Option<string>, contentType: Option<string>, size: nat)

  const AllowedExtensions: set<string> := {".jpg", ".jpeg", ".png", ".gif", ".webp"}
  const AllowedMimeTypes: set<string> := {"image/jpeg", "image/png", "image/gif", "image/webp"}
  const AllowedSubdirs: set<string> := {"thumbnail", "detail"}

  /** `s.lastIndexOf(c)`: the last position holding `c`, or -1. */
  function LastIndexOf(s: string, c: char): (r: int)
    ensures -1 <= r < |s|
    ensures r >= 0 ==> s[r] == c
    ensures forall k :: r < k < |s| ==> s[k] != c
  {
    if |s| == 0 then -1
    else if s[|s| - 1] == c then |s| - 1
    else LastIndexOf(s[..|s| - 1], c)
  }

  function LowerChar(c: char): char {
    if 'A' <= c <= 'Z' then (c as int + 32) as char else c
  }

  /** `toLowerCase()` on the ASCII letters. */
  function Lower(s: string): (r: string)
    ensures |r| == |s|
    ensures forall k :: 0 <= k < |s| ==> r[k] == LowerChar(s[k])
  {
    if s == [] then [] else [LowerChar(s[0])] + Lower(s[1..])
  }

  /** The suffix from the last `.`, lower-cased, or `""` when the name has no dot. */
  function Extension(name: string): (ext: string)
    ensures ext == "" <==> '.' !in name
    ensures ext == "" || ext[0] == '.'
    ensures forall k :: 0 < k < |ext| ==> ext[k] != '.'
    ensures ext != "" ==> |ext| <= |name| && ext == Lower(name[|name| - |ext|..])
  {
    var idx := LastIndexOf(name, '.');
    if idx >= 0 then Lower(name[idx..]) else ""
  }

  predicate HasSubdir(subDir: Option<string>) {
    subDir.Some? && !IsBlank(subDir.value)
  }

  /** The upload passes the subdirectory, extension and content-type allow-lists. */
  predicate Accepted(file: Upload, subDir: Option<string>) {
    && (HasSubdir(subDir) ==> subDir.value in AllowedSubdirs)
    && file.originalName.Some?
    && Extension(file.originalName.value) in AllowedExtensions
    && file.contentType.Some? && file.contentType.value in AllowedMimeTypes
  }

  /** `storeFile(file, subDir)`: `Ok(None)` is its `return null`, `Err` its exceptions, and
      `Ok(Some(name))` the stored name, `uuid` standing for `UUID.randomUUID()`. */
  function StoreFile(file: Option<Upload>, subDir: Option<string>, uuid: string): (r: Result<Option<string>>)
    // nothing is stored for a missing or empty file, and nothing is rejected either
    ensures (file.None? || file.value.size == 0) <==> r == Ok(None)
    // a stored file passed all three allow-lists (the converse is `StoreFileCheckOrder`'s last case)
    ensures r.Ok? && r.value.Some? ==> Accepted(file.value, subDir)
    // the stored name is uuid + extension, under `subDir/` exactly when a subdirectory is named
    ensures r.Ok? && r.value.Some? && HasSubdir(subDir) ==>
      r.value.value == subDir.value + "/" + (uuid + Extension(file.value.originalName.value))
    ensures r.Ok? && r.value.Some? && !HasSubdir(subDir) ==>
      r.value.value == uuid + Extension(file.value.originalName.value)
  {
    if file.None? || file.value.size == 0 then Ok(None)
    else if HasSubdir(subDir) && subDir.value !in AllowedSubdirs then Err(BadSubdir)
    else if file.value.originalName.None? then Err(NullValue)
    else
      var ext := Extension(file.value.originalName.value);
      if ext !in AllowedExtensions then Err(BadExtension)
      else if file.value.contentType.None? || file.value.contentType.value !in AllowedMimeTypes then Err(BadMime)
      else
        var filename := uuid + ext;
        Ok(Some(if HasSubdir(subDir) then subDir.value + "/" + filename else filename))
  }

  /** The checks run in order and the first failing one decides: a bad subdirectory is reported
      whatever the name and type, a missing name (`cleanPath(null)` is null, and `lastIndexOf`
      fails on it) whatever the type, a bad extension whatever the type; an upload that passes
      every check is stored. */
  lemma StoreFileCheckOrder(file: Upload, subDir: Option<string>, uuid: string)
    requires file.size > 0
    ensures HasSubdir(subDir) && subDir.value !in AllowedSubdirs ==>
      StoreFile(Some(file), subDir, uuid) == Err(BadSubdir)
    ensures ((HasSubdir(subDir) ==> subDir.value in AllowedSubdirs) && file.originalName.None?) ==>
      StoreFile(Some(file), subDir, uuid) == Err(NullValue)
    ensures ((HasSubdir(subDir) ==> subDir.value in AllowedSubdirs) && file.originalName.Some?
             && Extension(file.originalName.value) !in AllowedExtensions) ==>
      StoreFile(Some(file), subDir, uuid) == Err(BadExtension)
    ensures ((HasSubdir(subDir) ==> subDir.value in AllowedSubdirs) && file.originalName.Some?
             && Extension(file.originalName.value) in AllowedExtensions
             && (file.contentType.None? || file.contentType.value !in AllowedMimeTypes)) ==>
      StoreFile(Some(file), subDir, uuid) == Err(BadMime)
    ensures Accepted(file, subDir) ==> StoreFile(Some(file), subDir, uuid).Ok? && StoreFile(Some(file), subDir, uuid).value.Some?
  {
  }

  lemma {:induction false} LastIndexOfAppend(a: string, b: string, c: char)
    requires c !in b
    ensures LastIndexOf(a + b, c) == LastIndexOf(a, c)
    decreases |b|
  {
    if b != [] {
      var ab := a + b;
      assert ab[|ab| - 1] == b[|b| - 1] != c;
      assert ab[..|ab| - 1] == a + b[..|b| - 1];
      assert c !in b[..|b| - 1];
      LastIndexOfAppend(a, b[..|b| - 1], c);
      assert LastIndexOf(ab, c) == LastIndexOf(ab[..|ab| - 1], c);
    } else {
      assert a + b == a;
    }
  }

  /** Lower-casing twice changes nothing more: an extension is already in lower case. */
  lemma ExtensionIsLower(name: string)
    ensures Lower(Extension(name)) == Extension(name)
  {
    var ext := Extension(name);
    assert forall k :: 0 <= k < |ext| ==> LowerChar(ext[k]) == ext[k];
  }

  /** Reading the extension back from a dot-free prefix followed by an extension. */
  lemma {:induction false} ExtensionAfterPrefix(prefix: string, name: string)
    requires '.' !in prefix && Extension(name) != ""
    ensures Extension(prefix + Extension(name)) == Extension(name)
  {
    var ext := Extension(name);
    ExtensionIsLower(name);
    var tail := ext[1..];
    assert '.' !in tail by {
      forall k | 0 <= k < |tail| ensures tail[k] != '.' {
        assert tail[k] == ext[k + 1];
      }
    }
    var stored := prefix + ext;
    assert stored == (prefix + ['.']) + tail;
    LastIndexOfAppend(prefix + ['.'], tail, '.');
    assert LastIndexOf(stored, '.') == |prefix|;
    assert stored[|prefix|..] == ext;
  }

  /** A stored name keeps the upload's extension: reading the extension back from the name
      `storeFile` returns gives the same allowed extension, whenever the UUID has no dot. */
  lemma StoredNameKeepsExtension(file: Upload, subDir: Option<string>, uuid: string)
    requires '.' !in uuid
    requires HasSubdir(subDir) ==> '.' !in subDir.value
    requires StoreFile(Some(file), subDir, uuid).Ok? && StoreFile(Some(file), subDir, uuid).value.Some?
    ensures Extension(StoreFile(Some(file), subDir, uuid).value.value) == Extension(file.originalName.value)
  {
    var prefix := (if HasSubdir(subDir) then subDir.value + "/" else "") + uuid;
    assert StoreFile(Some(file), subDir, uuid).value.value == prefix + Extension(file.originalName.value);
    assert Extension(file.originalName.value) != "";
    ExtensionAfterPrefix(prefix, file.originalName.value);
  }

  // ---------------------------------------------------------------------------------------
  // deleteFile

  /** The `/`-separated parts of a path string. */
  function Split(s: string): (parts: seq<string>)
    ensures |parts| >= 1
    ensures forall k :: 0 <= k < |parts| ==> '/' !in parts[k]
  {
    if s == [] then [""]
    else
      var rest := Split(s[1..]);
      if s[0] == '/' then [""] + rest else [[s[0]] + rest[0]] + rest[1..]
  }

  /** A segment a normalised path can hold: not empty, not `.` and not `..`. */
  predicate Plain(seg: string) {
    seg != "" && seg != "." && seg != ".."
  }

  /** `Path.normalize()` after resolving `segs` against the absolute directory `dir`:
      empty and `.` segments vanish, `..` drops the last segment (and stays at the root). */
  function Normalize(dir: seq<string>, segs: seq<string>): (r: seq<string>)
    // a normal directory stays normal: no empty, `.` or `..` segment is left over
    ensures (forall k :: 0 <= k < |dir| ==> Plain(dir[k])) ==> forall k :: 0 <= k < |r| ==> Plain(r[k])
    // each segment adds at most one name
    ensures |r| <= |dir| + |segs|
    decreases |segs|
  {
    if segs == [] then dir
    else if segs[0] == "" || segs[0] == "." then Normalize(dir, segs[1..])
    else if segs[0] == ".." then Normalize(if dir == [] then [] else dir[..|dir| - 1], segs[1..])
    else Normalize(dir + [segs[0]], segs[1..])
  }

  /** `uploadPath.resolve(filePath).normalize()`; an absolute `filePath` replaces the base. */
  function Resolve(uploadPath: seq<string>, filePath: string): (target: seq<string>)
    // the target is a normal path whenever the upload directory is
    ensures (forall k :: 0 <= k < |uploadPath| ==> Plain(uploadPath[k])) ==>
      forall k :: 0 <= k < |target| ==> Plain(target[k])
  {
    if |filePath| > 0 && filePath[0] == '/' then Normalize([], Split(filePath))
    else Normalize(uploadPath, Split(filePath))
  }

  /** `deleteFile(filePath)`: `existing` is the set of files present; the result is
      `Files.deleteIfExists(target)` once the guard lets the call through. */
  function DeleteFile(uploadPath: seq<string>, filePath: Option<string>, existing: set<seq<string>>): (deleted: bool)
    ensures filePath.None? || IsBlank(filePath.value) ==> !deleted
    ensures deleted ==> uploadPath <= Resolve(uploadPath, filePath.value) && Resolve(uploadPath, filePath.value) in existing
  {
    if filePath.None? || IsBlank(filePath.value) then false
    else
      var target := Resolve(uploadPath, filePath.value);
      if !(uploadPath <= target) then false
      else target in existing
  }

  /** Without `..` segments, normalising never leaves the directory it starts from. */
  lemma {:induction false} NormalizeStaysBelow(dir: seq<string>, segs: seq<string>)
    requires forall k :: 0 <= k < |segs| ==> segs[k] != ".."
    ensures dir <= Normalize(dir, segs)
    decreases |segs|
  {
    if segs != [] {
      assert forall k :: 0 <= k < |segs[1..]| ==> segs[1..][k] == segs[k + 1];
      if segs[0] == "" || segs[0] == "." {
        NormalizeStaysBelow(dir, segs[1..]);
      } else {
        NormalizeStaysBelow(dir + [segs[0]], segs[1..]);
      }
    }
  }

  /** The traversal guard only ever rejects a relative path that climbs with `..`: any other
      relative path resolves inside the upload directory and is deleted iff it exists. */
  lemma RelativePathWithoutDotDotIsInside(uploadPath: seq<string>, filePath: string, existing: set<seq<string>>)
    requires !IsBlank(filePath) && filePath[0] != '/'
    requires forall k :: 0 <= k < |Split(filePath)| ==> Split(filePath)[k] != ".."
    ensures DeleteFile(uploadPath, Some(filePath), existing) <==> Resolve(uploadPath, filePath) in existing
  {
    NormalizeStaysBelow(uploadPath, Split(filePath));
  }
}
