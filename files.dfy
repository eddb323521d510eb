/**
 * The filesystem as the model sees it: a map from path to node, plus the two path functions of Ruby's File
 * class that the compiler and the caches use (File.join and File.dirname). File.expand_path is taken to be
 * the identity: every path in the model is already absolute and normalised.
 */
module Files {
  import opened Wrappers
  import opened Strings
  import opened Errors

  /** A node on disk: a regular file with its contents, or a directory; both carry a modification time. */
  datatype Node = File(contents: string, mtime: int) | Directory(mtime: int)

  /** What the disk holds at one instant. A path is readable exactly when it is present. */
  type FileSystem = map<string, Node>

  /** File.read: the contents of a regular file, ENOENT for a missing path, EISDIR for a directory. */
  function Read(fs: FileSystem, path: string): (r: Result<string, Error>)
    ensures r.Ok? <==> path in fs && fs[path].File?
    ensures r.Ok? ==> r.value == fs[path].contents
    ensures r.Err? ==> r.error == (if path in fs then IsDirectory(path) else NoEntry(path))
  {
    if path !in fs then Err(NoEntry(path))
    else match fs[path]
      case File(contents, _) => Ok(contents)
      case Directory(_) => Err(IsDirectory(path))
  }

  /** File.stat(path).mtime, or ENOENT. */
  function StatMtime(fs: FileSystem, path: string): (r: Result<int, Error>)
    ensures r.Ok? <==> path in fs
    ensures r.Ok? ==> r.value == fs[path].mtime
    ensures r.Err? ==> r.error == NoEntry(path)
  {
    if path in fs then Ok(fs[path].mtime) else Err(NoEntry(path))
  }

  /** `s` without its trailing run of '/' characters. */
  function TrimSlashes(s: string): (r: string)
    ensures StartsWith(s, r)
    ensures r == [] || r[|r| - 1] != '/'
    ensures forall k :: |r| <= k < |s| ==> s[k] == '/'
  {
    if s == [] || s[|s| - 1] != '/' then s else TrimSlashes(s[..|s| - 1])
  }

  /**
   * File.join(a, b): when `b` starts with '/', the trailing slashes of `a` are dropped; otherwise one '/' is
   * inserted unless `a` already ends with one.
   */
  function Join(a: string, b: string): (r: string)
    ensures StartsWith(r, TrimSlashes(a)) && EndsWith(r, b)
    ensures |TrimSlashes(a)| + |b| <= |r|
    ensures forall k :: |TrimSlashes(a)| <= k < |r| - |b| ==> r[k] == '/'
    ensures |TrimSlashes(a)| + |b| < |r| || (b != [] && b[0] == '/')
  {
    if b != [] && b[0] == '/' then TrimSlashes(a) + b
    else if a != [] && a[|a| - 1] == '/' then a + b
    else a + "/" + b
  }

  /**
   * File.dirname(p): everything before the last '/' that is followed by a name, with the slashes in front of
   * that name removed; "." when there is no such '/', "/" when only the root is left.
   */
  function Dirname(p: string): (r: string)
    ensures r == "." || r == "/" || (r != [] && StartsWith(p, r) && |r| < |p| && r[|r| - 1] != '/')
  {
    var q := TrimSlashes(p);
    if q == [] then (if p == [] then "." else "/")
    else match LastIndex(q, '/')
      case None => "."
      case Some(k) =>
        var d := TrimSlashes(q[..k]);
        if d == [] then "/" else d
  }

  /** A file named without slashes, joined onto a directory that does not end in '/', has that directory as its dirname. */
  lemma DirnameOfJoin(dir: string, name: string)
    requires dir != [] && dir[|dir| - 1] != '/'
    requires name != [] && forall k :: 0 <= k < |name| ==> name[k] != '/'
    ensures Dirname(Join(dir, name)) == dir
  {
    var p := Join(dir, name);
    assert p == dir + "/" + name;
    assert TrimSlashes(p) == p;
    var k := LastIndex(p, '/');
    assert p[|dir|] == '/';
    assert forall j :: |dir| < j < |p| ==> p[j] == name[j - |dir| - 1];
    assert k == Some(|dir|);
    assert p[..|dir|] == dir;
  }
}
