/**
  File URLs and paths as the client and the backends see them: Foundation's
  `lastPathComponent` and `pathExtension` of a file URL, and Python's
  two-argument `os.path.join` on POSIX.
 */
module Paths {
  import opened Wrappers
  import opened Text

  /** A file URL, given by its path text. */
  datatype FileUrl = FileUrl(path: string)

  /** The path without its trailing slashes. */
  function StripTrailingSlashes(p: string): (r: string)
    ensures |r| <= |p| && r == p[..|r|]
    ensures r == [] || r[|r| - 1] != '/'
    ensures forall i :: |r| <= i < |p| ==> p[i] == '/'
  {
    if p != [] && p[|p| - 1] == '/' then StripTrailingSlashes(p[..|p| - 1]) else p
  }

  /**
    Foundation's `lastPathComponent`: the text after the last '/', trailing
    slashes ignored; "/" for a path made only of slashes, "" for an empty path.
   */
  function LastPathComponent(u: FileUrl): (r: string)
    ensures r == "/" || forall i :: 0 <= i < |r| ==> r[i] != '/'
    ensures u.path != [] ==> r != []
  {
    var p := StripTrailingSlashes(u.path);
    if p == [] then (if u.path == [] then "" else "/")
    else match LastIndexOf(p, '/')
      case None => p
      case Some(i) => p[i + 1..]
  }

  /**
    Foundation's `pathExtension`: the text after the last '.' of the last
    component, or "" when it has no '.' or its only '.' is its first
    character (a hidden file such as ".mov" has no extension).
   */
  function PathExtension(u: FileUrl): (r: string)
    ensures forall i :: 0 <= i < |r| ==> r[i] != '.' && r[i] != '/'
  {
    var name := LastPathComponent(u);
    if name == "/" then ""
    else match LastIndexOf(name, '.')
      case None => ""
      case Some(i) => if i == 0 then "" else name[i + 1..]
  }

  /** A file named `name` in the directory `dir`. */
  lemma FileInDirectory(dir: string, name: string)
    requires name != [] && forall i :: 0 <= i < |name| ==> name[i] != '/'
    ensures LastPathComponent(FileUrl(dir + "/" + name)) == name
  {
    var p := dir + "/" + name;
    assert StripTrailingSlashes(p) == p;
    var k := LastIndexOf(p, '/');
    assert p[|dir|] == '/';
    assert k.Some? && k.value == |dir|;
    assert p[|dir| + 1..] == name;
  }

  /** Python's `os.path.join(a, b)` on POSIX. */
  function Join(a: string, b: string): (r: string)
    ensures b != [] && b[0] == '/' ==> r == b
    ensures (b == [] || b[0] != '/') ==> |a| + |b| <= |r| <= |a| + |b| + 1
    ensures (b == [] || b[0] != '/') ==> r[..|a|] == a && r[|r| - |b|..] == b
    ensures (b == [] || b[0] != '/') ==> (|r| == |a| + |b| <==> a == [] || a[|a| - 1] == '/')
    ensures (b == [] || b[0] != '/') && |r| == |a| + |b| + 1 ==> r[|a|] == '/'
  {
    if b != [] && b[0] == '/' then b
    else if a == [] || a[|a| - 1] == '/' then a + b
    else a + "/" + b
  }

  /** A file `stem.ext` in the directory `dir` has the extension `ext`. */
  lemma ExtensionInDirectory(dir: string, stem: string, ext: string)
    requires stem != []
    requires forall i :: 0 <= i < |stem| ==> stem[i] != '/'
    requires ext != [] && forall i :: 0 <= i < |ext| ==> ext[i] != '/' && ext[i] != '.'
    ensures PathExtension(FileUrl(dir + "/" + stem + "." + ext)) == ext
  {
    var name := stem + "." + ext;
    assert dir + "/" + stem + "." + ext == dir + "/" + name;
    assert forall i :: 0 <= i < |name| ==> name[i] != '/' by {
      forall i | 0 <= i < |name|
        ensures name[i] != '/'
      {
        if i < |stem| {
          assert name[i] == stem[i];
        } else if i > |stem| {
          assert name[i] == ext[i - |stem| - 1];
        }
      }
    }
    FileInDirectory(dir, name);
    DotBeforeExtension(stem, ext);
  }

  /** A file `.ext` in a directory, whose name starts with its only '.', has no extension. */
  lemma HiddenFileHasNoExtension(dir: string, ext: string)
    requires forall i :: 0 <= i < |ext| ==> ext[i] != '/' && ext[i] != '.'
    ensures PathExtension(FileUrl(dir + "/" + "." + ext)) == ""
  {
    var name := "." + ext;
    assert dir + "/" + "." + ext == dir + "/" + name;
    assert forall i :: 0 <= i < |name| ==> name[i] != '/' by {
      forall i | 0 <= i < |name|
        ensures name[i] != '/'
      {
        if i > 0 {
          assert name[i] == ext[i - 1];
        }
      }
    }
    FileInDirectory(dir, name);
    DotBeforeExtension([], ext);
    assert [] + "." + ext == name;
  }

  /** In `stem.ext`, with no '.' in `ext`, the last '.' is the one before `ext`. */
  lemma DotBeforeExtension(stem: string, ext: string)
    requires forall i :: 0 <= i < |ext| ==> ext[i] != '.'
    ensures LastIndexOf(stem + "." + ext, '.') == Some(|stem|)
    ensures (stem + "." + ext)[|stem| + 1..] == ext
  {
    var name := stem + "." + ext;
    NoDotAfterStem(stem, ext);
    LastIndexOfIs(name, '.', |stem|);
    assert name[|stem| + 1..] == ext;
  }

  lemma NoDotAfterStem(stem: string, ext: string)
    requires forall i :: 0 <= i < |ext| ==> ext[i] != '.'
    ensures (stem + "." + ext)[|stem|] == '.'
    ensures forall j :: |stem| < j < |stem + "." + ext| ==> (stem + "." + ext)[j] != '.'
  {
    var name := stem + "." + ext;
    forall j | |stem| < j < |name|
      ensures name[j] != '.'
    {
      assert name[j] == ext[j - |stem| - 1];
    }
  }
}
