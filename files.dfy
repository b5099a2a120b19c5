/**
 * The part of the operating system's filesystem that the disk store
 * touches: regular files, each a sequence of text lines (stored without
 * their trailing newline), and a set of directory paths.  Paths are plain
 * strings; two spellings of one directory are two different paths here.
 */
module Files {
  import opened Strings

  datatype Tree = Tree(files: map<string, seq<string>>, dirs: set<string>)

  /** `path.split("/")[0..-2].join("/")`: the directory a path names its entry in. */
  function ParentDir(path: string): string {
    var parts := RubySplit(path, '/');
    if |parts| == 0 then "" else JoinWith(parts[..|parts| - 1], '/')
  }

  /** `File.join(dir, name)` for a name without slashes: exactly one separator between them. */
  function JoinPath(dir: string, name: string): string {
    if dir != [] && dir[|dir| - 1] == '/' then dir + name else dir + "/" + name
  }

  /** `dir` without one trailing separator. */
  function Untrailed(dir: string): string {
    if dir != [] && dir[|dir| - 1] == '/' then dir[..|dir| - 1] else dir
  }

  /** The pieces of a joined path are the pieces of the directory, then the name. */
  lemma {:induction false} SegmentsOfJoinPath(dir: string, name: string)
    requires name != [] && '/' !in name
    ensures LastIndexOf(JoinPath(dir, name), '/') == |Untrailed(dir)|
    ensures Segments(JoinPath(dir, name), '/') == Segments(Untrailed(dir), '/') + [name]
    ensures FilePath(JoinPath(dir, name))
  {
    var u := Untrailed(dir);
    assert JoinPath(dir, name) == u + ['/'] + name;
    SegmentsAfterSeparator(u, name, '/');
  }

  /** A file path names its entry in the directory before its last separator. */
  lemma {:induction false} ParentDirOfFilePath(f: string)
    requires FilePath(f)
    ensures var k := LastIndexOf(f, '/'); ParentDir(f) == if k < 0 then "" else f[..k]
  {
    var k := LastIndexOf(f, '/');
    var segs := Segments(f, '/');
    if k >= 0 {
      assert segs == Segments(f[..k], '/') + [f[k + 1..]];
      assert segs[|segs| - 1] != [];
      assert RubySplit(f, '/') == segs;
      assert segs[..|segs| - 1] == Segments(f[..k], '/');
      JoinSegments(f[..k], '/');
    } else {
      assert segs == [f];
      assert RubySplit(f, '/') == segs;
    }
  }

  lemma {:induction false} ParentDirOfJoinPath(dir: string, name: string)
    requires name != [] && '/' !in name
    ensures ParentDir(JoinPath(dir, name)) == Untrailed(dir)
  {
    SegmentsOfJoinPath(dir, name);
    ParentDirOfFilePath(JoinPath(dir, name));
    assert JoinPath(dir, name)[..|Untrailed(dir)|] == Untrailed(dir);
  }

  /** A file is never one of the directories that `mkdir_p` makes for its own parent. */
  lemma {:induction false} ParentDirOutsideFile(f: string)
    requires FilePath(f) && ParentDir(f) != ""
    ensures |ParentDir(f)| < |f|
    ensures f !in DirsOf(ParentDir(f))
  {
    ParentDirOfFilePath(f);
    var d := ParentDir(f);
    assert forall x :: x in DirsOf(d) ==> |x| <= |d|;
  }

  /** Appending a separator-free suffix to a file path keeps it in the same directory. */
  lemma {:induction false} SiblingParentDir(f: string, suffix: string)
    requires FilePath(f) && suffix != [] && '/' !in suffix
    ensures FilePath(f + suffix)
    ensures ParentDir(f + suffix) == ParentDir(f)
  {
    LastIndexOfAppend(f, suffix, '/');
    ParentDirOfFilePath(f);
    ParentDirOfFilePath(f + suffix);
    var k := LastIndexOf(f, '/');
    if k >= 0 {
      assert (f + suffix)[..k] == f[..k];
    }
  }

  /** The directories `FileUtils.mkdir_p(dir)` makes sure exist: `dir` and every ancestor. */
  function DirsOf(dir: string): set<string> {
    {dir} + set i | 0 < i < |dir| && dir[i] == '/' :: dir[..i]
  }

  /** A path a regular file can have: not empty, not ending in a separator. */
  predicate FilePath(p: string) {
    p != [] && p[|p| - 1] != '/'
  }

  /** The lines of `f`; a missing file reads as no lines. */
  function Lines(d: Tree, f: string): seq<string> {
    if f in d.files then d.files[f] else []
  }

  /** `mkdir_p` raises for the empty path and when an ancestor is a regular file. */
  predicate MkdirPFails(d: Tree, dir: string) {
    dir == "" || DirsOf(dir) * d.files.Keys != {}
  }

  /** No file and no directory lives directly in `dir`. */
  predicate Childless(d: Tree, dir: string) {
    && (forall p :: p in d.files ==> ParentDir(p) != dir)
    && (forall q :: q in d.dirs ==> ParentDir(q) != dir)
  }

  /** Every file sits in an existing directory, and no path is both a file and a directory. */
  predicate WellFormed(d: Tree) {
    && (forall p :: p in d.files ==> FilePath(p) && ParentDir(p) in d.dirs)
    && d.files.Keys !! d.dirs
  }

  /** `FileUtils.rmdir(dir)`: removes an existing empty directory, silently does nothing otherwise. */
  function RmDir(d: Tree, dir: string): Tree {
    if dir in d.dirs && Childless(d, dir) then Tree(d.files, d.dirs - {dir}) else d
  }

  class FileSystem {
    var files: map<string, seq<string>>
    var dirs: set<string>

    function State(): Tree
      reads this
    {
      Tree(files, dirs)
    }

    ghost predicate Valid()
      reads this
    {
      WellFormed(State())
    }

    constructor Empty()
      ensures files == map[] && dirs == {}
      ensures Valid()
    {
      files, dirs := map[], {};
    }

    method MkdirP(dir: string)
      requires Valid() && !MkdirPFails(State(), dir)
      modifies this
      ensures Valid()
      ensures files == old(files) && dirs == old(dirs) + DirsOf(dir)
    {
      dirs := dirs + DirsOf(dir);
    }

    /** Writes `lines` as the whole content of `f`, creating it if needed. */
    method WriteLines(f: string, lines: seq<string>)
      requires Valid() && FilePath(f) && ParentDir(f) in dirs && f !in dirs
      modifies this
      ensures Valid()
      ensures files == old(files)[f := lines] && dirs == old(dirs)
    {
      files := files[f := lines];
    }

    method AppendLine(f: string, line: string)
      requires Valid() && FilePath(f) && ParentDir(f) in dirs && f !in dirs
      modifies this
      ensures Valid()
      ensures files == old(files)[f := Lines(old(State()), f) + [line]] && dirs == old(dirs)
    {
      files := files[f := Lines(State(), f) + [line]];
    }

    method RemoveFile(f: string)
      requires Valid()
      modifies this
      ensures Valid()
      ensures files == old(files) - {f} && dirs == old(dirs)
    {
      files := files - {f};
    }

    method RemoveDir(dir: string)
      requires Valid()
      modifies this
      ensures Valid()
      ensures State() == RmDir(old(State()), dir)
    {
      if dir in dirs && Childless(State(), dir) {
        dirs := dirs - {dir};
      }
    }
  }
}
