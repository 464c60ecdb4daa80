/** Project-root detection (aurora_mcp/utils/project_detector.py): walk up
    from a file or directory to the nearest directory holding a project
    marker. The filesystem is a model: which paths exist, which are files,
    and what `Path.resolve()` makes of a string (absolute, symlinks
    followed, or an error). Paths are POSIX and absolute: the sequence of
    components below the root "/". */
module ProjectDetector {
  import opened Text
  import opened Llm

  /** An absolute path, as its components below "/"; the root is []. */
  type Path = seq<string>

  datatype FileSystem = FileSystem(
    files: set<Path>,
    dirs: set<Path>,
    /** `Path(s).resolve()`: None when it raises OSError or ValueError. */
    resolve: string -> Option<Path>)
  {
    predicate Exists(p: Path) {
      p in files || p in dirs
    }

    predicate IsFile(p: Path) {
      p in files
    }
  }

  /** The markers, in the order they are tried. */
  const ProjectRootMarkers: seq<string> := [
    ".git", ".hg", ".svn",
    "pyproject.toml",
    "package.json",
    "Cargo.toml",
    "go.mod",
    "pom.xml", "build.gradle",
    "CMakeLists.txt",
    "composer.json",
    "Gemfile",
    ".project"
  ]

  /** `path.parent`; the root is its own parent. */
  function Parent(p: Path): (r: Path)
    ensures p == [] ==> r == []
    ensures p != [] ==> |r| == |p| - 1 && r == p[..|p| - 1]
  {
    if p == [] then [] else p[..|p| - 1]
  }

  /** `_candidate_directories`: `[start] + list(start.parents)`, nearest first. */
  function Candidates(p: Path): (r: seq<Path>)
    ensures |r| == |p| + 1
    ensures forall k :: 0 <= k < |r| ==> r[k] == p[..|p| - k]
    decreases |p|
  {
    if p == [] then [p] else [p] + Candidates(Parent(p))
  }

  /** `path.name`: the last component ("" for the root). */
  function Name(p: Path): string {
    if p == [] then "" else p[|p| - 1]
  }

  /** The markers the tests require are all tried. */
  lemma MarkersComplete()
    ensures ".git" in ProjectRootMarkers && ".hg" in ProjectRootMarkers && ".svn" in ProjectRootMarkers
    ensures "pyproject.toml" in ProjectRootMarkers && "package.json" in ProjectRootMarkers
    ensures "Cargo.toml" in ProjectRootMarkers && "go.mod" in ProjectRootMarkers
    ensures "pom.xml" in ProjectRootMarkers && "build.gradle" in ProjectRootMarkers
    ensures "CMakeLists.txt" in ProjectRootMarkers && "composer.json" in ProjectRootMarkers
    ensures "Gemfile" in ProjectRootMarkers && ".project" in ProjectRootMarkers
    ensures |ProjectRootMarkers| == 13
  {
  }

  /** `path.suffix != ""`: the name has a '.' after its first character
      that is not its last character, and it is the last '.'. */
  predicate HasSuffix(p: Path) {
    var name := Name(p);
    0 < LastIndexOf(name, '.') < |name| - 1
  }

  /** A name has a suffix exactly when its last '.' is neither its first
      nor its last character (".bashrc" and "notes." have none). */
  lemma SuffixIsLastDot(p: Path)
    ensures HasSuffix(p) <==>
      exists i :: 0 < i < |Name(p)| - 1 && Name(p)[i] == '.'
                  && forall j :: i < j < |Name(p)| ==> Name(p)[j] != '.'
  {
    var name := Name(p);
    var last := LastIndexOf(name, '.');
    if HasSuffix(p) {
      assert 0 < last < |name| - 1 && name[last] == '.';
    }
    forall i | 0 < i < |name| - 1 && name[i] == '.' && (forall j :: i < j < |name| ==> name[j] != '.')
      ensures i == last
    {
      assert last >= i;
    }
  }

  /** `_normalize_start_path`. */
  function NormalizeStartPath(fs: FileSystem, filePath: string): (r: Option<Path>)
    ensures filePath == [] ==> r == None
    ensures r.Some? ==> fs.resolve(filePath).Some?
  {
    if filePath == [] then None
    else match fs.resolve(filePath)
      case None => None
      case Some(path) =>
        if fs.Exists(path) then
          (if fs.IsFile(path) then Some(Parent(path)) else Some(path))
        else if HasSuffix(path) then Some(Parent(path))
        else Some(path)
  }

  /** The inner loop: the first marker (in order) that exists in `dir`. */
  function FirstMarker(fs: FileSystem, dir: Path, markers: seq<string>): (r: Option<string>)
    ensures r.Some? ==> r.value in markers && fs.Exists(dir + [r.value])
    ensures r.None? ==> forall m :: m in markers ==> !fs.Exists(dir + [m])
  {
    if markers == [] then None
    else if fs.Exists(dir + [markers[0]]) then Some(markers[0])
    else FirstMarker(fs, dir, markers[1..])
  }

  /** `dir` holds a project marker. */
  predicate HasMarker(fs: FileSystem, dir: Path) {
    exists m :: m in ProjectRootMarkers && fs.Exists(dir + [m])
  }

  /** The outer loop: test `dir`, stop after the root (where
      `candidate == candidate.parent`), else go on with the parent. */
  function SearchFrom(fs: FileSystem, dir: Path): (r: Option<Path>)
    ensures r.Some? ==> |r.value| <= |dir| && r.value == dir[..|r.value|] && HasMarker(fs, r.value)
    decreases |dir|
  {
    if FirstMarker(fs, dir, ProjectRootMarkers).Some? then Some(dir)
    else if dir == Parent(dir) then None
    else SearchFrom(fs, Parent(dir))
  }

  /** `str(path)` for a POSIX path. */
  function Render(p: Path): string {
    "/" + Join("/", p)
  }

  /** `find_project_root(file_path)`. */
  function FindProjectRoot(fs: FileSystem, filePath: Option<string>): (r: Option<string>)
    ensures filePath == None || filePath == Some("") ==> r == None
  {
    var start := if filePath.Some? then NormalizeStartPath(fs, filePath.value) else None;
    match start
    case None => None
    case Some(dir) =>
      match SearchFrom(fs, dir)
      case None => None
      case Some(root) => Some(Render(root))
  }

  /** The inner loop finds a marker exactly when the directory holds one. */
  lemma FirstMarkerFinds(fs: FileSystem, dir: Path)
    ensures FirstMarker(fs, dir, ProjectRootMarkers).Some? <==> HasMarker(fs, dir)
  {
    var r := FirstMarker(fs, dir, ProjectRootMarkers);
    if r.Some? {
      assert r.value in ProjectRootMarkers && fs.Exists(dir + [r.value]);
    }
  }

  /** No ancestor-or-self of `dir` deeper than `depth` components holds a marker. */
  predicate NoMarkerBelow(fs: FileSystem, dir: Path, depth: int) {
    forall i :: 0 <= i <= |dir| && depth < i ==> !HasMarker(fs, dir[..i])
  }

  /** A directory without a marker adds nothing to what its parent's
      ancestors-or-self hold. */
  lemma PrefixesOfParent(fs: FileSystem, dir: Path)
    requires dir != [] && !HasMarker(fs, dir)
    ensures forall depth :: NoMarkerBelow(fs, Parent(dir), depth) ==> NoMarkerBelow(fs, dir, depth)
    ensures forall j :: 0 <= j <= |Parent(dir)| ==> Parent(dir)[..j] == dir[..j]
  {
    var up := Parent(dir);
    assert dir[..|dir|] == dir;
    forall depth | NoMarkerBelow(fs, up, depth) ensures NoMarkerBelow(fs, dir, depth) {
      forall i | 0 <= i <= |dir| && depth < i ensures !HasMarker(fs, dir[..i]) {
        if i < |dir| {
          assert up[..i] == dir[..i];
        }
      }
    }
  }

  /** The search finds the nearest ancestor-or-self of `dir` (its longest
      prefix) that holds a marker, and nothing when none does. */
  lemma {:induction false} SearchFromNearest(fs: FileSystem, dir: Path)
    ensures SearchFrom(fs, dir).Some? ==>
      var root := SearchFrom(fs, dir).value;
      |root| <= |dir| && root == dir[..|root|] && HasMarker(fs, root) && NoMarkerBelow(fs, dir, |root|)
    ensures SearchFrom(fs, dir).None? <==> NoMarkerBelow(fs, dir, -1)
    decreases |dir|
  {
    FirstMarkerFinds(fs, dir);
    assert dir[..|dir|] == dir;
    if HasMarker(fs, dir) {
      assert SearchFrom(fs, dir) == Some(dir);
    } else if dir == [] {
      assert SearchFrom(fs, dir) == None;
      assert NoMarkerBelow(fs, dir, -1);
    } else {
      var up := Parent(dir);
      assert SearchFrom(fs, dir) == SearchFrom(fs, up);
      SearchFromNearest(fs, up);
      PrefixesOfParent(fs, dir);
    }
  }

  /** The same in terms of `_candidate_directories`: the result is the first
      candidate that holds a marker, and None means no candidate holds one. */
  lemma SearchFromFirstCandidate(fs: FileSystem, dir: Path)
    ensures SearchFrom(fs, dir).Some? ==>
      var k := |dir| - |SearchFrom(fs, dir).value|;
      0 <= k < |Candidates(dir)| && SearchFrom(fs, dir).value == Candidates(dir)[k]
      && HasMarker(fs, Candidates(dir)[k])
      && forall l :: 0 <= l < k ==> !HasMarker(fs, Candidates(dir)[l])
    ensures SearchFrom(fs, dir).None? <==>
      forall k :: 0 <= k < |Candidates(dir)| ==> !HasMarker(fs, Candidates(dir)[k])
  {
    var c := Candidates(dir);
    SearchFromNearest(fs, dir);
    assert forall l :: 0 <= l < |c| ==> c[l] == dir[..|dir| - l];
    if forall k :: 0 <= k < |c| ==> !HasMarker(fs, c[k]) {
      forall i | 0 <= i <= |dir| ensures !HasMarker(fs, dir[..i]) {
        assert c[|dir| - i] == dir[..i];
      }
    }
  }

  /** A marker in an ancestor-or-self is never skipped: the search stops at
      it or at a nearer one (the outer/inner example of the tests). */
  lemma NearestWins(fs: FileSystem, dir: Path, depth: nat)
    requires depth <= |dir| && HasMarker(fs, dir[..depth])
    ensures SearchFrom(fs, dir).Some?
    ensures |SearchFrom(fs, dir).value| >= depth
  {
    SearchFromNearest(fs, dir);
  }

  /** The start directory is the resolved path or its parent; it is the
      path itself exactly when that is an existing directory, or a missing
      path whose name has no suffix. */
  lemma StartDirectory(fs: FileSystem, filePath: string)
    requires filePath != [] && fs.resolve(filePath).Some?
    ensures var path := fs.resolve(filePath).value;
      NormalizeStartPath(fs, filePath) == Some(Parent(path))
      || NormalizeStartPath(fs, filePath) == Some(path)
    ensures var path := fs.resolve(filePath).value;
      (fs.Exists(path) && !fs.IsFile(path)) || (!fs.Exists(path) && !HasSuffix(path))
      ==> NormalizeStartPath(fs, filePath) == Some(path)
    ensures var path := fs.resolve(filePath).value;
      fs.IsFile(path) || (!fs.Exists(path) && HasSuffix(path))
      ==> NormalizeStartPath(fs, filePath) == Some(Parent(path))
  {
  }

  /** With no marker in any candidate, `find_project_root` finds nothing. */
  lemma NoMarkerNoRoot(fs: FileSystem, filePath: string)
    requires NormalizeStartPath(fs, filePath).Some?
    requires var dir := NormalizeStartPath(fs, filePath).value;
      forall k :: 0 <= k < |Candidates(dir)| ==> !HasMarker(fs, Candidates(dir)[k])
    ensures FindProjectRoot(fs, Some(filePath)) == None
  {
    SearchFromFirstCandidate(fs, NormalizeStartPath(fs, filePath).value);
  }

  /** A result of `find_project_root` is the rendering of a candidate that
      holds a marker. */
  lemma FoundRootHasMarker(fs: FileSystem, filePath: string)
    requires FindProjectRoot(fs, Some(filePath)).Some?
    ensures NormalizeStartPath(fs, filePath).Some?
    ensures var dir := NormalizeStartPath(fs, filePath).value;
      SearchFrom(fs, dir).Some?
      && SearchFrom(fs, dir).value in Candidates(dir)
      && HasMarker(fs, SearchFrom(fs, dir).value)
      && FindProjectRoot(fs, Some(filePath)) == Some(Render(SearchFrom(fs, dir).value))
  {
    var dir := NormalizeStartPath(fs, filePath).value;
    SearchFromFirstCandidate(fs, dir);
  }

  /** `path.name` of a parsed string: the last component that is neither
      empty nor ".", or "" when there is none (the root). */
  function ParsedName(s: string): string {
    var parts := Components(Split(s, '/'));
    if parts == [] then "" else parts[|parts| - 1]
  }

  /** The components `Path(s)` keeps from the '/'-separated pieces. */
  function Components(pieces: seq<string>): (r: seq<string>)
    ensures forall k :: 0 <= k < |r| ==> r[k] != "" && r[k] != "."
  {
    if pieces == [] then []
    else if pieces[0] == "" || pieces[0] == "." then Components(pieces[1..])
    else [pieces[0]] + Components(pieces[1..])
  }

  /** `extract_project_name`. */
  function ExtractProjectName(projectPath: Option<string>): (r: string)
    ensures projectPath == None || projectPath == Some("") ==> r == ""
  {
    if projectPath == None || projectPath.value == [] then ""
    else ParsedName(projectPath.value)
  }

  /** A component as the filesystem can hold it. */
  predicate IsComponent(c: string) {
    c != "" && c != "." && '/' !in c
  }

  lemma {:induction false} ComponentsOf(p: Path)
    requires forall k :: 0 <= k < |p| ==> IsComponent(p[k])
    ensures Components(p) == p
  {
    if p != [] {
      ComponentsOf(p[1..]);
    }
  }

  /** The name extracted from a rendered path is its last component: what
      `find_project_root` returns, `extract_project_name` names. */
  lemma NameOfRendered(p: Path)
    requires p != []
    requires forall k :: 0 <= k < |p| ==> IsComponent(p[k])
    ensures ExtractProjectName(Some(Render(p))) == p[|p| - 1]
  {
    var joined := Join("/", p);
    SplitJoin(p, '/');
    SplitAfter([], joined, '/');
    assert Render(p) == [] + ['/'] + joined;
    ComponentsOf(p);
    assert Components(Split(Render(p), '/')) == Components([""] + p);
    assert ([""] + p)[1..] == p;
  }

  /** The example of the tests: "/Users/user/projects/AuroraKB" is named "AuroraKB". */
  lemma NameExample()
    ensures ExtractProjectName(Some(Render(["Users", "user", "projects", "AuroraKB"]))) == "AuroraKB"
  {
    var p := ["Users", "user", "projects", "AuroraKB"];
    forall k | 0 <= k < |p| ensures IsComponent(p[k]) {
    }
    NameOfRendered(p);
  }

  /** `is_same_project`. */
  function IsSameProject(fs: FileSystem, path1: Option<string>, path2: Option<string>): (r: bool)
    ensures r ==> path1.Some? && path1.value != [] && path2.Some? && path2.value != []
    ensures r <==> path1.Some? && path1.value != [] && path2.Some? && path2.value != []
                   && fs.resolve(path1.value).Some? && fs.resolve(path1.value) == fs.resolve(path2.value)
  {
    if path1 == None || path1.value == [] || path2 == None || path2.value == [] then false
    else match (fs.resolve(path1.value), fs.resolve(path2.value))
      case (Some(a), Some(b)) => a == b
      case _ => false
  }

  /** The relation is symmetric, and reflexive on every non-empty path
      that resolves. */
  lemma SameProjectSymmetric(fs: FileSystem, path1: Option<string>, path2: Option<string>)
    ensures IsSameProject(fs, path1, path2) == IsSameProject(fs, path2, path1)
  {
  }

  lemma SameProjectReflexive(fs: FileSystem, path: string)
    requires path != [] && fs.resolve(path).Some?
    ensures IsSameProject(fs, Some(path), Some(path))
  {
  }
}
