/** Locating the build description: starting from a directory, each ancestor
    in turn (nearest first) is checked for the file name the naming convention
    assumes for it, up to the last ancestor `pop` reaches. */
module Discovery {
  import opened Paths
  import opened Project

  /** `check_dir`: the assumed description file of `dir`, when the convention
      gives a name for `dir` and that file exists. `assumed` is the naming
      convention, which belongs to another module. */
  function CheckDir(fs: FileSystem, assumed: Path -> Option<Path>, dir: Path): (r: Option<Path>)
    ensures r.Some? <==> assumed(dir).Some? && Join(dir, assumed(dir).value) in fs
    ensures r.Some? ==> r.value == Join(dir, assumed(dir).value)
  {
    if assumed(dir).Some? && Join(dir, assumed(dir).value) in fs then Some(Join(dir, assumed(dir).value)) else None
  }

  /** The length of the nearest ancestor of `start`, no longer than `k`
      components, whose description file exists; the ancestors considered are
      the prefixes of `start` down to the last one `pop` reaches. */
  function Nearest(fs: FileSystem, assumed: Path -> Option<Path>, start: Path, k: nat): (r: Option<nat>)
    requires RootLength(start) <= k <= |start|
    ensures r.Some? ==> RootLength(start) <= r.value <= k && CheckDir(fs, assumed, start[..r.value]).Some?
    ensures r.Some? ==> forall j :: r.value < j <= k ==> CheckDir(fs, assumed, start[..j]).None?
    ensures r.None? ==> forall j :: RootLength(start) <= j <= k ==> CheckDir(fs, assumed, start[..j]).None?
    decreases k
  {
    if CheckDir(fs, assumed, start[..k]).Some? then Some(k)
    else if k == RootLength(start) then None
    else Nearest(fs, assumed, start, k - 1)
  }

  /** Where the description was found: the project root, and the file that is
      then opened (the checked path joined onto the root once more). The file
      is opened after the working directory became `root`, so a relative
      `file` is resolved from `root`. */
  datatype Found = Found(root: Path, file: Path)

  /** `find_build_file`, up to parsing the description. The walk stops at the
      nearest ancestor that has its description file; entering that directory
      may fail (`canEnter`); when no ancestor has one, the error carries the
      starting directory. The caller's directory is popped in place: `dir` is
      where the walk stopped, the found directory or the last ancestor `pop`
      reached. */
  method FindBuildFile(start: Path, fs: FileSystem, assumed: Path -> Option<Path>, canEnter: Path -> bool)
    returns (r: Result<Found>, dir: Path)
    ensures Nearest(fs, assumed, start, |start|).None? ==>
      r == Err(NoAssumedToml(start)) && dir == start[..RootLength(start)]
    ensures Nearest(fs, assumed, start, |start|).Some? ==>
      var root := start[..Nearest(fs, assumed, start, |start|).value];
      dir == root &&
      r == if canEnter(root) then Ok(Found(root, Join(root, CheckDir(fs, assumed, root).value))) else Err(Io)
  {
    dir := start;
    while true
      invariant RootLength(start) <= |dir| <= |start| && dir == start[..|dir|]
      invariant Nearest(fs, assumed, start, |start|) == Nearest(fs, assumed, start, |dir|)
      decreases |dir|
    {
      var filepath := CheckDir(fs, assumed, dir);
      if filepath.Some? {
        if !canEnter(dir) {
          return Err(Io), dir;
        }
        return Ok(Found(dir, Join(dir, filepath.value))), dir;
      }
      if !HasParent(dir) {
        break;
      }
      assert |dir| > RootLength(start) by {
        if IsAbsolute(start) {
          assert dir[..1] == [Root];
        }
      }
      dir := Parent(dir);
    }
    assert |dir| == RootLength(start) by {
      if |dir| > 0 {
        assert dir == [Root];
        assert start[0] == Root;
      }
    }
    return Err(NoAssumedToml(start)), dir;
  }

  /** From an absolute starting directory, the found file is exactly the path
      that was checked, since joining an absolute path replaces the root. */
  lemma AbsoluteStartOpensCheckedFile(fs: FileSystem, assumed: Path -> Option<Path>, start: Path)
    requires IsAbsolute(start)
    requires Nearest(fs, assumed, start, |start|).Some?
    ensures var root := start[..Nearest(fs, assumed, start, |start|).value];
      IsAbsolute(CheckDir(fs, assumed, root).value)
      && Join(root, CheckDir(fs, assumed, root).value) == CheckDir(fs, assumed, root).value
  {
    var root := start[..Nearest(fs, assumed, start, |start|).value];
    var a := assumed(root).value;
    assert root[0] == Root;
    if !IsAbsolute(a) {
      assert Join(root, a)[..|root|] == root;
      assert Join(root, a)[0] == root[0];
    }
  }

  /** The search prefers the nearest ancestor: a description in the starting
      directory is found even when its parent has one too. */
  lemma NearestAncestorWins(fs: FileSystem, assumed: Path -> Option<Path>, start: Path)
    requires RootLength(start) < |start|
    requires CheckDir(fs, assumed, start).Some?
    requires CheckDir(fs, assumed, start[..|start| - 1]).Some?
    ensures Nearest(fs, assumed, start, |start|) == Some(|start|)
  {
    assert start[..|start|] == start;
  }

  /** A description only in the parent directory is found there. */
  lemma ParentFoundWhenStartHasNone(fs: FileSystem, assumed: Path -> Option<Path>, start: Path)
    requires RootLength(start) < |start|
    requires CheckDir(fs, assumed, start).None?
    requires CheckDir(fs, assumed, start[..|start| - 1]).Some?
    ensures Nearest(fs, assumed, start, |start|) == Some(|start| - 1)
  {
    assert start[..|start|] == start;
  }
}
