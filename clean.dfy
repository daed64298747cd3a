/** Removing build artifacts: object files, binaries and library archives.
    Removal is best effort; a file that cannot be removed is skipped. */
module Cleaning {
  import opened Paths
  import opened Project

  /** The object files of some compilation targets. */
  function ObjectFiles(ts: set<Target>): set<Path>
  {
    set t | t in ts :: t.objectFile
  }

  /** The output paths of some binaries. */
  function BinaryFiles(bins: seq<Binary>): set<Path>
  {
    set b | b in bins :: BinaryPath(b)
  }

  /** The shared objects and static archives of some libraries. */
  function LibraryFiles(libs: seq<Library>): set<Path>
  {
    (set l | l in libs :: l.dynamicFile) + (set l | l in libs :: l.staticFile)
  }

  /** Every artifact path a build description names. */
  function CleanTargets(bf: BuildFile): set<Path>
  {
    ObjectFiles(bf.project.fileModMap.Keys)
      + (if bf.binaries.None? then {} else BinaryFiles(bf.binaries.value))
      + (if bf.libraries.None? then {} else LibraryFiles(bf.libraries.value))
  }

  lemma ObjectFilesAdd(ts: set<Target>, t: Target)
    ensures ObjectFiles(ts + {t}) == ObjectFiles(ts) + {t.objectFile}
  {
  }

  lemma BinaryFilesSnoc(bins: seq<Binary>, i: int)
    requires 0 <= i < |bins|
    ensures BinaryFiles(bins[..i + 1]) == BinaryFiles(bins[..i]) + {BinaryPath(bins[i])}
  {
    assert bins[..i + 1] == bins[..i] + [bins[i]];
  }

  lemma LibraryFilesSnoc(libs: seq<Library>, i: int)
    requires 0 <= i < |libs|
    ensures LibraryFiles(libs[..i + 1]) == LibraryFiles(libs[..i]) + {libs[i].dynamicFile} + {libs[i].staticFile}
  {
    assert libs[..i + 1] == libs[..i] + [libs[i]];
  }

  /** The filesystem once every removable path of `targets` is gone; the rest
      is left as it was. `removable` tells whether removing a path succeeds. */
  function Cleaned(fs: FileSystem, targets: set<Path>, removable: Path -> bool): (r: FileSystem)
    ensures forall q :: q in r <==> q in fs && !(q in targets && removable(q))
    ensures forall q :: q in r ==> r[q] == fs[q]
  {
    map q | q in fs && !(q in targets && removable(q)) :: fs[q]
  }

  predicate Distinct(s: seq<Path>)
  {
    forall i, j :: 0 <= i < j < |s| ==> s[i] != s[j]
  }

  /** The state of a cleaning run once the paths in `done` were tried. */
  ghost predicate CleanedSoFar(fs0: FileSystem, done: set<Path>, removable: Path -> bool, fs: FileSystem, removed: seq<Path>)
  {
    fs == Cleaned(fs0, done, removable)
    && (forall q :: q in removed <==> q in fs0 && q in done && removable(q))
    && Distinct(removed)
  }

  /** One attempt: remove `p` if it exists and removal succeeds. */
  method TryRemove(ghost fs0: FileSystem, ghost done: set<Path>, removable: Path -> bool,
                   fs: FileSystem, removed: seq<Path>, p: Path)
    returns (fs': FileSystem, removed': seq<Path>)
    requires CleanedSoFar(fs0, done, removable, fs, removed)
    ensures CleanedSoFar(fs0, done + {p}, removable, fs', removed')
  {
    if p in fs && removable(p) {
      fs', removed' := map q | q in fs && q != p :: fs[q], removed + [p];
      assert fs' == Cleaned(fs0, done + {p}, removable);
      forall i, j | 0 <= i < j < |removed'|
        ensures removed'[i] != removed'[j]
      {
        if j == |removed| {
          assert removed'[i] in removed;
        }
      }
    } else {
      fs', removed' := fs, removed;
      assert fs' == Cleaned(fs0, done + {p}, removable);
    }
  }

  /** The object-file pass of `clean`, over the targets in any order. */
  method CleanObjects(ts: set<Target>, ghost fs0: FileSystem, ghost done0: set<Path>, removable: Path -> bool,
                      fs: FileSystem, removed: seq<Path>)
    returns (fs': FileSystem, removed': seq<Path>)
    requires CleanedSoFar(fs0, done0, removable, fs, removed)
    ensures CleanedSoFar(fs0, done0 + ObjectFiles(ts), removable, fs', removed')
  {
    fs', removed' := fs, removed;
    var remaining := ts;
    assert done0 + ObjectFiles(ts - remaining) == done0;
    while remaining != {}
      invariant remaining <= ts
      invariant CleanedSoFar(fs0, done0 + ObjectFiles(ts - remaining), removable, fs', removed')
      decreases |remaining|
    {
      var t :| t in remaining;
      fs', removed' := TryRemove(fs0, done0 + ObjectFiles(ts - remaining), removable, fs', removed', t.objectFile);
      ObjectFilesAdd(ts - remaining, t);
      assert ts - (remaining - {t}) == (ts - remaining) + {t};
      remaining := remaining - {t};
    }
    assert ts - remaining == ts;
  }

  /** The binary pass of `clean`, in declaration order. */
  method CleanBinaries(bins: seq<Binary>, ghost fs0: FileSystem, ghost done0: set<Path>, removable: Path -> bool,
                       fs: FileSystem, removed: seq<Path>)
    returns (fs': FileSystem, removed': seq<Path>)
    requires CleanedSoFar(fs0, done0, removable, fs, removed)
    ensures CleanedSoFar(fs0, done0 + BinaryFiles(bins), removable, fs', removed')
  {
    fs', removed' := fs, removed;
    assert done0 + BinaryFiles(bins[..0]) == done0;
    for i := 0 to |bins|
      invariant CleanedSoFar(fs0, done0 + BinaryFiles(bins[..i]), removable, fs', removed')
    {
      fs', removed' := TryRemove(fs0, done0 + BinaryFiles(bins[..i]), removable, fs', removed', BinaryPath(bins[i]));
      BinaryFilesSnoc(bins, i);
    }
    assert bins[..|bins|] == bins;
  }

  /** The library pass of `clean`: each library's shared object, then its
      static archive. */
  method CleanLibraries(libs: seq<Library>, ghost fs0: FileSystem, ghost done0: set<Path>, removable: Path -> bool,
                        fs: FileSystem, removed: seq<Path>)
    returns (fs': FileSystem, removed': seq<Path>)
    requires CleanedSoFar(fs0, done0, removable, fs, removed)
    ensures CleanedSoFar(fs0, done0 + LibraryFiles(libs), removable, fs', removed')
  {
    fs', removed' := fs, removed;
    assert done0 + LibraryFiles(libs[..0]) == done0;
    for i := 0 to |libs|
      invariant CleanedSoFar(fs0, done0 + LibraryFiles(libs[..i]), removable, fs', removed')
    {
      ghost var done := done0 + LibraryFiles(libs[..i]);
      fs', removed' := TryRemove(fs0, done, removable, fs', removed', libs[i].dynamicFile);
      fs', removed' := TryRemove(fs0, done + {libs[i].dynamicFile}, removable, fs', removed', libs[i].staticFile);
      LibraryFilesSnoc(libs, i);
      assert done0 + LibraryFiles(libs[..i + 1]) == done + {libs[i].dynamicFile} + {libs[i].staticFile};
    }
    assert libs[..|libs|] == libs;
  }

  /** `clean`: tries every object file, then every binary, then each library's
      shared object and static archive. It always succeeds; afterwards every
      named artifact that could be removed is gone, everything else is
      untouched, and `removed` lists each removed path once. */
  method Clean(bf: BuildFile, fs0: FileSystem, removable: Path -> bool)
    returns (r: Result<()>, fs: FileSystem, removed: seq<Path>)
    ensures r == Ok(())
    ensures fs == Cleaned(fs0, CleanTargets(bf), removable)
    ensures forall q :: q in removed <==> q in fs0 && q in CleanTargets(bf) && removable(q)
    ensures Distinct(removed)
  {
    assert fs0 == Cleaned(fs0, {}, removable);
    fs, removed := CleanObjects(bf.project.fileModMap.Keys, fs0, {}, removable, fs0, []);
    ghost var done := {} + ObjectFiles(bf.project.fileModMap.Keys);
    if bf.binaries.Some? {
      fs, removed := CleanBinaries(bf.binaries.value, fs0, done, removable, fs, removed);
      done := done + BinaryFiles(bf.binaries.value);
    }
    if bf.libraries.Some? {
      fs, removed := CleanLibraries(bf.libraries.value, fs0, done, removable, fs, removed);
      done := done + LibraryFiles(bf.libraries.value);
    }
    assert done == CleanTargets(bf);
    r := Ok(());
  }

  /** Cleaning is idempotent: a second run finds nothing more to remove. */
  lemma CleanIdempotent(fs: FileSystem, targets: set<Path>, removable: Path -> bool)
    ensures Cleaned(Cleaned(fs, targets, removable), targets, removable) == Cleaned(fs, targets, removable)
    ensures forall q :: !(q in Cleaned(fs, targets, removable) && q in targets && removable(q))
  {
  }
}
