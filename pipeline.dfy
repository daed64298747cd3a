/** The build pipeline: for each declared output, compile its stale objects and
    then link or archive it; the whole-project build with its scripts; and
    building a single output chosen by name. Every stage acts on the operating
    system through events appended to a history: `env.fs` gives the filesystem
    a stage observes after that history, `env.ok` whether an event succeeded.
    The ghost functions are the specification of each stage; the methods
    follow the source's own control flow and are proved equal to them. */
module Pipeline {
  import opened Paths
  import opened Project
  import opened Commands
  import opened Staleness
  import opened Scheduler

  /** `a` is `b` with some elements left out and the order kept. */
  predicate IsSubsequence<T(==)>(a: seq<T>, b: seq<T>)
    decreases |b|
  {
    if a == [] then true
    else if b == [] then false
    else if a[0] == b[0] then IsSubsequence(a[1..], b[1..])
    else IsSubsequence(a, b[1..])
  }

  /** The binaries whose output path differs from `path`, in declaration order. */
  function Without(bins: seq<Binary>, path: Path): (r: seq<Binary>)
    ensures forall b :: b in r <==> b in bins && BinaryPath(b) != path
    ensures forall b :: multiset(r)[b] == if BinaryPath(b) != path then multiset(bins)[b] else 0
    ensures IsSubsequence(r, bins)
    decreases |bins|
  {
    if bins == [] then []
    else
      assert bins == [bins[0]] + bins[1..];
      if BinaryPath(bins[0]) != path then [bins[0]] + Without(bins[1..], path)
      else
        var r := Without(bins[1..], path);
        assert r != [] ==> r[0] in r;
        r
  }

  /** The exclusion list for linking `binary`: none when the project declares a
      single binary, otherwise every declared binary with another output path,
      whose objects belong to that binary and not to this one. */
  function Exclusion(bins: seq<Binary>, binary: Binary): (r: Option<seq<Binary>>)
    ensures r.None? <==> |bins| == 1
    ensures r.Some? ==> forall b :: b in r.value <==> b in bins && BinaryPath(b) != BinaryPath(binary)
    ensures r.Some? ==>
      forall b :: multiset(r.value)[b] == if BinaryPath(b) != BinaryPath(binary) then multiset(bins)[b] else 0
    ensures r.Some? ==> IsSubsequence(r.value, bins)
  {
    if |bins| == 1 then None else Some(Without(bins, BinaryPath(binary)))
  }

  lemma {:induction false} WithoutKeepsAll(bins: seq<Binary>, path: Path)
    requires forall i :: 0 <= i < |bins| ==> BinaryPath(bins[i]) != path
    ensures Without(bins, path) == bins
    decreases |bins|
  {
    if bins != [] {
      assert BinaryPath(bins[0]) != path;
      WithoutKeepsAll(bins[1..], path);
      assert Without(bins, path) == [bins[0]] + Without(bins[1..], path);
      assert bins == [bins[0]] + bins[1..];
    }
  }

  /** With distinct binary names, the exclusion list for a declared binary of a
      project with several binaries holds all the other binaries. */
  lemma {:induction false} ExclusionOmitsOnlyItself(bins: seq<Binary>, binary: Binary)
    requires binary in bins && |bins| != 1
    requires forall i, j :: 0 <= i < j < |bins| ==> bins[i].name != bins[j].name
    ensures Exclusion(bins, binary).Some?
    ensures |Exclusion(bins, binary).value| == |bins| - 1
    decreases |bins|
  {
    WithoutLength(bins, binary);
  }

  lemma {:induction false} WithoutLength(bins: seq<Binary>, binary: Binary)
    requires binary in bins
    requires forall i, j :: 0 <= i < j < |bins| ==> bins[i].name != bins[j].name
    ensures |Without(bins, BinaryPath(binary))| == |bins| - 1
    decreases |bins|
  {
    if bins[0] == binary {
      forall i | 0 <= i < |bins[1..]|
        ensures BinaryPath(bins[1..][i]) != BinaryPath(binary)
      {
        assert bins[1..][i] == bins[i + 1];
      }
      WithoutKeepsAll(bins[1..], BinaryPath(binary));
    } else {
      assert binary in bins[1..] by {
        var i :| 0 <= i < |bins| && bins[i] == binary;
        assert i > 0 && bins[1..][i - 1] == binary;
      }
      WithoutLength(bins[1..], binary);
    }
  }

  /** The link step of a binary: the object list is composed first (with the
      exclusion list) and a failure there is reported before any command is
      run; otherwise the link command is the one event, and its failure is the
      error. */
  function BuildBinary(bf: BuildFile, binary: Binary, ok: seq<Event> -> bool, trace: seq<Event>): (r: (Result<()>, seq<Event>))
    requires bf.binaries.Some?
    ensures var objects := bf.project.objectList(Exclusion(bf.binaries.value, binary));
      objects.Err? ==> r == (Err(objects.error), trace)
    ensures var objects := bf.project.objectList(Exclusion(bf.binaries.value, binary));
      objects.Ok? ==>
        var link := LinkCommand(bf.project, binary, objects.value);
        r.1 == trace + [Run(link)] && (r.0.Ok? <==> ok(r.1)) && (r.0.Err? ==> r.0.error == CommandFailed(link))
  {
    match bf.project.objectList(Exclusion(bf.binaries.value, binary))
    case Err(e) => (Err(e), trace)
    case Ok(objects) =>
      ExecSingle(ok, trace, Run(LinkCommand(bf.project, binary, objects)));
      Exec(ok, trace, [Run(LinkCommand(bf.project, binary, objects))])
  }

  /** The static archive of a library, from the full object list: a failing
      object list is reported before any command runs; otherwise the archive
      command is the one event, and its failure is the error. */
  function BuildStaticLibrary(p: ProjectDesc, lib: Library, ok: seq<Event> -> bool, trace: seq<Event>): (r: (Result<()>, seq<Event>))
    ensures p.objectList(None).Err? ==> r == (Err(p.objectList(None).error), trace)
    ensures p.objectList(None).Ok? ==>
      var archive := ArchiveCommand(p, lib, p.objectList(None).value);
      r.1 == trace + [Run(archive)] && (r.0.Ok? <==> ok(r.1)) && (r.0.Err? ==> r.0.error == CommandFailed(archive))
  {
    match p.objectList(None)
    case Err(e) => (Err(e), trace)
    case Ok(objects) =>
      ExecSingle(ok, trace, Run(ArchiveCommand(p, lib, objects)));
      Exec(ok, trace, [Run(ArchiveCommand(p, lib, objects))])
  }

  /** The shared object of a library, from the full object list, with the
      same error behaviour. */
  function BuildDynamicLibrary(p: ProjectDesc, lib: Library, ok: seq<Event> -> bool, trace: seq<Event>): (r: (Result<()>, seq<Event>))
    ensures p.objectList(None).Err? ==> r == (Err(p.objectList(None).error), trace)
    ensures p.objectList(None).Ok? ==>
      var shared := SharedCommand(p, lib, p.objectList(None).value);
      r.1 == trace + [Run(shared)] && (r.0.Ok? <==> ok(r.1)) && (r.0.Err? ==> r.0.error == CommandFailed(shared))
  {
    match p.objectList(None)
    case Err(e) => (Err(e), trace)
    case Ok(objects) =>
      ExecSingle(ok, trace, Run(SharedCommand(p, lib, objects)));
      Exec(ok, trace, [Run(SharedCommand(p, lib, objects))])
  }

  /** The commands a library's forms stand for, in the order they are run:
      the archive command first when the library is static, the shared-object
      command last when it is dynamic. */
  function LibraryPlan(p: ProjectDesc, lib: Library, objects: string): (plan: seq<Event>)
    ensures |plan| == (if lib.isStatic then 1 else 0) + (if lib.isDynamic then 1 else 0)
    ensures lib.isStatic ==> plan[0] == Run(ArchiveCommand(p, lib, objects))
    ensures lib.isDynamic ==> plan[|plan| - 1] == Run(SharedCommand(p, lib, objects))
  {
    (if lib.isStatic then [Run(ArchiveCommand(p, lib, objects))] else [])
      + (if lib.isDynamic then [Run(SharedCommand(p, lib, objects))] else [])
  }

  /** `build_library`: the forms a library asks for, the static one first,
      then the dynamic one unless the static one failed. This is running its
      plan, stopping at the first failure; a library asking for neither form
      does nothing; a failing object list fails the first form asked for. */
  function BuildLibrary(p: ProjectDesc, lib: Library, ok: seq<Event> -> bool, trace: seq<Event>): (r: (Result<()>, seq<Event>))
    ensures p.objectList(None).Ok? ==> r == Exec(ok, trace, LibraryPlan(p, lib, p.objectList(None).value))
    ensures p.objectList(None).Err? ==>
      r == if lib.isStatic || lib.isDynamic then (Err(p.objectList(None).error), trace) else (Ok(()), trace)
  {
    var objects := if p.objectList(None).Ok? then p.objectList(None).value else "";
    ExecConcat(ok, trace, if lib.isStatic then [Run(ArchiveCommand(p, lib, objects))] else [],
                          if lib.isDynamic then [Run(SharedCommand(p, lib, objects))] else []);
    var (r1, t1) := if lib.isStatic then BuildStaticLibrary(p, lib, ok, trace) else (Ok(()), trace);
    if r1.Err? then (r1, t1)
    else if lib.isDynamic then BuildDynamicLibrary(p, lib, ok, t1)
    else (Ok(()), t1)
  }

  /** Compiling the stale objects for one output: the queue is computed on the
      filesystem as it is at that point of the history, then scheduled. */
  ghost function CompileStage(p: ProjectDesc, output: Path, jobs: nat, env: Env, trace: seq<Event>): (Result<()>, seq<Event>)
    requires jobs >= 1
  {
    match ObjectQueue(env.fs(trace), output, p.fileModMap)
    case Err(e) => (Err(e), trace)
    case Ok(queue) => Exec(env.ok, trace, Batches(Reverse(queue), jobs))
  }

  /** One binary: its objects, then the link step. */
  ghost function BinaryStage(bf: BuildFile, binary: Binary, jobs: nat, env: Env, trace: seq<Event>): (Result<()>, seq<Event>)
    requires jobs >= 1 && bf.binaries.Some?
  {
    var (r, t) := CompileStage(bf.project, BinaryPath(binary), jobs, env, trace);
    if r.Err? then (r, t) else BuildBinary(bf, binary, env.ok, t)
  }

  /** One library: its objects, then its forms. */
  ghost function LibraryStage(bf: BuildFile, lib: Library, jobs: nat, env: Env, trace: seq<Event>): (Result<()>, seq<Event>)
    requires jobs >= 1
  {
    var (r, t) := CompileStage(bf.project, lib.path, jobs, env, trace);
    if r.Err? then (r, t) else BuildLibrary(bf.project, lib, env.ok, t)
  }

  /** The given binaries one after another, stopping at the first failure. */
  ghost function BinariesFrom(bf: BuildFile, bins: seq<Binary>, jobs: nat, env: Env, trace: seq<Event>): (Result<()>, seq<Event>)
    requires jobs >= 1 && bf.binaries.Some?
    decreases |bins|
  {
    if bins == [] then (Ok(()), trace)
    else
      var (r, t) := BinaryStage(bf, bins[0], jobs, env, trace);
      if r.Err? then (r, t) else BinariesFrom(bf, bins[1..], jobs, env, t)
  }

  /** The given libraries one after another, stopping at the first failure. */
  ghost function LibrariesFrom(bf: BuildFile, libs: seq<Library>, jobs: nat, env: Env, trace: seq<Event>): (Result<()>, seq<Event>)
    requires jobs >= 1
    decreases |libs|
  {
    if libs == [] then (Ok(()), trace)
    else
      var (r, t) := LibraryStage(bf, libs[0], jobs, env, trace);
      if r.Err? then (r, t) else LibrariesFrom(bf, libs[1..], jobs, env, t)
  }

  /** Every declared binary, or nothing when the section is absent. */
  ghost function AllBinaries(bf: BuildFile, jobs: nat, env: Env, trace: seq<Event>): (Result<()>, seq<Event>)
    requires jobs >= 1
  {
    if bf.binaries.None? then (Ok(()), trace) else BinariesFrom(bf, bf.binaries.value, jobs, env, trace)
  }

  /** Every declared library, or nothing when the section is absent. */
  ghost function AllLibraries(bf: BuildFile, jobs: nat, env: Env, trace: seq<Event>): (Result<()>, seq<Event>)
    requires jobs >= 1
  {
    if bf.libraries.None? then (Ok(()), trace) else LibrariesFrom(bf, bf.libraries.value, jobs, env, trace)
  }

  /** A build script, when one is configured. */
  function RunScript(script: Option<string>, ok: seq<Event> -> bool, trace: seq<Event>): (Result<()>, seq<Event>)
  {
    if script.None? then (Ok(()), trace) else Exec(ok, trace, [Script(script.value)])
  }

  /** The whole build: before-script, binaries, libraries, after-script, each
      stage starting only when the previous one succeeded. Every stage only
      appends to the history. */
  ghost function BuildSpec(bf: BuildFile, jobs: nat, env: Env, trace: seq<Event>): (r: (Result<()>, seq<Event>))
    requires jobs >= 1
    ensures Extends(r.1, trace)
  {
    var (r1, t1) := RunScript(bf.project.beforeScript, env.ok, trace);
    RunScriptExtends(bf.project.beforeScript, env.ok, trace);
    AfterBeforeScriptExtends(bf, jobs, env, t1);
    if r1.Err? then (r1, t1) else
    var (r2, t2) := AllBinaries(bf, jobs, env, t1);
    ExtendsTransitive(t2, t1, trace);
    if r2.Err? then (r2, t2) else
    var (r3, t3) := AllLibraries(bf, jobs, env, t2);
    ExtendsTransitive(t3, t1, trace);
    if r3.Err? then (r3, t3) else
    ExtendsTransitive(RunScript(bf.project.afterScript, env.ok, t3).1, t1, trace);
    RunScript(bf.project.afterScript, env.ok, t3)
  }

  lemma RunScriptExtends(script: Option<string>, ok: seq<Event> -> bool, trace: seq<Event>)
    ensures Extends(RunScript(script, ok, trace).1, trace)
  {
    assert trace[..|trace|] == trace;
    if script.Some? {
      ExecExtends(ok, trace, [Script(script.value)]);
    }
  }

  /** The index of the first element with the given name. */
  function FirstNamed<T>(s: seq<T>, nameOf: T -> string, name: string): (r: Option<nat>)
    ensures r.Some? ==> r.value < |s| && nameOf(s[r.value]) == name
                        && forall j :: 0 <= j < r.value ==> nameOf(s[j]) != name
    ensures r.None? ==> forall j :: 0 <= j < |s| ==> nameOf(s[j]) != name
    decreases |s|
  {
    if s == [] then None
    else if nameOf(s[0]) == name then Some(0)
    else
      match FirstNamed(s[1..], nameOf, name)
      case None => None
      case Some(i) => Some(i + 1)
  }

  function BinaryName(b: Binary): string { b.name }

  function LibraryName(l: Library): string { l.name }

  /** Building one binary by name, as the source does it: an absent section is
      reported, but a present section without that name does nothing. */
  ghost function BinaryWithNameAsWritten(bf: BuildFile, name: string, jobs: nat, env: Env, trace: seq<Event>): (r: (Result<()>, seq<Event>))
    requires jobs >= 1
    ensures bf.binaries.None? ==> r == (Err(TargetNotFound("binary", name)), trace)
    ensures bf.binaries.Some? && (forall j :: 0 <= j < |bf.binaries.value| ==> bf.binaries.value[j].name != name)
            ==> r == (Ok(()), trace)
    ensures bf.binaries.Some? && FirstNamed(bf.binaries.value, BinaryName, name).Some? ==>
            var i := FirstNamed(bf.binaries.value, BinaryName, name).value;
            bf.binaries.value[i].name == name && r == BinaryStage(bf, bf.binaries.value[i], jobs, env, trace)
  {
    if bf.binaries.None? then (Err(TargetNotFound("binary", name)), trace)
    else
      match FirstNamed(bf.binaries.value, BinaryName, name)
      case None => (Ok(()), trace)
      case Some(i) => BinaryStage(bf, bf.binaries.value[i], jobs, env, trace)
  }

  /** Building one library by name, as the source does it. */
  ghost function LibraryWithNameAsWritten(bf: BuildFile, name: string, jobs: nat, env: Env, trace: seq<Event>): (r: (Result<()>, seq<Event>))
    requires jobs >= 1
    ensures bf.libraries.None? ==> r == (Err(TargetNotFound("library", name)), trace)
    ensures bf.libraries.Some? && (forall j :: 0 <= j < |bf.libraries.value| ==> bf.libraries.value[j].name != name)
            ==> r == (Ok(()), trace)
    ensures bf.libraries.Some? && FirstNamed(bf.libraries.value, LibraryName, name).Some? ==>
            var i := FirstNamed(bf.libraries.value, LibraryName, name).value;
            bf.libraries.value[i].name == name && r == LibraryStage(bf, bf.libraries.value[i], jobs, env, trace)
  {
    if bf.libraries.None? then (Err(TargetNotFound("library", name)), trace)
    else
      match FirstNamed(bf.libraries.value, LibraryName, name)
      case None => (Ok(()), trace)
      case Some(i) => LibraryStage(bf, bf.libraries.value[i], jobs, env, trace)
  }

  /** Building one binary by name: a binary that is not declared, whether or
      not the section exists, is reported and nothing is done; otherwise the
      first binary with that name is built. */
  ghost function BinaryWithName(bf: BuildFile, name: string, jobs: nat, env: Env, trace: seq<Event>): (r: (Result<()>, seq<Event>))
    requires jobs >= 1
    ensures (bf.binaries.None? || forall j :: 0 <= j < |bf.binaries.value| ==> bf.binaries.value[j].name != name)
            ==> r == (Err(TargetNotFound("binary", name)), trace)
    ensures bf.binaries.Some? && FirstNamed(bf.binaries.value, BinaryName, name).Some? ==>
            var i := FirstNamed(bf.binaries.value, BinaryName, name).value;
            bf.binaries.value[i].name == name && r == BinaryStage(bf, bf.binaries.value[i], jobs, env, trace)
  {
    if bf.binaries.None? then (Err(TargetNotFound("binary", name)), trace)
    else
      match FirstNamed(bf.binaries.value, BinaryName, name)
      case None => (Err(TargetNotFound("binary", name)), trace)
      case Some(i) => BinaryStage(bf, bf.binaries.value[i], jobs, env, trace)
  }

  /** Building one library by name, reporting a library that is not declared. */
  ghost function LibraryWithName(bf: BuildFile, name: string, jobs: nat, env: Env, trace: seq<Event>): (r: (Result<()>, seq<Event>))
    requires jobs >= 1
    ensures (bf.libraries.None? || forall j :: 0 <= j < |bf.libraries.value| ==> bf.libraries.value[j].name != name)
            ==> r == (Err(TargetNotFound("library", name)), trace)
    ensures bf.libraries.Some? && FirstNamed(bf.libraries.value, LibraryName, name).Some? ==>
            var i := FirstNamed(bf.libraries.value, LibraryName, name).value;
            bf.libraries.value[i].name == name && r == LibraryStage(bf, bf.libraries.value[i], jobs, env, trace)
  {
    if bf.libraries.None? then (Err(TargetNotFound("library", name)), trace)
    else
      match FirstNamed(bf.libraries.value, LibraryName, name)
      case None => (Err(TargetNotFound("library", name)), trace)
      case Some(i) => LibraryStage(bf, bf.libraries.value[i], jobs, env, trace)
  }

  /** As written, asking for a binary the present section does not declare
      succeeds without doing anything, where a not-found error is meant. */
  lemma AsWrittenMissingBinaryIsOk(p: ProjectDesc, jobs: nat, env: Env, trace: seq<Event>)
    requires jobs >= 1
    ensures var bf := BuildFile(p, Some([Binary("app")]), None);
      BinaryWithNameAsWritten(bf, "tool", jobs, env, trace) == (Ok(()), trace)
      && BinaryWithName(bf, "tool", jobs, env, trace) == (Err(TargetNotFound("binary", "tool")), trace)
  {
    var bf := BuildFile(p, Some([Binary("app")]), None);
    assert BinaryName(bf.binaries.value[0]) != "tool";
  }

  /** The same discrepancy for libraries. */
  lemma AsWrittenMissingLibraryIsOk(p: ProjectDesc, lib: Library, jobs: nat, env: Env, trace: seq<Event>)
    requires jobs >= 1 && lib.name == "core"
    ensures var bf := BuildFile(p, None, Some([lib]));
      LibraryWithNameAsWritten(bf, "util", jobs, env, trace) == (Ok(()), trace)
      && LibraryWithName(bf, "util", jobs, env, trace) == (Err(TargetNotFound("library", "util")), trace)
  {
    var bf := BuildFile(p, None, Some([lib]));
    assert LibraryName(bf.libraries.value[0]) != "util";
  }

  /** The name functions agree wherever the name is declared. */
  lemma WithNameAgreesWhenDeclared(bf: BuildFile, name: string, jobs: nat, env: Env, trace: seq<Event>)
    requires jobs >= 1
    ensures (bf.binaries.Some? && exists j :: 0 <= j < |bf.binaries.value| && bf.binaries.value[j].name == name) ==>
      BinaryWithName(bf, name, jobs, env, trace) == BinaryWithNameAsWritten(bf, name, jobs, env, trace)
    ensures (bf.libraries.Some? && exists j :: 0 <= j < |bf.libraries.value| && bf.libraries.value[j].name == name) ==>
      LibraryWithName(bf, name, jobs, env, trace) == LibraryWithNameAsWritten(bf, name, jobs, env, trace)
  {
  }

  /** A binary is linked only after every stale object was compiled and waited
      for: when the queue and the object list are available, the binary's
      events are the compile schedule followed by the link command. */
  lemma BinaryStageLinksAfterCompiling(bf: BuildFile, binary: Binary, jobs: nat, env: Env, trace: seq<Event>)
    requires jobs >= 1 && bf.binaries.Some?
    requires ObjectQueue(env.fs(trace), BinaryPath(binary), bf.project.fileModMap).Ok?
    requires bf.project.objectList(Exclusion(bf.binaries.value, binary)).Ok?
    ensures var queue := ObjectQueue(env.fs(trace), BinaryPath(binary), bf.project.fileModMap).value;
      var objects := bf.project.objectList(Exclusion(bf.binaries.value, binary)).value;
      BinaryStage(bf, binary, jobs, env, trace) ==
        Exec(env.ok, trace, Batches(Reverse(queue), jobs) + [Run(LinkCommand(bf.project, binary, objects))])
  {
    var queue := ObjectQueue(env.fs(trace), BinaryPath(binary), bf.project.fileModMap).value;
    var objects := bf.project.objectList(Exclusion(bf.binaries.value, binary)).value;
    ExecConcat(env.ok, trace, Batches(Reverse(queue), jobs), [Run(LinkCommand(bf.project, binary, objects))]);
  }

  /** A library's forms are built only after every stale object was compiled
      and waited for. */
  lemma LibraryStageArchivesAfterCompiling(bf: BuildFile, lib: Library, jobs: nat, env: Env, trace: seq<Event>)
    requires jobs >= 1
    requires ObjectQueue(env.fs(trace), lib.path, bf.project.fileModMap).Ok?
    requires bf.project.objectList(None).Ok?
    ensures var queue := ObjectQueue(env.fs(trace), lib.path, bf.project.fileModMap).value;
      LibraryStage(bf, lib, jobs, env, trace) ==
        Exec(env.ok, trace, Batches(Reverse(queue), jobs) + LibraryPlan(bf.project, lib, bf.project.objectList(None).value))
  {
    var queue := ObjectQueue(env.fs(trace), lib.path, bf.project.fileModMap).value;
    ExecConcat(env.ok, trace, Batches(Reverse(queue), jobs), LibraryPlan(bf.project, lib, bf.project.objectList(None).value));
  }

  /** Outputs are built one at a time in declaration order: building `xs + ys`
      is building `xs`, then `ys` only if `xs` succeeded. */
  lemma {:induction false} BinariesFromConcat(bf: BuildFile, xs: seq<Binary>, ys: seq<Binary>, jobs: nat, env: Env, trace: seq<Event>)
    requires jobs >= 1 && bf.binaries.Some?
    ensures BinariesFrom(bf, xs + ys, jobs, env, trace) ==
      var (r, t) := BinariesFrom(bf, xs, jobs, env, trace);
      if r.Err? then (r, t) else BinariesFrom(bf, ys, jobs, env, t)
    decreases |xs|
  {
    if xs == [] {
      assert xs + ys == ys;
    } else {
      assert (xs + ys)[0] == xs[0] && (xs + ys)[1..] == xs[1..] + ys;
      var (r, t) := BinaryStage(bf, xs[0], jobs, env, trace);
      if r.Ok? {
        BinariesFromConcat(bf, xs[1..], ys, jobs, env, t);
      }
    }
  }

  /** The same for libraries. */
  lemma {:induction false} LibrariesFromConcat(bf: BuildFile, xs: seq<Library>, ys: seq<Library>, jobs: nat, env: Env, trace: seq<Event>)
    requires jobs >= 1
    ensures LibrariesFrom(bf, xs + ys, jobs, env, trace) ==
      var (r, t) := LibrariesFrom(bf, xs, jobs, env, trace);
      if r.Err? then (r, t) else LibrariesFrom(bf, ys, jobs, env, t)
    decreases |xs|
  {
    if xs == [] {
      assert xs + ys == ys;
    } else {
      assert (xs + ys)[0] == xs[0] && (xs + ys)[1..] == xs[1..] + ys;
      var (r, t) := LibraryStage(bf, xs[0], jobs, env, trace);
      if r.Ok? {
        LibrariesFromConcat(bf, xs[1..], ys, jobs, env, t);
      }
    }
  }

  /** `t` continues the history `t0`. */
  predicate Extends(t: seq<Event>, t0: seq<Event>)
  {
    |t| >= |t0| && t[..|t0|] == t0
  }

  lemma ExtendsTransitive(t2: seq<Event>, t1: seq<Event>, t0: seq<Event>)
    requires Extends(t2, t1) && Extends(t1, t0)
    ensures Extends(t2, t0)
  {
    assert t2[..|t0|] == t2[..|t1|][..|t0|];
  }

  lemma ExecExtends(ok: seq<Event> -> bool, trace: seq<Event>, plan: seq<Event>)
    ensures Extends(Exec(ok, trace, plan).1, trace)
  {
    ExecStopsAtFirstFailure(ok, trace, plan);
  }

  lemma BinaryStageExtends(bf: BuildFile, binary: Binary, jobs: nat, env: Env, trace: seq<Event>)
    requires jobs >= 1 && bf.binaries.Some?
    ensures Extends(BinaryStage(bf, binary, jobs, env, trace).1, trace)
  {
    var q := ObjectQueue(env.fs(trace), BinaryPath(binary), bf.project.fileModMap);
    if q.Ok? {
      ExecExtends(env.ok, trace, Batches(Reverse(q.value), jobs));
      var t := CompileStage(bf.project, BinaryPath(binary), jobs, env, trace).1;
      var objects := bf.project.objectList(Exclusion(bf.binaries.value, binary));
      if objects.Ok? {
        ExecExtends(env.ok, t, [Run(LinkCommand(bf.project, binary, objects.value))]);
        ExtendsTransitive(BinaryStage(bf, binary, jobs, env, trace).1, t, trace);
      }
    }
  }

  lemma LibraryStageExtends(bf: BuildFile, lib: Library, jobs: nat, env: Env, trace: seq<Event>)
    requires jobs >= 1
    ensures Extends(LibraryStage(bf, lib, jobs, env, trace).1, trace)
  {
    var q := ObjectQueue(env.fs(trace), lib.path, bf.project.fileModMap);
    if q.Ok? {
      ExecExtends(env.ok, trace, Batches(Reverse(q.value), jobs));
      var t := CompileStage(bf.project, lib.path, jobs, env, trace).1;
        if bf.project.objectList(None).Ok? {
        ExecExtends(env.ok, t, LibraryPlan(bf.project, lib, bf.project.objectList(None).value));
        ExtendsTransitive(LibraryStage(bf, lib, jobs, env, trace).1, t, trace);
      }
    }
  }

  lemma {:induction false} BinariesFromExtends(bf: BuildFile, bins: seq<Binary>, jobs: nat, env: Env, trace: seq<Event>)
    requires jobs >= 1 && bf.binaries.Some?
    ensures Extends(BinariesFrom(bf, bins, jobs, env, trace).1, trace)
    decreases |bins|
  {
    if bins != [] {
      BinaryStageExtends(bf, bins[0], jobs, env, trace);
      var (r, t) := BinaryStage(bf, bins[0], jobs, env, trace);
      if r.Ok? {
        BinariesFromExtends(bf, bins[1..], jobs, env, t);
        ExtendsTransitive(BinariesFrom(bf, bins, jobs, env, trace).1, t, trace);
      }
    }
  }

  lemma {:induction false} LibrariesFromExtends(bf: BuildFile, libs: seq<Library>, jobs: nat, env: Env, trace: seq<Event>)
    requires jobs >= 1
    ensures Extends(LibrariesFrom(bf, libs, jobs, env, trace).1, trace)
    decreases |libs|
  {
    if libs != [] {
      LibraryStageExtends(bf, libs[0], jobs, env, trace);
      var (r, t) := LibraryStage(bf, libs[0], jobs, env, trace);
      if r.Ok? {
        LibrariesFromExtends(bf, libs[1..], jobs, env, t);
        ExtendsTransitive(LibrariesFrom(bf, libs, jobs, env, trace).1, t, trace);
      }
    }
  }

  /** The build runs the before-script first: when one is configured, the
      history after the build starts with it, and when it fails nothing else
      happens. */
  lemma BuildRunsBeforeScriptFirst(bf: BuildFile, jobs: nat, env: Env, trace: seq<Event>)
    requires jobs >= 1 && bf.project.beforeScript.Some?
    ensures var s := bf.project.beforeScript.value;
      Extends(BuildSpec(bf, jobs, env, trace).1, trace + [Script(s)])
    ensures var s := bf.project.beforeScript.value;
      !env.ok(trace + [Script(s)]) ==> BuildSpec(bf, jobs, env, trace) == (Err(ScriptFailed(s)), trace + [Script(s)])
  {
    var s := bf.project.beforeScript.value;
    var t1 := trace + [Script(s)];
    ExecSingle(env.ok, trace, Script(s));
    assert RunScript(bf.project.beforeScript, env.ok, trace).1 == t1;
    if env.ok(t1) {
      AfterBeforeScriptExtends(bf, jobs, env, t1);
      var (r2, t2) := AllBinaries(bf, jobs, env, t1);
      if r2.Ok? {
        var (r3, t3) := AllLibraries(bf, jobs, env, t2);
        assert r3.Ok? ==> BuildSpec(bf, jobs, env, trace).1 == RunScript(bf.project.afterScript, env.ok, t3).1;
      }
    }
  }

  /** Whatever follows the before-script only appends to the history. */
  lemma AfterBeforeScriptExtends(bf: BuildFile, jobs: nat, env: Env, t1: seq<Event>)
    requires jobs >= 1
    ensures var (r2, t2) := AllBinaries(bf, jobs, env, t1);
      Extends(t2, t1) &&
      (r2.Ok? ==> var (r3, t3) := AllLibraries(bf, jobs, env, t2);
        Extends(t3, t1) && (r3.Ok? ==> Extends(RunScript(bf.project.afterScript, env.ok, t3).1, t1)))
  {
    var (r2, t2) := AllBinaries(bf, jobs, env, t1);
    assert t1[..|t1|] == t1;
    if bf.binaries.Some? { BinariesFromExtends(bf, bf.binaries.value, jobs, env, t1); }
    var (r3, t3) := AllLibraries(bf, jobs, env, t2);
    assert t2[..|t2|] == t2;
    if bf.libraries.Some? { LibrariesFromExtends(bf, bf.libraries.value, jobs, env, t2); }
    ExtendsTransitive(t3, t2, t1);
    var t4 := RunScript(bf.project.afterScript, env.ok, t3).1;
    assert t3[..|t3|] == t3;
    if bf.project.afterScript.Some? {
      ExecExtends(env.ok, t3, [Script(bf.project.afterScript.value)]);
    }
    ExtendsTransitive(t4, t3, t1);
  }

  /** A successful build ends with its after-script, when one is configured. */
  lemma BuildEndsWithAfterScript(bf: BuildFile, jobs: nat, env: Env, trace: seq<Event>)
    requires jobs >= 1 && bf.project.afterScript.Some?
    ensures var (r, t) := BuildSpec(bf, jobs, env, trace);
      r.Ok? ==> |t| > |trace| && t[|t| - 1] == Script(bf.project.afterScript.value) && env.ok(t)
  {
    var (r1, t1) := RunScript(bf.project.beforeScript, env.ok, trace);
    assert trace[..|trace|] == trace;
    if bf.project.beforeScript.Some? { ExecExtends(env.ok, trace, [Script(bf.project.beforeScript.value)]); }
    if r1.Ok? {
      AfterBeforeScriptExtends(bf, jobs, env, t1);
      var (r2, t2) := AllBinaries(bf, jobs, env, t1);
      if r2.Ok? {
        var (r3, t3) := AllLibraries(bf, jobs, env, t2);
        if r3.Ok? {
          ExtendsTransitive(t3, t1, trace);
          ExecSingle(env.ok, t3, Script(bf.project.afterScript.value));
        }
      }
    }
  }

  /** A project with no scripts and no declared outputs builds successfully
      without acting at all. */
  lemma BuildOfEmptyProject(bf: BuildFile, jobs: nat, env: Env, trace: seq<Event>)
    requires jobs >= 1
    requires bf.project.beforeScript.None? && bf.project.afterScript.None?
    requires bf.binaries.None? && bf.libraries.None?
    ensures BuildSpec(bf, jobs, env, trace) == (Ok(()), trace)
  {
  }

  /** The objects of one output: `build_object_queue` followed by
      `run_job_queue`. */
  method CompileObjects(p: ProjectDesc, output: Path, jobs: nat, env: Env, trace0: seq<Event>)
    returns (r: Result<()>, trace: seq<Event>)
    requires jobs >= 1
    ensures (r, trace) == CompileStage(p, output, jobs, env, trace0)
  {
    var queue := BuildObjectQueue(env.fs(trace0), output, p.fileModMap);
    if queue.Err? {
      return Err(queue.error), trace0;
    }
    r, trace := RunJobQueue(queue.value, jobs, env.ok, trace0);
  }

  /** `build_all_binaries`: every declared binary in order, stopping at the
      first failure. */
  method BuildAllBinaries(bf: BuildFile, jobs: nat, env: Env, trace0: seq<Event>)
    returns (r: Result<()>, trace: seq<Event>)
    requires jobs >= 1
    ensures (r, trace) == AllBinaries(bf, jobs, env, trace0)
  {
    trace := trace0;
    if bf.binaries.None? {
      return Ok(()), trace;
    }
    var bins := bf.binaries.value;
    for i := 0 to |bins|
      invariant BinariesFrom(bf, bins[i..], jobs, env, trace) == AllBinaries(bf, jobs, env, trace0)
    {
      assert bins[i..][0] == bins[i] && bins[i..][1..] == bins[i + 1..];
      r, trace := CompileObjects(bf.project, BinaryPath(bins[i]), jobs, env, trace);
      if r.Err? {
        return;
      }
      var (linked, linkedTrace) := BuildBinary(bf, bins[i], env.ok, trace);
      r, trace := linked, linkedTrace;
      if r.Err? {
        return;
      }
    }
    return Ok(()), trace;
  }

  /** `build_all_libraries`: every declared library in order, stopping at the
      first failure. */
  method BuildAllLibraries(bf: BuildFile, jobs: nat, env: Env, trace0: seq<Event>)
    returns (r: Result<()>, trace: seq<Event>)
    requires jobs >= 1
    ensures (r, trace) == AllLibraries(bf, jobs, env, trace0)
  {
    trace := trace0;
    if bf.libraries.None? {
      return Ok(()), trace;
    }
    var libs := bf.libraries.value;
    for i := 0 to |libs|
      invariant LibrariesFrom(bf, libs[i..], jobs, env, trace) == AllLibraries(bf, jobs, env, trace0)
    {
      assert libs[i..][0] == libs[i] && libs[i..][1..] == libs[i + 1..];
      r, trace := CompileObjects(bf.project, libs[i].path, jobs, env, trace);
      if r.Err? {
        return;
      }
      var (formed, formedTrace) := BuildLibrary(bf.project, libs[i], env.ok, trace);
      r, trace := formed, formedTrace;
      if r.Err? {
        return;
      }
    }
    return Ok(()), trace;
  }

  /** `build`: the four stages in order. */
  method Build(bf: BuildFile, jobs: nat, env: Env, trace0: seq<Event>)
    returns (r: Result<()>, trace: seq<Event>)
    requires jobs >= 1
    ensures (r, trace) == BuildSpec(bf, jobs, env, trace0)
  {
    var (before, beforeTrace) := RunScript(bf.project.beforeScript, env.ok, trace0);
    r, trace := before, beforeTrace;
    if r.Err? {
      return;
    }
    r, trace := BuildAllBinaries(bf, jobs, env, trace);
    if r.Err? {
      return;
    }
    r, trace := BuildAllLibraries(bf, jobs, env, trace);
    if r.Err? {
      return;
    }
    var (after, afterTrace) := RunScript(bf.project.afterScript, env.ok, trace);
    r, trace := after, afterTrace;
  }

  /** `build_binary_with_name`, reporting a name the section does not declare. */
  method BuildBinaryWithName(bf: BuildFile, name: string, jobs: nat, env: Env, trace0: seq<Event>)
    returns (r: Result<()>, trace: seq<Event>)
    requires jobs >= 1
    ensures (r, trace) == BinaryWithName(bf, name, jobs, env, trace0)
  {
    if bf.binaries.None? {
      return Err(TargetNotFound("binary", name)), trace0;
    }
    var found := FirstNamed(bf.binaries.value, BinaryName, name);
    if found.None? {
      return Err(TargetNotFound("binary", name)), trace0;
    }
    var binary := bf.binaries.value[found.value];
    r, trace := CompileObjects(bf.project, BinaryPath(binary), jobs, env, trace0);
    if r.Err? {
      return;
    }
    var (linked, linkedTrace) := BuildBinary(bf, binary, env.ok, trace);
    r, trace := linked, linkedTrace;
  }

  /** `build_library_with_name`, reporting a name the section does not declare. */
  method BuildLibraryWithName(bf: BuildFile, name: string, jobs: nat, env: Env, trace0: seq<Event>)
    returns (r: Result<()>, trace: seq<Event>)
    requires jobs >= 1
    ensures (r, trace) == LibraryWithName(bf, name, jobs, env, trace0)
  {
    if bf.libraries.None? {
      return Err(TargetNotFound("library", name)), trace0;
    }
    var found := FirstNamed(bf.libraries.value, LibraryName, name);
    if found.None? {
      return Err(TargetNotFound("library", name)), trace0;
    }
    var lib := bf.libraries.value[found.value];
    r, trace := CompileObjects(bf.project, lib.path, jobs, env, trace0);
    if r.Err? {
      return;
    }
    var (formed, formedTrace) := BuildLibrary(bf.project, lib, env.ok, trace);
    r, trace := formed, formedTrace;
  }

  /** Two declared binaries: each is linked against an object list that
      excludes the other one. */
  lemma TwoBinariesExcludeEachOther(a: Binary, b: Binary)
    requires a.name != b.name
    ensures Exclusion([a, b], a) == Some([b])
    ensures Exclusion([a, b], b) == Some([a])
  {
    assert [a, b][1..] == [b] && [b][1..] == [];
    assert BinaryPath(a) != BinaryPath(b) by {
      assert BinaryPath(a)[0] == a.name;
    }
    assert Without([b], BinaryPath(a)) == [b];
    assert Without([b], BinaryPath(b)) == [];
    assert Without([a, b], BinaryPath(b)) == [a] + Without([b], BinaryPath(b));
    assert [a] + [] == [a];
  }

  /** A static-only library with two sources, no existing objects and two
      workers: both objects are compiled in one batch, newest spawn waited
      first, then the archiver runs once and no shared object is linked. */
  lemma StaticLibraryWithTwoSources(bf: BuildFile, lib: Library, x: Target, y: Target, tx: Time, ty: Time,
                                    env: Env, trace: seq<Event>)
    requires TargetLess(x, y)
    requires bf.project.fileModMap == map[x := tx, y := ty]
    requires x.objectFile !in env.fs(trace) && y.objectFile !in env.fs(trace) && lib.path !in env.fs(trace)
    requires lib.isStatic && !lib.isDynamic
    requires bf.project.objectList(None).Ok?
    requires forall h :: env.ok(h)
    ensures LibraryStage(bf, lib, 2, env, trace) ==
      (Ok(()), trace + [Spawn(y), Spawn(x), Wait(x), Wait(y), Run(ArchiveCommand(bf.project, lib, bf.project.objectList(None).value))])
  {
    var q := ObjectQueue(env.fs(trace), lib.path, bf.project.fileModMap).value;
    assert StrictlyAscending([x, y]);
    AscendingUnique([x, y], q);
    LibraryStageArchivesAfterCompiling(bf, lib, 2, env, trace);
    PairInOneBatch(x, y);
    assert q == [x, y];
    var archive := Run(ArchiveCommand(bf.project, lib, bf.project.objectList(None).value));
    assert LibraryPlan(bf.project, lib, bf.project.objectList(None).value) == [archive];
    var plan := Batches(Reverse(q), 2) + [archive];
    assert plan == [Spawn(y), Spawn(x), Wait(x), Wait(y), archive];
    ExecStopsAtFirstFailure(env.ok, trace, plan);
    assert Exec(env.ok, trace, plan).0.Ok?;
  }
}
