/** The data the build orchestrator works on: compilation targets, declared
    outputs, the project description, the abstract filesystem and the events
    by which the orchestrator acts on the operating system. */
module Project {
  import opened Paths

  datatype Option<T> = None | Some(value: T)
  {
    function GetOr(default: T): T
    {
      if Some? then value else default
    }
  }

  /** The error taxonomy of the build tool. */
  datatype Error =
    | Io
    | SpawnFailed(target: Target)
    | JobFailed(target: Target)
    | CommandFailed(command: string)
    | ScriptFailed(script: string)
    | TargetNotFound(kind: string, name: string)
    | NoAssumedToml(path: Path)
    | Collaborator(reason: string)

  datatype Result<T> = Ok(value: T) | Err(error: Error)

  /** A modification time. */
  type Time = int

  /** The filesystem as the orchestrator observes it: a path is present iff it
      exists; its value is its modification time, or None when reading the
      modification time fails. */
  type FileSystem = map<Path, Option<Time>>

  /** One compilation unit: a source file and the object file derived from it. */
  datatype Target = Target(source: Path, objectFile: Path)

  /** A declared binary; its output path is its name. */
  datatype Binary = Binary(name: string)

  function BinaryPath(b: Binary): Path
  {
    [b.name]
  }

  /** A declared library with the forms it asks for. The output path and the
      two artifact file names are derived from the name by a platform
      convention that belongs to the description module; they are carried here
      as already derived. */
  datatype Library = Library(name: string, isStatic: bool, isDynamic: bool,
                             path: Path, staticFile: Path, dynamicFile: Path)

  /** The project section of a build description. `objectList` and `libs` are
      the description's composition helpers (object-list string for an
      optional exclusion list, and library flags). */
  datatype ProjectDesc = ProjectDesc(
    compiler: Option<string>,
    compilerFlags: Option<seq<string>>,
    includes: Option<seq<string>>,
    lflags: Option<seq<string>>,
    libDir: Option<seq<string>>,
    ar: Option<string>,
    arflags: Option<string>,
    beforeScript: Option<string>,
    afterScript: Option<string>,
    fileModMap: map<Target, Time>,
    objectList: Option<seq<Binary>> -> Result<string>,
    libs: string)

  /** A parsed build file: the project and its optional `bin` and `lib` sections. */
  datatype BuildFile = BuildFile(project: ProjectDesc,
                                 binaries: Option<seq<Binary>>,
                                 libraries: Option<seq<Library>>)

  /** An action on the operating system: spawning a compile job, waiting for
      one, running a command to completion, or running a build script. */
  datatype Event =
    | Spawn(target: Target)
    | Wait(target: Target)
    | Run(command: string)
    | Script(script: string)

  /** The error an event reports when it fails. */
  function FailureOf(e: Event): Error
  {
    match e
    case Spawn(t) => SpawnFailed(t)
    case Wait(t) => JobFailed(t)
    case Run(c) => CommandFailed(c)
    case Script(s) => ScriptFailed(s)
  }

  /** The operating system as seen from the orchestrator. `ok(h)` tells whether
      the last event of history `h` succeeded; `fs(h)` is the filesystem after
      history `h` (child processes create and update files, which the
      orchestrator does not control). */
  datatype Env = Env(fs: seq<Event> -> FileSystem, ok: seq<Event> -> bool)

  /** The order of targets: by source path, then by object path. */
  predicate TargetLess(a: Target, b: Target)
  {
    PathLess(a.source, b.source) || (a.source == b.source && PathLess(a.objectFile, b.objectFile))
  }

  lemma TargetLessIrreflexive(a: Target)
    ensures !TargetLess(a, a)
  {
    PathLessIrreflexive(a.source);
    PathLessIrreflexive(a.objectFile);
  }

  lemma TargetLessAsymmetric(a: Target, b: Target)
    ensures !(TargetLess(a, b) && TargetLess(b, a))
  {
    PathLessAsymmetric(a.source, b.source);
    PathLessAsymmetric(a.objectFile, b.objectFile);
    PathLessIrreflexive(a.source);
  }

  lemma TargetLessTransitive(a: Target, b: Target, c: Target)
    requires TargetLess(a, b) && TargetLess(b, c)
    ensures TargetLess(a, c)
  {
    if PathLess(a.source, b.source) && PathLess(b.source, c.source) {
      PathLessTransitive(a.source, b.source, c.source);
    } else if a.source == b.source && b.source == c.source {
      PathLessTransitive(a.objectFile, b.objectFile, c.objectFile);
    }
  }

  lemma TargetLessTotal(a: Target, b: Target)
    ensures a == b || TargetLess(a, b) || TargetLess(b, a)
  {
    PathLessTotal(a.source, b.source);
    PathLessTotal(a.objectFile, b.objectFile);
  }
}
