/** The command lines the orchestrator composes for compiling, linking and
    archiving, with the tool defaults `gcc`, `ar` and `rcs`. */
module Commands {
  import opened Text
  import opened Paths
  import opened Project

  const DefaultCompiler: string := "gcc"
  const DefaultArchiver: string := "ar"
  const DefaultArchiverFlags: string := "rcs"

  /** An optional list of settings, each with `prefix` prepended, separated by spaces. */
  function Flags(settings: Option<seq<string>>, prefix: string): string
  {
    JoinWith(PrependEach(settings.GetOr([]), prefix), " ")
  }

  /** The compiler: the configured one, `gcc` by default. */
  function Compiler(p: ProjectDesc): string
  {
    p.compiler.GetOr(DefaultCompiler)
  }

  function Quoted(s: string): string
  {
    "\"" + s + "\""
  }

  /** `CC -c CFLAGS INC -o "OBJ" "SRC"`: compile one target to its object file.
      It starts with the compiler (`gcc` unless one is configured) and ends
      with the quoted object path and the quoted source path. */
  function CompileCommand(p: ProjectDesc, t: Target): (c: string)
    ensures var head := Compiler(p) + " -c ";
      |c| > |head| && c[..|head|] == head
    ensures p.compiler.None? ==> c[..7] == "gcc -c "
    ensures var tail := " -o " + Quoted(PathString(t.objectFile)) + " " + Quoted(PathString(t.source));
      |c| >= |tail| && c[|c| - |tail|..] == tail
  {
    var head := Compiler(p) + " -c ";
    var flags := Flags(p.compilerFlags, "-") + " " + Flags(p.includes, "-I");
    var tail := " -o " + Quoted(PathString(t.objectFile)) + " " + Quoted(PathString(t.source));
    Split3(head, flags, tail);
    head + flags + tail
  }

  /** `CC LFLAGS -o BIN OBJ_LIST LIB_DIR LIBS`: link one binary. After the
      compiler (`gcc` by default) and the link flags come `-o`, the binary's
      name and the object list; the line ends with the libraries. */
  function LinkCommand(p: ProjectDesc, b: Binary, objects: string): (c: string)
    ensures var head := Compiler(p) + " ";
      |c| > |head| && c[..|head|] == head
    ensures p.compiler.None? ==> c[..4] == "gcc "
    ensures var at := |Compiler(p)| + 1 + |Flags(p.lflags, "-")|;
      var mid := " -o " + b.name + " " + objects + " ";
      |c| >= at + |mid| && c[at..at + |mid|] == mid
    ensures |c| >= |p.libs| && c[|c| - |p.libs|..] == p.libs
  {
    var head := Compiler(p) + " " + Flags(p.lflags, "-");
    var mid := " -o " + b.name + " " + objects + " ";
    var tail := Flags(p.libDir, "-L") + " " + p.libs;
    Split3(head, mid, tail);
    Split3(Compiler(p) + " ", Flags(p.lflags, "-"), mid + tail);
    Split3(head + mid + Flags(p.libDir, "-L") + " ", p.libs, "");
    assert head + mid + tail == head + mid + Flags(p.libDir, "-L") + " " + p.libs + "";
    head + mid + tail
  }

  /** `AR ARFLAGS LIB OBJ_LIST`: archive a static library; `ar rcs` by default.
      After the archiver and its flags come the static file and the objects. */
  function ArchiveCommand(p: ProjectDesc, lib: Library, objects: string): (c: string)
    ensures var head := p.ar.GetOr(DefaultArchiver) + " " + p.arflags.GetOr(DefaultArchiverFlags) + " ";
      |c| > |head| && c[..|head|] == head
    ensures p.ar.None? && p.arflags.None? ==> |c| > 7 && c[..7] == "ar rcs "
    ensures var tail := PathString(lib.staticFile) + " " + objects;
      |c| >= |tail| && c[|c| - |tail|..] == tail
  {
    var head := p.ar.GetOr(DefaultArchiver) + " " + p.arflags.GetOr(DefaultArchiverFlags) + " ";
    var tail := PathString(lib.staticFile) + " " + objects;
    assert p.ar.None? && p.arflags.None? ==> head == "ar rcs ";
    Split3(head, "", tail);
    head + tail
  }

  /** `CC -shared -o LIB OBJ_LIST LIBS`: link a shared library. It starts with
      the compiler (`gcc` by default), `-shared -o` and the shared file, and
      ends with the object list and the libraries. */
  function SharedCommand(p: ProjectDesc, lib: Library, objects: string): (c: string)
    ensures var head := Compiler(p) + " -shared -o " + PathString(lib.dynamicFile) + " ";
      |c| >= |head| && c[..|head|] == head
    ensures p.compiler.None? ==> |c| > 15 && c[..15] == "gcc -shared -o "
    ensures var tail := objects + " " + p.libs;
      |c| >= |tail| && c[|c| - |tail|..] == tail
  {
    var head := Compiler(p) + " -shared -o " + PathString(lib.dynamicFile) + " ";
    var tail := objects + " " + p.libs;
    Split3(head, "", tail);
    Split3(Compiler(p) + " -shared -o ", PathString(lib.dynamicFile) + " ", tail);
    assert head + tail == Compiler(p) + " -shared -o " + (PathString(lib.dynamicFile) + " " + tail);
    head + tail
  }

  /** The three parts of a concatenation can be cut out of it again. */
  lemma Split3(a: string, b: string, c: string)
    ensures (a + b + c)[..|a|] == a
    ensures (a + b + c)[|a|..|a| + |b|] == b
    ensures (a + b + c)[|a + b|..] == c
  {
  }
}
