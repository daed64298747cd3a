# yabs build orchestrator — a Dafny model

This project models the build orchestrator of yabs, a build tool for C/C++ projects. It covers the orchestrator's core in `lib/build.rs`:

- **Staleness queue.** For each declared output (a binary or a library), the orchestrator decides which compilation targets are stale.
- **Scheduler.** It compiles the stale targets with a bounded number of concurrent jobs, in batches.
- **Link and archive.** It links binaries and archives libraries (static and/or shared).
- **Build.** It runs the before- and after-scripts around the whole build.
- **Build by name.** It can build a single output chosen by name.
- **Clean.** It removes artifacts on a best-effort basis.
- **Discovery.** It locates the build description by searching upward from a directory.

The operating system is abstract:

- **History.** Every action the orchestrator takes is an `Event` appended to a history:
  - spawning the compile job of a target;
  - waiting for a target's job;
  - running a command to completion;
  - running a build script.
- **Environment.** An `Env` gives:
  - `fs(h)`: the filesystem after history `h`. This is a map from path to an optional modification time; `None` means the time cannot be read.
  - `ok(h)`: whether the last event of `h` succeeded.
- **No real parallelism.** Child processes are not modelled as concurrency. Compile jobs in flight at the same time show up as spawns with no wait between them.

Modules:

| file | module | contents |
|---|---|---|
| text.dfy | `Text` | the string order, and the joining helpers used in command lines |
| paths.dfy | `Paths` | paths as component sequences; `pop`, `join` and the path order |
| project.dfy | `Project` | entities: targets, outputs, project description, errors, events, environment |
| commands.dfy | `Commands` | compile, link, archive and shared-object command lines, with defaults `gcc`, `ar`, `rcs` |
| staleness.dfy | `Staleness` | `build_object_queue`, as an imperative method proved against a specification function |
| scheduler.dfy | `Scheduler` | `run_job_queue`, as an imperative method; its batch form; the batch-synchronous policy as a monitor over events |
| pipeline.dfy | `Pipeline` | exclusion list, link/archive steps, per-output stages, `build`, `build_all_*`, `build_*_with_name` |
| clean.dfy | `Cleaning` | `clean`, as an imperative method with its three passes |
| discovery.dfy | `Discovery` | `check_dir` and `find_build_file` |

The pipeline's ghost functions are the specification of each stage. The methods `BuildAllBinaries`, `BuildAllLibraries` and `Build` follow the source's control flow. `BuildBinaryWithName` and `BuildLibraryWithName` follow it too, except in one case: a present section that lacks the requested name. There they return `TargetNotFound`, where the source returns `Ok(())` (see "## Findings"). All of these methods call the verified `BuildObjectQueue` and `RunJobQueue` methods, and each is proved equal to its specification.

**Scheduler.** `RunJobQueue` pops from the tail of the queue and drains the in-flight vector from its tail, exactly as the source's nested loops do. It is proved equal to running the plan `Batches(Reverse(queue), jobs)`:

- the spawn order is cut into chunks of `jobs` targets;
- each chunk is spawned in order and then waited for newest first;
- the run stops at the first failing event.

The policy monitor `Replay` accepts those plans, and the monitor's lemmas carry the properties over.

## Model

| member | source | states |
|---|---|---|
| Staleness.ObjectQueue | lib/build.rs:86-105 | If the output exists with a readable time, a target is queued iff its source is strictly newer than the output or its object file is missing. If the output is absent, exactly the targets without an object file are queued. The queue is strictly ascending, so it has no duplicates. Reading the output's time fails (I/O error) only when the output exists and there is at least one target. |
| Staleness.BuildObjectQueue | lib/build.rs:86-105 | The loop over the targets, inserting into an ordered set, returns exactly `ObjectQueue`, including its error case. |
| Staleness.Insert | lib/build.rs:94-102 | Inserting into the ordered set keeps it strictly ascending. Its elements become the old ones plus the new target. |
| Staleness.AscendingUnique | lib/build.rs:104 | Two strictly ascending sequences with the same elements are equal, so the queue is determined by its set of targets. |
| Staleness.AscendingHasNoDuplicates | lib/build.rs:89 | A strictly ascending sequence has no repeated target. |
| Project.TargetLessTransitive | lib/build.rs:89 | The target order used by the ordered set is transitive. |
| Project.TargetLessTotal | lib/build.rs:89 | Any two distinct targets are ordered one way or the other. |
| Project.TargetLessIrreflexive | lib/build.rs:89 | No target precedes itself. |
| Scheduler.RunJobQueue | lib/build.rs:119-142 | The two nested loops return exactly the result and history of running `Batches(Reverse(queue), jobs)`, stopping at the first failure. It requires `jobs >= 1` unless the queue is empty. |
| Scheduler.PlanIsBatches | lib/build.rs:120-141 | The event plan that the loop structure produces equals the batch form. |
| Scheduler.PlanInBatchForm | lib/build.rs:121-135 | The same, for any intermediate state with at most `jobs` jobs in flight. |
| Scheduler.ExecStopsAtFirstFailure | lib/build.rs:124-139 | Execution appends a prefix of the plan, and every event before the last one succeeded. On success the whole plan ran. On error the last event failed, and its failure is the error. |
| Scheduler.BatchesObeyPolicy | lib/build.rs:121-141 | Every batch schedule obeys the batch-synchronous policy and ends with nothing in flight. |
| Scheduler.PolicyBoundsInFlight | lib/build.rs:122-127 | Along any run the policy accepts, at every prefix at most `jobs` jobs are in flight. |
| Scheduler.DrainCompletesBeforeSpawn | lib/build.rs:128-134 | Along an accepted run, a spawn that follows a wait finds nothing in flight: a drain always completes before the next spawn. |
| Scheduler.BatchesSpawnInOrder | lib/build.rs:124-126 | A batch schedule spawns each target of the spawn order exactly once, in that order. |
| Scheduler.ReverseOfAscending | lib/build.rs:104-124 | Popping an ascending queue from its tail spawns targets in strictly descending order. |
| Scheduler.RunJobQueueCorrect | lib/build.rs:119-142 | The scheduler's events extend the history, and every prefix obeys the policy with at most `jobs` in flight. On success, every queued target was spawned once (tail first) and every spawned job was waited for. On error the run ends at the first failing event, which is reported. |
| Scheduler.BatchesWhenAllFit | lib/build.rs:121-141 | With at least as many workers as targets, every target is spawned before any wait. |
| Scheduler.SequentialWithOneJob | lib/build.rs:121-141 | With one worker, each target is spawned and waited for before the next. |
| Scheduler.PairInOneBatch | lib/build.rs:121-141 | Two targets with two workers form one batch: spawn from the tail, then wait newest first. |
| Scheduler.FailedWaitLeavesSibling | lib/build.rs:136-140 | When the first wait of a two-job batch fails, the scheduler returns at once and never waits for the other job. |
| Text.PrependEach | lib/build.rs:69-80 | Every setting gets the flag prefix, in order. |
| Commands.CompileCommand | lib/build.rs:65-84 | The compile command starts with the compiler and ` -c `, which is `gcc -c ` when no compiler is configured. It ends with ` -o `, the quoted object path, a space and the quoted source path. |
| Commands.LinkCommand | lib/build.rs:156-172 | The link command starts with the compiler and a space, which is `gcc ` by default. Right after the link flags come ` -o `, the binary's name and the object list. The line ends with the libraries. |
| Commands.ArchiveCommand | lib/build.rs:176-182 | The archive command starts with the archiver and its flags, which are `ar rcs ` when neither is configured. It ends with the static file's path and the object list. |
| Commands.SharedCommand | lib/build.rs:186-191 | The shared-object command starts with the compiler, ` -shared -o ` and the shared file's path, which gives `gcc -shared -o ` by default. It ends with the object list and the libraries. |
| Pipeline.Without | lib/build.rs:150-154 | The filter keeps exactly the binaries whose output path differs, as a subsequence in declaration order. A binary declared more than once keeps every copy. |
| Pipeline.Exclusion | lib/build.rs:145-155 | The exclusion list is `None` iff exactly one binary is declared. Otherwise it holds exactly the declared binaries with a different output path, each as often as it is declared, in declaration order. |
| Pipeline.ExclusionOmitsOnlyItself | lib/build.rs:145-155 | With distinct names, a declared binary's exclusion list has all the other binaries: one fewer than declared. |
| Pipeline.TwoBinariesExcludeEachOther | lib/build.rs:145-155 | With two binaries, each is linked with the other one excluded. |
| Pipeline.BuildBinary | lib/build.rs:144-173 | A failing object list is reported before any command runs. Otherwise the link command is the single event, and the result reports its failure. |
| Pipeline.BuildStaticLibrary | lib/build.rs:175-183 | A failing object list is reported before any command runs. Otherwise the archive command is the single event, and the result reports its failure. |
| Pipeline.BuildDynamicLibrary | lib/build.rs:185-192 | A failing object list is reported before any command runs. Otherwise the shared-object command is the single event, and the result reports its failure. |
| Pipeline.LibraryPlan | lib/build.rs:194-202 | A library's plan has one command per form it asks for. The archive command comes first when it is static, and the shared-object command comes last when it is dynamic. |
| Pipeline.BuildLibrary | lib/build.rs:194-202 | Building a library runs the archive command, then the shared-object command, stopping at the first failure. Asking for neither form does nothing. A failing object list fails the first form asked for. |
| Pipeline.BinaryStageLinksAfterCompiling | lib/build.rs:111-114 | A binary's events are its compile schedule followed by its link command, so it links only after every stale object was compiled and waited for. |
| Pipeline.LibraryStageArchivesAfterCompiling | lib/build.rs:240-243 | A library's events are its compile schedule followed by its form commands. |
| Pipeline.StaticLibraryWithTwoSources | lib/build.rs:236-246 | A static-only library with two fresh sources and two workers: one batch of two compiles, one archive command, no shared-object command. |
| Pipeline.BinariesFromConcat | lib/build.rs:111-115 | Binaries are built one at a time in declaration order. A later one starts only after the earlier ones succeeded. |
| Pipeline.LibrariesFromConcat | lib/build.rs:240-244 | Libraries are built one at a time in declaration order. A later one starts only after the earlier ones succeeded. |
| Pipeline.CompileObjects | lib/build.rs:112-113 | Computing the queue on the current filesystem and running the scheduler equals the compile stage. |
| Pipeline.BuildAllBinaries | lib/build.rs:107-117 | The loop equals building every declared binary in order, stopping at the first failure. It is a no-op when the section is absent. |
| Pipeline.BuildAllLibraries | lib/build.rs:236-246 | The loop equals building every declared library in order, stopping at the first failure. It is a no-op when the section is absent. |
| Pipeline.BuildSpec | lib/build.rs:248-254 | The whole build only appends to the history. The lemmas below follow it stage by stage. |
| Pipeline.Build | lib/build.rs:248-254 | Runs the before-script, binaries, libraries and after-script, each stage only after the previous one succeeded. |
| Pipeline.BuildRunsBeforeScriptFirst | lib/build.rs:249 | The configured before-script is the first event of a build. If it fails, nothing else happens. |
| Pipeline.BuildEndsWithAfterScript | lib/build.rs:252 | A successful build's last event is its configured after-script, and that event succeeded. |
| Pipeline.BuildOfEmptyProject | lib/build.rs:107-110 | With no scripts and no sections, the build succeeds without acting. |
| Pipeline.FirstNamed | lib/build.rs:206-209 | Finds the first element with the name, or reports that no element has it. |
| Pipeline.BinaryWithName | lib/build.rs:220-234 | An undeclared binary name gives `TargetNotFound("binary", name)` and does nothing, whether or not the section exists. Otherwise the first binary with that name is built. |
| Pipeline.LibraryWithName | lib/build.rs:204-218 | An undeclared library name gives `TargetNotFound("library", name)` and does nothing. Otherwise the first library with that name is built. |
| Pipeline.BinaryWithNameAsWritten | lib/build.rs:220-234 | As the code is written: an absent section gives `TargetNotFound("binary", name)`, and a present section without the name gives `Ok(())` with no events. Otherwise the first binary with the name is built. |
| Pipeline.BuildBinaryWithName | lib/build.rs:220-234 | The method equals `BinaryWithName`. |
| Pipeline.LibraryWithNameAsWritten | lib/build.rs:204-218 | As the code is written: an absent section gives `TargetNotFound("library", name)`, and a present section without the name gives `Ok(())` with no events. Otherwise the first library with the name is built. |
| Pipeline.BuildLibraryWithName | lib/build.rs:204-218 | The method equals `LibraryWithName`. |
| Pipeline.AsWrittenMissingBinaryIsOk | lib/build.rs:220-234 | As written, a name missing from a present section returns Ok with no events. The corrected version reports it. |
| Pipeline.AsWrittenMissingLibraryIsOk | lib/build.rs:204-218 | As written, a name missing from a present section returns Ok with no events. The corrected version reports it. |
| Pipeline.WithNameAgreesWhenDeclared | lib/build.rs:204-234 | When the name is declared, the corrected and as-written versions agree. |
| Cleaning.Cleaned | lib/build.rs:256-284 | After cleaning, a path remains iff it existed and was not a removable artifact. Remaining paths keep their times. |
| Cleaning.TryRemove | lib/build.rs:258-260 | One attempt removes the path iff it exists and removal succeeds. The bookkeeping of removed paths stays exact and duplicate-free. |
| Cleaning.CleanObjects | lib/build.rs:257-261 | The object pass tries every target's object file. |
| Cleaning.CleanBinaries | lib/build.rs:262-269 | The binary pass tries every declared binary's output. |
| Cleaning.CleanLibraries | lib/build.rs:270-283 | The library pass tries each library's shared file, then its static file. |
| Cleaning.Clean | lib/build.rs:256-284 | It always returns Ok. The filesystem becomes `Cleaned` over all named artifacts. `removed` lists exactly the removed paths, each once. |
| Cleaning.CleanIdempotent | lib/build.rs:256-284 | Cleaning twice equals cleaning once, and no removable artifact is left. |
| Discovery.CheckDir | lib/build.rs:300-307 | A directory has a description iff the naming convention gives a name and the joined path exists. The result is that path. |
| Discovery.Nearest | lib/build.rs:287-298 | The nearest ancestor, down to the last one `pop` reaches, that has a description. Every nearer one has none. If no ancestor has one, this is stated for every ancestor. |
| Discovery.FindBuildFile | lib/build.rs:287-298 | Stops at the nearest ancestor with a description (or fails entering it). If none has one, it fails with `NoAssumedToml` carrying the starting directory. The caller's directory, popped in place, ends at the found directory, or at the last ancestor `pop` reaches when none has a description. |
| Discovery.AbsoluteStartOpensCheckedFile | lib/build.rs:292-294 | From an absolute start, the file opened is exactly the checked path. |
| Discovery.NearestAncestorWins | lib/build.rs:289-295 | A description in the starting directory wins over one in its parent. |
| Discovery.ParentFoundWhenStartHasNone | lib/build.rs:289-295 | When only the parent has a description, the parent becomes the root. |

## Behaviour on failure

On a spawn failure or a wait failure, `run_job_queue` returns at once (the `?` at lib/build.rs:124, 131 and 138). `run_job_queue` itself does not wait for jobs that are still in flight. What dropping a `Job` does belongs to the `ext` module and is not modelled. `Scheduler.FailedWaitLeavesSibling` states this for a two-job batch, and `Scheduler.RunJobQueueCorrect` states it in general.

## Findings

| source | as written | input that shows it | evidently intended | confidence | as-written member | corrected member |
|---|---|---|---|---|---|---|
| lib/build.rs:220-234 | A present `bin` section without the requested name returns Ok and builds nothing; `TargetNotFound` is raised only when the section is absent. | binaries `[app]`, name `tool` | `TargetNotFound("binary", "tool")`: the error carries the requested name (lib/build.rs:231), so it is meant for a name that is not declared | not executed; high that the code behaves so | Pipeline.AsWrittenMissingBinaryIsOk | Pipeline.BinaryWithName |
| lib/build.rs:204-218 | The same for libraries. | libraries `[core]`, name `util` | `TargetNotFound("library", "util")`: the error carries the requested name (lib/build.rs:215) | not executed; high that the code behaves so | Pipeline.AsWrittenMissingLibraryIsOk | Pipeline.LibraryWithName |

The as-written behaviour is `Pipeline.BinaryWithNameAsWritten` / `Pipeline.LibraryWithNameAsWritten`. The methods `BuildBinaryWithName` and `BuildLibraryWithName` implement the corrected behaviour.

## Left out

- `lib/logger.rs` and all logging (`info!` of commands and removed files): console output only.
- `BuildFile::from_file` (TOML parsing and source discovery) and `print_sources`. A `BuildFile` is given as a value; discovery returns the root and the file that would be parsed.
- Process control (`spawn_cmd`, `run_cmd`, `Job`): a spawn, a wait or a command run is one event whose success is `env.ok`. Exit statuses and process handles are not modelled.
- Helpers from modules that are not part of this model, which the model treats as given:
  - `object_list_as_string`: the function field `objectList`;
  - `libs_as_string`: the string field `libs`;
  - `get_assumed_filename_for_dir`: the parameter `assumed`;
  - `Library::path`, `static_file_name`, `dynamic_file_name`: stored fields;
  - `Target::object`: the stored `objectFile`.
  Only what `lib/build.rs` does with their results is modelled.
- `run_script`: its body is not part of this model. A configured script is one `Script` event; an unset one is a no-op.
- `env::set_current_dir`: the resolved root is returned as a value. Its failure is the parameter `canEnter`, giving an I/O error.
- Scheduler.RunJobQueue: a spawn event carries the target only. The command the job runs is `Commands.CompileCommand` for that target, and it is not recorded in the event.
- Scheduler.RunJobQueue: requires `jobs >= 1` unless the queue is empty. With zero workers and a non-empty queue the source loops forever, which is not modelled.
- Pipeline.Build, Pipeline.BuildAllBinaries, Pipeline.BuildAllLibraries, Pipeline.BuildBinaryWithName, Pipeline.BuildLibraryWithName and Pipeline.CompileObjects: require `jobs >= 1`, for the same reason. A zero worker count with nothing stale, which the source would accept, is excluded too.
- Pipeline.BinaryWithName, Pipeline.LibraryWithName, Pipeline.BinaryWithNameAsWritten, Pipeline.LibraryWithNameAsWritten and Pipeline.BuildSpec: require `jobs >= 1` too. This also excludes a missing name with zero workers, which the source answers without reaching the scheduler.
- Text.PrependEach: the `ext` helper `prepend_each` is not part of this model. It is assumed to put the prefix in front of every word, keeping their order.
- Target order: the ordered set uses `Target`'s own ordering, whose definition is not part of this model. It is modelled as lexicographic by source path, then object path. Only strictness and totality are used.
- Binary output paths are the binary's name as a single path component. Splitting a name containing separators is not modelled.
- Discovery.FindBuildFile from a relative directory: `Found.file` is the path value the source computes, the checked path joined onto the root once more. The source opens it only after `env::set_current_dir` (lib/build.rs:291-292), so it is relative to the new working directory `root`. It is not relative to the starting frame that `CheckDir` uses to look paths up in the filesystem. For example, starting from `a/b` with the description in `a/b`, the value is `a/b/a/b/<name>`, which seen from the start is `a/b/a/b/a/b/<name>`. The working-directory change itself is not modelled, and whether that file exists is not claimed. For an absolute start, the value equals the checked path (`Discovery.AbsoluteStartOpensCheckedFile`).
- Commands.CompileCommand, Commands.ArchiveCommand, Commands.SharedCommand and Discovery.FindBuildFile: paths are sequences of Unicode strings, so a path that is not valid UTF-8 cannot be expressed. The panic of `to_str().unwrap()` on such a path (lib/build.rs:81-82 for the object and source of the compile command, lib/build.rs:297 for the `NoAssumedToml` payload) is not modelled. The lossy replacement that `display()` makes (lib/build.rs:181, 189 for the library files) is not modelled either.
- Modification times are unbounded integers. Timestamps that cannot be read are `None` in the filesystem map.
- The `#[test]` functions: they depend on fixture files on disk.
