# A model of rustbuild

This project models the logic of `src/bootstrap`, the build system that bootstraps the Rust
compiler, and proves what its parts promise. Everything is stated for every input: every dependency
graph, every configuration, every sequence of root requests, every monotone clock, every order of
events, every place where the machine may stop.

The parts, and the modules that hold them:

* **The step engine** (`StepEngine`, `EngineMemo`, `EngineTrace`, `EngineFacts`, `EngineOrder`,
  `BuilderObject`). `Builder::ensure` is a recursive scheduler with a stack, a write-once cache, cycle
  detection and time accounting. `BuilderObject.Builder` is that object over mutable fields; `Exec` is
  what one call does to its state; `Plain` is recursion without a cache. A step body is a list of
  operations, requests for other steps and effects on the outside world, so one engine serves every
  graph.
* **The bootstrap stage graph** (`StageGraph`, `StageContracts`, `Layout`, `StageRun`, `RootParts`). The
  bodies of the real steps in source order, given to the engine. `StageGraph` ranks the steps,
  `StageContracts` says what each step relies on and establishes, `Layout` says where things are kept on
  disk, `StageRun` and `RootParts` say which part of a run a step and a root fill.
* **What a bootstrap run keeps** (`Sysroots`, `SnapshotLlvm`, `SnapshotOrder`, `SnapshotLoss`,
  `StageInputs`, `StageResults`, `StampReaders`, `OutputDirs`, `SnapshotStamps`, `Bootstrap`): sysroot
  directories and what wipes them, which compiler builds what and what is in place by then, the order in which the snapshot's sysroot is touched, stamps, what their readers find and
  when they are cleared away, compilers and their use. `Bootstrap` draws the conclusions about whole runs.
* **Metrics** (`Metrics`): the second, independent account of the time of a run, and exactly how it
  differs from the engine's own.
* **Path dispatch** (`PathDispatch`), **crate closure** (`CrateClosure`), **stamp files**
  (`StampCodec`), **interned values** (`Interner`), **the rustfmt pool** (`FormatPool`),
  **configuration merging** (`ConfigMerge`) and its **Python twin** (`TomlTwin`), **toolchain
  download** (`Toolchain`).

Code that works by changing things step by step is imperative here too: `Builder`, `BuildMetrics`,
`TyIntern`, `TomlConfig` and `Download` are classes, and the loops of dispatch, closure, batching,
scanning and stamp reading are loops, each proved against a specification function or an outright
property, about which the lemmas then speak.

## Where the code and its promise differ

* **Two targets of one name.** A target is selected by its triple or by a specification file, and the
  memo keys of the steps hold both, but directories are named after the triple alone. Two such targets
  make two steps for one directory, and the second wipes it although the first had handed it out.
  `Bootstrap.SysrootsStayIntactIff` says exactly in which runs no directory is wiped again and nothing is
  lost, `Bootstrap.LaterTwinLoses` and `Bootstrap.SameTripleLosesArtifacts` which requests lose artifacts
  that way, and `Bootstrap.TripleAndFileOfOneName` is a concrete one.
* **libLLVM of the snapshot's sysroot.** A shared LLVM, if there is one by the time, is installed when
  that sysroot is created, before `Libdir` wipes the target libdir in which it lies. The same step
  installs it again. `SnapshotLlvm.LlvmComesEarly` is the exact condition, on the configuration and the
  order of the roots (`Bootstrap.ArtifactsAreLostIff`); `Bootstrap.LlvmBeforeStd` and
  `Bootstrap.StdBeforeLlvm` are one request in the order that loses it and in the order that does not.
* **Stage 3 and later for a target that is no host.** `Assemble` returns early, as a stopgap, for
  every stage from 3 on without full bootstrap. That is sound where artifacts are lifted out of
  stage 1, and they are lifted only for targets that are hosts. `Bootstrap.MissingCompilerIsRunIff` says
  exactly which root requests make Cargo use a compiler that was never put into its sysroot, and
  `Bootstrap.StageThreeForForeignTarget` is a concrete one.
* **`clear_if_dirty` and a downloaded snapshot.** The directory for Cargo's output is shared by all
  targets, and the snapshot gets its codegen backends only when its first library is linked. If the marker
  of an earlier run is newer than the snapshot's compiler and older than its backends, the second library
  finds it too old, and the stamp of the first is cleared away. `Bootstrap.StampsOutliveTheirRunIff` says
  that this is exactly when a stamp is lost so; `Bootstrap.TwoLibrariesOfASnapshot` is a concrete run.
* **Builds of some crates.** A build that names crates writes the same stamp file as the full build and lists
  only those crates. `StampReaders.ReaderFindsLimitedIff` says exactly when a reader that takes the stamp to
  be of the full build finds such a list, and `Bootstrap.LimitedBuildBeforeDist` gives requests for which
  packaging a library does.
* **The recorder's figures are not those of `ensure`.** It reads the clock at moments of its own, so at
  every node the two exclusive times differ by exactly its overhead (`Metrics.RecorderAgreesWithEngine`).
* **Clearing a toolchain directory is not one operation.** A stop in the middle can leave rustc and
  an old stamp beside a directory with files missing. That is harmless for the key that was being
  installed, always, and for all keys exactly when the directory was not exposed
  (`Toolchain.ClearingIsSafeIff`).
* **`get_toml_static` is no TOML parser.** It misses indented keys, takes a `profile` key of any section for the
  profile (`TomlTwin.ProfilesAgreeIff`), and reads keys above the first
  header of a profile as if they stood in the last section of the user's file
  (`TomlTwin.ScanAgreesWithParse`, `TomlTwin.ReadersAgreeIff`, `TomlTwin.ReadersCanDisagree`).
* **`in_tree_crates` lists its root twice** when the root reaches itself (`CrateClosure.ClosureCounts`).

## Model

| member | source | states |
|---|---|---|
| `BuilderObject.Builder.Ensure` | src/bootstrap/builder.rs:2056-2117 | the answer, or the panic, and the new stack, cache, clock, dependency time and log are those of `Exec` |
| `BuilderObject.Builder.RunBody` | src/bootstrap/builder.rs:2079-2086 | running a body issues its requests and effects in order and leaves the stack as it was |
| `BuilderObject.Builder.EndStep` | src/bootstrap/builder.rs:2086-2116 | charging, popping and caching, and each of the four panics that guard them |
| `BuilderObject.Builder.IsRunning` | src/bootstrap/builder.rs:2058-2071 | a step is found on the stack exactly when it is being run |
| `BuilderObject.Builder.EnsureAll` | src/bootstrap/builder.rs:336-398 | root requests one after the other, ended by the first panic |
| `EngineMemo.PlainFailsIffCycle` | src/bootstrap/builder.rs:2058-2071 | recursion without a cache fails exactly when a cycle can be reached, and only with the cycle panic |
| `EngineMemo.PlainFrame` | src/bootstrap/builder.rs:2072-2077 | an answer does not depend on which steps are being run, as long as they are not met again; this is why a cached answer may be reused |
| `EngineMemo.MemoAgreesWithPlain` | src/bootstrap/builder.rs:2056-2117 | on every graph, from every sound state, `ensure` answers and panics as plain recursion does; all cache entries stay right, none is lost, and time never underflows |
| `EngineMemo.Finished` | src/bootstrap/builder.rs:2083-2116 | at the end of a step no subtraction underflows, the popped step is the right one, the cache has no entry yet, and the new entry equals the plain answer |
| `EngineMemo.EnsurePanicsIffCycle` | src/bootstrap/builder.rs:2057-2078 | from an empty stack and cache, a panic happens exactly when a cycle is reachable from the request, and it is the cycle panic |
| `EngineMemo.RunAgreesWithPlain` | src/bootstrap/builder.rs:2056-2117 | any sequence of roots: every answer is the plain one, the run fails exactly when some root reaches a cycle, the stack ends empty |
| `EngineTrace.EnsureRunsOnce` | src/bootstrap/builder.rs:2058-2116 | whether a call returns or panics: no body was started twice, the stack holds no duplicate and no cached step, and each cached step left exactly the effects of its body, in order |
| `EngineTrace.RunExecutesEachBodyOnce` | src/bootstrap/cache.rs:231-252 | the same over whole runs, finished or cut short |
| `EngineTrace.EnsureIsTimed` | src/bootstrap/builder.rs:2083-2091 | the time charged to the caller is the total duration of exactly the bodies the call caused, at most one of them directly; a cached answer costs nothing |
| `EngineTrace.StepIsTimed` | src/bootstrap/builder.rs:2083-2091 | a step's exclusive time is its duration minus the durations of its direct uncached dependencies |
| `EngineTrace.ExclusiveSumsToDuration` | src/bootstrap/builder.rs:2083-2091 | over any forest of runs the exclusive times add up to the durations of its roots |
| `EngineTrace.RunIsTimed` | src/bootstrap/builder.rs:2083-2091 | a whole run is a forest of nested, ordered runs, and all of its time is accounted for once |
| `EngineFacts.EnsureKeepsFacts` | src/bootstrap/builder.rs:2056-2117 | if every body alone keeps its contract, then during any call every effect comes after what it relies on, although most requests are answered from the cache |
| `EngineFacts.RunKeepsFacts` | src/bootstrap/builder.rs:2056-2117 | the same over whole runs, and every root that returned has established what it promises |
| `EngineOrder.RunStaysIn` | src/bootstrap/builder.rs:2056-2117 | a run starts no step that its roots cannot reach |
| `EngineOrder.RunExtendsLog` | src/bootstrap/builder.rs:2056-2117 | what happened stays in the log, in its place, whatever is requested later |
| `EngineOrder.RunMoment` | src/bootstrap/builder.rs:2072-2079 | every step in the cache was started at one moment of the run, when it was neither cached nor running |
| `EngineOrder.OnlyReachableActs` | src/bootstrap/builder.rs:2079-2116 | while a step runs, only steps that it can reach leave effects |
| `StageGraph.BodiesAreProper` | src/bootstrap/compile.rs:1534-1710 | every request in the body of every well-formed step is well-formed and has a smaller rank, and only those steps wipe, stamp, run Cargo and install that may |
| `StageGraph.StdProper` | src/bootstrap/compile.rs:91-193 | all branches of `Std`, with kept stages, uplifted artifacts and a build of its own |
| `StageGraph.RustcProper` | src/bootstrap/compile.rs:751-924 | all branches of `Rustc` |
| `StageGraph.CodegenProper` | src/bootstrap/compile.rs:1191-1250 | all branches of `CodegenBackend` |
| `StageGraph.AssembleProper` | src/bootstrap/compile.rs:1534-1710 | `Assemble`, whether it returns early or installs, only asks for lower stages or lower steps |
| `StageGraph.LinksAreProper` | src/bootstrap/compile.rs:485-550 | `StdLink` and `RustcLink` only ask for directories |
| `StageGraph.DirectoriesAreProper` | src/bootstrap/compile.rs:639-682 | `Sysroot`, `Libdir` and `StartupObjects` only ask for directories, and only the directory steps wipe |
| `StageGraph.ReachIsClosed` | src/bootstrap/builder.rs:966-994 | the steps that a root can reach are finitely many, closed under requests and well-formed |
| `StageContracts.BuildsIsIdempotent` | src/bootstrap/lib.rs:1377-1391 | the compiler that `compiler_for` chooses chooses itself, stays on the build triple and is no later stage |
| `StageContracts.StdHolds` | src/bootstrap/compile.rs:91-193 | when `Std` is done, the library of the chosen compiler is linked into the requested sysroot, the objects of its target are copied and its stamp is written; everything in between finds what it relies on |
| `StageContracts.RustcHolds` | src/bootstrap/compile.rs:751-924 | the same for `Rustc`, which needs the standard library for its target and for the build target in place, and LLVM |
| `StageContracts.CodegenHolds` | src/bootstrap/compile.rs:1191-1250 | the stamp of a codegen backend is written for the compiler that builds it |
| `StageContracts.AssembleHolds` | src/bootstrap/compile.rs:1534-1710 | a compiler is installed after rustc was linked for its host, every stamp it copies from was written, and every piece that the configuration asks for was copied |
| `StageContracts.DistHolds` | src/bootstrap/dist.rs:661-722 | the stamps that the two dist steps choose are those written by the `Std` or `Rustc` they asked for |
| `StageContracts.EveryBodyHolds` | src/bootstrap/compile.rs:1105-1115 | every well-formed step keeps its contract |
| `Layout.DecimalInjective` | src/bootstrap/lib.rs:811-827 | different stage numbers print differently |
| `Layout.StageDirsDiffer` | src/bootstrap/compile.rs:1370-1389 | different stages have different sysroot directories, the stage-0 one included |
| `Layout.SysrootsDiffer` | src/bootstrap/compile.rs:1370-1389 | a sysroot lies in another only if it is the same directory, and then stage and host triple are the same |
| `Layout.LibdirsDiffer` | src/bootstrap/builder.rs:1002-1048 | a target libdir lies in another only if the triples are the same; it contains libLLVM exactly when the libdir is `lib` and the triple that of the host |
| `Layout.StampsAreOutside` | src/bootstrap/lib.rs:811-827 | no sysroot contains a Cargo output directory |
| `Layout.StampsDiffer` | src/bootstrap/compile.rs:1300-1325 | two stamps share a file only if mode, stage, host triple and target triple are the same |
| `Layout.NamesOfStages` | src/bootstrap/compile.rs:1374-1384 | sysroot directories by name |
| `Layout.NamesOfOutputs` | src/bootstrap/lib.rs:811-827 | Cargo output directories by name |
| `Layout.StampsByName` | src/bootstrap/compile.rs:1300-1325 | where a stamp lies and what it is called |
| `Layout.LibdirsByName` | src/bootstrap/builder.rs:1014-1022 | target libdirs by name, with a configured libdir from stage 1 on |
| `StageRun.WalksDescend` | src/bootstrap/compile.rs:1534-1600 | along every chain of requests the rank strictly decreases |
| `StageRun.EveryRunFinishes` | src/bootstrap/compile.rs:1534-1710 | no run panics; exactly the steps that the roots can reach are run, and the contracts hold over the log |
| `StageRun.EventsAreOwned` | src/bootstrap/compile.rs:1534-1710 | everything a run does is done by a step of the run that may do it |
| `StageRun.EventIsInItsPart` | src/bootstrap/builder.rs:2056-2117 | everything a step does, it does for the first root that reaches it |
| `StageRun.StepSpan` | src/bootstrap/builder.rs:2056-2117 | every step of a run has a part of the log to itself and to the steps it reaches, and by its end these are all done |
| `RootParts.RootOf` | src/bootstrap/builder.rs:336-398 | every event of a run belongs to one root, the first that reaches its step |
| `Sysroots.WipesHappenOnce` | src/bootstrap/builder.rs:1014-1029 | each directory step wipes once, and nobody else wipes for it |
| `Sysroots.UndoneEffectsRelyOnAWipe` | src/bootstrap/compile.rs:1717-1735 | whoever copies into a directory asked for it first, so it was wiped before, except for libLLVM of the snapshot |
| `Sysroots.LostArtifacts` | src/bootstrap/compile.rs:1717-1735 | in every run, what is lost is that libLLVM or lay in a directory that is wiped again |
| `Sysroots.WipedAgainIffTwins` | src/bootstrap/builder.rs:1002-1048 | a directory is wiped again exactly when two steps of the run make the same one |
| `Sysroots.DistinctNamesHaveNoTwins` | src/bootstrap/config.rs:429-466 | which cannot be if the build target and the targets and hosts of the roots have different triples |
| `Sysroots.LostLlvmIsRestored` | src/bootstrap/builder.rs:1031-1039 | the step that wiped libLLVM copies it to the same place again |
| `Sysroots.DestinationsByName` | src/bootstrap/compile.rs:1717-1735 | where objects, libraries, libLLVM, the compiler, its backends and the sources go, by name |
| `Sysroots.PiecesByName` | src/bootstrap/compile.rs:1633-1710 | where the other pieces of a sysroot go, by name |
| `SnapshotLlvm.CargoReachesSnapshot` | src/bootstrap/compile.rs:1534-1580 | whatever is built, the snapshot's libdirs of its first target and of the build target are asked for |
| `SnapshotOrder.EveryBodyIsInOrder` | src/bootstrap/compile.rs:91-193 | every step body first asks for the libdir of the first target, then for that of the build target, and only then for another one or for LLVM |
| `SnapshotLoss.OrderIsKept` | src/bootstrap/llvm.rs:249-268 | so does the first root of every run that uses Cargo, although earlier roots have filled the cache |
| `SnapshotLoss.LostMeansEarly` | src/bootstrap/dist.rs:1953-2018 | if libLLVM is lost, it was ready before the root that installs it, and no root before had its libdir wiped |
| `SnapshotLoss.LlvmIsLostIffEarly` | src/bootstrap/dist.rs:1953-2018 | unless two steps make the same directory, something is lost exactly when libLLVM comes early |
| `StageInputs.StampsAreWrittenFirst` | src/bootstrap/compile.rs:1580-1635 | every stamp read was written earlier in the run by the step that made the build it is taken to be of |
| `StageInputs.SameFile` | src/bootstrap/compile.rs:1300-1325 | unless two steps make the same directory, a stamp file belongs to one mode, compiler and target |
| `StageInputs.StdIsLinked` | src/bootstrap/compile.rs:485-507 | a finished `Std` has linked its library into the sysroot, and it stays there unless two steps make the same directory |
| `StageInputs.CargoFindsItsCompilerIff` | src/bootstrap/compile.rs:1580-1587 | one use of Cargo, for a library, a compiler, a backend or a tool, misses its compiler exactly when `Assemble` returns early for that compiler |
| `StageInputs.CompilerIsMissingIff` | src/bootstrap/compile.rs:1580-1587 | a run misses a compiler exactly when one of its roots overreaches |
| `StageResults.CargoIsRunIff` | src/bootstrap/lib.rs:1377-1382 | Cargo is run for a library, a compiler or a backend exactly if a step of the run is for it, its stage is not kept, and it is not lifted: full bootstrap, stage 0 or 1, or a target that is neither the build target nor a host |
| `StageResults.LinksComeFrom` | src/bootstrap/builder.rs:981-994 | what is linked into a sysroot comes from the stage-1 compiler exactly if it is lifted, and from the compiler of the sysroot otherwise |
| `StageResults.CompilerIsInstalledIff` | src/bootstrap/compile.rs:1537-1587 | a compiler is installed exactly if it was asked for and is neither the snapshot nor, without full bootstrap, of stage 3 or later |
| `StageResults.LlvmIsBuiltIff` | src/bootstrap/llvm.rs:74-126 | LLVM is built exactly if it was asked for and neither provided nor finished by an earlier run |
| `StageResults.LlvmComesFirst` | src/bootstrap/compile.rs:988-1012 | with the LLVM backend, LLVM is there before a compiler or a backend is compiled; a cross-compiled LLVM, the linker and the sanitizer runtimes find the one they are built with |
| `StageResults.CargoFindsItsInputs` | src/bootstrap/compile.rs:751-924 | before a compiler is compiled, the libraries for its host and for the build target are linked; before a backend, the crates of the compiler; before a library, its startup objects are copied |
| `StageResults.ObjectsAreCopiedIff` | src/bootstrap/compile.rs:218-311 | startup objects, sanitizers, unwinders and self-contained objects are copied exactly if a step for them is run and the triple and the configuration ask for them |
| `StageResults.ObjectsAreMadeFirst` | src/bootstrap/compile.rs:210-216 | what is copied was built before |
| `StageResults.StampsListObjects` | src/bootstrap/compile.rs:140-190 | the stamp of a library is written after all its objects were copied |
| `StageResults.SysrootHasSources` | src/bootstrap/compile.rs:1465-1502 | the sources are linked into every sysroot after it was wiped |
| `StageResults.LlvmIsInstalledIff` | src/bootstrap/dist.rs:1953-1971 | libLLVM is installed in a sysroot exactly if LLVM is linked dynamically and not provided from outside |
| `StageResults.LlvmIsCopiedIff` | src/bootstrap/dist.rs:1973-2018 | an installation of libLLVM copies something exactly if there is one by then: on macOS the dynamic library, elsewhere a finished LLVM |
| `StageResults.InstalledCompilerIsComplete` | src/bootstrap/compile.rs:1580-1710 | an installed compiler has the crates, the libraries, the linker, the LLVM tools and the libLLVM that the configuration asks for |
| `StageResults.PiecesAreMadeFirst` | src/bootstrap/compile.rs:1654-1690 | the linker, its wrapper and LLVM are there when they are copied |
| `StageResults.InstalledCompilerHasBackends` | src/bootstrap/compile.rs:1589-1600 | every codegen backend but LLVM's was read from its stamp before, and backends were copied |
| `StageResults.DistReadsTheRightStamp` | src/bootstrap/dist.rs:661-722 | packaging reads the stamp of the stage-1 compiler exactly where artifacts are lifted, and does nothing for a compiler that does not run on the build machine |
| `StampReaders.SpecialBuildsAreRoots` | src/bootstrap/compile.rs:76-90 | only roots name crates; steps request full builds of each other |
| `StampReaders.OwnLinkReadsItsBuild` | src/bootstrap/compile.rs:158-190 | a link step that belongs to a build finds the stamp of that build, whatever was built before |
| `StampReaders.ReaderFindsLimitedIff` | src/bootstrap/compile.rs:140-190 | any other reader finds a list of some crates exactly if, by the root that leads to it, the last new build for that compiler and target was one that named crates |
| `OutputDirs.SameFilesAreClean` | src/bootstrap/lib.rs:728-741 | after a preparation, one that compares the same files does not clear the directory |
| `OutputDirs.NewCompilerClears` | src/bootstrap/builder.rs:1561-1571 | a library: if the installed compiler is newer than the marker of an earlier run, the first preparation clears the directory |
| `OutputDirs.CompilerTimesAreIgnored` | src/bootstrap/builder.rs:1264-1270 | a compiler or a backend: when the compiler was built does not matter, only its backends do |
| `OutputDirs.CompilerStays` | src/bootstrap/builder.rs:1264-1270 | after Cargo was prepared for a compiler that was built, it is not wiped, installed or given backends any more |
| `OutputDirs.BuiltCompilersKeepStamps` | src/bootstrap/builder.rs:1561-1571 | so none of its stamps is cleared away |
| `OutputDirs.OtherSnapshotStampsStay` | src/bootstrap/builder.rs:1264-1270 | nor are the snapshot's stamps for compilers and backends, since its own backends are there from the first preparation on |
| `SnapshotStamps.TwoLibrariesClear` | src/bootstrap/lib.rs:728-741 | a marker between the snapshot's compiler and its backends, and two libraries: a stamp is cleared away |
| `SnapshotStamps.StampsAreClearedIff` | src/bootstrap/lib.rs:728-741 | and only then, for all runs in which no two steps make the same directory and all file times |
| `Bootstrap.EveryRequestIsAnswered` | src/bootstrap/compile.rs:1534-1600 | every run returns one answer per root, an assembled compiler is the requested one, every stage-0 `Assemble` is for the build triple, and no body starts twice |
| `Bootstrap.SysrootsKeepTheirArtifacts` | src/bootstrap/builder.rs:1002-1048 | over every run, whatever is lost lay in a directory that two steps make, or is libLLVM of the snapshot, which the wiping step puts back |
| `Bootstrap.SysrootsStayIntactIff` | src/bootstrap/builder.rs:1002-1048 | nothing is lost and no directory that was handed out is wiped, exactly when the roots reach no two steps for one directory and libLLVM does not come early |
| `Bootstrap.ArtifactsAreLostIff` | src/bootstrap/dist.rs:1953-2018 | if all targets and hosts have different triples: something is lost exactly when libLLVM comes early, and no directory is wiped again |
| `Bootstrap.LaterTwinLoses` | src/bootstrap/builder.rs:1002-1048 | what earlier roots have copied into a directory is lost when a later root newly leads to another step for it |
| `Bootstrap.SameTripleLosesArtifacts` | src/bootstrap/config.rs:429-466 | two requests for the library of one compiler, for targets that share a triple, the second of which no earlier request names: artifacts are lost |
| `Bootstrap.StampsAreReadAfterTheyAreWritten` | src/bootstrap/compile.rs:1580-1635 | over every run that keeps no stage, every stamp read was written before by the step that made the build it is taken to be of, and no directory step deletes it |
| `Bootstrap.ReadersFindTheirBuild` | src/bootstrap/compile.rs:140-190 | who wrote the stamp last: for a link step its own build; for others a full build, unless a root names crates for the same compiler and target |
| `Bootstrap.LimitedBuildBeforeDist` | src/bootstrap/dist.rs:661-680 | everything, then some crates, then packaging: the package gets the crates only |
| `Bootstrap.StampsOutliveTheirRunIff` | src/bootstrap/lib.rs:728-741 | a stamp is cleared away later in the run exactly if the marker lies between the snapshot's compiler and its backends and two libraries are built with a downloaded snapshot |
| `Bootstrap.RequestedStdIsInItsSysroot` | src/bootstrap/compile.rs:485-507 | a requested standard library ends up in the sysroot it was requested for, from the stage-1 compiler exactly where artifacts are lifted and from its own compiler otherwise, and stays there unless two steps make the same directory |
| `Bootstrap.LinkedFrom` | src/bootstrap/builder.rs:981-994 | over every run, whatever is linked into a sysroot is of its own compiler or, exactly where it is lifted, of stage 1 |
| `Bootstrap.WhoRunsCargoIff` | src/bootstrap/lib.rs:1377-1382 | over every run, who runs Cargo: without full bootstrap, no compiler of stage 2 or later builds for the build target or a host |
| `Bootstrap.LlvmIsThereFirst` | src/bootstrap/builder.rs:1182-1190 | over every run with the LLVM backend, no compiler and no backend is compiled before there is an LLVM for its target |
| `Bootstrap.MissingCompilerIsRunIff` | src/bootstrap/compile.rs:1580-1587 | Cargo uses a compiler that was never installed exactly when a root asks stage 3 or later, without full bootstrap, to build for a target that is no host |
| `Bootstrap.StageThreeForForeignTarget` | src/bootstrap/compile.rs:1580-1587 | a concrete request for which that happens |
| `Bootstrap.TripleAndFileOfOneName` | src/bootstrap/config.rs:429-466 | a triple and a specification file of the same name: a concrete request that loses artifacts |
| `Bootstrap.TwoLibrariesOfASnapshot` | src/bootstrap/lib.rs:728-741 | a concrete run that loses a stamp so |
| `Bootstrap.LlvmBeforeStd` | src/bootstrap/dist.rs:1953-2018 | LLVM and then the standard library: a concrete request that loses libLLVM |
| `Bootstrap.StdBeforeLlvm` | src/bootstrap/dist.rs:1953-2018 | the same two in the other order: nothing is lost |
| `Metrics.BuildMetrics.CollectStats` | src/bootstrap/metrics.rs:143-152 | the time since the timer was set goes to the innermost running step |
| `Metrics.BuildMetrics.Enter` | src/bootstrap/metrics.rs:65-91 | the new state is that of `EnterStep` |
| `Metrics.BuildMetrics.Exit` | src/bootstrap/metrics.rs:93-114 | the new state is that of `ExitStep` |
| `Metrics.RecordingIsExact` | src/bootstrap/metrics.rs:65-152 | for every sequence of events: no `unwrap` fails exactly when no step is left before it was entered; then the forest mirrors the nesting, the timer is set exactly while a step runs, and exclusive times add up to the time covered |
| `Metrics.AccountsAreReconciled` | src/bootstrap/builder.rs:2080-2108 | at every node, the recorder's time plus its overhead around the dependencies equals the time of `ensure` plus its overhead around the step |
| `Metrics.RecorderAgreesWithEngine` | src/bootstrap/metrics.rs:65-114 | for every finished run the recorder, with its own readings of the clock, ends with the forest of steps that ran, its times reconciled with those of `ensure` at every node; they are the same if it takes no time |
| `Metrics.JsonRoundTrip` | src/bootstrap/metrics.rs:213-230 | steps, nesting, exclusive times and suites can all be read back from the JSON tree |
| `Metrics.StepsComeBeforeSuites` | src/bootstrap/metrics.rs:213-230 | the children of a node are the nodes of its child steps, in order, and after them its test suites |
| `PathDispatch.RemoveMatch` | src/bootstrap/builder.rs:255-276 | the first matching needle is removed, and only that one |
| `PathDispatch.FilterRemovingMatches` | src/bootstrap/builder.rs:255-276 | the kept task paths and the remaining needles are those of the reference matching |
| `PathDispatch.IntersectionRemovingMatches` | src/bootstrap/builder.rs:255-276 | a set keeps its matched members; a suite is kept whole or not at all |
| `PathDispatch.PathsetsRemovingMatches` | src/bootstrap/builder.rs:569-582 | a description is given the nonempty parts of its path sets, in order |
| `PathDispatch.PartsAreEmptyIff` | src/bootstrap/builder.rs:569-582 | a description is run exactly when one of its task paths took a needle |
| `PathDispatch.GreedyConserves` | src/bootstrap/builder.rs:255-276 | every needle is taken by exactly one task path, which it matches, or is left |
| `PathDispatch.GreedyIsMaximal` | src/bootstrap/builder.rs:255-276 | no needle left over matches a task path that took nothing |
| `PathDispatch.FindSuite` | src/bootstrap/builder.rs:542-551 | a suite is found exactly when one contains the path: the first such suite of the first description that has one |
| `PathDispatch.RunSuites` | src/bootstrap/builder.rs:358-373 | one job per path that belongs to a suite, the other paths retained in order |
| `PathDispatch.Dispatch` | src/bootstrap/builder.rs:336-398 | the jobs, in order, and the error for unmatched paths, which is raised exactly when some are left |
| `PathDispatch.DispatchConserves` | src/bootstrap/builder.rs:336-398 | each requested path goes to a suite, to exactly one task path that it matches, or is left over; the matching is maximal |
| `PathDispatch.TakenAndLeft` | src/bootstrap/builder.rs:240-247 | a task path takes only a path that it ends with, if its kind is open or that of the command, and no path left over is such for a task path that took nothing |
| `PathDispatch.SuiteTakesIff` | src/bootstrap/builder.rs:542-551 | a path goes to a suite exactly if it continues the path of one |
| `PathDispatch.LoneRequest` | src/bootstrap/builder.rs:336-398 | one path, with or without a leading dot: a path in a suite runs that suite, any other the first description with a task path that ends with it and is of its kind, for that task path alone, and otherwise no rule matched |
| `CrateClosure.VisitDeps` | src/bootstrap/lib.rs:1523-1542 | visiting the dependencies of one crate, in any order, keeps the exploration invariant and makes progress |
| `CrateClosure.InTreeCrates` | src/bootstrap/lib.rs:1513-1546 | terminates on every graph and returns the closure in name order, or fails for a root that is not there |
| `CrateClosure.AllFound` | src/bootstrap/lib.rs:1513-1546 | what the worklist found is the root and everything reachable, counted exactly |
| `CrateClosure.ClosureCounts` | src/bootstrap/lib.rs:1513-1546 | membership is reachability; other crates appear once, the root twice exactly when it reaches itself |
| `CrateClosure.ListedIff` | src/bootstrap/lib.rs:1533-1538 | on the bare map: listed is what dependencies lead to once those on `rustc_codegen_llvm` are dropped unless LLVM is enabled, and those on `profiler_builtins` unless the profiler is |
| `CrateClosure.FeaturesOnlyAdd` | src/bootstrap/lib.rs:1533-1538 | what is found without either is listed under any features, and more features never list less |
| `CrateClosure.NameLeIff` | src/bootstrap/lib.rs:1544 | names are ordered by their first difference |
| `StampCodec.WriteStamp` | src/bootstrap/compile.rs:1888-1900 | what is written is the encoding of the sorted list, and nothing is written if a path is not text |
| `StampCodec.ReadStampFile` | src/bootstrap/lib.rs:1548-1579 | what is read is the decoding of the contents; a missing file, an unknown tag and a path that is not text are errors, the first of them decides |
| `StampCodec.DecodeEncode` | src/bootstrap/lib.rs:1561-1578 | reading what was written gives the list back, for all paths that are text without NUL, empty ones included |
| `StampCodec.EncodeIsInjective` | src/bootstrap/compile.rs:1888-1900 | different lists never share a stamp |
| `StampCodec.EncodeDecode` | src/bootstrap/lib.rs:1561-1578 | writing what was read gives the contents back, for all contents a stamp can have |
| `StampCodec.LettersOfTheFormat` | src/bootstrap/lib.rs:1567-1570 | the letter of each kind of artifact, written and read |
| `StampCodec.OtherLettersAreRefused` | src/bootstrap/lib.rs:1567-1571 | a part with any other letter is refused |
| `StampCodec.FirstLengthIff` | src/bootstrap/lib.rs:1573-1575 | text is UTF-8: each character in the shortest form, no surrogates |
| `Interner.TyIntern.Intern` | src/bootstrap/cache.rs:129-153 | the table stays a bijection, old handles keep their contents, the handle stands for the item |
| `Interner.HandlesKeepTheirContents` | src/bootstrap/cache.rs:118-158 | after any sequence of calls every handle ever returned still stands for what it was returned for |
| `Interner.HandlesAgreeWithContents` | src/bootstrap/cache.rs:34-39 | two handles are equal exactly when their contents are, whatever happened in between |
| `Interner.OrderAndHashAgreeWithIndex` | src/bootstrap/cache.rs:82-116 | equality by index, order and hash by contents are consistent and never change |
| `FormatPool.PollOne` | src/bootstrap/format.rs:289-295 | polling finds the last child that has ended, whenever there is one |
| `FormatPool.MakeRoom` | src/bootstrap/format.rs:289-301 | the last ended child is taken out, and the front one too if the pool is still full; then there is room for one more, and every completed child is accounted for and succeeded |
| `FormatPool.Drain` | src/bootstrap/format.rs:303-306 | every remaining child is awaited once |
| `FormatPool.BatchPaths` | src/bootstrap/format.rs:277-307 | at most `max_processes` children live, the batches follow the order of arrival and have 1 to 8 paths, each path is in exactly one, every child completed exactly once; while paths come it waits only when the pool is full |
| `FormatPool.Format` | src/bootstrap/format.rs:277-325 | at most two children per job live, and that many whenever it waits, for the jobs asked for, else those the machine offers, else one; the version stamp is written exactly when formatting, not checking, and all batches succeeded |
| `ConfigMerge.TomlConfig.MergeFields` | src/bootstrap/config.rs:629-660 | field by field: left-biased, right-biased or disjoint union, or the error |
| `ConfigMerge.TomlConfig.MergeTables` | src/bootstrap/config.rs:599-613 | section by section, failing exactly when some section clashes |
| `ConfigMerge.TomlConfig.MergeIn` | src/bootstrap/config.rs:593-616 | the merged object, or which of the two failures |
| `ConfigMerge.MergedField` | src/bootstrap/config.rs:593-660 | every field is the first present, from the side that the mode says |
| `ConfigMerge.StrictMergeFailsIff` | src/bootstrap/config.rs:729-758 | strict merging fails exactly when both sides give the same field |
| `ConfigMerge.FoldFailsIffClashing` | src/bootstrap/config.rs:1231-1259 | the `--set` fold fails exactly when two options give the same field, and otherwise holds exactly what they give |
| `ConfigMerge.FoldIsOrderIndependent` | src/bootstrap/config.rs:1231-1259 | the fold has the same outcome in every order of the options |
| `ConfigMerge.ParseInner` | src/bootstrap/config.rs:1213-1261 | profile under user file, options among themselves, options over both, with the first failure |
| `ConfigMerge.PipelinePrecedence` | src/bootstrap/config.rs:1213-1261 | every field, and the changelog mark, is the first present of `--set`, user file, profile; the pipeline fails exactly when two options clash |
| `TomlTwin.GetTomlStatic` | src/bootstrap/bootstrap.py:794-806 | the value of the first unindented line with the key, below the last header of the section if one is given and anywhere otherwise; nothing exactly if there is no such line |
| `TomlTwin.ScanIsFirstHit` | src/bootstrap/bootstrap.py:794-806 | the same of the scanner as a function, by places |
| `TomlTwin.ScanAgreesWithParse` | src/bootstrap/bootstrap.py:794-806 | in a file without repeated keys the scanner finds what the parser finds, and nothing of a key that is indented |
| `TomlTwin.ProfilesAgreeIff` | src/bootstrap/bootstrap.py:1051-1052 | the profile that bootstrap.py includes is the one that config.rs merges exactly when it is not misread: not indented, and not taken from a section |
| `TomlTwin.ReadersAgreeIff` | src/bootstrap/bootstrap.py:1062-1065 | for all files that repeat no key, the two readers agree on a key exactly when it is not misread: not taken from above the profile's first header, and not on an indented line that matters |
| `TomlTwin.ReadersAgree` | src/bootstrap/config.rs:1213-1229 | they agree on keys that are not indented whenever the profile has no key above its first header |
| `TomlTwin.WholeFilesAgreeIff` | src/bootstrap/config.rs:1213-1229 | from the user's file alone: if its profile is not misread, both include the same defaults and agree on a key exactly when that is not misread |
| `TomlTwin.ReadersCanDisagree` | src/bootstrap/bootstrap.py:794-806 | two concrete files on which they do not |
| `Toolchain.Download.Clear` | src/bootstrap/download.rs:469-471 | files go one by one, in any order; it finishes exactly if the machine lasts for all of them, and a stop leaves some |
| `Toolchain.Download.Fetch` | src/bootstrap/download.rs:191-206 | the cache only gains whole downloads, and changes only on success |
| `Toolchain.Download.DownloadComponent` | src/bootstrap/download.rs:515-602 | success means the component is wholly unpacked for the key, from a verified tarball where that is demanded; other components are untouched; a cached tarball that can be used is used, without the network; it fails for want of a checksum exactly if there is none |
| `Toolchain.Download.DownloadAll` | src/bootstrap/download.rs:472-481 | every component in turn: success means the whole toolchain is unpacked for the key; if all are cached it only takes time |
| `Toolchain.Download.WriteStamp` | src/bootstrap/download.rs:498 | the stamp names the key once it is whole, and no key before |
| `Toolchain.Download.DownloadToolchain` | src/bootstrap/download.rs:454-500 | wherever it stops: only verified tarballs were unpacked, and whoever finds rustc and a stamp for a key finds all of that key, unless an exposed directory of another key was being cleared; if all components are cached, it finishes once the machine lasts, and nothing is done if the toolchain is there |
| `Toolchain.UnexposedStaysSafe` | src/bootstrap/download.rs:466-471 | clearing a directory that is not exposed is harmless at every point |
| `Toolchain.ClearingIsSafeIff` | src/bootstrap/download.rs:466-471 | clearing is harmless for every key, at every point, exactly when the directory is not exposed |
| `Toolchain.ClearingIsSafeForItsKey` | src/bootstrap/download.rs:466-471 | for the key being installed it is always harmless |

## Left out

- download-rustc: several compilers then share one sysroot, so the statements about whole runs are not meant for it.
- Dry runs: they skip effects and stamps; the model always carries them out.
- Kept stages: modelled in every step body; the statements about stamps read, missing compilers and the exact loss condition are made for runs that keep nothing, since a kept stage uses stamps of earlier runs.
- Step bodies: the `run` methods of the stage graph are given as lists of requests and effects, which the imperative engine carries out; file contents are not modelled, and where a body copies files the model records which directory it copies into.
- `clear_if_dirty`: its use for documentation and in tests; files are taken to be no newer than the moment they are put in place, and copies to keep the times of their originals.
- Outputs of steps: only `Assemble` returns something that other steps use, its own target compiler; paths returned by directory steps are given by `Layout`.
- `..` and `.` inside configured library directories: paths are compared component by component.
- `LldWrapper`, `Lld`, `Llvm`, `Sanitizers`, `CrtBeginEnd`, `Libunwind`: only their requests, what they build and where it is copied; `HashStamp` and the native builds are not modelled, nor the panic for a shared LLVM on Windows.
- Other steps of `tool.rs`, `test.rs`, `dist.rs`, `doc.rs` and `install.rs`: they would add roots of the kinds already there.
- Command lines of Cargo, rustc, cmake and git: lists of flags without an invariant.
- `maybe_run`: the `--exclude` filter and the loop over targets; default path sets when no path is given.
- `PathDispatch.Check`: paths are component lists, so `Path::ends_with` is a suffix test; symbolic links and the absolute-path rewriting are not modelled.
- `Metrics.RecordingIsExact`: test suites are carried but their recording (`begin_test_suite`, `record_test`) is not an event, and CPU usage, a floating-point figure, is dropped.
- `StampCodec.WriteStamp`: the order of paths is any total order, since the platform's order of paths is not part of the format.
- `maybe_download_ci_llvm` and `maybe_download_rustfmt`: they do not clear their destination, so the claim is not theirs; the PowerShell fallback and the patching of binaries on NixOS are not modelled.
- `Metrics.JsonRoundTrip`: durations stay exact, while the source turns them into floating-point seconds.
- `Toolchain.Download.DownloadToolchain`: a stamp that was only partly written is taken to match no key.
- TOML and JSON syntax: configurations start from parsed fields, the scanner from classified lines, the JSON conversion ends at the tree; the unquoted retry for `--set` is part of parsing.
- `ConfigMerge.PipelinePrecedence`: for configurations whose profile and options have no target tables, since merging one panics; `ConfigMerge.TomlConfig.MergeIn` models that panic.
- `TomlTwin.ReadersAgreeIff`: for files that do not repeat a key within a section, which TOML forbids.
