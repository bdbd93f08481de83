/** The main results about bootstrap runs without download-rustc: for every configuration, every
    sequence of root requests and every monotone clock. */
module Bootstrap {
  import opened Options
  import opened StepEngine
  import opened EngineMemo
  import opened EngineTrace
  import opened StageGraph
  import opened StageContracts
  import opened Layout
  import opened StageRun
  import opened RootParts
  import opened Sysroots
  import opened SnapshotLlvm
  import opened SnapshotLoss
  import opened StageInputs
  import opened StampReaders
  import opened OutputDirs
  import opened SnapshotStamps
  import opened StageResults

  /** Every run returns, and requesting a compiler returns that compiler. Wherever a stage-0 compiler
      is assembled, it is the one for the build triple, as `Assemble` asserts. */
  lemma EveryRequestIsAnswered(cfg: Config, roots: seq<Step>, clock: nat -> nat)
    requires Requests(cfg, roots) && Monotone(clock)
    ensures var (out, end) := Run(cfg, roots, clock);
            && out.Done?
            && |out.value| == |roots|
            && (forall i | 0 <= i < |roots| && roots[i].Assemble? :: out.value[i] == TheCompiler(roots[i].targetCompiler))
            && (forall c | Assemble(c) in Entered(end.log) && c.stage == 0 :: c.host == cfg.build)
            && NoDup(Entered(end.log))
  {
    EveryRunFinishes(cfg, roots, clock);
    StageRulesAreClosed(cfg, roots, clock);
    RunAgreesWithPlain(StageRules(cfg, roots, clock), Fresh(), roots);
    var end := Run(cfg, roots, clock).1;
    forall c | Assemble(c) in Entered(end.log) && c.stage == 0
      ensures c.host == cfg.build
    {
      assert Assemble(c) in Elems(Entered(end.log));
    }
  }

  /** Whatever a run loses is in a directory that two of its steps make, or is libLLVM of the snapshot's
      sysroot; and the step that loses that puts it back. */
  lemma SysrootsKeepTheirArtifacts(cfg: Config, roots: seq<Step>, clock: nat -> nat, i: nat, j: nat)
    requires Requests(cfg, roots) && Monotone(clock)
    requires LosesArtifacts(cfg, RunLog(cfg, roots, clock), i, j)
    ensures Twins(cfg, ReachAll(cfg, roots)) || Restored(cfg, RunLog(cfg, roots, clock), i, j)
  {
    EveryRunFinishes(cfg, roots, clock);
    var end := Run(cfg, roots, clock).1;
    WipedAgainIffTwins(cfg, end);
    LostArtifacts(cfg, end, i, j);
    if LosesLlvm(cfg, end.log[j].effect, end.log[i].effect) {
      var k := LostLlvmIsRestored(cfg, end, i, j);
      LostLlvm(cfg, end, i, j);
    }
  }

  /** What was copied at `i` and wiped at `j` is libLLVM, and the step that wiped it copies it there again. */
  ghost predicate Restored(cfg: Config, log: Log, i: nat, j: nat)
    requires i < j < |log| && log[i].Did? && log[j].Did?
  {
    && LosesLlvm(cfg, log[j].effect, log[i].effect)
    && exists k: nat :: && j < k < |log| && log[k].Did? && log[k].who == log[j].who && Copies(cfg, log, k)
                        && Destinations(cfg, log[k].effect) == Destinations(cfg, log[i].effect)
  }

  /** Nothing that was copied into a sysroot is deleted, and no directory that was handed out is wiped. */
  ghost predicate Intact(cfg: Config, log: Log) {
    !SomeArtifactIsLost(cfg, log) && !SomeDirectoryIsWipedAgain(cfg, log)
  }

  /** Exactly which runs leave the sysroots intact: those whose roots reach no two directory steps for
      the same directory, which takes two targets or hosts that share a triple, and in which the
      snapshot's libLLVM does not come early. */
  lemma SysrootsStayIntactIff(cfg: Config, roots: seq<Step>, clock: nat -> nat)
    requires Requests(cfg, roots) && Monotone(clock) && KeepsNothing(cfg)
    ensures Intact(cfg, RunLog(cfg, roots, clock)) <==> !Twins(cfg, ReachAll(cfg, roots)) && !LlvmComesEarly(cfg, roots)
  {
    EveryRunFinishes(cfg, roots, clock);
    WipedAgainIffTwins(cfg, Run(cfg, roots, clock).1);
    if !Twins(cfg, ReachAll(cfg, roots)) {
      LlvmIsLostIffEarly(cfg, roots, clock);
    }
  }

  /** If the build target and the targets and hosts of the roots have different triples, the only loss
      is that of libLLVM, and it happens exactly when libLLVM comes early. */
  lemma ArtifactsAreLostIff(cfg: Config, roots: seq<Step>, clock: nat -> nat)
    requires Requests(cfg, roots) && Monotone(clock) && KeepsNothing(cfg)
    requires Distinct(AllNames(cfg, roots))
    ensures SomeArtifactIsLost(cfg, RunLog(cfg, roots, clock)) <==> LlvmComesEarly(cfg, roots)
    ensures !SomeDirectoryIsWipedAgain(cfg, RunLog(cfg, roots, clock))
  {
    DistinctNamesHaveNoTwins(cfg, roots);
    LlvmIsLostIffEarly(cfg, roots, clock);
    EveryRunFinishes(cfg, roots, clock);
    WipedAgainIffTwins(cfg, Run(cfg, roots, clock).1);
  }

  /** Whatever earlier roots have copied into a directory is lost when a later root newly leads to another
      step for the same directory. */
  lemma LaterTwinLoses(cfg: Config, roots: seq<Step>, clock: nat -> nat, n: nat, y: Step, i: nat, d: Path)
    requires Requests(cfg, roots) && Monotone(clock) && n <= |roots|
    requires IsDirectory(y) && y in ReachAll(cfg, roots) && y !in ReachAll(cfg, roots[..n])
    requires i < Start(cfg, roots, clock, n) && Copies(cfg, RunLog(cfg, roots, clock), i)
    requires d in Destinations(cfg, RunLog(cfg, roots, clock)[i].effect) && WipePath(cfg, WipeOf(y)) <= d
    ensures SomeArtifactIsLost(cfg, RunLog(cfg, roots, clock))
  {
    EveryRunFinishes(cfg, roots, clock);
    var j := WipePlace(cfg, Run(cfg, roots, clock).1, y);
    ComesAfter(cfg, roots, clock, n, j);
    assert LosesArtifacts(cfg, RunLog(cfg, roots, clock), i, j);
  }

  /** Two requests for the standard library of one compiler, for two targets that share a triple and of
      which the second is named by no request before it: the second deletes what the first had copied. */
  lemma SameTripleLosesArtifacts(cfg: Config, roots: seq<Step>, clock: nat -> nat, p: nat, m: nat)
    requires Requests(cfg, roots) && Monotone(clock) && p < m < |roots|
    requires roots[p].Std? && roots[m].Std? && roots[p].compiler == roots[m].compiler
    requires roots[p].target.triple == roots[m].target.triple && roots[m].target !in AllNames(cfg, roots[..m])
    ensures SomeArtifactIsLost(cfg, RunLog(cfg, roots, clock))
  {
    var c, t, t' := roots[p].compiler, roots[p].target, roots[m].target;
    var i := StdCopies(cfg, roots, clock, m, roots[p]);
    LibdirIsNew(cfg, roots, m, c, t');
    OneLibdir(cfg, c, t, t');
    LaterTwinLoses(cfg, roots, clock, m, Libdir(c, t'), i, LibdirPath(cfg, c, t));
  }

  lemma OneLibdir(cfg: Config, c: Compiler, t: Target, t': Target)
    requires t.triple == t'.triple
    ensures LibdirPath(cfg, c, t) in Destinations(cfg, CopyToLibdir(c, t, SelfContained))
    ensures WipePath(cfg, WipeOf(Libdir(c, t'))) == LibdirPath(cfg, c, t)
  {
  }

  lemma StdCopies(cfg: Config, roots: seq<Step>, clock: nat -> nat, m: nat, s: Step) returns (i: nat)
    requires Requests(cfg, roots) && Monotone(clock) && m <= |roots| && s in roots[..m] && s.Std?
    ensures i < Start(cfg, roots, clock, m) && i < |RunLog(cfg, roots, clock)|
    ensures RunLog(cfg, roots, clock)[i] == Did(s, CopyToLibdir(s.compiler, s.target, SelfContained))
  {
    PrefixIsOver(cfg, roots, clock, m);
    i := StdHasCopied(cfg, After(cfg, roots, clock, m), s);
    StartsGrow(cfg, roots, clock, m, m);
  }

  lemma PrefixIsOver(cfg: Config, roots: seq<Step>, clock: nat -> nat, m: nat)
    requires Requests(cfg, roots) && Monotone(clock) && m <= |roots|
    ensures Over(cfg, After(cfg, roots, clock, m)) && forall s | s in roots[..m] :: s in After(cfg, roots, clock, m).cache
  {
    PrefixEnds(cfg, roots, clock, m);
    OverIff(cfg, After(cfg, roots, clock, m));
    ReachFollows(cfg, roots[..m]);
  }

  lemma StdHasCopied(cfg: Config, end: End, s: Step) returns (i: nat)
    requires Over(cfg, end) && s in end.cache && s.Std?
    ensures i < |end.log| && end.log[i] == Did(s, CopyToLibdir(s.compiler, s.target, SelfContained))
  {
    OverIff(cfg, end);
    StdHasObjects(cfg, s);
    i := EffectHappens(cfg, end, s, CopyToLibdir(s.compiler, s.target, SelfContained));
  }

  lemma StdHasObjects(cfg: Config, s: Step)
    requires s.Std?
    ensures Do(CopyToLibdir(s.compiler, s.target, SelfContained)) in Body(cfg, s)
  {
    var c, t := s.compiler, s.target;
    var op: StepOp := Do(CopyToLibdir(c, t, SelfContained));
    assert FillLibdir(c, t, SelfContained) <= SelfContainedObjects(c, t) && FillLibdir(c, t, SelfContained)[1] == op;
    assert op in SelfContainedObjects(c, t);
    assert op in ThirdPartyObjects(cfg, c, t) + SelfContainedObjects(c, t);
  }

  lemma LibdirIsNew(cfg: Config, roots: seq<Step>, m: nat, c: Compiler, t: Target)
    requires Requests(cfg, roots) && m < |roots|
    requires roots[m].Std? && roots[m].compiler == c && roots[m].target == t && t !in AllNames(cfg, roots[..m])
    ensures Libdir(c, t) in ReachAll(cfg, roots) && Libdir(c, t) !in ReachAll(cfg, roots[..m])
  {
    ReachFollows(cfg, roots);
    assert roots[m] in roots;
    StdAsksForLibdir(cfg, roots[m]);
    UnnamedIsNotReached(cfg, roots[..m], c, t);
  }

  lemma UnnamedIsNotReached(cfg: Config, roots: seq<Step>, c: Compiler, t: Target)
    requires Requests(cfg, roots) && t !in AllNames(cfg, roots)
    ensures Libdir(c, t) !in ReachAll(cfg, roots)
  {
    if Libdir(c, t) in ReachAll(cfg, roots) {
      var x := TraitsComeFromRoots(cfg, roots, Libdir(c, t));
    }
  }

  /** Every stamp that any step reads was written earlier in the same run, by the step that made the build
      it is taken to be of, and no directory step of the run deletes it. */
  lemma StampsAreReadAfterTheyAreWritten(cfg: Config, roots: seq<Step>, clock: nat -> nat, j: nat, mode: Mode, c: Compiler, t: Target, build: Build)
    requires Requests(cfg, roots) && Monotone(clock) && KeepsNothing(cfg)
    requires j < |RunLog(cfg, roots, clock)| && RunLog(cfg, roots, clock)[j].Did?
    requires Reads(RunLog(cfg, roots, clock)[j].effect, mode, c, t, build)
    ensures var log := RunLog(cfg, roots, clock);
            exists i :: && 0 <= i < j && log[i].Did? && log[i].effect == WriteStamp(mode, c, t, build)
                        && Compiles(log[i].who, mode, c, t) && BuildOf(log[i].who) == build
    ensures var log := RunLog(cfg, roots, clock);
            forall k | 0 <= k < |log| && log[k].Did? && IsWipe(log[k].effect) :: !(WipePath(cfg, log[k].effect) <= StampPath(cfg, mode, c, t))
  {
    EveryRunFinishes(cfg, roots, clock);
    var end := Run(cfg, roots, clock).1;
    var i := StampsAreWrittenFirst(cfg, end, j, mode, c, t, build);
    forall k | 0 <= k < |end.log| && end.log[k].Did? && IsWipe(end.log[k].effect)
      ensures !(WipePath(cfg, end.log[k].effect) <= StampPath(cfg, mode, c, t))
    {
      StampsAreNotWiped(cfg, end.log[k].effect, mode, c, t);
    }
  }

  /** Who wrote the stamp last before it is read: a link step finds the build it belongs to; any other
      reader finds a full build, unless a root asks the same compiler for some crates for the same target. */
  lemma ReadersFindTheirBuild(cfg: Config, roots: seq<Step>, clock: nat -> nat, j: nat, mode: Mode, c: Compiler, t: Target, build: Build) returns (k: nat)
    requires Untwinned(cfg, roots, clock)
    requires j < |RunLog(cfg, roots, clock)| && RunLog(cfg, roots, clock)[j].Did?
    requires Reads(RunLog(cfg, roots, clock)[j].effect, mode, c, t, build)
    ensures LastWrite(cfg, RunLog(cfg, roots, clock), j, mode, c, t, k) && IsWriteOf(cfg, roots, RunLog(cfg, roots, clock), k, mode, c, t)
    ensures var e := RunLog(cfg, roots, clock)[j].effect;
            e == LinkStamped(mode, c, c, t, build) ==> RunLog(cfg, roots, clock)[k].effect.build == build
    ensures build == FULL && (forall s | s in roots && Compiles(s, mode, c, t) :: BuildOf(s).crates == []) ==>
              RunLog(cfg, roots, clock)[k].effect.build.crates == []
  {
    var i;
    i, k := LastWriter(cfg, roots, clock, j, mode, c, t, build);
    if RunLog(cfg, roots, clock)[j].effect == LinkStamped(mode, c, c, t, build) {
      var k' := OwnLinkReadsItsBuild(cfg, roots, clock, j, mode, c, t, build);
      OneLastWrite(cfg, RunLog(cfg, roots, clock), j, mode, c, t, k, k');
    }
    LimitedWriterIsARoot(cfg, roots, clock, k, mode, c, t);
  }

  lemma OneLastWrite(cfg: Config, log: Log, j: nat, mode: Mode, c: Compiler, t: Target, k: nat, k': nat)
    requires LastWrite(cfg, log, j, mode, c, t, k) && LastWrite(cfg, log, j, mode, c, t, k')
    ensures k == k'
  {
  }

  lemma LimitedWriterIsARoot(cfg: Config, roots: seq<Step>, clock: nat -> nat, k: nat, mode: Mode, c: Compiler, t: Target)
    requires Untwinned(cfg, roots, clock) && IsWriteOf(cfg, roots, RunLog(cfg, roots, clock), k, mode, c, t)
    ensures RunLog(cfg, roots, clock)[k].effect.build.crates != [] ==>
              exists s :: s in roots && Compiles(s, mode, c, t) && BuildOf(s).crates != []
  {
    var m := WriteBelongsTo(cfg, roots, clock, k, mode, c, t);
    assert roots[m] in roots;
  }

  /** A request for everything, one for some crates, and one to package the library: the package gets the
      crates only. */
  lemma LimitedBuildBeforeDist(cfg: Config, clock: nat -> nat, c: Compiler, t: Target, crates: seq<string>) returns (j: nat, k: nat)
    requires KeepsNothing(cfg) && Monotone(clock) && c.host == cfg.build && Builds(cfg, c, t) == c && crates != []
    requires Distinct({cfg.build, t})
    ensures var roots := [Std(c, t, [], false), Std(c, t, crates, false), DistStd(c, t)];
            var log := RunLog(cfg, roots, clock);
            && j < |log| && log[j] == Did(DistStd(c, t), ReadStamp(ForStd, c, t))
            && LastWrite(cfg, log, j, ForStd, c, t, k) && log[k].effect.build.crates != []
  {
    var full, some, dist := Std(c, t, [], false), Std(c, t, crates, false), DistStd(c, t);
    var roots := [full, some, dist];
    assert AllNames(cfg, roots) <= {cfg.build, t} by {
      assert Names(cfg, full) == Names(cfg, some) == Names(cfg, dist) == {cfg.build, t};
    }
    DistinctNamesHaveNoTwins(cfg, roots);
    j := DistReads(cfg, roots, clock, dist);
    LimitedComesLast(cfg, roots, ForStd, c, t, full, some, dist);
    var n := RootOf(cfg, roots, clock, j);
    DistIsItsOwnRoot(cfg, roots, n, full, some, dist);
    k := ReaderFindsLimitedIff(cfg, roots, clock, j, n, ForStd, c, t);
  }

  lemma DistReads(cfg: Config, roots: seq<Step>, clock: nat -> nat, dist: Step) returns (j: nat)
    requires Requests(cfg, roots) && Monotone(clock) && dist in roots
    requires dist.DistStd? && dist.compiler.host == cfg.build && Builds(cfg, dist.compiler, dist.target) == dist.compiler
    ensures j < |RunLog(cfg, roots, clock)| && RunLog(cfg, roots, clock)[j] == Did(dist, ReadStamp(ForStd, dist.compiler, dist.target))
  {
    EveryRunFinishes(cfg, roots, clock);
    ReachFollows(cfg, roots);
    DistHasRead(cfg, dist);
    j := EffectHappens(cfg, Run(cfg, roots, clock).1, dist, ReadStamp(ForStd, dist.compiler, dist.target));
  }

  lemma DistHasRead(cfg: Config, dist: Step)
    requires dist.DistStd? && dist.compiler.host == cfg.build && Builds(cfg, dist.compiler, dist.target) == dist.compiler
    ensures Do(ReadStamp(ForStd, dist.compiler, dist.target)) in Body(cfg, dist)
  {
  }

  lemma DistIsItsOwnRoot(cfg: Config, roots: seq<Step>, n: nat, full: Step, some: Step, dist: Step)
    requires Requests(cfg, roots) && roots == [full, some, dist] && n < 3 && full.Std? && some.Std? && dist.DistStd?
    requires full.compiler == some.compiler == dist.compiler && dist in Reach(cfg, roots[n])
    ensures n == 2
  {
    assert full in roots && some in roots;
    StdDoesNotPackage(cfg, full, dist);
    StdDoesNotPackage(cfg, some, dist);
  }

  lemma StdDoesNotPackage(cfg: Config, s: Step, dist: Step)
    requires WellFormed(cfg, s) && s.Std? && dist.DistStd? && s.compiler == dist.compiler
    ensures dist !in Reach(cfg, s)
  {
    if dist in Reach(cfg, s) {
      ReachGoesDown(cfg, s, dist);
    }
  }

  lemma LimitedComesLast(cfg: Config, roots: seq<Step>, mode: Mode, c: Compiler, t: Target, full: Step, some: Step, dist: Step)
    requires Requests(cfg, roots) && roots == [full, some, dist] && mode == ForStd
    requires full == Std(c, t, [], false) && Compiles(some, mode, c, t) && BuildOf(some).crates != [] && dist == DistStd(c, t)
    ensures LimitedLast(cfg, roots, 2, mode, c, t)
  {
    assert roots[..1] == [full] && roots[..2] == [full, some];
    if some in ReachAll(cfg, roots[..1]) {
      var s := InReachOfSome(cfg, roots[..1], some);
      BuildsAreApart(cfg, full, some, mode, c, t);
    }
    assert LimitedAt(cfg, roots, 1, mode, c, t);
    ReachFollows(cfg, roots[..2]);
    forall w | w in Reach(cfg, roots[2])
      ensures !IsNewFull(cfg, roots, 2, mode, c, t, w)
    {
      if Compiles(w, mode, c, t) && BuildOf(w) != FULL {
        SpecialBuildsAreRoots(cfg, roots[2], w);
      }
      assert full in roots[..2];
    }
    assert NoFullBetween(cfg, roots, 1, 2, mode, c, t);
  }

  /** Nor is a stamp cleared away with the directory for Cargo's output, which all targets share, but in
      one case: exactly if an earlier run left its marker between the snapshot's compiler and its newest
      backend, and the roots reach two libraries for a downloaded snapshot to build. */
  lemma StampsOutliveTheirRunIff(cfg: Config, roots: seq<Step>, clock: nat -> nat, times: Times)
    requires Requests(cfg, roots) && Monotone(clock) && KeepsNothing(cfg) && !Twins(cfg, ReachAll(cfg, roots))
    requires Plausible(times, RunLog(cfg, roots, clock))
    ensures SomeStampIsCleared(times, RunLog(cfg, roots, clock))
            <==> MarkerLiesBetween(cfg, times) && TwoSnapshotLibraries(ReachAll(cfg, roots))
  {
    StampsAreClearedIff(cfg, roots, clock, times);
  }

  /** A requested standard library is linked into the sysroot it was requested for, from the compiler
      that `compiler_for` chooses, and stays there unless two steps make the same directory. */
  lemma RequestedStdIsInItsSysroot(cfg: Config, roots: seq<Step>, clock: nat -> nat, s: Step) returns (i: nat)
    requires Requests(cfg, roots) && Monotone(clock)
    requires s in roots && s.Std?
    ensures StdIsIn(cfg, RunLog(cfg, roots, clock), s.compiler, s.target, i)
    ensures RunLog(cfg, roots, clock)[i].effect.compiler ==
            if && !cfg.fullBootstrap && s.compiler.stage >= 2 && (s.target == cfg.build || s.target in cfg.hosts)
               && s.compiler.stage !in cfg.keepStage && s.compiler.stage !in cfg.keepStageStd
            then Compiler(1, cfg.build) else s.compiler
    ensures !Twins(cfg, ReachAll(cfg, roots)) ==> forall j: nat :: !LosesArtifacts(cfg, RunLog(cfg, roots, clock), i, j)
  {
    EveryRunFinishes(cfg, roots, clock);
    ReachFollows(cfg, roots);
    i := StdIsLinked(cfg, Run(cfg, roots, clock).1, s);
    var e := RunLog(cfg, roots, clock)[i].effect;
    assert At(RunLog(cfg, roots, clock), i, e) && e == LinkStamped(ForStd, e.compiler, s.compiler, s.target, e.build);
    LinkedFrom(cfg, roots, clock, ForStd, e.compiler, s.compiler, s.target, e.build);
  }

  lemma RunIsOver(cfg: Config, roots: seq<Step>, clock: nat -> nat)
    requires Requests(cfg, roots) && Monotone(clock)
    ensures Over(cfg, Run(cfg, roots, clock).1) && Run(cfg, roots, clock).1.cache.Keys == ReachAll(cfg, roots)
  {
    EveryRunFinishes(cfg, roots, clock);
    OverIff(cfg, Run(cfg, roots, clock).1);
  }

  /** Whatever is linked into the sysroot of `tc`, for any request, is of `tc` itself or, exactly where it is
      lifted, of stage 1. */
  lemma LinkedFrom(cfg: Config, roots: seq<Step>, clock: nat -> nat, mode: Mode, c: Compiler, tc: Compiler, t: Target, build: Build)
    requires Requests(cfg, roots) && Monotone(clock)
    requires Happens(RunLog(cfg, roots, clock), LinkStamped(mode, c, tc, t, build))
    ensures c ==
            if && !cfg.fullBootstrap && tc.stage >= 2 && (t == cfg.build || t in cfg.hosts)
               && tc.stage !in cfg.keepStage && (mode == ForStd ==> tc.stage !in cfg.keepStageStd)
            then Compiler(1, cfg.build) else tc
  {
    RunIsOver(cfg, roots, clock);
    LinksComeFrom(cfg, Run(cfg, roots, clock).1, roots, mode, c, tc, t, build);
  }

  /** Cargo is run with a compiler for a target exactly if the roots lead to such a step, its stage is not
      kept, and it does not have its artifacts lifted out of stage 1: without full bootstrap, no compiler of
      stage 2 or later builds for the build target or a host. */
  lemma WhoRunsCargoIff(cfg: Config, roots: seq<Step>, clock: nat -> nat, mode: Mode, c: Compiler, t: Target)
    requires Requests(cfg, roots) && Monotone(clock)
    ensures Happens(RunLog(cfg, roots, clock), RunCargo(c, mode, t)) <==>
              && (exists s :: s in ReachAll(cfg, roots) && Compiles(s, mode, c, t))
              && c.stage !in cfg.keepStage && (mode == ForStd ==> c.stage !in cfg.keepStageStd)
              && (cfg.fullBootstrap || c.stage <= 1 || (t != cfg.build && t !in cfg.hosts))
  {
    RunIsOver(cfg, roots, clock);
    CargoIsRunIff(cfg, Run(cfg, roots, clock).1, mode, c, t);
  }

  /** With the LLVM backend, no compiler and no backend is compiled before there is an LLVM for its target:
      one provided, one that an earlier run has finished, or one that this run has built. */
  lemma LlvmIsThereFirst(cfg: Config, roots: seq<Step>, clock: nat -> nat, j: nat, mode: Mode, c: Compiler, t: Target)
    requires Requests(cfg, roots) && Monotone(clock) && "llvm" in cfg.backends && mode != ForStd
    requires At(RunLog(cfg, roots, clock), j, RunCargo(c, mode, t))
    ensures t in cfg.llvmConfig || t.triple in cfg.finishedLlvm || Before(RunLog(cfg, roots, clock), j, BuildLlvm(t))
  {
    RunIsOver(cfg, roots, clock);
    LlvmComesFirst(cfg, Run(cfg, roots, clock).1, j);
  }

  /** Cargo is run with a compiler that was never installed exactly when a root asks a compiler of
      stage 3 or later, without full bootstrap, to build for a target that is not a host. */
  lemma MissingCompilerIsRunIff(cfg: Config, roots: seq<Step>, clock: nat -> nat)
    requires Requests(cfg, roots) && Monotone(clock) && KeepsNothing(cfg)
    ensures SomeCompilerIsMissing(RunLog(cfg, roots, clock)) <==> SomeRootOverreaches(cfg, roots)
  {
    EveryRunFinishes(cfg, roots, clock);
    ReachFollows(cfg, roots);
    CompilerIsMissingIff(cfg, Run(cfg, roots, clock).1, roots);
  }

  // ---------------------------------------------------------------------------
  // Concrete requests for which a promise fails.

  const LINUX := Target("x86_64-unknown-linux-gnu", None, false)
  const WASM := Target("wasm32-unknown-unknown", None, false)
  const WASM_FILE := Target("wasm32-unknown-unknown", Some("./wasm32-unknown-unknown.json"), false)

  /** A plain configuration; `shared` links LLVM dynamically. */
  function Example(shared: bool): Config {
    Config(LINUX, {}, false, {}, {}, ["llvm"], false, shared, {}, false, {}, {}, {}, {}, {}, true, None, ["lib"], "release")
  }

  /** The stage-3 standard library for a foreign target is built with a compiler that was never installed. */
  lemma StageThreeForForeignTarget(clock: nat -> nat)
    requires Monotone(clock)
    ensures var s := Std(Compiler(3, LINUX), WASM, [], false);
            Requests(Example(false), [s]) && SomeCompilerIsMissing(RunLog(Example(false), [s], clock))
  {
    var cfg := Example(false);
    var s := Std(Compiler(3, LINUX), WASM, [], false);
    assert s in [s] && Overreaches(cfg, s);
    MissingCompilerIsRunIff(cfg, [s], clock);
  }

  /** The standard library for a triple and for a specification file of the same name: the second
      deletes what was copied for the first. */
  lemma TripleAndFileOfOneName(clock: nat -> nat)
    requires Monotone(clock)
    ensures var c := Compiler(0, LINUX);
            var roots := [Std(c, WASM, [], false), Std(c, WASM_FILE, [], false)];
            && Requests(Example(false), roots)
            && SomeArtifactIsLost(Example(false), RunLog(Example(false), roots, clock))
            && Twins(Example(false), ReachAll(Example(false), roots))
  {
    var cfg, c := Example(false), Compiler(0, LINUX);
    var roots := [Std(c, WASM, [], false), Std(c, WASM_FILE, [], false)];
    assert roots[..1] == [Std(c, WASM, [], false)];
    SameTripleLosesArtifacts(cfg, roots, clock, 0, 1);
    SameTripleMakesTwins(cfg, roots, 0, 1);
  }

  lemma SameTripleMakesTwins(cfg: Config, roots: seq<Step>, p: nat, m: nat)
    requires Requests(cfg, roots) && p < |roots| && m < |roots|
    requires roots[p].Std? && roots[m].Std? && roots[p].compiler == roots[m].compiler
    requires roots[p].target.triple == roots[m].target.triple && roots[p].target != roots[m].target
    ensures Twins(cfg, ReachAll(cfg, roots))
  {
    ReachFollows(cfg, roots);
    assert roots[p] in roots && roots[m] in roots;
    StdAsksForLibdir(cfg, roots[p]);
    StdAsksForLibdir(cfg, roots[m]);
    assert AreTwins(cfg, Libdir(roots[p].compiler, roots[p].target), Libdir(roots[m].compiler, roots[m].target));
  }

  /** Two libraries for a downloaded snapshot, whose marker is newer than its compiler and older than its
      backends: the stamp of the first is cleared away when the second is built. */
  lemma TwoLibrariesOfASnapshot(clock: nat -> nat)
    requires Monotone(clock)
    ensures var c := Compiler(0, LINUX);
            var roots := [Std(c, WASM, [], false), Std(c, LINUX, [], false)];
            var times := Times(_ => -3, _ => Some(-1), _ => Some(-2));
            && Requests(Example(false), roots) && Plausible(times, RunLog(Example(false), roots, clock))
            && SomeStampIsCleared(times, RunLog(Example(false), roots, clock))
  {
    var cfg, c := Example(false), Compiler(0, LINUX);
    var x, y := Std(c, WASM, [], false), Std(c, LINUX, [], false);
    var roots := [x, y];
    var times := Times(_ => -3, _ => Some(-1), _ => Some(-2));
    ReachFollows(cfg, roots);
    assert x in roots && y in roots;
    OldTimesArePlausible(times, RunLog(cfg, roots, clock));
    TwoLibrariesClear(cfg, roots, clock, times, x, y);
  }

  lemma OldTimesArePlausible(times: Times, log: Log)
    requires forall c :: times.rustc(c) <= 0 && AtMost(times.backends(c), 0)
    requires forall dir :: AtMost(times.markers(dir), 0)
    ensures Plausible(times, log)
  {
  }

  /** LLVM first, then the standard library: libLLVM is installed when the sysroot is created and wiped
      with the libdir. */
  lemma LlvmBeforeStd(clock: nat -> nat)
    requires Monotone(clock)
    ensures var roots := [Llvm(LINUX), Std(Compiler(0, LINUX), LINUX, [], false)];
            Requests(Example(true), roots) && SomeArtifactIsLost(Example(true), RunLog(Example(true), roots, clock))
  {
    var cfg, std := Example(true), Std(Compiler(0, LINUX), LINUX, [], false);
    var roots := [Llvm(LINUX), std];
    NamesOfLinux(cfg, roots);
    BuiltThenUsed(cfg, Llvm(LINUX), std);
    ArtifactsAreLostIff(cfg, roots, clock);
  }

  lemma BuiltThenUsed(cfg: Config, llvm: Step, std: Step)
    requires cfg.initialLibdir == ["lib"] && InstallsLlvm(cfg, cfg.build)
    requires BuildsLlvm(cfg, llvm) && !UsesSnapshot(cfg, llvm) && std.Std?
    ensures LlvmComesEarly(cfg, [llvm, std])
  {
    var roots := [llvm, std];
    assert roots[..1] == [llvm] && roots[1..] == [std];
    assert llvm in roots[..1] && std in roots[1..];
    assert EarlyAt(cfg, roots, 1);
  }

  /** In the other order, nothing is lost. */
  lemma StdBeforeLlvm(clock: nat -> nat)
    requires Monotone(clock)
    ensures var roots := [Std(Compiler(0, LINUX), LINUX, [], false), Llvm(LINUX)];
            Requests(Example(true), roots) && !SomeArtifactIsLost(Example(true), RunLog(Example(true), roots, clock))
  {
    var cfg, std := Example(true), Std(Compiler(0, LINUX), LINUX, [], false);
    var roots := [std, Llvm(LINUX)];
    NamesOfLinux(cfg, roots);
    NotEarly(cfg, roots, std);
    ArtifactsAreLostIff(cfg, roots, clock);
  }

  lemma NamesOfLinux(cfg: Config, roots: seq<Step>)
    requires cfg.build == LINUX
    requires forall s | s in roots :: s == Llvm(LINUX) || s == Std(Compiler(0, LINUX), LINUX, [], false)
    ensures Requests(cfg, roots) && AllNames(cfg, roots) <= {LINUX}
  {
    forall s | s in roots
      ensures Names(cfg, s) <= {LINUX}
    {
    }
  }

  /** If the first root wipes the libdir and LLVM was not there before, nothing comes early. */
  lemma NotEarly(cfg: Config, roots: seq<Step>, s: Step)
    requires roots != [] && roots[0] == s && Wipes(cfg, s) && !HasLibLlvm(cfg, cfg.build)
    ensures !LlvmComesEarly(cfg, roots)
  {
    forall m: nat
      ensures !EarlyAt(cfg, roots, m)
    {
      if 0 < m < |roots| {
        assert roots[..m][0] == s;
      }
    }
  }
}
