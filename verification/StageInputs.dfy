/** What the steps of a run use is there: the stamps they read and the compilers they run. */
module StageInputs {
  import opened StepEngine
  import opened EngineTrace
  import opened StageGraph
  import opened StageContracts
  import opened Layout
  import opened StageRun
  import opened Sysroots

  // ---------------------------------------------------------------------------
  // Stamps are written before they are read.

  /** The effect reads the stamp for `mode`, `c` and `t` and takes it to be of `build`. */
  ghost predicate Reads(e: Effect, mode: Mode, c: Compiler, t: Target, build: Build) {
    || (e == ReadStamp(mode, c, t) && build == FULL)
    || (e.LinkStamped? && e.mode == mode && e.compiler == c && e.target == t && e.build == build)
  }

  /** In every run that keeps no stage, every stamp that is read was written earlier in the run, by the
      step that made the build it is taken to be of. */
  lemma StampsAreWrittenFirst(cfg: Config, end: State<Step, Output, Effect>, j: nat, mode: Mode, c: Compiler, t: Target, build: Build)
    returns (i: nat)
    requires Ended(cfg, end) && KeepsNothing(cfg)
    requires j < |end.log| && end.log[j].Did? && Reads(end.log[j].effect, mode, c, t, build)
    ensures i < j && end.log[i].Did? && end.log[i].effect == WriteStamp(mode, c, t, build)
    ensures Compiles(end.log[i].who, mode, c, t) && BuildOf(end.log[i].who) == build && Builds(cfg, c, t) == c
  {
    var f := ReadFact(cfg, end.log[j].effect, mode, c, t, build);
    i := ReliedOnEarlier(cfg, end, j, f);
    EventsAreOwned(cfg, end, i);
  }

  lemma ReadFact(cfg: Config, e: Effect, mode: Mode, c: Compiler, t: Target, build: Build) returns (f: Fact)
    requires KeepsNothing(cfg) && Reads(e, mode, c, t, build)
    ensures f in Needs(cfg, e)
    ensures forall x: Effect | f in Gives(x) :: x == WriteStamp(mode, c, t, build)
  {
    f := Stamped(mode, c, t, build);
  }

  /** No directory step deletes a stamp. */
  lemma StampsAreNotWiped(cfg: Config, w: Effect, mode: Mode, c: Compiler, t: Target)
    requires IsWipe(w)
    ensures !(WipePath(cfg, w) <= StampPath(cfg, mode, c, t))
  {
    StampsAreOutside(cfg, w.compiler, mode, c, t);
    assert SysrootPath(w.compiler) <= WipePath(cfg, w);
  }

  // ---------------------------------------------------------------------------
  // Who wrote a stamp last.

  ghost predicate WritesFile(cfg: Config, e: Event<Step, Effect>, mode: Mode, c: Compiler, t: Target) {
    e.Did? && e.effect.WriteStamp? && StampPath(cfg, e.effect.mode, e.effect.compiler, e.effect.target) == StampPath(cfg, mode, c, t)
  }

  /** `k` is the last event before `j` that writes the stamp file. */
  ghost predicate LastWrite(cfg: Config, log: Log, j: nat, mode: Mode, c: Compiler, t: Target, k: nat) {
    k < j <= |log| && WritesFile(cfg, log[k], mode, c, t) && forall y | k < y < j :: !WritesFile(cfg, log[y], mode, c, t)
  }

  lemma {:induction false} LastWriteExists(cfg: Config, log: Log, j: nat, mode: Mode, c: Compiler, t: Target, i: nat) returns (k: nat)
    requires i < j <= |log| && WritesFile(cfg, log[i], mode, c, t)
    ensures i <= k && LastWrite(cfg, log, j, mode, c, t, k)
    decreases j - i
  {
    k := i;
    if y :| i < y < j && WritesFile(cfg, log[y], mode, c, t) {
      k := LastWriteExists(cfg, log, j, mode, c, t, y);
    }
  }

  lemma WriterRunsOnBuild(cfg: Config, end: State<Step, Output, Effect>, i: nat)
    requires Ended(cfg, end)
    requires i < |end.log| && end.log[i].Did? && end.log[i].effect.WriteStamp?
    ensures end.log[i].effect.compiler.host == cfg.build && Libdir(end.log[i].effect.compiler, end.log[i].effect.target) in end.cache
  {
    EventsAreOwned(cfg, end, i);
    var e := end.log[i].effect;
    WriterAsksForLibdir(cfg, end, end.log[i].who, e.mode, e.compiler, e.target);
  }

  /** A step that writes a stamp has asked for the libdir of its target. */
  lemma WriterAsksForLibdir(cfg: Config, end: State<Step, Output, Effect>, s: Step, mode: Mode, c: Compiler, t: Target)
    requires Ended(cfg, end) && s in end.cache && Compiles(s, mode, c, t)
    ensures Libdir(c, t) in end.cache
  {
    if s.CodegenBackend? {
      CodegenAsksForRustc(cfg, s);
      RequestRan(cfg, end, s, Rustc(c, t, []));
      RustcHasLibdir(cfg, end, Rustc(c, t, []));
    } else if s.Rustc? {
      RustcHasLibdir(cfg, end, s);
    } else {
      StdHasLibdir(cfg, end, s);
    }
  }

  lemma RequestRan(cfg: Config, end: State<Step, Output, Effect>, s: Step, d: Step)
    requires Ended(cfg, end) && s in end.cache && Need(d) in Body(cfg, s)
    ensures d in end.cache
  {
  }

  lemma StdHasLibdir(cfg: Config, end: State<Step, Output, Effect>, s: Step)
    requires Ended(cfg, end) && s in end.cache && s.Std?
    ensures Libdir(s.compiler, s.target) in end.cache
  {
    StdAsksForLibdir(cfg, s);
    RequestRan(cfg, end, s, Libdir(s.compiler, s.target));
  }

  lemma RustcHasLibdir(cfg: Config, end: State<Step, Output, Effect>, s: Step)
    requires Ended(cfg, end) && s in end.cache && s.Rustc?
    ensures Libdir(s.compiler, s.target) in end.cache
  {
    RustcAsksForStd(cfg, s);
    RequestRan(cfg, end, s, Std(s.compiler, s.target, [], false));
    StdHasLibdir(cfg, end, Std(s.compiler, s.target, [], false));
  }

  lemma CodegenAsksForRustc(cfg: Config, s: Step)
    requires s.CodegenBackend?
    ensures Need(Rustc(s.compiler, s.target, [])) in Body(cfg, s)
  {
    assert Body(cfg, s)[0] == Need(Rustc(s.compiler, s.target, []));
  }

  lemma RustcAsksForStd(cfg: Config, s: Step)
    requires s.Rustc?
    ensures Need(Std(s.compiler, s.target, [], false)) in Body(cfg, s)
  {
    assert Body(cfg, s)[0] == Need(Std(s.compiler, s.target, [], false));
  }

  lemma StdAsksForLibdir(cfg: Config, s: Step)
    requires s.Std?
    ensures Need(Libdir(s.compiler, s.target)) in Body(cfg, s)
  {
    var c, t := s.compiler, s.target;
    var op: StepOp := Need(Libdir(c, t));
    assert FillLibdir(c, t, SelfContained) <= SelfContainedObjects(c, t) && FillLibdir(c, t, SelfContained)[0] == op;
    assert op in SelfContainedObjects(c, t);
    assert op in ThirdPartyObjects(cfg, c, t) + SelfContainedObjects(c, t);
  }

  /** Without twins, a stamp file belongs to one mode, compiler and target. */
  lemma SameFile(cfg: Config, end: State<Step, Output, Effect>, i: nat, k: nat)
    requires Ended(cfg, end) && !Twins(cfg, end.cache.Keys)
    requires i < |end.log| && end.log[i].Did? && end.log[i].effect.WriteStamp? && k < |end.log|
    requires WritesFile(cfg, end.log[k], end.log[i].effect.mode, end.log[i].effect.compiler, end.log[i].effect.target)
    ensures var a, b := end.log[i].effect, end.log[k].effect;
            a.mode == b.mode && a.compiler == b.compiler && a.target == b.target
  {
    var a, b := end.log[i].effect, end.log[k].effect;
    StampsDiffer(cfg, a.mode, a.compiler, a.target, b.mode, b.compiler, b.target);
    WriterRunsOnBuild(cfg, end, i);
    WriterRunsOnBuild(cfg, end, k);
    if a.target != b.target {
      assert AreTwins(cfg, Libdir(a.compiler, a.target), Libdir(b.compiler, b.target));
    }
  }

  // ---------------------------------------------------------------------------
  // Libraries are linked into the sysroots they were requested for.

  /** The standard library for `t` was linked into the sysroot of `c` at `i`. */
  ghost predicate StdIsIn(cfg: Config, log: Log, c: Compiler, t: Target, i: nat) {
    && i < |log| && log[i].Did? && log[i].effect.LinkStamped? && log[i].effect.mode == ForStd
    && log[i].effect.compiler == StdSource(cfg, c, t) && log[i].effect.targetCompiler == c && log[i].effect.target == t
  }

  lemma StdIsLinked(cfg: Config, end: State<Step, Output, Effect>, s: Step) returns (i: nat)
    requires Ended(cfg, end)
    requires s in end.cache && s.Std?
    ensures StdIsIn(cfg, end.log, s.compiler, s.target, i)
    ensures !Twins(cfg, end.cache.Keys) ==> forall j: nat :: !LosesArtifacts(cfg, end.log, i, j)
  {
    var f := StdPromise(cfg, s);
    i := PromiseKept(cfg, end, s, f);
    WipedAgainIffTwins(cfg, end);
    forall j: nat | LosesArtifacts(cfg, end.log, i, j)
      ensures Twins(cfg, end.cache.Keys)
    {
      LostArtifacts(cfg, end, i, j);
    }
  }

  lemma StdPromise(cfg: Config, s: Step) returns (f: Fact)
    requires s.Std?
    ensures f in Post(cfg, s)
    ensures forall e: Effect | f in Gives(e) ::
              e.LinkStamped? && e.mode == ForStd && e.compiler == StdSource(cfg, s.compiler, s.target)
              && e.targetCompiler == s.compiler && e.target == s.target
  {
    f := Linked(ForStd, StdSource(cfg, s.compiler, s.target), s.compiler, s.target);
  }

  // ---------------------------------------------------------------------------
  // Compilers are installed before they compile, up to stage 2.

  predicate UsesCompiler(e: Effect) {
    e.RunCargo? || e.RunTool?
  }

  /** A compiler other than the snapshot runs Cargo although its own `Assemble` never put it into a sysroot. */
  ghost predicate RunsMissingCompiler(log: seq<Event<Step, Effect>>, j: nat) {
    && j < |log| && log[j].Did? && UsesCompiler(log[j].effect) && log[j].effect.compiler.stage > 0
    && (forall i | 0 <= i < j && log[i].Did? :: log[i].effect != InstallCompiler(log[j].effect.compiler))
  }

  /** One use of Cargo: the compiler is missing exactly when `Assemble` leaves early for it. */
  lemma CargoFindsItsCompilerIff(cfg: Config, end: State<Step, Output, Effect>, j: nat)
    requires Ended(cfg, end)
    requires j < |end.log| && end.log[j].Did?
    requires UsesCompiler(end.log[j].effect)
    ensures RunsMissingCompiler(end.log, j) <==> LeavesEarly(cfg, end.log[j].effect.compiler)
  {
    var c := end.log[j].effect.compiler;
    if LeavesEarly(cfg, c) {
      forall i | 0 <= i < j && end.log[i].Did?
        ensures end.log[i].effect != InstallCompiler(c)
      {
        NeverInstalled(cfg, end, c, i);
      }
    } else if c.stage > 0 {
      var i := InstalledBefore(cfg, end, j, c);
    }
  }

  lemma NeverInstalled(cfg: Config, end: State<Step, Output, Effect>, c: Compiler, i: nat)
    requires Ended(cfg, end) && LeavesEarly(cfg, c) && i < |end.log| && end.log[i].Did?
    ensures end.log[i].effect != InstallCompiler(c)
  {
    EventsAreOwned(cfg, end, i);
  }

  lemma InstalledBefore(cfg: Config, end: State<Step, Output, Effect>, j: nat, c: Compiler) returns (i: nat)
    requires Ended(cfg, end) && IsInstalled(cfg, c)
    requires j < |end.log| && end.log[j].Did? && UsesCompiler(end.log[j].effect) && end.log[j].effect.compiler == c
    ensures i < j && end.log[i].Did? && end.log[i].effect == InstallCompiler(c)
  {
    UserNeedsCompiler(cfg, end.log[j].effect);
    i := ReliedOnEarlier(cfg, end, j, Installed(c));
    OnlyInstallation(end.log[i].effect, c);
  }

  lemma UserNeedsCompiler(cfg: Config, e: Effect)
    requires UsesCompiler(e) && IsInstalled(cfg, e.compiler)
    ensures Installed(e.compiler) in Needs(cfg, e)
  {
  }

  lemma OnlyInstallation(e: Effect, c: Compiler)
    requires Installed(c) in Gives(e)
    ensures e == InstallCompiler(c)
  {
  }

  /** A step that compiles for a stray target does run Cargo with a missing compiler. */
  lemma {:induction false} OverreachRunsMissingCompiler(cfg: Config, end: State<Step, Output, Effect>, s: Step) returns (j: nat)
    requires Ended(cfg, end) && KeepsNothing(cfg)
    requires s in end.cache && Overreaches(cfg, s)
    ensures RunsMissingCompiler(end.log, j)
    decreases Rank(cfg, s)
  {
    if s.Std? || s.LldWrapperBuild? {
      var e := UserOf(cfg, s);
      j := EffectHappens(cfg, end, s, e);
      CargoFindsItsCompilerIff(cfg, end, j);
    } else {
      var d := NextToOverreach(cfg, s);
      RequestRan(cfg, end, s, d);
      j := OverreachRunsMissingCompiler(cfg, end, d);
    }
  }

  /** A library or the wrapper uses the missing compiler itself. */
  lemma UserOf(cfg: Config, s: Step) returns (e: Effect)
    requires KeepsNothing(cfg) && WellFormed(cfg, s) && Overreaches(cfg, s) && (s.Std? || s.LldWrapperBuild?)
    ensures Do(e) in Body(cfg, s) && UsesCompiler(e) && LeavesEarly(cfg, e.compiler)
  {
    if s.Std? {
      e := RunCargo(s.compiler, ForStd, s.target);
      assert Do(e) in BuildWithCargo(cfg, s.compiler, ForStd, s.target, BuildOf(s));
    } else {
      e := RunTool(s.compiler, s.target);
    }
  }

  /** Any other step asks for one that overreaches. */
  lemma NextToOverreach(cfg: Config, s: Step) returns (d: Step)
    requires WellFormed(cfg, s) && Overreaches(cfg, s) && !s.Std? && !s.LldWrapperBuild?
    ensures Need(d) in Body(cfg, s) && Overreaches(cfg, d) && Rank(cfg, d) < Rank(cfg, s)
  {
    d :=
      if s.Assemble? then Rustc(Compiler(s.targetCompiler.stage - 1, cfg.build), s.targetCompiler.host, [])
      else if s.CodegenBackend? || s.DistRustcDev? then Rustc(s.compiler, s.target, [])
      else if s.LldWrapper? then LldWrapperBuild(s.compiler, s.target)
      else Std(s.compiler, s.target, [], false);
  }

  lemma MissingCompilerOverreaches(cfg: Config, end: State<Step, Output, Effect>, j: nat)
    requires Ended(cfg, end) && RunsMissingCompiler(end.log, j)
    ensures end.log[j].who in end.cache && Overreaches(cfg, end.log[j].who)
  {
    CargoFindsItsCompilerIff(cfg, end, j);
    EventsAreOwned(cfg, end, j);
    UserOverreaches(cfg, end.log[j].who, end.log[j].effect);
  }

  lemma UserOverreaches(cfg: Config, s: Step, e: Effect)
    requires Owns(cfg, s, e) && UsesCompiler(e) && LeavesEarly(cfg, e.compiler)
    ensures Overreaches(cfg, s)
  {
  }

  ghost predicate SomeCompilerIsMissing(log: seq<Event<Step, Effect>>) {
    exists j: nat :: RunsMissingCompiler(log, j)
  }

  ghost predicate SomeRootOverreaches(cfg: Config, roots: seq<Step>) {
    exists s :: s in roots && Overreaches(cfg, s)
  }

  lemma CompilerIsMissingIff(cfg: Config, end: State<Step, Output, Effect>, roots: seq<Step>)
    requires Ended(cfg, end) && KeepsNothing(cfg)
    requires forall s | s in roots :: WellFormed(cfg, s) && s in end.cache
    requires end.cache.Keys <= ReachAll(cfg, roots)
    ensures SomeCompilerIsMissing(end.log) <==> SomeRootOverreaches(cfg, roots)
  {
    if SomeCompilerIsMissing(end.log) {
      var j: nat :| RunsMissingCompiler(end.log, j);
      MissingCompilerOverreaches(cfg, end, j);
      var s := TraitsComeFromRoots(cfg, roots, end.log[j].who);
    }
    if SomeRootOverreaches(cfg, roots) {
      var s :| s in roots && Overreaches(cfg, s);
      var j := OverreachRunsMissingCompiler(cfg, end, s);
    }
  }
}
