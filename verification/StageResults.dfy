/** What a run does, in terms of its steps and of the configuration written out: which compiler builds
    what, what is in place by then, and what an installed compiler comes with. */
module StageResults {
  import opened Options
  import opened StepEngine
  import opened StageGraph
  import opened StageContracts
  import opened StageRun
  import opened Sysroots

  type End = State<Step, Output, Effect>

  ghost predicate Is(a: End, b: End) {
    a == b
  }

  /** The run has ended. What that means is not looked into before it is needed. */
  ghost predicate Over(cfg: Config, end: End) {
    forall x | Is(x, end) :: Ended(cfg, x)
  }

  lemma OverIff(cfg: Config, end: End)
    ensures Over(cfg, end) <==> Ended(cfg, end)
  {
    assert Is(end, end);
  }

  ghost predicate At(log: Log, j: nat, e: Effect) {
    j < |log| && log[j].Did? && log[j].effect == e
  }

  /** The effect comes before place `j` of the log. */
  ghost predicate Before(log: Log, j: nat, e: Effect) {
    exists i: nat :: i < j && At(log, i, e)
  }

  ghost predicate Happens(log: Log, e: Effect) {
    exists i: nat :: At(log, i, e)
  }

  lemma StepActs(cfg: Config, end: End, s: Step, e: Effect)
    requires Over(cfg, end) && s in end.cache && Do(e) in Body(cfg, s)
    ensures Happens(end.log, e)
  {
    OverIff(cfg, end);
    var i := EffectHappens(cfg, end, s, e);
    assert At(end.log, i, e);
  }

  lemma ActedFor(cfg: Config, end: End, e: Effect) returns (s: Step)
    requires Over(cfg, end) && Happens(end.log, e)
    ensures s in end.cache && Owns(cfg, s, e)
  {
    OverIff(cfg, end);
    var i: nat :| At(end.log, i, e);
    EventsAreOwned(cfg, end, i);
    s := end.log[i].who;
  }

  /** The facts that only one effect establishes, and that effect. */
  predicate HasGiver(f: Fact) {
    !f.Linked? && !f.Backed? && !f.LlvmIn?
  }

  function Giver(f: Fact): Effect
    requires HasGiver(f)
  {
    match f
    case Wiped(c) => WipeSysroot(c)
    case WipedLib(c, t) => WipeLibdir(c, t)
    case Stamped(mode, c, t, build) => WriteStamp(mode, c, t, build)
    case Prepared(mode, c, t) => PrepareOut(c, mode, t)
    case Installed(c) => InstallCompiler(c)
    case LlvmBuilt(t) => BuildLlvm(t)
    case Made(n, t) => BuildNative(n, t)
    case Placed(c, t, part) => CopyToLibdir(c, t, part)
    case Has(c, piece) => CopyToSysroot(c, piece)
    case Sourced(c) => LinkSources(c)
    case Wrapped(c, t) => RunTool(c, t)
    case StampRead(mode, c, t) => ReadStamp(mode, c, t)
  }

  lemma GiverIsUnique(f: Fact, e: Effect)
    requires HasGiver(f)
    ensures f in Gives(e) <==> e == Giver(f)
  {
  }

  lemma Earlier(cfg: Config, end: End, j: nat, f: Fact) returns (i: nat)
    requires Over(cfg, end) && j < |end.log| && end.log[j].Did? && f in Needs(cfg, end.log[j].effect)
    ensures i < j && end.log[i].Did? && f in Gives(end.log[i].effect)
  {
    OverIff(cfg, end);
    i := ReliedOnEarlier(cfg, end, j, f);
  }

  lemma Promised(cfg: Config, end: End, s: Step, f: Fact) returns (i: nat)
    requires Over(cfg, end) && s in end.cache && f in Post(cfg, s)
    ensures i < |end.log| && end.log[i].Did? && f in Gives(end.log[i].effect)
  {
    OverIff(cfg, end);
    i := PromiseKept(cfg, end, s, f);
  }

  /** What an effect relies on came before it. */
  lemma CameBefore(cfg: Config, end: End, j: nat, f: Fact)
    requires Over(cfg, end) && j < |end.log| && end.log[j].Did? && f in Needs(cfg, end.log[j].effect) && HasGiver(f)
    ensures Before(end.log, j, Giver(f))
  {
    var i := Earlier(cfg, end, j, f);
    GiverIsUnique(f, end.log[i].effect);
    assert At(end.log, i, Giver(f));
  }

  /** What a step promises happened in the run. */
  lemma CameAbout(cfg: Config, end: End, s: Step, f: Fact)
    requires Over(cfg, end) && s in end.cache && f in Post(cfg, s) && HasGiver(f)
    ensures Happens(end.log, Giver(f))
  {
    var i := Promised(cfg, end, s, f);
    GiverIsUnique(f, end.log[i].effect);
    assert At(end.log, i, Giver(f));
  }

  lemma GivenBy(e: Effect, c: Compiler)
    ensures LlvmIn(c) in Gives(e) <==> e.InstallLlvm? && e.compiler == c
    ensures Backed(c) in Gives(e) <==> e.AddBackends? && e.compiler == c
  {
  }

  // ---------------------------------------------------------------------------
  // Which compiler builds what.

  /** Cargo is run for a library, a compiler or a backend exactly if a step of the run is for it, the
      stage is not kept, and it is not lifted out of stage 1. */
  lemma CargoIsRunIff(cfg: Config, end: End, mode: Mode, c: Compiler, t: Target)
    requires Over(cfg, end)
    ensures Happens(end.log, RunCargo(c, mode, t)) <==>
              && (exists s :: s in end.cache && Compiles(s, mode, c, t))
              && c.stage !in cfg.keepStage && (mode == ForStd ==> c.stage !in cfg.keepStageStd)
              && (cfg.fullBootstrap || c.stage <= 1 || (t != cfg.build && t !in cfg.hosts))
  {
    if Happens(end.log, RunCargo(c, mode, t)) {
      var s := ActedFor(cfg, end, RunCargo(c, mode, t));
    }
    if s :| s in end.cache && Compiles(s, mode, c, t) && MayBuild(cfg, mode, c, t) {
      BodyRunsCargo(cfg, s, mode, c, t);
      StepActs(cfg, end, s, RunCargo(c, mode, t));
    }
  }

  lemma BodyRunsCargo(cfg: Config, s: Step, mode: Mode, c: Compiler, t: Target)
    requires Compiles(s, mode, c, t) && MayBuild(cfg, mode, c, t)
    ensures Do(RunCargo(c, mode, t)) in Body(cfg, s)
  {
    var cargo := BuildWithCargo(cfg, c, mode, t, BuildOf(s));
    assert Do(RunCargo(c, mode, t)) in cargo by {
      assert cargo[|PrepareCargo(cfg, c, mode, t)|] == Do(RunCargo(c, mode, t));
    }
    assert forall op | op in cargo :: op in Body(cfg, s);
  }

  /** Whatever is linked into a sysroot comes from the compiler of that sysroot, or from the stage-1 compiler
      exactly if it is of stage 2 or later, for the build target or a host, without full bootstrap and not
      kept from an earlier run. */
  lemma LinksComeFrom(cfg: Config, end: End, roots: seq<Step>, mode: Mode, c: Compiler, tc: Compiler, t: Target, build: Build)
    requires Over(cfg, end) && Requests(cfg, roots) && end.cache.Keys == ReachAll(cfg, roots)
    requires Happens(end.log, LinkStamped(mode, c, tc, t, build))
    ensures c ==
            if && !cfg.fullBootstrap && tc.stage >= 2 && (t == cfg.build || t in cfg.hosts)
               && tc.stage !in cfg.keepStage && (mode == ForStd ==> tc.stage !in cfg.keepStageStd)
            then Compiler(1, cfg.build) else tc
  {
    var x := ActedFor(cfg, end, LinkStamped(mode, c, tc, t, build));
    var y := Requester(cfg, roots, x);
  }

  lemma Requester(cfg: Config, roots: seq<Step>, x: Step) returns (y: Step)
    requires Requests(cfg, roots) && x in ReachAll(cfg, roots) && x !in roots
    ensures AsksProperly(cfg, y, x)
  {
    var s := InReachOf(cfg, roots, x);
    ReachRanksBelow(cfg, s, x);
    y :| y in Reach(cfg, s) && Need(x) in Body(cfg, y);
    ReachIsClosed(cfg, s);
    BodiesAreProper(cfg, y);
    ProperMember(cfg, y, Body(cfg, y), Need(x));
  }

  lemma {:induction false} InReachOf(cfg: Config, roots: seq<Step>, x: Step) returns (s: Step)
    requires Requests(cfg, roots) && x in ReachAll(cfg, roots)
    ensures s in roots && WellFormed(cfg, s) && x in Reach(cfg, s)
  {
    if x in Reach(cfg, roots[0]) {
      s := roots[0];
    } else {
      s := InReachOf(cfg, roots[1..], x);
    }
  }

  /** A compiler is installed exactly if it was asked for and is neither the snapshot nor, without full
      bootstrap, of stage 3 or later. */
  lemma CompilerIsInstalledIff(cfg: Config, end: End, c: Compiler)
    requires Over(cfg, end)
    ensures Happens(end.log, InstallCompiler(c)) <==> Assemble(c) in end.cache && c.stage > 0 && (cfg.fullBootstrap || c.stage <= 2)
  {
    if Happens(end.log, InstallCompiler(c)) {
      var s := ActedFor(cfg, end, InstallCompiler(c));
      InstallerIs(cfg, s, c);
    }
    if Assemble(c) in end.cache && c.stage > 0 && (cfg.fullBootstrap || c.stage <= 2) {
      InstallerIs(cfg, Assemble(c), c);
      CameAbout(cfg, end, Assemble(c), Installed(c));
    }
  }

  lemma InstallerIs(cfg: Config, s: Step, c: Compiler)
    ensures Owns(cfg, s, InstallCompiler(c)) <==> s == Assemble(c) && c.stage > 0 && (cfg.fullBootstrap || c.stage <= 2)
    ensures c.stage > 0 && (cfg.fullBootstrap || c.stage <= 2) ==> Installed(c) in Post(cfg, Assemble(c))
  {
  }

  // ---------------------------------------------------------------------------
  // What is in place when it is used.

  /** There is an LLVM for the target by place `j`: provided, left by an earlier run, or built. */
  ghost predicate LlvmByThen(cfg: Config, log: Log, j: nat, t: Target) {
    t in cfg.llvmConfig || t.triple in cfg.finishedLlvm || Before(log, j, BuildLlvm(t))
  }

  lemma LlvmCameFirst(cfg: Config, end: End, j: nat, t: Target)
    requires Over(cfg, end) && j < |end.log| && end.log[j].Did? && LlvmFirst(cfg, t) <= Needs(cfg, end.log[j].effect)
    ensures LlvmByThen(cfg, end.log, j, t)
  {
    if !HasLlvm(cfg, t) {
      CameBefore(cfg, end, j, LlvmBuilt(t));
    }
  }

  /** LLVM is built exactly if it was asked for and is not there already. */
  lemma LlvmIsBuiltIff(cfg: Config, end: End, t: Target)
    requires Over(cfg, end)
    ensures Happens(end.log, BuildLlvm(t)) <==> Llvm(t) in end.cache && t !in cfg.llvmConfig && t.triple !in cfg.finishedLlvm
  {
    if Happens(end.log, BuildLlvm(t)) {
      var s := ActedFor(cfg, end, BuildLlvm(t));
    }
    if Llvm(t) in end.cache && !HasLlvm(cfg, t) {
      StepActs(cfg, end, Llvm(t), BuildLlvm(t));
    }
  }

  /** With the LLVM backend, LLVM is there before a compiler or a backend is compiled; and a cross-compiled
      LLVM, the linker and the sanitizer runtimes find the one that they are built with. */
  lemma LlvmComesFirst(cfg: Config, end: End, j: nat)
    requires Over(cfg, end) && j < |end.log| && end.log[j].Did?
    ensures match end.log[j].effect
            case RunCargo(c, mode, t) => mode != ForStd && "llvm" in cfg.backends ==> LlvmByThen(cfg, end.log, j, t)
            case BuildLlvm(t) => t != cfg.build ==> LlvmByThen(cfg, end.log, j, cfg.build)
            case BuildNative(n, t) =>
              (n == Linker ==> LlvmByThen(cfg, end.log, j, t)) && (n == Runtimes ==> LlvmByThen(cfg, end.log, j, cfg.build))
            case _ => true
  {
    match end.log[j].effect
    case RunCargo(c, mode, t) =>
      if mode != ForStd && "llvm" in cfg.backends {
        LlvmCameFirst(cfg, end, j, t);
      }
    case BuildLlvm(t) =>
      if t != cfg.build {
        LlvmCameFirst(cfg, end, j, cfg.build);
      }
    case BuildNative(n, t) =>
      if n == Linker {
        LlvmCameFirst(cfg, end, j, t);
      } else if n == Runtimes {
        LlvmCameFirst(cfg, end, j, cfg.build);
      }
    case _ =>
  }

  /** Something for the target was linked into the sysroot of `c` before place `j`. */
  ghost predicate LinkedBy(log: Log, j: nat, mode: Mode, c: Compiler, t: Target) {
    exists from, build :: Before(log, j, LinkStamped(mode, from, c, t, build))
  }

  lemma LinkCameFirst(cfg: Config, end: End, j: nat, mode: Mode, from: Compiler, c: Compiler, t: Target)
    requires Over(cfg, end) && j < |end.log| && end.log[j].Did? && Linked(mode, from, c, t) in Needs(cfg, end.log[j].effect)
    ensures LinkedBy(end.log, j, mode, c, t)
  {
    var i := Earlier(cfg, end, j, Linked(mode, from, c, t));
    var e := end.log[i].effect;
    LinkGives(e, mode, from, c, t);
    assert At(end.log, i, e);
    assert Before(end.log, j, LinkStamped(mode, from, c, t, e.build));
  }

  lemma LinkGives(e: Effect, mode: Mode, from: Compiler, c: Compiler, t: Target)
    requires Linked(mode, from, c, t) in Gives(e)
    ensures e.LinkStamped? && e == LinkStamped(mode, from, c, t, e.build)
  {
  }

  /** Before Cargo runs, the libdir of its compiler is there. Before it builds a compiler, the libraries for
      that one's host and for the build target are linked into it; before it builds a backend, the crates of
      the compiler are; and before it builds a library, the startup objects are, if the target has any. */
  lemma CargoFindsItsInputs(cfg: Config, end: End, j: nat, mode: Mode, c: Compiler, t: Target)
    requires Over(cfg, end) && At(end.log, j, RunCargo(c, mode, t))
    ensures Before(end.log, j, WipeLibdir(c, c.host))
    ensures mode == ForRustc ==> LinkedBy(end.log, j, ForStd, c, t) && LinkedBy(end.log, j, ForStd, c, cfg.build)
    ensures mode.ForCodegen? ==> LinkedBy(end.log, j, ForRustc, c, t)
    ensures mode == ForStd && (exists arch :: t.triple == arch + "windows-gnu") ==> Before(end.log, j, CopyToLibdir(c, t, Startup))
  {
    CameBefore(cfg, end, j, WipedLib(c, c.host));
    match mode
    case ForStd =>
      if arch :| t.triple == arch + "windows-gnu" {
        EndsWithIff(t.triple, "windows-gnu");
        CameBefore(cfg, end, j, Placed(c, t, Startup));
      }
    case ForRustc =>
      LinkCameFirst(cfg, end, j, ForStd, StdSource(cfg, c, t), c, t);
      LinkCameFirst(cfg, end, j, ForStd, StdSource(cfg, c, cfg.build), c, cfg.build);
    case ForCodegen(_) =>
      LinkCameFirst(cfg, end, j, ForRustc, RustcSource(cfg, c, t), c, t);
  }

  // ---------------------------------------------------------------------------
  // The objects that come with a library.

  lemma EndsWithIff(s: string, part: string)
    ensures EndsWith(s, part) <==> exists pre :: s == pre + part
  {
    if EndsWith(s, part) {
      assert s == s[..|s| - |part|] + part;
    }
    if pre :| s == pre + part {
      assert s[|s| - |part|..] == part;
    }
  }

  ghost predicate Occurs(s: string, part: string) {
    exists pre, post :: s == pre + part + post
  }

  lemma ContainsIff(s: string, part: string)
    ensures Contains(s, part) <==> Occurs(s, part)
  {
    if i :| 0 <= i <= |s| - |part| && part <= s[i..] {
      assert s == s[..i] + part + s[i..][|part|..];
    }
    if pre, post :| s == pre + part + post {
      assert s[|pre|..] == part + post;
    }
  }

  /** A target has a kind of object, going by its triple and the configuration. */
  ghost predicate Wanted(cfg: Config, c: Compiler, t: Target, part: Part) {
    match part
    case Startup => exists arch :: t.triple == arch + "windows-gnu"
    case Sanitizing => t in cfg.sanitizers && c.stage > 0
    case Unwinding =>
      || t.triple == "x86_64-fortanix-unknown-sgx"
      || (t in cfg.libunwindInTree && (Occurs(t.triple, "linux") || Occurs(t.triple, "fuchsia")))
    case SelfContained => true
    case SelfContainedCrt => Occurs(t.triple, "musl") && !Occurs(t.triple, "unikraft")
    case SelfContainedUnwinding =>
      Occurs(t.triple, "musl") && !Occurs(t.triple, "unikraft") && !exists rest :: t.triple == "s390x" + rest
  }

  lemma WantedIff(cfg: Config, c: Compiler, t: Target)
    ensures HasStartupObjects(t) <==> Wanted(cfg, c, t, Startup)
    ensures HasSanitizers(cfg, c, t) <==> Wanted(cfg, c, t, Sanitizing)
    ensures HasUnwinder(cfg, t) <==> Wanted(cfg, c, t, Unwinding)
    ensures IsMusl(t) <==> Wanted(cfg, c, t, SelfContainedCrt)
    ensures IsMusl(t) && !IsS390x(t) <==> Wanted(cfg, c, t, SelfContainedUnwinding)
  {
    EndsWithIff(t.triple, "windows-gnu");
    ContainsIff(t.triple, "linux");
    ContainsIff(t.triple, "fuchsia");
    ContainsIff(t.triple, "musl");
    ContainsIff(t.triple, "unikraft");
    if IsS390x(t) {
      assert t.triple == "s390x" + t.triple[5..];
    }
  }

  /** The step that copies objects of a kind. */
  ghost predicate CopiesParts(s: Step, c: Compiler, t: Target, part: Part) {
    if part == Startup then s == StartupObjects(c, t) else s.Std? && s.compiler == c && s.target == t
  }

  /** Objects are copied into the libdir of a target exactly if a step for them is run and the target has
      them; and what they are copied from was built before. */
  lemma ObjectsAreCopiedIff(cfg: Config, end: End, c: Compiler, t: Target, part: Part)
    requires Over(cfg, end)
    ensures Happens(end.log, CopyToLibdir(c, t, part)) <==> (exists s :: s in end.cache && CopiesParts(s, c, t, part)) && Wanted(cfg, c, t, part)
  {
    if Happens(end.log, CopyToLibdir(c, t, part)) {
      var s := ActedFor(cfg, end, CopyToLibdir(c, t, part));
      PartIsOwned(cfg, s, c, t, part);
    }
    if s :| s in end.cache && CopiesParts(s, c, t, part) && Wanted(cfg, c, t, part) {
      PartIsPromised(cfg, s, c, t, part);
      CameAbout(cfg, end, s, Placed(c, t, part));
    }
  }

  lemma PartIsOwned(cfg: Config, s: Step, c: Compiler, t: Target, part: Part)
    requires Owns(cfg, s, CopyToLibdir(c, t, part))
    ensures CopiesParts(s, c, t, part) && Wanted(cfg, c, t, part)
  {
    WantedIff(cfg, c, t);
  }

  lemma PartIsPromised(cfg: Config, s: Step, c: Compiler, t: Target, part: Part)
    requires CopiesParts(s, c, t, part) && Wanted(cfg, c, t, part)
    ensures Placed(c, t, part) in Post(cfg, s)
  {
    WantedIff(cfg, c, t);
  }

  lemma ObjectsAreMadeFirst(cfg: Config, end: End, j: nat, c: Compiler, t: Target, part: Part)
    requires Over(cfg, end) && At(end.log, j, CopyToLibdir(c, t, part))
    ensures part == Sanitizing && t in cfg.sanitizerRuntimes ==> Before(end.log, j, BuildNative(Runtimes, t))
    ensures part == Unwinding || part == SelfContainedUnwinding ==> Before(end.log, j, BuildNative(Unwinder, t))
    ensures part == SelfContainedCrt ==> Before(end.log, j, BuildNative(CrtObjects, t))
  {
    match part
    case Sanitizing =>
      if t in cfg.sanitizerRuntimes {
        CameBefore(cfg, end, j, Made(Runtimes, t));
      }
    case Unwinding => CameBefore(cfg, end, j, Made(Unwinder, t));
    case SelfContainedUnwinding => CameBefore(cfg, end, j, Made(Unwinder, t));
    case SelfContainedCrt => CameBefore(cfg, end, j, Made(CrtObjects, t));
    case _ =>
  }

  /** The stamp of a library is written after all its objects were copied. */
  lemma StampsListObjects(cfg: Config, end: End, j: nat, c: Compiler, t: Target, build: Build, part: Part)
    requires Over(cfg, end) && At(end.log, j, WriteStamp(ForStd, c, t, build)) && Wanted(cfg, c, t, part)
    ensures Before(end.log, j, CopyToLibdir(c, t, part))
  {
    PartIsListed(cfg, c, t, build, part);
    CameBefore(cfg, end, j, Placed(c, t, part));
  }

  lemma PartIsListed(cfg: Config, c: Compiler, t: Target, build: Build, part: Part)
    requires Wanted(cfg, c, t, part)
    ensures Placed(c, t, part) in Needs(cfg, WriteStamp(ForStd, c, t, build))
  {
    WantedIff(cfg, c, t);
  }

  // ---------------------------------------------------------------------------
  // What a sysroot holds.

  /** Sources are linked into every sysroot, after it was wiped. */
  lemma SysrootHasSources(cfg: Config, end: End, c: Compiler) returns (j: nat)
    requires Over(cfg, end) && Sysroot(c) in end.cache
    ensures At(end.log, j, LinkSources(c)) && Before(end.log, j, WipeSysroot(c))
  {
    CameAbout(cfg, end, Sysroot(c), Sourced(c));
    j :| At(end.log, j, LinkSources(c));
    CameBefore(cfg, end, j, Wiped(c));
  }

  /** libLLVM is installed in a sysroot exactly if LLVM is linked dynamically and not provided from outside:
      in that of the snapshot when it is made, in any other when the compiler is installed. */
  lemma LlvmIsInstalledIff(cfg: Config, end: End, c: Compiler)
    requires Over(cfg, end) && if c.stage == 0 then Sysroot(c) in end.cache else Happens(end.log, InstallCompiler(c))
    ensures (exists t :: Happens(end.log, InstallLlvm(c, t))) <==> cfg.llvmLinkShared && (c.host !in cfg.llvmConfig || cfg.llvmFromCi)
  {
    if t :| Happens(end.log, InstallLlvm(c, t)) {
      var s := ActedFor(cfg, end, InstallLlvm(c, t));
    }
    if InstallsLlvm(cfg, c.host) {
      var i := LlvmPlace(cfg, end, c);
      GivenBy(end.log[i].effect, c);
      assert At(end.log, i, InstallLlvm(c, end.log[i].effect.libdir));
      assert Happens(end.log, InstallLlvm(c, end.log[i].effect.libdir));
    }
  }

  lemma LlvmPlace(cfg: Config, end: End, c: Compiler) returns (i: nat)
    requires Over(cfg, end) && if c.stage == 0 then Sysroot(c) in end.cache else Happens(end.log, InstallCompiler(c))
    requires InstallsLlvm(cfg, c.host)
    ensures i < |end.log| && end.log[i].Did? && LlvmIn(c) in Gives(end.log[i].effect)
  {
    LlvmIsOwed(cfg, c);
    if c.stage == 0 {
      i := Promised(cfg, end, Sysroot(c), LlvmIn(c));
    } else {
      var j: nat :| At(end.log, j, InstallCompiler(c));
      i := Earlier(cfg, end, j, LlvmIn(c));
    }
  }

  lemma LlvmIsOwed(cfg: Config, c: Compiler)
    requires InstallsLlvm(cfg, c.host)
    ensures if c.stage == 0 then LlvmIn(c) in Post(cfg, Sysroot(c)) else LlvmIn(c) in Needs(cfg, InstallCompiler(c))
  {
  }

  /** The pieces that the configuration asks for. */
  ghost predicate Comes(cfg: Config, c: Compiler, piece: Piece) {
    match piece
    case Dylibs => true
    case LinkerTools => cfg.lldEnabled
    case LlvmTools => "llvm" in cfg.backends
    case LlvmRuntime => cfg.llvmLinkShared && (c.host !in cfg.llvmConfig || cfg.llvmFromCi)
    case _ => false
  }

  /** Everything that an installed compiler of stage `c.stage` comes with was put there before: the crates of
      the compiler before it, its libraries, and the linker, the LLVM tools, libLLVM and the backends that
      the configuration asks for. */
  lemma InstalledCompilerIsComplete(cfg: Config, end: End, j: nat, c: Compiler)
    requires Over(cfg, end) && At(end.log, j, InstallCompiler(c)) && c.stage > 0
    ensures var bc := Compiler(c.stage - 1, cfg.build);
            && LinkedBy(end.log, j, ForRustc, bc, c.host) && Before(end.log, j, ReadStamp(ForRustc, bc, c.host))
            && forall piece | Comes(cfg, c, piece) :: Before(end.log, j, CopyToSysroot(c, piece))
  {
    var bc := Compiler(c.stage - 1, cfg.build);
    LinkCameFirst(cfg, end, j, ForRustc, bc, bc, c.host);
    CameBefore(cfg, end, j, StampRead(ForRustc, bc, c.host));
    forall piece | Comes(cfg, c, piece)
      ensures Before(end.log, j, CopyToSysroot(c, piece))
    {
      PieceIsNeeded(cfg, c, piece);
      PieceIsThere(cfg, end, j, c, piece);
    }
  }

  lemma PieceIsNeeded(cfg: Config, c: Compiler, piece: Piece)
    requires c.stage > 0 && Comes(cfg, c, piece)
    ensures Has(c, piece) in Needs(cfg, InstallCompiler(c))
  {
  }

  lemma PieceIsThere(cfg: Config, end: End, j: nat, c: Compiler, piece: Piece)
    requires Over(cfg, end) && At(end.log, j, InstallCompiler(c)) && Has(c, piece) in Needs(cfg, InstallCompiler(c))
    ensures Before(end.log, j, CopyToSysroot(c, piece))
  {
    CameBefore(cfg, end, j, Has(c, piece));
  }

  /** The linker and its wrapper, and LLVM, are there when they are copied. */
  lemma PiecesAreMadeFirst(cfg: Config, end: End, j: nat, c: Compiler, piece: Piece)
    requires Over(cfg, end) && At(end.log, j, CopyToSysroot(c, piece)) && c.stage > 0
    ensures piece == LinkerTools ==>
              Before(end.log, j, BuildNative(Linker, c.host)) && Before(end.log, j, RunTool(Compiler(c.stage - 1, cfg.build), c.host))
    ensures piece == LlvmTools ==> LlvmByThen(cfg, end.log, j, c.host)
  {
    if piece == LinkerTools {
      CameBefore(cfg, end, j, Made(Linker, c.host));
      CameBefore(cfg, end, j, Wrapped(Compiler(c.stage - 1, cfg.build), c.host));
    } else if piece == LlvmTools {
      LlvmCameFirst(cfg, end, j, c.host);
    }
  }

  lemma {:induction false} BackendIsFirst(bc: Compiler, c: Compiler, backends: seq<string>, b: string)
    requires b in backends && b != "llvm"
    ensures StampRead(ForCodegen(b), bc, c.host) in BackendsFirst(bc, c, backends) && Backed(c) in BackendsFirst(bc, c, backends)
  {
    if b != backends[0] {
      BackendIsFirst(bc, c, backends[1..], b);
    }
  }

  lemma BackendIsNeeded(cfg: Config, bc: Compiler, c: Compiler, b: string)
    requires c.stage > 0 && bc == Compiler(c.stage - 1, cfg.build) && b in cfg.backends && b != "llvm"
    ensures {StampRead(ForCodegen(b), bc, c.host), Backed(c)} <= Needs(cfg, InstallCompiler(c))
  {
    BackendIsFirst(bc, c, cfg.backends, b);
  }

  /** Every codegen backend but LLVM's was read from its stamp, and backends were copied. */
  lemma InstalledCompilerHasBackends(cfg: Config, end: End, j: nat, c: Compiler, b: string)
    requires Over(cfg, end) && At(end.log, j, InstallCompiler(c)) && c.stage > 0 && b in cfg.backends && b != "llvm"
    ensures Before(end.log, j, ReadStamp(ForCodegen(b), Compiler(c.stage - 1, cfg.build), c.host))
    ensures exists t :: Before(end.log, j, AddBackends(c, t))
  {
    var bc := Compiler(c.stage - 1, cfg.build);
    BackendIsNeeded(cfg, bc, c, b);
    CameBefore(cfg, end, j, StampRead(ForCodegen(b), bc, c.host));
    BackendsCameFirst(cfg, end, j, c);
  }

  lemma BackendsCameFirst(cfg: Config, end: End, j: nat, c: Compiler)
    requires Over(cfg, end) && At(end.log, j, InstallCompiler(c)) && Backed(c) in Needs(cfg, InstallCompiler(c))
    ensures exists t :: Before(end.log, j, AddBackends(c, t))
  {
    var i := Earlier(cfg, end, j, Backed(c));
    GivenBy(end.log[i].effect, c);
    assert At(end.log, i, AddBackends(c, end.log[i].effect.target));
    assert Before(end.log, j, AddBackends(c, end.log[i].effect.target));
  }

  /** Packaging reads the stamp of the compiler that built: the stage-1 compiler where artifacts are lifted,
      the one asked for otherwise. For a compiler that does not run on the build machine there is nothing. */
  lemma DistReadsTheRightStamp(cfg: Config, end: End, s: Step, mode: Mode)
    requires Over(cfg, end) && s in end.cache && ((s.DistStd? && mode == ForStd) || (s.DistRustcDev? && mode == ForRustc))
    ensures s.compiler.host == cfg.build ==>
              var lifted := !cfg.fullBootstrap && s.compiler.stage >= 2 && (s.target == cfg.build || s.target in cfg.hosts);
              Happens(end.log, ReadStamp(mode, if lifted then Compiler(1, cfg.build) else s.compiler, s.target))
    ensures s.compiler.host != cfg.build ==> Body(cfg, s) == []
  {
    if s.compiler.host == cfg.build {
      var c := DistPromise(cfg, s, mode);
      CameAbout(cfg, end, s, StampRead(mode, c, s.target));
    }
  }

  lemma DistPromise(cfg: Config, s: Step, mode: Mode) returns (c: Compiler)
    requires (s.DistStd? && mode == ForStd) || (s.DistRustcDev? && mode == ForRustc)
    requires s.compiler.host == cfg.build
    ensures StampRead(mode, c, s.target) in Post(cfg, s)
    ensures c == if !cfg.fullBootstrap && s.compiler.stage >= 2 && (s.target == cfg.build || s.target in cfg.hosts)
                 then Compiler(1, cfg.build) else s.compiler
  {
    c := Builds(cfg, s.compiler, s.target);
  }

  /** What counts as an installation of libLLVM: there is one for the same triple by then. On macOS that is
      the dynamic library itself, elsewhere a finished LLVM. */
  lemma LlvmIsCopiedIff(cfg: Config, log: Log, i: nat, c: Compiler, t: Target)
    requires At(log, i, InstallLlvm(c, t))
    ensures Copies(cfg, log, i) <==>
              || (exists h: Target :: h.triple == c.host.triple && Before(log, i, BuildLlvm(h)))
              || (if Occurs(c.host.triple, "apple-darwin") then c.host.triple in cfg.dylibLlvm
                  else c.host in cfg.llvmConfig || c.host.triple in cfg.finishedLlvm)
  {
    ContainsIff(c.host.triple, "apple-darwin");
    if k: nat :| BuiltLlvm(log[..i], c.host, k) {
      assert At(log, k, BuildLlvm(log[k].effect.target));
      assert Before(log, i, BuildLlvm(log[k].effect.target));
    }
    if h: Target :| h.triple == c.host.triple && Before(log, i, BuildLlvm(h)) {
      var k: nat :| k < i && At(log, k, BuildLlvm(h));
      assert BuiltLlvm(log[..i], c.host, k);
    }
  }
}
