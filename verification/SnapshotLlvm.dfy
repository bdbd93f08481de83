/** When libLLVM in the snapshot compiler's sysroot is wiped after it was installed. It depends on the
    order of the roots: a shared LLVM is copied there only if there is one by the time, and LLVM may be
    built by the run itself. */
module SnapshotLlvm {
  import opened Options
  import opened StepEngine
  import opened StageGraph
  import opened StageContracts
  import opened StageRun

  // ---------------------------------------------------------------------------
  // The condition, on the configuration and the roots.

  /** The target for which a step first asks the snapshot compiler to build. */
  function FirstTarget(cfg: Config, s: Step): Target
    requires UsesCargo(cfg, s)
  {
    if s.Assemble? then (if s.targetCompiler.stage == 1 then s.targetCompiler.host else cfg.build)
    else if s.compiler.stage == 0 then s.target
    else cfg.build
  }

  /** The first target whose libdir in the snapshot's sysroot a step asks for. */
  function Asks(cfg: Config, s: Step): Option<Target> {
    if UsesCargo(cfg, s) then Some(FirstTarget(cfg, s)) else AsksDirectly(s)
  }

  predicate Own(cfg: Config, t: Target) {
    t.triple == cfg.build.triple
  }

  /** A step makes the run wipe the libdir in which the snapshot's libLLVM lies. */
  predicate Wipes(cfg: Config, s: Step) {
    UsesCargo(cfg, s) || (AsksDirectly(s).Some? && Own(cfg, AsksDirectly(s).value))
  }

  /** A step that uses no Cargo makes the run build LLVM for the build triple. */
  predicate BuildsLlvm(cfg: Config, s: Step) {
    match s
    case Llvm(t) => !HasLlvm(cfg, t) && (Own(cfg, t) || !HasLlvm(cfg, cfg.build))
    case Lld(t) => !HasLlvm(cfg, t) && (Own(cfg, t) || !HasLlvm(cfg, cfg.build))
    case Sanitizers(t) => t in cfg.sanitizerRuntimes && !HasLlvm(cfg, cfg.build)
    case _ => false
  }

  ghost predicate ReadyAfter(cfg: Config, roots: seq<Step>) {
    HasLibLlvm(cfg, cfg.build) || exists s :: s in roots && BuildsLlvm(cfg, s)
  }

  /** By the root at `m` there is a libLLVM, its libdir has not been wiped but will be, and this root
      makes the run install it: by creating the snapshot's sysroot, or by asking for a new libdir in it. */
  ghost predicate EarlyAt(cfg: Config, roots: seq<Step>, m: nat) {
    && m < |roots| && ReadyAfter(cfg, roots[..m])
    && (forall s | s in roots[..m] :: !Wipes(cfg, s))
    && (exists s :: s in roots[m..] && Wipes(cfg, s))
    && (|| (UsesSnapshot(cfg, roots[m]) && forall s | s in roots[..m] :: !UsesSnapshot(cfg, s))
        || AsksFirst(cfg, roots, m))
  }

  ghost predicate AsksFirst(cfg: Config, roots: seq<Step>, m: nat)
    requires m < |roots|
  {
    var t := Asks(cfg, roots[m]);
    t.Some? && !Own(cfg, t.value) && forall s | s in roots[..m] :: Asks(cfg, s) != t
  }

  ghost predicate LlvmComesEarly(cfg: Config, roots: seq<Step>) {
    && cfg.initialLibdir == ["lib"] && InstallsLlvm(cfg, cfg.build)
    && exists m: nat :: EarlyAt(cfg, roots, m)
  }

  // ---------------------------------------------------------------------------
  // What steps reach in the snapshot's sysroot.

  ghost predicate Follows(cfg: Config, u: set<Step>) {
    forall x, d | x in u && Need(d) in Body(cfg, x) :: d in u
  }

  lemma ReachFollows(cfg: Config, roots: seq<Step>)
    requires forall s | s in roots :: WellFormed(cfg, s)
    ensures Follows(cfg, ReachAll(cfg, roots))
    ensures forall s | s in roots :: s in ReachAll(cfg, roots)
  {
    ReachAllIsClosed(cfg, roots);
    var u := ReachAll(cfg, roots);
    forall x, d | x in u && Need(d) in Body(cfg, x)
      ensures d in u
    {
      assert OpsIn(u, Body(cfg, x));
    }
    forall s | s in roots
      ensures s in u
    {
      assert s in Elems(roots);
    }
  }

  /** The next step on the way to the snapshot. */
  lemma TowardsSnapshot(cfg: Config, s: Step) returns (d: Step)
    requires WellFormed(cfg, s) && KeepsNothing(cfg) && UsesCargo(cfg, s)
    requires !(s.Std? && s.compiler.stage == 0)
    ensures Need(d) in Body(cfg, s) && WellFormed(cfg, d) && Rank(cfg, d) < Rank(cfg, s)
    ensures UsesCargo(cfg, d) && FirstTarget(cfg, d) == FirstTarget(cfg, s)
  {
    match s
    case Assemble(c) =>
      d := if c.stage == 1 then Rustc(Compiler(0, cfg.build), c.host, []) else Assemble(Compiler(c.stage - 1, cfg.build));
    case Std(c, t, _, _) => d := Assemble(Builds(cfg, c, t));
    case LldWrapper(c, t) => d := LldWrapperBuild(c, t);
    case CodegenBackend(c, t, _) => d := Rustc(c, t, []);
    case DistRustcDev(c, t) => d := Rustc(c, t, []);
    case Rustc(c, t, _) => d := Std(c, t, [], false);
    case LldWrapperBuild(c, t) => d := Std(c, t, [], false);
    case DistStd(c, t) => d := Std(c, t, [], false);
  }

  lemma SnapshotStdAsks(cfg: Config, s: Step)
    requires WellFormed(cfg, s) && KeepsNothing(cfg) && s.Std? && s.compiler.stage == 0
    ensures Need(Libdir(s.compiler, s.target)) in Body(cfg, s) && Need(Libdir(s.compiler, cfg.build)) in Body(cfg, s)
  {
    var c, t := s.compiler, s.target;
    assert Need(Libdir(c, cfg.build)) in BuildWithCargo(cfg, c, ForStd, t, BuildOf(s));
    assert Need(Libdir(c, t)) in SelfContainedObjects(c, t) by {
      assert FillLibdir(c, t, SelfContained) <= SelfContainedObjects(c, t) && FillLibdir(c, t, SelfContained)[0] == Need(Libdir(c, t));
    }
    assert Need(Libdir(c, t)) in ThirdPartyObjects(cfg, c, t) + SelfContainedObjects(c, t);
  }

  /** Whoever uses Cargo reaches the snapshot's libdirs of its first target and of the build target. */
  lemma {:induction false} CargoReachesSnapshot(cfg: Config, u: set<Step>, s: Step)
    requires KeepsNothing(cfg) && Follows(cfg, u) && s in u && WellFormed(cfg, s) && UsesCargo(cfg, s)
    ensures Libdir(Snapshot(cfg), cfg.build) in u && Libdir(Snapshot(cfg), FirstTarget(cfg, s)) in u
    decreases Rank(cfg, s)
  {
    if s.Std? && s.compiler.stage == 0 {
      SnapshotStdAsks(cfg, s);
    } else {
      var d := TowardsSnapshot(cfg, s);
      CargoReachesSnapshot(cfg, u, d);
    }
  }

  lemma DirectAskReachesSnapshot(cfg: Config, u: set<Step>, s: Step)
    requires Follows(cfg, u) && s in u && WellFormed(cfg, s) && AsksDirectly(s).Some?
    ensures Libdir(Snapshot(cfg), AsksDirectly(s).value) in u
  {
    if s.StartupObjects? {
      assert Need(Libdir(s.compiler, s.target)) in Body(cfg, s);
    }
  }

  lemma LibdirReachesSysroot(cfg: Config, u: set<Step>, c: Compiler, t: Target)
    requires Follows(cfg, u) && Libdir(c, t) in u
    ensures Sysroot(c) in u
  {
    assert Need(Sysroot(c)) in Body(cfg, Libdir(c, t));
  }

  predicate Requestable(cfg: Config, s: Step) {
    WellFormed(cfg, s) && !s.StdLink? && !s.RustcLink? && !s.LldWrapper? && !s.LldWrapperBuild?
  }

  lemma RootReachesSysroot(cfg: Config, u: set<Step>, s: Step)
    requires KeepsNothing(cfg) && Follows(cfg, u) && s in u && Requestable(cfg, s) && UsesSnapshot(cfg, s)
    ensures Sysroot(Snapshot(cfg)) in u
  {
    if UsesCargo(cfg, s) {
      CargoReachesSnapshot(cfg, u, s);
      LibdirReachesSysroot(cfg, u, Snapshot(cfg), cfg.build);
    } else if AsksDirectly(s).Some? {
      DirectAskReachesSnapshot(cfg, u, s);
      LibdirReachesSysroot(cfg, u, Snapshot(cfg), AsksDirectly(s).value);
    }
  }

  /** All that a root without Cargo can reach. */
  function Small(cfg: Config, s: Step): set<Step> {
    {s} +
    match s
    case Libdir(c, _) => {Sysroot(c)}
    case StartupObjects(c, t) => if HasStartupObjects(t) then {Libdir(c, t), Sysroot(c)} else {}
    case Llvm(t) => if HasLlvm(cfg, t) then {} else {Llvm(cfg.build)}
    case Lld(t) => if HasLlvm(cfg, t) then {Llvm(t)} else {Llvm(t), Llvm(cfg.build)}
    case Sanitizers(t) => if t in cfg.sanitizerRuntimes then {Llvm(cfg.build)} else {}
    case _ => {}
  }

  lemma SmallReach(cfg: Config, s: Step)
    requires Requestable(cfg, s) && !UsesCargo(cfg, s)
    ensures Reach(cfg, s) <= Small(cfg, s)
  {
    ReachIsCached(cfg, Small(cfg, s), s);
  }

  /** Without Cargo, the libdirs of the snapshot are only asked for directly. */
  lemma SmallAsks(cfg: Config, s: Step, t: Target)
    requires Requestable(cfg, s) && !UsesCargo(cfg, s)
    requires Libdir(Snapshot(cfg), t) in Reach(cfg, s)
    ensures AsksDirectly(s) == Some(t)
  {
    SmallReach(cfg, s);
  }

  lemma SmallBuilds(cfg: Config, s: Step, t: Target)
    requires Requestable(cfg, s) && !UsesCargo(cfg, s)
    requires Llvm(t) in Reach(cfg, s) && Own(cfg, t) && !HasLlvm(cfg, t)
    ensures BuildsLlvm(cfg, s) && !UsesSnapshot(cfg, s)
  {
    SmallReach(cfg, s);
  }

  lemma BuilderReachesLlvm(cfg: Config, u: set<Step>, s: Step) returns (t: Target)
    requires Follows(cfg, u) && s in u && BuildsLlvm(cfg, s)
    ensures Llvm(t) in u && Own(cfg, t) && !HasLlvm(cfg, t)
  {
    if s.Sanitizers? {
      t := cfg.build;
      assert Need(Llvm(t)) in Body(cfg, s);
    } else {
      if s.Lld? {
        assert Need(Llvm(s.target)) in Body(cfg, s);
      }
      t := s.target;
      if !Own(cfg, t) {
        assert Need(Llvm(cfg.build)) in Body(cfg, Llvm(t));
        t := cfg.build;
      }
    }
  }

  lemma {:induction false} InReachOfSome(cfg: Config, roots: seq<Step>, x: Step) returns (s: Step)
    requires forall s | s in roots :: WellFormed(cfg, s)
    requires x in ReachAll(cfg, roots)
    ensures s in roots && x in Reach(cfg, s)
  {
    if x in Reach(cfg, roots[0]) {
      s := roots[0];
    } else {
      s := InReachOfSome(cfg, roots[1..], x);
    }
  }
}
