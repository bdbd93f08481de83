/** The order in which a root that uses Cargo touches the snapshot's sysroot: first the libdir of its
    first target, then that of the build target, and only then anything else, LLVM included. */
module SnapshotOrder {
  import opened Options
  import opened StepEngine
  import opened EngineFacts
  import opened StageGraph
  import opened StageContracts
  import opened SnapshotLlvm

  datatype Passed = FirstAsked | HostWiped

  const ALL: set<Passed> := {FirstAsked, HostWiped}

  /** `t0` is the first target of the root. */
  function PreOf(cfg: Config, t0: Target, s: Step): set<Passed> {
    if UsesCargo(cfg, s) then (if FirstTarget(cfg, s) == t0 then {} else ALL)
    else if s.Llvm? || s.Lld? || s.Sanitizers? then ALL
    else if (s.StdLink? || s.RustcLink?) && s.targetCompiler.stage == 0 then ALL
    else if AsksDirectly(s).None? || AsksDirectly(s) == Some(t0) then {}
    else if AsksDirectly(s) == Some(cfg.build) then {FirstAsked}
    else ALL
  }

  function PostOf(cfg: Config, t0: Target, s: Step): set<Passed> {
    if UsesCargo(cfg, s) then ALL
    else
      (if AsksDirectly(s) == Some(t0) then {FirstAsked} else {}) + (if AsksDirectly(s) == Some(cfg.build) then {HostWiped} else {})
  }

  function NeedsOf(cfg: Config, t0: Target, e: Effect): set<Passed> {
    if e.BuildLlvm? then ALL
    else if e == WipeLibdir(Snapshot(cfg), cfg.build) then (if t0 == cfg.build then {} else {FirstAsked})
    else if e.InstallLlvm? && e.compiler == Snapshot(cfg) && e.libdir != t0 && e.libdir != cfg.build then ALL
    else {}
  }

  function GivesOf(cfg: Config, t0: Target, e: Effect): set<Passed> {
    if e == WipeLibdir(Snapshot(cfg), cfg.build) then {HostWiped}
    else if e == InstallLlvm(Snapshot(cfg), t0) then {FirstAsked}
    else {}
  }

  ghost function OrderContract(cfg: Config, t0: Target): Contract<Step, Effect, Passed> {
    Contract(s => PreOf(cfg, t0, s), s => PostOf(cfg, t0, s), e => NeedsOf(cfg, t0, e), e => GivesOf(cfg, t0, e))
  }

  lemma {:induction false} AllIsEnough(cfg: Config, t0: Target, acc: set<Passed>, ops: seq<StepOp>)
    requires ALL <= acc
    ensures Respects(OrderContract(cfg, t0), acc, ops) && ALL <= Known(OrderContract(cfg, t0), acc, ops)
    decreases |ops|
  {
    if ops != [] {
      var k := OrderContract(cfg, t0);
      AllIsEnough(cfg, t0, acc + (match ops[0] { case Need(d) => k.post(d) case Do(e) => k.gives(e) }), ops[1..]);
    }
  }

  /** A body is in order once its beginning has passed both marks. */
  lemma LeadIsEnough(cfg: Config, t0: Target, lead: seq<StepOp>, rest: seq<StepOp>)
    requires Respects(OrderContract(cfg, t0), {}, lead) && ALL <= Known(OrderContract(cfg, t0), {}, lead)
    ensures Respects(OrderContract(cfg, t0), {}, lead + rest) && ALL <= Known(OrderContract(cfg, t0), {}, lead + rest)
  {
    var k := OrderContract(cfg, t0);
    KnownConcat(k, {}, lead, rest);
    AllIsEnough(cfg, t0, Known(k, {}, lead), rest);
  }

  ghost predicate InOrder(cfg: Config, t0: Target, s: Step) {
    BodyRespects(OrderContract(cfg, t0), s, Body(cfg, s))
  }

  /** A step whose first request is already a use of Cargo for the same first target. */
  lemma FirstRequestDecides(cfg: Config, t0: Target, s: Step, lead: seq<StepOp>, rest: seq<StepOp>)
    requires UsesCargo(cfg, s) && FirstTarget(cfg, s) == t0 && Body(cfg, s) == lead + rest
    requires Respects(OrderContract(cfg, t0), {}, lead) && ALL <= Known(OrderContract(cfg, t0), {}, lead)
    ensures InOrder(cfg, t0, s)
  {
    LeadIsEnough(cfg, t0, lead, rest);
  }

  lemma LeadOf(cfg: Config, t0: Target, d: Step)
    requires UsesCargo(cfg, d) && FirstTarget(cfg, d) == t0
    ensures Respects(OrderContract(cfg, t0), {}, [Need(d)]) && ALL <= Known(OrderContract(cfg, t0), {}, [Need(d)])
  {
    CarriesNeed(OrderContract(cfg, t0), {}, d);
  }

  lemma LeadOfTwo(cfg: Config, t0: Target, harmless: Step, d: Step)
    requires PreOf(cfg, t0, harmless) == {}
    requires UsesCargo(cfg, d) && FirstTarget(cfg, d) == t0
    ensures Respects(OrderContract(cfg, t0), {}, [Need(harmless)] + [Need(d)])
    ensures ALL <= Known(OrderContract(cfg, t0), {}, [Need(harmless)] + [Need(d)])
  {
    var k := OrderContract(cfg, t0);
    CarriesNeed(k, {}, harmless);
    CarriesNeed(k, {}, d);
    CarriesThen(k, {}, [Need(harmless)], {}, [Need(d)], ALL);
  }

  lemma AssembleInOrder(cfg: Config, t0: Target, s: Step)
    requires WellFormed(cfg, s) && s.Assemble? && UsesCargo(cfg, s) && FirstTarget(cfg, s) == t0
    ensures InOrder(cfg, t0, s)
  {
    var tc := s.targetCompiler;
    var bc := Compiler(tc.stage - 1, cfg.build);
    var install := if LeavesEarly(cfg, tc) then [] else InstallBody(cfg, bc, tc);
    var lead := [Need(Assemble(bc))] + [Need(Rustc(bc, tc.host, []))];
    assert Body(cfg, s) == lead + install;
    if tc.stage == 1 {
      LeadOfTwo(cfg, t0, Assemble(bc), Rustc(bc, tc.host, []));
      FirstRequestDecides(cfg, t0, s, lead, install);
    } else {
      LeadOf(cfg, t0, Assemble(bc));
      LeadIsEnough(cfg, t0, [Need(Assemble(bc))], [Need(Rustc(bc, tc.host, []))]);
      FirstRequestDecides(cfg, t0, s, lead, install);
    }
  }

  lemma LaterStdInOrder(cfg: Config, t0: Target, s: Step)
    requires WellFormed(cfg, s) && KeepsNothing(cfg) && s.Std? && s.compiler.stage > 0 && FirstTarget(cfg, s) == t0
    ensures InOrder(cfg, t0, s)
  {
    var use := Builds(cfg, s.compiler, s.target);
    var lead := [Need(StartupObjects(s.compiler, s.target))] + [Need(Assemble(use))];
    LeadOfTwo(cfg, t0, StartupObjects(s.compiler, s.target), Assemble(use));
    var rest := Body(cfg, s)[2..];
    assert lead <= Body(cfg, s);
    assert Body(cfg, s) == lead + rest;
    FirstRequestDecides(cfg, t0, s, lead, rest);
  }

  /** The objects that the snapshot's `Std` copies only touch the libdir of their target. */
  lemma ObjectsInOrder(cfg: Config, t: Target, acc: set<Passed>)
    requires InstallsLlvm(cfg, cfg.build)
    ensures var c, k := Snapshot(cfg), OrderContract(cfg, t);
            var objects := ThirdPartyObjects(cfg, c, t) + SelfContainedObjects(c, t);
            Respects(k, acc, objects) && acc + {FirstAsked} <= Known(k, acc, objects)
  {
    var c, k := Snapshot(cfg), OrderContract(cfg, t);
    var a, b := ThirdPartyObjects(cfg, c, t), SelfContainedObjects(c, t);
    ThirdPartyInOrder(cfg, t, acc);
    SelfContainedInOrder(cfg, t, Known(k, acc, a));
    KnownConcat(k, acc, a, b);
  }

  lemma ThirdPartyInOrder(cfg: Config, t: Target, acc: set<Passed>)
    ensures var k := OrderContract(cfg, t);
            Respects(k, acc, ThirdPartyObjects(cfg, Snapshot(cfg), t)) && acc <= Known(k, acc, ThirdPartyObjects(cfg, Snapshot(cfg), t))
  {
    HarmlessOps(OrderContract(cfg, t), acc, ThirdPartyObjects(cfg, Snapshot(cfg), t));
  }

  lemma SelfContainedInOrder(cfg: Config, t: Target, acc: set<Passed>)
    ensures var k := OrderContract(cfg, t);
            Respects(k, acc, SelfContainedObjects(Snapshot(cfg), t)) && acc + {FirstAsked} <= Known(k, acc, SelfContainedObjects(Snapshot(cfg), t))
  {
    var c, k := Snapshot(cfg), OrderContract(cfg, t);
    var ops := SelfContainedObjects(c, t);
    HarmlessOps(k, acc, ops);
    assert Need(Libdir(c, t)) in ops by {
      assert FillLibdir(c, t, SelfContained) <= ops && FillLibdir(c, t, SelfContained)[0] == Need(Libdir(c, t));
    }
    KnownHas(k, acc, ops, Libdir(c, t));
  }

  lemma StdLeadInOrder(cfg: Config, t0: Target, c: Compiler, objects: seq<StepOp>)
    requires c == Snapshot(cfg)
    requires Carries(OrderContract(cfg, t0), {}, objects, {FirstAsked})
    ensures var k := OrderContract(cfg, t0);
            var lead := [Need(StartupObjects(c, t0))] + [Need(Assemble(c))] + objects + [Need(Libdir(c, cfg.build))];
            Respects(k, {}, lead) && ALL <= Known(k, {}, lead)
  {
    var k := OrderContract(cfg, t0);
    var start := [Need(StartupObjects(c, t0))] + [Need(Assemble(c))];
    CarriesNeed(k, {}, StartupObjects(c, t0));
    CarriesNeed(k, {}, Assemble(c));
    CarriesThen(k, {}, [Need(StartupObjects(c, t0))], {}, [Need(Assemble(c))], {});
    CarriesThen(k, {}, start, {}, objects, {FirstAsked});
    CarriesNeed(k, {FirstAsked}, Libdir(c, cfg.build));
    CarriesThen(k, {}, start + objects, {FirstAsked}, [Need(Libdir(c, cfg.build))], ALL);
  }

  lemma SnapshotStdInOrder(cfg: Config, t0: Target, s: Step)
    requires WellFormed(cfg, s) && KeepsNothing(cfg) && InstallsLlvm(cfg, cfg.build)
    requires s.Std? && s.compiler.stage == 0 && s.target == t0
    ensures InOrder(cfg, t0, s)
  {
    var c := s.compiler;
    ShapeInOrder(cfg, t0, s, ThirdPartyObjects(cfg, c, t0) + SelfContainedObjects(c, t0), BuildWithCargo(cfg, c, ForStd, t0, BuildOf(s)));
  }

  lemma ShapeInOrder(cfg: Config, t0: Target, s: Step, objects: seq<StepOp>, cargo: seq<StepOp>)
    requires WellFormed(cfg, s) && KeepsNothing(cfg) && InstallsLlvm(cfg, cfg.build)
    requires s.Std? && s.compiler.stage == 0 && s.target == t0
    requires objects == ThirdPartyObjects(cfg, s.compiler, t0) + SelfContainedObjects(s.compiler, t0)
    requires cargo != [] && cargo[0] == Need(Libdir(s.compiler, cfg.build))
    requires Body(cfg, s) == StdShape(cfg, s.compiler, t0, s.crates, s.forceRecompile, objects, cargo)
    ensures InOrder(cfg, t0, s)
  {
    var c := s.compiler;
    var lead := [Need(StartupObjects(c, t0))] + [Need(Assemble(c))] + objects + [Need(Libdir(c, cfg.build))];
    ObjectsCarry(cfg, t0);
    StdLeadInOrder(cfg, t0, c, objects);
    StdBeginsWith(cfg, s, objects, cargo);
    PrefixDecides(cfg, t0, s, Body(cfg, s), lead);
  }

  lemma ObjectsCarry(cfg: Config, t0: Target)
    requires InstallsLlvm(cfg, cfg.build)
    ensures Carries(OrderContract(cfg, t0), {}, ThirdPartyObjects(cfg, Snapshot(cfg), t0) + SelfContainedObjects(Snapshot(cfg), t0), {FirstAsked})
  {
    ObjectsInOrder(cfg, t0, {});
  }

  lemma PrefixDecides(cfg: Config, t0: Target, s: Step, body: seq<StepOp>, lead: seq<StepOp>)
    requires UsesCargo(cfg, s) && FirstTarget(cfg, s) == t0 && Body(cfg, s) == body && lead <= body
    requires Respects(OrderContract(cfg, t0), {}, lead) && ALL <= Known(OrderContract(cfg, t0), {}, lead)
    ensures InOrder(cfg, t0, s)
  {
    assert body == lead + body[|lead|..];
    FirstRequestDecides(cfg, t0, s, lead, body[|lead|..]);
  }

  lemma StdBeginsWith(cfg: Config, s: Step, objects: seq<StepOp>, cargo: seq<StepOp>)
    requires WellFormed(cfg, s) && KeepsNothing(cfg) && s.Std? && s.compiler.stage == 0
    requires cargo != [] && cargo[0] == Need(Libdir(s.compiler, cfg.build))
    ensures var c, t := s.compiler, s.target;
            [Need(StartupObjects(c, t))] + [Need(Assemble(c))] + objects + [Need(Libdir(c, cfg.build))]
            <= StdShape(cfg, c, t, s.crates, s.forceRecompile, objects, cargo)
  {
    var c, t := s.compiler, s.target;
    var start := [Need(StartupObjects(c, t))] + [Need(Assemble(c))] + objects;
    assert start + [cargo[0]] <= start + cargo;
  }

  lemma CargoInOrder(cfg: Config, t0: Target, s: Step)
    requires WellFormed(cfg, s) && KeepsNothing(cfg) && InstallsLlvm(cfg, cfg.build) && UsesCargo(cfg, s)
    ensures InOrder(cfg, t0, s)
  {
    if FirstTarget(cfg, s) != t0 {
      AllIsEnough(cfg, t0, ALL, Body(cfg, s));
    } else if s.Assemble? {
      AssembleInOrder(cfg, t0, s);
    } else if s.Std? {
      if s.compiler.stage == 0 {
        SnapshotStdInOrder(cfg, t0, s);
      } else {
        LaterStdInOrder(cfg, t0, s);
      }
    } else {
      RequesterInOrder(cfg, t0, s);
    }
  }

  lemma RequesterInOrder(cfg: Config, t0: Target, s: Step)
    requires WellFormed(cfg, s) && UsesCargo(cfg, s) && !s.Assemble? && !s.Std? && FirstTarget(cfg, s) == t0
    ensures InOrder(cfg, t0, s)
  {
    var d :=
      if s.CodegenBackend? || s.DistRustcDev? then Rustc(s.compiler, s.target, [])
      else if s.LldWrapper? then LldWrapperBuild(s.compiler, s.target)
      else Std(s.compiler, s.target, [], false);
    LeadOf(cfg, t0, d);
    assert Body(cfg, s)[0] == Need(d);
    assert Body(cfg, s) == [Need(d)] + Body(cfg, s)[1..];
    FirstRequestDecides(cfg, t0, s, [Need(d)], Body(cfg, s)[1..]);
  }

  lemma OthersInOrder(cfg: Config, t0: Target, s: Step)
    requires WellFormed(cfg, s) && InstallsLlvm(cfg, cfg.build) && !UsesCargo(cfg, s)
    ensures InOrder(cfg, t0, s)
  {
    if ALL <= PreOf(cfg, t0, s) {
      AllIsEnough(cfg, t0, PreOf(cfg, t0, s), Body(cfg, s));
    } else if s.Libdir? {
      LibdirInOrder(cfg, t0, s);
    } else if s.StdLink? || s.RustcLink? {
      LinksInOrder(cfg, t0, s);
    } else {
      SmallInOrder(cfg, t0, s);
    }
  }

  lemma LibdirInOrder(cfg: Config, t0: Target, s: Step)
    requires WellFormed(cfg, s) && InstallsLlvm(cfg, cfg.build) && s.Libdir?
    ensures InOrder(cfg, t0, s)
  {
    var c, t, k := s.compiler, s.target, OrderContract(cfg, t0);
    var p := PreOf(cfg, t0, s);
    var q := p + GivesOf(cfg, t0, WipeLibdir(c, t));
    var a: seq<StepOp> := [Need(Sysroot(c))];
    var b: seq<StepOp> := [Do(WipeLibdir(c, t))];
    CarriesNeed(k, p, Sysroot(c));
    CarriesDo(k, p, WipeLibdir(c, t));
    CarriesThen(k, p, a, p, b, q);
    if c.stage == 0 {
      var r := q + GivesOf(cfg, t0, InstallLlvm(c, t));
      var d: seq<StepOp> := [Do(InstallLlvm(c, t))];
      CarriesNeed(k, q, Sysroot(c));
      CarriesDo(k, q, InstallLlvm(c, t));
      CarriesThen(k, q, a, q, d, r);
      CarriesThen(k, p, a + b, q, a + d, r);
    } else {
      assert a + b + [] == a + b;
    }
  }

  lemma LinksInOrder(cfg: Config, t0: Target, s: Step)
    requires WellFormed(cfg, s) && (s.StdLink? || s.RustcLink?) && s.targetCompiler.stage > 0
    ensures InOrder(cfg, t0, s)
  {
    HarmlessOps(OrderContract(cfg, t0), {}, Body(cfg, s));
  }

  lemma SmallInOrder(cfg: Config, t0: Target, s: Step)
    requires WellFormed(cfg, s) && !UsesCargo(cfg, s) && PreOf(cfg, t0, s) != ALL
    requires !s.Libdir? && !s.StdLink? && !s.RustcLink? && !s.Llvm? && !s.Lld? && !s.Sanitizers?
    ensures InOrder(cfg, t0, s)
  {
    if s.StartupObjects? {
      StartupInOrder(cfg, t0, s);
    } else {
      HarmlessOps(OrderContract(cfg, t0), {}, Body(cfg, s));
    }
  }

  lemma StartupInOrder(cfg: Config, t0: Target, s: Step)
    requires WellFormed(cfg, s) && s.StartupObjects?
    ensures InOrder(cfg, t0, s)
  {
    var c, t, k := s.compiler, s.target, OrderContract(cfg, t0);
    if HasStartupObjects(t) {
      var p := PreOf(cfg, t0, s);
      var q := p + PostOf(cfg, t0, Libdir(c, t));
      CarriesNeed(k, p, Libdir(c, t));
      CarriesDo(k, q, CopyToLibdir(c, t, Startup));
      CarriesThen(k, p, [Need(Libdir(c, t))], q, [Do(CopyToLibdir(c, t, Startup))], q);
    }
  }

  lemma EveryBodyIsInOrder(cfg: Config, t0: Target, s: Step)
    requires WellFormed(cfg, s) && KeepsNothing(cfg) && InstallsLlvm(cfg, cfg.build)
    ensures InOrder(cfg, t0, s)
  {
    if UsesCargo(cfg, s) {
      CargoInOrder(cfg, t0, s);
    } else {
      OthersInOrder(cfg, t0, s);
    }
  }
}
