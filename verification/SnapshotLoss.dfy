/** The snapshot's libLLVM is lost exactly if it comes early. */
module SnapshotLoss {
  import opened Options
  import opened StepEngine
  import opened EngineTrace
  import opened EngineFacts
  import opened StageGraph
  import opened StageContracts
  import opened Layout
  import opened StageRun
  import opened RootParts
  import opened Sysroots
  import opened SnapshotLlvm
  import opened SnapshotOrder

  ghost predicate Setting(cfg: Config, roots: seq<Step>, clock: Clock) {
    Requests(cfg, roots) && Monotone(clock) && KeepsNothing(cfg) && InstallsLlvm(cfg, cfg.build)
  }

  // ---------------------------------------------------------------------------
  // The first root that uses Cargo keeps the order.

  ghost predicate NoneWipes(cfg: Config, roots: seq<Step>) {
    forall s | s in roots :: !Wipes(cfg, s)
  }

  /** As long as no root wipes the libdir, it is not asked for. */
  lemma NotAskedYet(cfg: Config, roots: seq<Step>, t: Target)
    requires Requests(cfg, roots) && NoneWipes(cfg, roots) && Own(cfg, t)
    ensures Libdir(Snapshot(cfg), t) !in ReachAll(cfg, roots)
  {
    if Libdir(Snapshot(cfg), t) in ReachAll(cfg, roots) {
      var s := InReachOfSome(cfg, roots, Libdir(Snapshot(cfg), t));
      SmallAsks(cfg, s, t);
    }
  }

  lemma NoCargoYet(cfg: Config, roots: seq<Step>, x: Step)
    requires Requests(cfg, roots) && KeepsNothing(cfg) && NoneWipes(cfg, roots)
    requires x in ReachAll(cfg, roots)
    ensures !UsesCargo(cfg, x)
  {
    ReachFollows(cfg, roots);
    ReachAllIsClosed(cfg, roots);
    if UsesCargo(cfg, x) {
      CargoReachesSnapshot(cfg, ReachAll(cfg, roots), x);
      NotAskedYet(cfg, roots, cfg.build);
    }
  }

  lemma {:induction false} FactOfEvent(cfg: Config, t0: Target, log: Log, i: nat, f: Passed)
    requires i < |log| && log[i].Did? && f in GivesOf(cfg, t0, log[i].effect)
    ensures f in Facts(OrderContract(cfg, t0), log)
    decreases |log|
  {
    var n := |log| - 1;
    if i < n {
      FactOfEvent(cfg, t0, log[..n], i, f);
    }
  }

  /** Before the first root that wipes the libdir, the steps that ran have kept the order. */
  lemma OrderKeptSoFar(cfg: Config, roots: seq<Step>, clock: Clock, m: nat, t0: Target)
    requires Setting(cfg, roots, clock) && m <= |roots| && NoneWipes(cfg, roots[..m])
    ensures Kept(OrderContract(cfg, t0), Start(cfg, roots, clock, m), After(cfg, roots, clock, m))
  {
    var st, k := After(cfg, roots, clock, m), OrderContract(cfg, t0);
    PrefixEnds(cfg, roots, clock, m);
    forall x | x in st.cache
      ensures k.post(x) <= Facts(k, st.log)
    {
      NoCargoYet(cfg, roots[..m], x);
      PostIsKept(cfg, st, roots[..m], t0, x);
    }
  }

  lemma PostIsKept(cfg: Config, st: State<Step, Output, Effect>, roots: seq<Step>, t0: Target, x: Step)
    requires Ended(cfg, st) && Requests(cfg, roots) && NoneWipes(cfg, roots) && st.cache.Keys == ReachAll(cfg, roots)
    requires InstallsLlvm(cfg, cfg.build) && x in st.cache && !UsesCargo(cfg, x)
    ensures PostOf(cfg, t0, x) <= Facts(OrderContract(cfg, t0), st.log)
  {
    NotAskedYet(cfg, roots, cfg.build);
    if AsksDirectly(x).Some? {
      DirectAskReachesSnapshot(cfg, st.cache.Keys, x);
    }
    PostOfDirectAsk(cfg, t0, x);
    if AsksDirectly(x) == Some(t0) {
      FirstWasAsked(cfg, st, t0);
    }
  }

  lemma PostOfDirectAsk(cfg: Config, t0: Target, x: Step)
    requires !UsesCargo(cfg, x) && AsksDirectly(x) != Some(cfg.build)
    ensures PostOf(cfg, t0, x) <= if AsksDirectly(x) == Some(t0) then {FirstAsked} else {}
  {
  }

  lemma FirstWasAsked(cfg: Config, st: State<Step, Output, Effect>, t0: Target)
    requires Ended(cfg, st) && InstallsLlvm(cfg, cfg.build) && Libdir(Snapshot(cfg), t0) in st.cache
    ensures FirstAsked in Facts(OrderContract(cfg, t0), st.log)
  {
    var i := LibdirInstallsLlvmLast(cfg, st, t0);
    FactOfEvent(cfg, t0, st.log, i, FirstAsked);
  }

  lemma OrderIsKept(cfg: Config, roots: seq<Step>, clock: Clock, m: nat)
    requires Setting(cfg, roots, clock) && m < |roots| && NoneWipes(cfg, roots[..m]) && UsesCargo(cfg, roots[m])
    ensures Justified(OrderContract(cfg, FirstTarget(cfg, roots[m])), Start(cfg, roots, clock, m), After(cfg, roots, clock, m + 1).log)
  {
    var t0 := FirstTarget(cfg, roots[m]);
    var r, k := StageRules(cfg, roots, clock), OrderContract(cfg, t0);
    OneRootMore(cfg, roots, clock, m);
    OrderKeptSoFar(cfg, roots, clock, m, t0);
    StageRulesAreRules(cfg, roots, clock);
    AllInOrder(cfg, r, t0);
    EnsureKeepsFacts(r, k, Start(cfg, roots, clock, m), After(cfg, roots, clock, m), roots[m]);
  }

  lemma AllInOrder(cfg: Config, r: Rules<Step, Output, Effect>, t0: Target)
    requires RulesOf(cfg, r) && KeepsNothing(cfg) && InstallsLlvm(cfg, cfg.build)
    ensures AllRespect(r, OrderContract(cfg, t0))
  {
    forall s | s in r.universe
      ensures BodyRespects(OrderContract(cfg, t0), s, r.body(s))
    {
      EveryBodyIsInOrder(cfg, t0, s);
    }
  }

  /** Within that root, whatever relies on a mark comes after it. */
  lemma MarkComesFirst(cfg: Config, roots: seq<Step>, clock: Clock, m: nat, i: nat, f: Passed) returns (q: nat)
    requires Setting(cfg, roots, clock) && Adds(cfg, roots, clock, m, i)
    requires NoneWipes(cfg, roots[..m]) && UsesCargo(cfg, roots[m])
    requires f in NeedsOf(cfg, FirstTarget(cfg, roots[m]), RunLog(cfg, roots, clock)[i].effect)
    ensures var log := RunLog(cfg, roots, clock);
            q < i && log[q].Did? && f in GivesOf(cfg, FirstTarget(cfg, roots[m]), log[q].effect)
  {
    OrderIsKept(cfg, roots, clock, m);
    StartsGrow(cfg, roots, clock, m, m + 1);
    q := MarkInPart(cfg, FirstTarget(cfg, roots[m]), RunLog(cfg, roots, clock), Start(cfg, roots, clock, m + 1),
                    Start(cfg, roots, clock, m), i, f);
  }

  lemma MarkInPart(cfg: Config, t0: Target, log: Log, n: nat, start: nat, i: nat, f: Passed) returns (q: nat)
    requires n <= |log| && Justified(OrderContract(cfg, t0), start, log[..n])
    requires start <= i < n && log[i].Did? && f in NeedsOf(cfg, t0, log[i].effect)
    ensures q < i && log[q].Did? && f in GivesOf(cfg, t0, log[q].effect)
  {
    var k, part := OrderContract(cfg, t0), log[..n];
    assert part[i] == log[i] && part[..i] == log[..i];
    assert k.needs(part[i].effect) == NeedsOf(cfg, t0, log[i].effect);
    q := FactPlace(k, log[..i], f);
    assert log[..i][q] == log[q];
  }

  // ---------------------------------------------------------------------------
  // If libLLVM is lost, it came early.

  /** Without twins, only one libdir of the snapshot can hold its libLLVM. */
  lemma OneOwnLibdir(cfg: Config, u: set<Step>, t: Target, t': Target)
    requires !Twins(cfg, u) && Libdir(Snapshot(cfg), t) in u && Libdir(Snapshot(cfg), t') in u
    requires t.triple == t'.triple
    ensures t == t'
  {
    if t != t' {
      assert AreTwins(cfg, Libdir(Snapshot(cfg), t), Libdir(Snapshot(cfg), t'));
    }
  }

  lemma ReachAllContains(cfg: Config, roots: seq<Step>, m: nat)
    requires forall s | s in roots :: WellFormed(cfg, s)
    requires m <= |roots|
    ensures ReachAll(cfg, roots[..m]) <= ReachAll(cfg, roots)
    ensures m < |roots| ==> Reach(cfg, roots[m]) <= ReachAll(cfg, roots)
  {
    ReachFollows(cfg, roots);
    ReachAllIsCached(cfg, ReachAll(cfg, roots), roots[..m]);
    if m < |roots| {
      ReachIsCached(cfg, ReachAll(cfg, roots), roots[m]);
    }
  }

  /** A step that wipes the libdir reaches it. */
  lemma WiperReaches(cfg: Config, u: set<Step>, s: Step) returns (t: Target)
    requires KeepsNothing(cfg) && Follows(cfg, u) && s in u && WellFormed(cfg, s) && Wipes(cfg, s)
    ensures Libdir(Snapshot(cfg), t) in u && Own(cfg, t)
    ensures t == if UsesCargo(cfg, s) then cfg.build else AsksDirectly(s).value
  {
    if UsesCargo(cfg, s) {
      CargoReachesSnapshot(cfg, u, s);
      t := cfg.build;
    } else {
      DirectAskReachesSnapshot(cfg, u, s);
      t := AsksDirectly(s).value;
    }
  }

  /** The wipe at `j` of the libdir that holds libLLVM, and an earlier installation at `i`. */
  ghost predicate Lost(cfg: Config, roots: seq<Step>, clock: Clock, i: nat, j: nat, t: Target)
    requires Requests(cfg, roots)
  {
    var log := RunLog(cfg, roots, clock);
    && i < j < |log| && Copies(cfg, log, i) && Own(cfg, t)
    && log[i].effect.InstallLlvm? && log[i].effect.compiler == Snapshot(cfg)
    && log[j] == Did(Libdir(Snapshot(cfg), t), WipeLibdir(Snapshot(cfg), t))
    && Libdir(Snapshot(cfg), t) in ReachAll(cfg, roots)
  }

  /** No root before the installation wipes the libdir. */
  lemma NoneWipedBefore(cfg: Config, roots: seq<Step>, clock: Clock, i: nat, j: nat, t: Target, m: nat)
    requires Setting(cfg, roots, clock) && !Twins(cfg, ReachAll(cfg, roots))
    requires Lost(cfg, roots, clock, i, j, t) && Adds(cfg, roots, clock, m, i)
    ensures NoneWipes(cfg, roots[..m])
  {
    var early := roots[..m];
    forall s | s in early
      ensures !Wipes(cfg, s)
    {
      if Wipes(cfg, s) {
        ReachFollows(cfg, early);
        var t' := WiperReaches(cfg, ReachAll(cfg, early), s);
        ReachAllContains(cfg, roots, m);
        OneOwnLibdir(cfg, ReachAll(cfg, roots), t, t');
        ComesAfter(cfg, roots, clock, m, j);
      }
    }
  }

  lemma WiperAtOrAfter(cfg: Config, roots: seq<Step>, clock: Clock, i: nat, j: nat, t: Target, m: nat)
    requires Setting(cfg, roots, clock)
    requires Lost(cfg, roots, clock, i, j, t) && Adds(cfg, roots, clock, m, i)
    ensures exists s :: s in roots[m..] && Wipes(cfg, s)
  {
    var n := RootOf(cfg, roots, clock, j);
    if n < m {
      StartsGrow(cfg, roots, clock, n + 1, m);
    }
    var s := roots[n];
    assert s in roots[m..] by {
      assert roots[m..][n - m] == s;
    }
    if !UsesCargo(cfg, s) {
      SmallAsks(cfg, s, t);
    }
  }

  /** Who installs libLLVM in the snapshot's sysroot. */
  lemma Installer(cfg: Config, roots: seq<Step>, clock: Clock, i: nat)
    requires Requests(cfg, roots) && Monotone(clock)
    requires var log := RunLog(cfg, roots, clock);
             i < |log| && log[i].Did? && log[i].effect.InstallLlvm? && log[i].effect.compiler == Snapshot(cfg)
    ensures var e := RunLog(cfg, roots, clock)[i];
            e.who == Libdir(Snapshot(cfg), e.effect.libdir) || (e.who == Sysroot(Snapshot(cfg)) && e.effect.libdir == cfg.build)
    ensures RunLog(cfg, roots, clock)[i].who in ReachAll(cfg, roots)
  {
    EveryRunFinishes(cfg, roots, clock);
    EventsAreOwned(cfg, Run(cfg, roots, clock).1, i);
  }

  lemma LlvmBuilder(cfg: Config, roots: seq<Step>, clock: Clock, q: nat)
    requires Requests(cfg, roots) && Monotone(clock)
    requires BuiltLlvm(RunLog(cfg, roots, clock), cfg.build, q)
    ensures var e := RunLog(cfg, roots, clock)[q];
            e.who == Llvm(e.effect.target) && !HasLlvm(cfg, e.effect.target) && Own(cfg, e.effect.target)
  {
    EveryRunFinishes(cfg, roots, clock);
    EventsAreOwned(cfg, Run(cfg, roots, clock).1, q);
  }

  /** A mark of the host's libdir before the installation contradicts the loss. */
  lemma WipeIsLater(cfg: Config, roots: seq<Step>, clock: Clock, i: nat, j: nat, t: Target, q: nat)
    requires Setting(cfg, roots, clock) && !Twins(cfg, ReachAll(cfg, roots))
    requires Lost(cfg, roots, clock, i, j, t) && Libdir(Snapshot(cfg), cfg.build) in ReachAll(cfg, roots)
    requires q <= i && RunLog(cfg, roots, clock)[q].Did?
    ensures RunLog(cfg, roots, clock)[q].effect != WipeLibdir(Snapshot(cfg), cfg.build)
  {
    EveryRunFinishes(cfg, roots, clock);
    OneOwnLibdir(cfg, ReachAll(cfg, roots), t, cfg.build);
    WipesHappenOnce(cfg, Run(cfg, roots, clock).1, q, j);
  }

  /** LLVM was ready before the root that installs it. */
  lemma ReadyBefore(cfg: Config, roots: seq<Step>, clock: Clock, i: nat, j: nat, t: Target, m: nat)
    requires Setting(cfg, roots, clock) && !Twins(cfg, ReachAll(cfg, roots))
    requires Lost(cfg, roots, clock, i, j, t) && Adds(cfg, roots, clock, m, i) && NoneWipes(cfg, roots[..m])
    ensures ReadyAfter(cfg, roots[..m])
  {
    var log := RunLog(cfg, roots, clock);
    if !HasLibLlvm(cfg, cfg.build) {
      var q: nat :| BuiltLlvm(log[..i], cfg.build, q);
      assert BuiltLlvm(log, cfg.build, q);
      LlvmBuilder(cfg, roots, clock, q);
      var p := RootOf(cfg, roots, clock, q);
      BuiltBefore(cfg, roots, clock, i, j, t, m, q, p);
      assert roots[p] == roots[..m][p] && roots[p] in roots[..m];
      SmallBuilds(cfg, roots[p], log[q].effect.target);
    }
  }

  lemma BuiltBefore(cfg: Config, roots: seq<Step>, clock: Clock, i: nat, j: nat, t: Target, m: nat, q: nat, p: nat)
    requires Setting(cfg, roots, clock) && !Twins(cfg, ReachAll(cfg, roots))
    requires Lost(cfg, roots, clock, i, j, t) && Adds(cfg, roots, clock, m, i) && NoneWipes(cfg, roots[..m])
    requires q < i && BuiltLlvm(RunLog(cfg, roots, clock), cfg.build, q) && Adds(cfg, roots, clock, p, q)
    ensures p < m
  {
    if m < p {
      StartsGrow(cfg, roots, clock, m + 1, p);
    } else if m == p {
      if UsesCargo(cfg, roots[m]) {
        CargoBuildsLater(cfg, roots, clock, i, j, t, m, q);
      } else {
        SmallRootDoesNotBoth(cfg, roots, clock, m, i, q);
      }
    }
  }

  lemma CargoBuildsLater(cfg: Config, roots: seq<Step>, clock: Clock, i: nat, j: nat, t: Target, m: nat, q: nat)
    requires Setting(cfg, roots, clock) && !Twins(cfg, ReachAll(cfg, roots))
    requires Lost(cfg, roots, clock, i, j, t)
    requires Adds(cfg, roots, clock, m, q) && NoneWipes(cfg, roots[..m]) && UsesCargo(cfg, roots[m])
    requires BuiltLlvm(RunLog(cfg, roots, clock), cfg.build, q)
    ensures i < q
  {
    var z := MarkComesFirst(cfg, roots, clock, m, q, HostWiped);
    CargoRootReachesHost(cfg, roots, m);
    if q <= i {
      WipeIsLater(cfg, roots, clock, i, j, t, z);
    }
  }

  /** A root without Cargo does not both build LLVM and use the snapshot's sysroot. */
  lemma SmallRootDoesNotBoth(cfg: Config, roots: seq<Step>, clock: Clock, m: nat, i: nat, q: nat)
    requires Setting(cfg, roots, clock) && m < |roots| && !UsesCargo(cfg, roots[m])
    requires Adds(cfg, roots, clock, m, q) && BuiltLlvm(RunLog(cfg, roots, clock), cfg.build, q)
    requires i < |RunLog(cfg, roots, clock)| && RunLog(cfg, roots, clock)[i].Did?
    requires var e := RunLog(cfg, roots, clock)[i].effect; e.InstallLlvm? && e.compiler == Snapshot(cfg)
    ensures !Adds(cfg, roots, clock, m, i)
  {
    LlvmBuilder(cfg, roots, clock, q);
    Installer(cfg, roots, clock, i);
    BuilderLeavesSnapshotAlone(cfg, roots[m], RunLog(cfg, roots, clock)[q].effect.target, RunLog(cfg, roots, clock)[i].who);
  }

  lemma BuilderLeavesSnapshotAlone(cfg: Config, s: Step, t: Target, x: Step)
    requires Requestable(cfg, s) && !UsesCargo(cfg, s)
    requires Llvm(t) in Reach(cfg, s) && Own(cfg, t) && !HasLlvm(cfg, t) && UsesSnapshot(cfg, x)
    ensures x !in Reach(cfg, s)
  {
    SmallBuilds(cfg, s, t);
    if x in Reach(cfg, s) {
      TraitsGoUp(cfg, s, x);
    }
  }

  lemma CargoRootReachesHost(cfg: Config, roots: seq<Step>, m: nat)
    requires Requests(cfg, roots) && KeepsNothing(cfg) && m < |roots| && UsesCargo(cfg, roots[m])
    ensures Libdir(Snapshot(cfg), cfg.build) in ReachAll(cfg, roots)
  {
    ReachFollows(cfg, roots);
    CargoReachesSnapshot(cfg, ReachAll(cfg, roots), roots[m]);
  }

  /** Nobody installs it before wiping the libdir itself. */
  lemma NotByItsOwnLibdir(cfg: Config, roots: seq<Step>, clock: Clock, i: nat, j: nat, t: Target)
    requires Setting(cfg, roots, clock) && Lost(cfg, roots, clock, i, j, t)
    ensures RunLog(cfg, roots, clock)[i].who != Libdir(Snapshot(cfg), t)
  {
    EveryRunFinishes(cfg, roots, clock);
    var end := Run(cfg, roots, clock).1;
    var s := Libdir(Snapshot(cfg), t);
    if end.log[i].who == s {
      Installer(cfg, roots, clock, i);
      var k := LibdirInstallsLlvmLast(cfg, end, t);
      RepeatedEffect(end.log, s, InstallLlvm(Snapshot(cfg), t), i, k);
      LibdirEffects(cfg, Snapshot(cfg), t);
      CountOfTwo(WipeLibdir(Snapshot(cfg), t), InstallLlvm(Snapshot(cfg), t));
    }
  }

  lemma CountOfTwo(a: Effect, b: Effect)
    requires a != b
    ensures Count([a] + [b], b) == 1
  {
    CountLast([a], b, b);
    CountIsPositive([a], b);
  }

  /** The root that makes the run install it does so by creating the sysroot or by asking for a new libdir. */
  lemma InstallsByAsking(cfg: Config, roots: seq<Step>, clock: Clock, i: nat, j: nat, t: Target, m: nat)
    requires Setting(cfg, roots, clock) && !Twins(cfg, ReachAll(cfg, roots))
    requires Lost(cfg, roots, clock, i, j, t) && Adds(cfg, roots, clock, m, i) && NoneWipes(cfg, roots[..m])
    ensures (UsesSnapshot(cfg, roots[m]) && forall s | s in roots[..m] :: !UsesSnapshot(cfg, s)) || AsksFirst(cfg, roots, m)
  {
    Installer(cfg, roots, clock, i);
    NotByItsOwnLibdir(cfg, roots, clock, i, j, t);
    if RunLog(cfg, roots, clock)[i].who == Sysroot(Snapshot(cfg)) {
      SysrootIsNew(cfg, roots, m);
    } else {
      InstallsForFirstTarget(cfg, roots, clock, i, j, t, m);
    }
  }

  lemma SysrootIsNew(cfg: Config, roots: seq<Step>, m: nat)
    requires Requests(cfg, roots) && KeepsNothing(cfg) && m < |roots|
    requires Sysroot(Snapshot(cfg)) in Reach(cfg, roots[m]) && Sysroot(Snapshot(cfg)) !in ReachAll(cfg, roots[..m])
    ensures UsesSnapshot(cfg, roots[m]) && forall s | s in roots[..m] :: !UsesSnapshot(cfg, s)
  {
    TraitsGoUp(cfg, roots[m], Sysroot(Snapshot(cfg)));
    NoSnapshotYet(cfg, roots[..m]);
  }

  lemma NoSnapshotYet(cfg: Config, roots: seq<Step>)
    requires Requests(cfg, roots) && KeepsNothing(cfg) && Sysroot(Snapshot(cfg)) !in ReachAll(cfg, roots)
    ensures forall s | s in roots :: !UsesSnapshot(cfg, s)
  {
    ReachFollows(cfg, roots);
    forall s | s in roots
      ensures !UsesSnapshot(cfg, s)
    {
      if UsesSnapshot(cfg, s) {
        RootReachesSysroot(cfg, ReachAll(cfg, roots), s);
      }
    }
  }

  lemma InstallsForFirstTarget(cfg: Config, roots: seq<Step>, clock: Clock, i: nat, j: nat, t: Target, m: nat)
    requires Setting(cfg, roots, clock) && !Twins(cfg, ReachAll(cfg, roots))
    requires Lost(cfg, roots, clock, i, j, t) && Adds(cfg, roots, clock, m, i) && NoneWipes(cfg, roots[..m])
    requires var e := RunLog(cfg, roots, clock)[i];
             e.who == Libdir(Snapshot(cfg), e.effect.libdir) && e.effect.libdir != t
    ensures AsksFirst(cfg, roots, m)
  {
    var e := RunLog(cfg, roots, clock)[i];
    var u := e.effect.libdir;
    Installer(cfg, roots, clock, i);
    if Own(cfg, u) {
      OneOwnLibdir(cfg, ReachAll(cfg, roots), t, u);
    }
    if UsesCargo(cfg, roots[m]) {
      if u != FirstTarget(cfg, roots[m]) {
        var z := MarkComesFirst(cfg, roots, clock, m, i, HostWiped);
        CargoRootReachesHost(cfg, roots, m);
        WipeIsLater(cfg, roots, clock, i, j, t, z);
      }
    } else {
      SmallAsks(cfg, roots[m], u);
    }
    forall s | s in roots[..m]
      ensures Asks(cfg, s) != Some(u)
    {
      if Asks(cfg, s) == Some(u) {
        ReachFollows(cfg, roots[..m]);
        DirectAskReachesSnapshot(cfg, ReachAll(cfg, roots[..m]), s);
      }
    }
  }

  lemma LostMeansEarly(cfg: Config, roots: seq<Step>, clock: Clock, i: nat, j: nat, t: Target)
    requires Setting(cfg, roots, clock) && !Twins(cfg, ReachAll(cfg, roots))
    requires Lost(cfg, roots, clock, i, j, t)
    ensures exists m: nat :: EarlyAt(cfg, roots, m)
  {
    var m := RootOf(cfg, roots, clock, i);
    NoneWipedBefore(cfg, roots, clock, i, j, t, m);
    WiperAtOrAfter(cfg, roots, clock, i, j, t, m);
    ReadyBefore(cfg, roots, clock, i, j, t, m);
    InstallsByAsking(cfg, roots, clock, i, j, t, m);
    assert EarlyAt(cfg, roots, m);
  }

  // ---------------------------------------------------------------------------
  // If it comes early, it is lost.

  /** Once the roots before `m` have made LLVM ready, later installations take place. */
  lemma LaterInstallsCopy(cfg: Config, roots: seq<Step>, clock: Clock, m: nat, i: nat)
    requires Setting(cfg, roots, clock) && m <= |roots| && ReadyAfter(cfg, roots[..m])
    requires i < |RunLog(cfg, roots, clock)| && Start(cfg, roots, clock, m) <= i
    requires RunLog(cfg, roots, clock)[i].Did? && RunLog(cfg, roots, clock)[i].effect.InstallLlvm?
    requires RunLog(cfg, roots, clock)[i].effect.compiler == Snapshot(cfg)
    ensures Copies(cfg, RunLog(cfg, roots, clock), i)
  {
    var log, st := RunLog(cfg, roots, clock), After(cfg, roots, clock, m);
    if !HasLibLlvm(cfg, cfg.build) {
      var s :| s in roots[..m] && BuildsLlvm(cfg, s);
      ReachFollows(cfg, roots[..m]);
      var t := BuilderReachesLlvm(cfg, ReachAll(cfg, roots[..m]), s);
      PrefixEnds(cfg, roots, clock, m);
      var q := LlvmIsBuilt(cfg, st, t);
      StartsGrow(cfg, roots, clock, m, m);
      assert log[..i][q] == st.log[q];
      assert BuiltLlvm(log[..i], cfg.build, q);
    }
  }

  lemma LlvmIsBuilt(cfg: Config, st: State<Step, Output, Effect>, t: Target) returns (q: nat)
    requires Ended(cfg, st) && Llvm(t) in st.cache && !HasLlvm(cfg, t)
    ensures q < |st.log| && st.log[q] == Did(Llvm(t), BuildLlvm(t))
  {
    assert Do(BuildLlvm(t)) in Body(cfg, Llvm(t));
    BodyHasEffect(Body(cfg, Llvm(t)), BuildLlvm(t));
    q := EffectPlace(st.log, Llvm(t), BuildLlvm(t));
  }

  /** An installation at or after `m` that comes before a wipe of the libdir is lost. */
  lemma InstallThenWipe(cfg: Config, roots: seq<Step>, clock: Clock, m: nat, i: nat, j: nat)
    requires Setting(cfg, roots, clock) && m <= |roots| && ReadyAfter(cfg, roots[..m]) && cfg.initialLibdir == ["lib"]
    requires Start(cfg, roots, clock, m) <= i < j < |RunLog(cfg, roots, clock)|
    requires var log := RunLog(cfg, roots, clock);
             && log[i].Did? && log[i].effect.InstallLlvm? && log[i].effect.compiler == Snapshot(cfg)
             && log[j].Did? && log[j].effect.WipeLibdir? && log[j].effect.compiler == Snapshot(cfg) && Own(cfg, log[j].effect.target)
    ensures LosesArtifacts(cfg, RunLog(cfg, roots, clock), i, j)
  {
    LaterInstallsCopy(cfg, roots, clock, m, i);
    WipeUndoesInstall(cfg, RunLog(cfg, roots, clock)[i].effect, RunLog(cfg, roots, clock)[j].effect);
  }

  lemma WipeUndoesInstall(cfg: Config, e: Effect, w: Effect)
    requires cfg.initialLibdir == ["lib"] && e.InstallLlvm? && e.compiler == Snapshot(cfg)
    requires w.WipeLibdir? && w.compiler == Snapshot(cfg) && Own(cfg, w.target)
    ensures Undoes(cfg, w, e)
  {
    LibdirsDiffer(cfg, Snapshot(cfg), w.target, Snapshot(cfg), cfg.build);
    assert LlvmPath(Snapshot(cfg)) in Destinations(cfg, e) && WipePath(cfg, w) <= LlvmPath(Snapshot(cfg));
  }

  /** The libdir is wiped by the first root that does so, which is none before `m`. */
  lemma WipeToCome(cfg: Config, roots: seq<Step>, clock: Clock, m: nat, s: Step) returns (j: nat)
    requires Setting(cfg, roots, clock) && m <= |roots| && NoneWipes(cfg, roots[..m]) && s in roots && Wipes(cfg, s)
    ensures Start(cfg, roots, clock, m) <= j < |RunLog(cfg, roots, clock)|
    ensures var t := if UsesCargo(cfg, s) then cfg.build else AsksDirectly(s).value;
            Own(cfg, t) && RunLog(cfg, roots, clock)[j] == Did(Libdir(Snapshot(cfg), t), WipeLibdir(Snapshot(cfg), t))
  {
    EveryRunFinishes(cfg, roots, clock);
    ReachFollows(cfg, roots);
    var t := WiperReaches(cfg, ReachAll(cfg, roots), s);
    j := WipePlace(cfg, Run(cfg, roots, clock).1, Libdir(Snapshot(cfg), t));
    NotAskedYet(cfg, roots[..m], t);
    ComesAfter(cfg, roots, clock, m, j);
  }

  /** A root creates the snapshot's sysroot: LLVM is installed there before its libdir is wiped. */
  lemma NewSysrootLoses(cfg: Config, roots: seq<Step>, clock: Clock, m: nat) returns (i: nat, j: nat)
    requires Setting(cfg, roots, clock) && cfg.initialLibdir == ["lib"] && EarlyAt(cfg, roots, m)
    requires forall s | s in roots[..m] :: !UsesSnapshot(cfg, s)
    ensures LosesArtifacts(cfg, RunLog(cfg, roots, clock), i, j)
  {
    var s :| s in roots[m..] && Wipes(cfg, s);
    j := WipeToCome(cfg, roots, clock, m, s);
    i := InstallBefore(cfg, roots, clock, j);
    NewInSnapshot(cfg, roots, clock, m, i);
    InstallThenWipe(cfg, roots, clock, m, i, j);
  }

  lemma InstallBefore(cfg: Config, roots: seq<Step>, clock: Clock, j: nat) returns (i: nat)
    requires Setting(cfg, roots, clock)
    requires var log := RunLog(cfg, roots, clock);
             j < |log| && log[j].Did? && log[j].effect.WipeLibdir? && log[j].effect.compiler == Snapshot(cfg)
    ensures var log := RunLog(cfg, roots, clock);
            i < j && log[i].Did? && log[i].effect.InstallLlvm? && log[i].effect.compiler == Snapshot(cfg)
  {
    EveryRunFinishes(cfg, roots, clock);
    i := InstallPrecedesWipe(cfg, Run(cfg, roots, clock).1, j);
  }

  /** If no root before `m` uses the snapshot, nothing was installed there by then. */
  lemma NewInSnapshot(cfg: Config, roots: seq<Step>, clock: Clock, m: nat, i: nat)
    requires Setting(cfg, roots, clock) && m <= |roots|
    requires forall s | s in roots[..m] :: !UsesSnapshot(cfg, s)
    requires var log := RunLog(cfg, roots, clock);
             i < |log| && log[i].Did? && log[i].effect.InstallLlvm? && log[i].effect.compiler == Snapshot(cfg)
    ensures Start(cfg, roots, clock, m) <= i
  {
    Installer(cfg, roots, clock, i);
    var x := RunLog(cfg, roots, clock)[i].who;
    if x in ReachAll(cfg, roots[..m]) {
      var y := TraitsComeFromRoots(cfg, roots[..m], x);
    }
    ComesAfter(cfg, roots, clock, m, i);
  }

  /** A root asks for a new libdir: LLVM is installed with it before its own libdir is wiped. */
  lemma NewLibdirLoses(cfg: Config, roots: seq<Step>, clock: Clock, m: nat) returns (i: nat, j: nat)
    requires Setting(cfg, roots, clock) && cfg.initialLibdir == ["lib"] && EarlyAt(cfg, roots, m) && AsksFirst(cfg, roots, m)
    ensures LosesArtifacts(cfg, RunLog(cfg, roots, clock), i, j)
  {
    var t := Asks(cfg, roots[m]).value;
    NewLibdir(cfg, roots, m, t);
    if Wipes(cfg, roots[m]) {
      i, j := FirstThenHost(cfg, roots, clock, m, t);
    } else {
      var s :| s in roots[m..] && Wipes(cfg, s);
      assert NoneWipes(cfg, roots[..m + 1]);
      j := WipeToCome(cfg, roots, clock, m + 1, s);
      i := DirectInstall(cfg, roots, clock, m, t);
    }
    InstallThenWipe(cfg, roots, clock, m, i, j);
  }

  lemma FirstThenHost(cfg: Config, roots: seq<Step>, clock: Clock, m: nat, t: Target) returns (i: nat, j: nat)
    requires Setting(cfg, roots, clock) && m < |roots| && NoneWipes(cfg, roots[..m])
    requires UsesCargo(cfg, roots[m]) && FirstTarget(cfg, roots[m]) == t && !Own(cfg, t)
    requires Libdir(Snapshot(cfg), t) !in ReachAll(cfg, roots[..m])
    ensures Start(cfg, roots, clock, m) <= i < j < |RunLog(cfg, roots, clock)|
    ensures var log := RunLog(cfg, roots, clock);
            && log[i].Did? && log[i].effect == InstallLlvm(Snapshot(cfg), t)
            && log[j].Did? && log[j].effect == WipeLibdir(Snapshot(cfg), cfg.build)
  {
    j := WipeToCome(cfg, roots, clock, m, roots[m]);
    HostWipeIsAdded(cfg, roots, clock, m, j);
    i := MarkComesFirst(cfg, roots, clock, m, j, FirstAsked);
    Installer(cfg, roots, clock, i);
    ComesAfter(cfg, roots, clock, m, i);
  }

  lemma NewLibdir(cfg: Config, roots: seq<Step>, m: nat, t: Target)
    requires Requests(cfg, roots) && m < |roots| && NoneWipes(cfg, roots[..m]) && AsksFirst(cfg, roots, m)
    requires t == Asks(cfg, roots[m]).value
    ensures Libdir(Snapshot(cfg), t) !in ReachAll(cfg, roots[..m])
  {
    if Libdir(Snapshot(cfg), t) in ReachAll(cfg, roots[..m]) {
      var s := InReachOfSome(cfg, roots[..m], Libdir(Snapshot(cfg), t));
      SmallAsks(cfg, s, t);
    }
  }

  lemma HostWipeIsAdded(cfg: Config, roots: seq<Step>, clock: Clock, m: nat, j: nat)
    requires Setting(cfg, roots, clock) && m < |roots| && UsesCargo(cfg, roots[m]) && NoneWipes(cfg, roots[..m])
    requires j < |RunLog(cfg, roots, clock)|
    requires RunLog(cfg, roots, clock)[j] == Did(Libdir(Snapshot(cfg), cfg.build), WipeLibdir(Snapshot(cfg), cfg.build))
    ensures Adds(cfg, roots, clock, m, j)
  {
    var x := Libdir(Snapshot(cfg), cfg.build);
    ReachIsClosed(cfg, roots[m]);
    var u := Reach(cfg, roots[m]);
    forall y, d | y in u && Need(d) in Body(cfg, y)
      ensures d in u
    {
      assert OpsIn(u, Body(cfg, y));
    }
    CargoReachesSnapshot(cfg, u, roots[m]);
    NotAskedYet(cfg, roots[..m], cfg.build);
    ReachAllGrows(cfg, roots, m);
    ComesAfter(cfg, roots, clock, m, j);
    ComesAfter(cfg, roots, clock, m + 1, j);
  }

  lemma DirectInstall(cfg: Config, roots: seq<Step>, clock: Clock, m: nat, t: Target) returns (i: nat)
    requires Setting(cfg, roots, clock) && m < |roots| && !UsesCargo(cfg, roots[m]) && AsksDirectly(roots[m]) == Some(t)
    requires Libdir(Snapshot(cfg), t) !in ReachAll(cfg, roots[..m])
    ensures Start(cfg, roots, clock, m) <= i < Start(cfg, roots, clock, m + 1) && i < |RunLog(cfg, roots, clock)|
    ensures RunLog(cfg, roots, clock)[i] == Did(Libdir(Snapshot(cfg), t), InstallLlvm(Snapshot(cfg), t))
  {
    var early := roots[..m + 1];
    assert early[m] == roots[m] && roots[m] in early;
    ReachFollows(cfg, early);
    DirectAskReachesSnapshot(cfg, ReachAll(cfg, early), roots[m]);
    ReachAllContains(cfg, roots, m + 1);
    EveryRunFinishes(cfg, roots, clock);
    i := LibdirInstallsLlvmLast(cfg, Run(cfg, roots, clock).1, t);
    ComesAfter(cfg, roots, clock, m, i);
    ComesAfter(cfg, roots, clock, m + 1, i);
  }

  // ---------------------------------------------------------------------------

  /** Without twins, something is lost exactly when libLLVM comes early. */
  lemma LlvmIsLostIffEarly(cfg: Config, roots: seq<Step>, clock: Clock)
    requires Requests(cfg, roots) && Monotone(clock) && KeepsNothing(cfg) && !Twins(cfg, ReachAll(cfg, roots))
    ensures SomeArtifactIsLost(cfg, RunLog(cfg, roots, clock)) <==> LlvmComesEarly(cfg, roots)
  {
    EveryRunFinishes(cfg, roots, clock);
    var end := Run(cfg, roots, clock).1;
    if SomeArtifactIsLost(cfg, end.log) {
      var i: nat, j: nat :| LosesArtifacts(cfg, end.log, i, j);
      WipedAgainIffTwins(cfg, end);
      LostArtifacts(cfg, end, i, j);
      LostLlvm(cfg, end, i, j);
      assert Lost(cfg, roots, clock, i, j, end.log[j].effect.target);
      LostMeansEarly(cfg, roots, clock, i, j, end.log[j].effect.target);
    }
    if LlvmComesEarly(cfg, roots) {
      var m: nat :| EarlyAt(cfg, roots, m);
      if AsksFirst(cfg, roots, m) {
        var i, j := NewLibdirLoses(cfg, roots, clock, m);
      } else {
        var i, j := NewSysrootLoses(cfg, roots, clock, m);
      }
    }
  }
}
