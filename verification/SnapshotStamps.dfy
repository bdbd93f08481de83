/** When a stamp of the snapshot compiler is cleared away: its backends come into its sysroot only after
    its first library was built, and then count for the second. */
module SnapshotStamps {
  import opened Options
  import opened StepEngine
  import opened EngineTrace
  import opened StageGraph
  import opened StageContracts
  import opened Layout
  import opened StageRun
  import opened Sysroots
  import opened OutputDirs

  predicate IsSnapshotLibrary(s: Step) {
    s.Std? && s.compiler.stage == 0
  }

  /** Two builds of a library with the snapshot compiler. */
  ghost predicate TwoSnapshotLibraries(u: set<Step>) {
    exists x, y :: x in u && y in u && x != y && IsSnapshotLibrary(x) && IsSnapshotLibrary(y)
  }

  function LibraryDir(cfg: Config): Path {
    OutDir(Snapshot(cfg), ForStd)
  }

  /** The marker of an earlier run lies between the snapshot's compiler and its newest backend. */
  ghost predicate MarkerLiesBetween(cfg: Config, times: Times) {
    var marker, backend := times.markers(LibraryDir(cfg)), times.backends(Snapshot(cfg));
    cfg.snapshotIsBeta && marker.Some? && backend.Some? && times.rustc(Snapshot(cfg)) <= marker.value < backend.value
  }

  // ---------------------------------------------------------------------------
  // If a stamp is cleared away.

  /** A cleared library of the snapshot: the marker was never renewed and the backends are newer. */
  lemma ClearedLibrary(cfg: Config, end: State<Step, Output, Effect>, times: Times, p: nat, q: nat)
    requires Ended(cfg, end) && Plausible(times, end.log) && p < q
    requires p < |end.log| && Prepares(end.log[p], LibraryDir(cfg)) && Clears(times, LibraryDir(cfg), end.log, q)
    requires end.log[p].effect.compiler == Snapshot(cfg) && end.log[p].effect.mode == ForStd
    ensures MarkerLiesBetween(cfg, times)
  {
    var dir, log := LibraryDir(cfg), end.log;
    SameDirectory(cfg, end, p, q);
    MarkerCovers(times, dir, log, p, q);
    assert BackendsAt(times, SysrootPath(Snapshot(cfg)), log[..q]).Some?;
    var z := SomeBackendWasAdded(cfg, end, times, q);
    SnapshotBackendsStay(cfg, end, times, z, q);
    MarkerIsOld(times, dir, log, q);
  }

  lemma {:induction false} CopiesDoNotPrepare(ops: seq<StepOp>, e: Effect)
    requires Do(e) !in ops
    ensures Count(Effects(ops), e) == 0
  {
    CountIsPositive(Effects(ops), e);
    if e in Effects(ops) {
      EffectStandsInBody(ops, e);
    }
  }

  lemma OnceInTheMiddle(a: seq<StepOp>, e: Effect, b: seq<StepOp>)
    requires Do(e) !in a && Do(e) !in b
    ensures Count(Effects(a + [Do(e)] + b), e) == 1
  {
    var one: seq<StepOp> := [Do(e)];
    EffectsConcat(a + one, b);
    EffectsConcat(a, one);
    CountConcat(Effects(a + one), Effects(b), e);
    CountConcat(Effects(a), Effects(one), e);
    CopiesDoNotPrepare(a, e);
    CopiesDoNotPrepare(b, e);
    assert one[1..] == [] && Effects(one) == [] + [e];
    CountLast([], e, e);
  }

  lemma CargoPreparesOnce(cfg: Config, c: Compiler, t: Target, build: Build)
    ensures Count(Effects(BuildWithCargo(cfg, c, ForStd, t, build)), PrepareOut(c, ForStd, t)) == 1
  {
    var a: seq<StepOp> := [Need(Libdir(c, c.host))] + [Need(Sysroot(c))];
    var b: seq<StepOp> := [Do(RunCargo(c, ForStd, t))] + [Do(WriteStamp(ForStd, c, t, build))];
    assert BuildWithCargo(cfg, c, ForStd, t, build) == a + [Do(PrepareOut(c, ForStd, t))] + b;
    OnceInTheMiddle(a, PrepareOut(c, ForStd, t), b);
  }

  lemma StdPreparesOnce(cfg: Config, s: Step)
    requires s.Std? && Builds(cfg, s.compiler, s.target) == s.compiler
    ensures Count(Effects(Body(cfg, s)), PrepareOut(s.compiler, ForStd, s.target)) <= 1
  {
    var c, t, e := s.compiler, s.target, PrepareOut(s.compiler, ForStd, s.target);
    var objects := ThirdPartyObjects(cfg, c, t) + SelfContainedObjects(c, t);
    var cargo := BuildWithCargo(cfg, c, ForStd, t, BuildOf(s));
    ObjectsDoNotPrepare(cfg, c, t);
    CargoPreparesOnce(cfg, c, t, BuildOf(s));
    ShapePreparesOnce(cfg, s, objects, cargo, e);
  }

  lemma ObjectsDoNotPrepare(cfg: Config, c: Compiler, t: Target)
    ensures Do(PrepareOut(c, ForStd, t)) !in ThirdPartyObjects(cfg, c, t) + SelfContainedObjects(c, t)
  {
  }

  lemma ShapePreparesOnce(cfg: Config, s: Step, objects: seq<StepOp>, cargo: seq<StepOp>, e: Effect)
    requires s.Std? && Builds(cfg, s.compiler, s.target) == s.compiler
    requires Do(e) !in objects && Count(Effects(cargo), e) == 1
    ensures Count(Effects(StdShape(cfg, s.compiler, s.target, s.crates, s.forceRecompile, objects, cargo)), e) <= 1
  {
    var c, t := s.compiler, s.target;
    var link: seq<StepOp> := [Need(StdLink(c, c, t, s.crates, s.forceRecompile))];
    if KeepsStd(cfg, c) {
      CopiesDoNotPrepare(objects + link, e);
    } else {
      var start: seq<StepOp> := [Need(StartupObjects(c, t))] + [Need(Assemble(c))] + objects;
      var rest: seq<StepOp> :=
        [Need(Assemble(Compiler(c.stage, cfg.build)))] + [Need(StdLink(Compiler(c.stage, cfg.build), c, t, s.crates, s.forceRecompile))];
      assert StdShape(cfg, c, t, s.crates, s.forceRecompile, objects, cargo) == start + cargo + rest;
      EffectsConcat(start + cargo, rest);
      EffectsConcat(start, cargo);
      CountConcat(Effects(start + cargo), Effects(rest), e);
      CountConcat(Effects(start), Effects(cargo), e);
      CopiesDoNotPrepare(start, e);
      CopiesDoNotPrepare(rest, e);
    }
  }

  /** Two preparations for a library of the snapshot belong to two steps. */
  lemma TwoPreparations(cfg: Config, end: State<Step, Output, Effect>, p: nat, q: nat)
    requires Ended(cfg, end) && p < q < |end.log|
    requires Prepares(end.log[p], LibraryDir(cfg)) && Prepares(end.log[q], LibraryDir(cfg))
    requires end.log[p].effect.compiler == Snapshot(cfg) && end.log[p].effect.mode == ForStd
    ensures TwoSnapshotLibraries(end.cache.Keys)
  {
    var x, y := end.log[p].who, end.log[q].who;
    SameDirectory(cfg, end, p, q);
    EventsAreOwned(cfg, end, p);
    EventsAreOwned(cfg, end, q);
    if x == y {
      RepeatedEffect(end.log, x, end.log[p].effect, p, q);
      StdPreparesOnce(cfg, x);
    }
    assert IsSnapshotLibrary(x) && IsSnapshotLibrary(y);
  }

  lemma ClearedMeansBetween(cfg: Config, end: State<Step, Output, Effect>, times: Times, i: nat, q: nat)
    requires Ended(cfg, end) && !Twins(cfg, end.cache.Keys) && Plausible(times, end.log)
    requires StampIsCleared(times, end.log, i, q)
    ensures MarkerLiesBetween(cfg, times) && TwoSnapshotLibraries(end.cache.Keys)
  {
    var p := PreparedBefore(cfg, end, i);
    var c, mode := end.log[i].effect.compiler, end.log[i].effect.mode;
    if c.stage > 0 {
      BuiltCompilersKeepStamps(cfg, end, times, p, q);
    } else {
      PreparerRunsOnBuild(cfg, end, p);
      if mode != ForStd {
        OtherSnapshotStampsStay(cfg, end, times, p, q);
      } else {
        ClearedLibrary(cfg, end, times, p, q);
        TwoPreparations(cfg, end, p, q);
      }
    }
  }

  // ---------------------------------------------------------------------------
  // If the marker lies between and two libraries are built.

  lemma LibraryIsPrepared(cfg: Config, end: State<Step, Output, Effect>, x: Step) returns (p: nat)
    requires Ended(cfg, end) && KeepsNothing(cfg) && x in end.cache && IsSnapshotLibrary(x)
    ensures p < |end.log| && end.log[p] == Did(x, PrepareOut(Snapshot(cfg), ForStd, x.target))
  {
    LibraryHasPreparation(cfg, x);
    p := EffectHappens(cfg, end, x, PrepareOut(x.compiler, ForStd, x.target));
  }

  lemma LibraryHasPreparation(cfg: Config, x: Step)
    requires KeepsNothing(cfg) && IsSnapshotLibrary(x)
    ensures Do(PrepareOut(x.compiler, ForStd, x.target)) in Body(cfg, x)
  {
    var op: StepOp := Do(PrepareOut(x.compiler, ForStd, x.target));
    assert op in PrepareCargo(cfg, x.compiler, ForStd, x.target);
    assert op in BuildWithCargo(cfg, x.compiler, ForStd, x.target, BuildOf(x));
  }

  /** The link step of a snapshot library adds the backends. */
  lemma LibraryAddsBackends(cfg: Config, end: State<Step, Output, Effect>, x: Step) returns (z: nat)
    requires Ended(cfg, end) && KeepsNothing(cfg) && cfg.snapshotIsBeta && x in end.cache && IsSnapshotLibrary(x)
    ensures z < |end.log| && end.log[z].Did? && end.log[z].effect == AddBackends(Snapshot(cfg), x.target)
    ensures end.log[z].who in Reach(cfg, x)
  {
    var d := LinkOfLibrary(cfg, x);
    LinkIsReached(cfg, x, d);
    z := EffectHappens(cfg, end, d, AddBackends(x.compiler, x.target));
  }

  lemma LinkOfLibrary(cfg: Config, x: Step) returns (d: Step)
    requires WellFormed(cfg, x) && KeepsNothing(cfg) && cfg.snapshotIsBeta && IsSnapshotLibrary(x)
    ensures Need(d) in Body(cfg, x) && Do(AddBackends(x.compiler, x.target)) in Body(cfg, d)
  {
    d := StdLink(x.compiler, x.compiler, x.target, x.crates, x.forceRecompile);
  }

  lemma LinkIsReached(cfg: Config, x: Step, d: Step)
    requires WellFormed(cfg, x) && Need(d) in Body(cfg, x)
    ensures d in Reach(cfg, x)
  {
    BodiesAreProper(cfg, x);
    ProperMember(cfg, x, Body(cfg, x), Need(d));
    ReachInside(cfg, x, d);
  }

  /** A library that is prepared after another one finds the backends that were added for that one. */
  lemma SecondFindsBackends(cfg: Config, roots: seq<Step>, clock: nat -> nat, x: Step, y: Step, p: nat, q: nat) returns (z: nat)
    requires Requests(cfg, roots) && Monotone(clock) && KeepsNothing(cfg) && cfg.snapshotIsBeta
    requires x in ReachAll(cfg, roots) && y in ReachAll(cfg, roots) && x != y && IsSnapshotLibrary(x) && IsSnapshotLibrary(y)
    requires p < q < |RunLog(cfg, roots, clock)|
    requires RunLog(cfg, roots, clock)[p].Did? && RunLog(cfg, roots, clock)[p].who == x
    requires RunLog(cfg, roots, clock)[q].Did? && RunLog(cfg, roots, clock)[q].who == y
    ensures z < q && RunLog(cfg, roots, clock)[z].Did? && RunLog(cfg, roots, clock)[z].effect == AddBackends(Snapshot(cfg), x.target)
  {
    EveryRunFinishes(cfg, roots, clock);
    z := LibraryAddsBackends(cfg, Run(cfg, roots, clock).1, x);
    var a, b := StepSpan(cfg, roots, clock, x);
    if y in Reach(cfg, x) {
      ReachRanksBelow(cfg, x, y);
    }
  }

  /** The first event at which backends are added to the snapshot's sysroot. */
  lemma {:induction false} FirstAddition(cfg: Config, log: Log, z: nat) returns (f: nat)
    requires z < |log| && AddsToSnapshot(cfg, log[z])
    ensures f <= z && AddsToSnapshot(cfg, log[f]) && forall y | 0 <= y < f :: !AddsToSnapshot(cfg, log[y])
  {
    f := z;
    if y :| 0 <= y < z && AddsToSnapshot(cfg, log[y]) {
      f := FirstAddition(cfg, log, y);
    }
  }

  ghost predicate AddsToSnapshot(cfg: Config, e: Event<Step, Effect>) {
    e.Did? && e.effect.AddBackends? && e.effect.compiler == Snapshot(cfg)
  }

  lemma {:induction false} FirstPreparation(log: Log, dir: Path, z: nat, q: nat) returns (f: nat)
    requires z < q < |log| && Prepares(log[q], dir)
    ensures z < f <= q && Prepares(log[f], dir) && forall y | z < y < f :: !Prepares(log[y], dir)
    decreases q
  {
    f := q;
    if y :| z < y < q && Prepares(log[y], dir) {
      f := FirstPreparation(log, dir, z, y);
    }
  }

  /** Before backends are added, a preparation only looks at the compiler. */
  lemma BeforeBackends(cfg: Config, end: State<Step, Output, Effect>, times: Times, z: nat, r: nat)
    requires Ended(cfg, end) && r <= z < |end.log| && Prepares(end.log[r], LibraryDir(cfg))
    requires forall y | 0 <= y < z :: !AddsToSnapshot(cfg, end.log[y])
    ensures NewestFor(times, end.log[..r], end.log[r]) == Some(times.rustc(Snapshot(cfg)))
  {
    LibraryPreparation(cfg, end, r);
    forall y | 0 <= y < r && Changes(end.log[y], SysrootPath(Snapshot(cfg)))
      ensures !end.log[y].effect.AddBackends?
    {
      SnapshotChanges(cfg, end, y);
    }
    NoBackendsYet(times, SysrootPath(Snapshot(cfg)), end.log, r);
  }

  lemma LibraryPreparation(cfg: Config, end: State<Step, Output, Effect>, r: nat)
    requires Ended(cfg, end) && r < |end.log| && Prepares(end.log[r], LibraryDir(cfg))
    ensures end.log[r].effect.compiler == Snapshot(cfg) && end.log[r].effect.mode == ForStd
  {
    OutDirsDiffer(end.log[r].effect.compiler, end.log[r].effect.mode, Snapshot(cfg), ForStd);
    PreparerRunsOnBuild(cfg, end, r);
  }

  /** The first preparation after the first addition clears the directory. */
  lemma FirstAfterAdditionClears(cfg: Config, end: State<Step, Output, Effect>, times: Times, z: nat, q: nat)
    requires Ended(cfg, end) && MarkerLiesBetween(cfg, times) && z < q < |end.log|
    requires AddsToSnapshot(cfg, end.log[z]) && Prepares(end.log[q], LibraryDir(cfg))
    requires forall y | 0 <= y < z :: !AddsToSnapshot(cfg, end.log[y])
    requires forall y | z < y < q :: !Prepares(end.log[y], LibraryDir(cfg))
    ensures Clears(times, LibraryDir(cfg), end.log, q)
  {
    var dir := LibraryDir(cfg);
    var m := times.markers(dir).value;
    forall r | 0 <= r < q && Prepares(end.log[r], dir)
      ensures !Dirty(Some(m), NewestFor(times, end.log[..r], end.log[r]))
    {
      BeforeBackends(cfg, end, times, z, r);
    }
    MarkerStays(times, dir, end.log, q, m);
    LibraryPreparation(cfg, end, q);
    SnapshotBackendsStay(cfg, end, times, z, q);
  }

  /** Backends are added after a stamp for a library was written. */
  lemma StampedBefore(cfg: Config, end: State<Step, Output, Effect>, z: nat) returns (i: nat)
    requires Ended(cfg, end) && KeepsNothing(cfg) && z < |end.log| && AddsToSnapshot(cfg, end.log[z])
    ensures i < z && end.log[i].Did? && end.log[i].effect.WriteStamp?
    ensures end.log[i].effect.compiler == Snapshot(cfg) && end.log[i].effect.mode == ForStd
  {
    var f := LinkedFact(cfg, end.log[z].effect);
    var l := ReliedOnEarlier(cfg, end, z, f);
    var g := StampFact(cfg, end.log[l].effect);
    i := ReliedOnEarlier(cfg, end, l, g);
  }

  lemma LinkedFact(cfg: Config, e: Effect) returns (f: Fact)
    requires e.AddBackends? && e.compiler == Snapshot(cfg)
    ensures f in Needs(cfg, e)
    ensures forall x: Effect | f in Gives(x) :: x.LinkStamped? && x.mode == ForStd && x.compiler == Snapshot(cfg)
  {
    f := Linked(ForStd, e.compiler, e.compiler, e.target);
  }

  lemma StampFact(cfg: Config, e: Effect) returns (f: Fact)
    requires KeepsNothing(cfg) && e.LinkStamped?
    ensures f in Needs(cfg, e)
    ensures forall x: Effect | f in Gives(x) :: x == WriteStamp(e.mode, e.compiler, e.target, e.build)
  {
    f := Stamped(e.mode, e.compiler, e.target, e.build);
  }

  lemma SecondLibraryClears(cfg: Config, roots: seq<Step>, clock: nat -> nat, times: Times, x: Step, y: Step, p: nat, q: nat)
    requires Requests(cfg, roots) && Monotone(clock) && KeepsNothing(cfg) && MarkerLiesBetween(cfg, times)
    requires x in ReachAll(cfg, roots) && y in ReachAll(cfg, roots) && x != y && IsSnapshotLibrary(x) && IsSnapshotLibrary(y)
    requires p < q < |RunLog(cfg, roots, clock)|
    requires RunLog(cfg, roots, clock)[p] == Did(x, PrepareOut(Snapshot(cfg), ForStd, x.target))
    requires RunLog(cfg, roots, clock)[q] == Did(y, PrepareOut(Snapshot(cfg), ForStd, y.target))
    ensures SomeStampIsCleared(times, RunLog(cfg, roots, clock))
  {
    EveryRunFinishes(cfg, roots, clock);
    var end := Run(cfg, roots, clock).1;
    var z := SecondFindsBackends(cfg, roots, clock, x, y, p, q);
    var first := FirstAddition(cfg, end.log, z);
    var next := FirstPreparation(end.log, LibraryDir(cfg), first, q);
    FirstAfterAdditionClears(cfg, end, times, first, next);
    var i := StampedBefore(cfg, end, first);
    assert StampIsCleared(times, end.log, i, next);
  }

  lemma TwoLibrariesClear(cfg: Config, roots: seq<Step>, clock: nat -> nat, times: Times, x: Step, y: Step)
    requires Requests(cfg, roots) && Monotone(clock) && KeepsNothing(cfg) && MarkerLiesBetween(cfg, times)
    requires x in ReachAll(cfg, roots) && y in ReachAll(cfg, roots) && x != y && IsSnapshotLibrary(x) && IsSnapshotLibrary(y)
    ensures SomeStampIsCleared(times, RunLog(cfg, roots, clock))
  {
    var p := LibraryIsPreparedInRun(cfg, roots, clock, x);
    var q := LibraryIsPreparedInRun(cfg, roots, clock, y);
    assert p != q;
    if p < q {
      SecondLibraryClears(cfg, roots, clock, times, x, y, p, q);
    } else {
      SecondLibraryClears(cfg, roots, clock, times, y, x, q, p);
    }
  }

  lemma LibraryIsPreparedInRun(cfg: Config, roots: seq<Step>, clock: nat -> nat, x: Step) returns (p: nat)
    requires Requests(cfg, roots) && Monotone(clock) && KeepsNothing(cfg) && x in ReachAll(cfg, roots) && IsSnapshotLibrary(x)
    ensures p < |RunLog(cfg, roots, clock)| && RunLog(cfg, roots, clock)[p] == Did(x, PrepareOut(Snapshot(cfg), ForStd, x.target))
  {
    EveryRunFinishes(cfg, roots, clock);
    p := LibraryIsPrepared(cfg, Run(cfg, roots, clock).1, x);
  }

  /** In every run without twins, a stamp is cleared away exactly if the marker lies between the snapshot's
      compiler and its backends and the roots reach two libraries for the snapshot to build. */
  lemma StampsAreClearedIff(cfg: Config, roots: seq<Step>, clock: nat -> nat, times: Times)
    requires Requests(cfg, roots) && Monotone(clock) && KeepsNothing(cfg) && !Twins(cfg, ReachAll(cfg, roots))
    requires Plausible(times, RunLog(cfg, roots, clock))
    ensures SomeStampIsCleared(times, RunLog(cfg, roots, clock))
            <==> MarkerLiesBetween(cfg, times) && TwoSnapshotLibraries(ReachAll(cfg, roots))
  {
    EveryRunFinishes(cfg, roots, clock);
    var end := Run(cfg, roots, clock).1;
    if SomeStampIsCleared(times, end.log) {
      var i: nat, q: nat :| StampIsCleared(times, end.log, i, q);
      ClearedMeansBetween(cfg, end, times, i, q);
    }
    if MarkerLiesBetween(cfg, times) && TwoSnapshotLibraries(ReachAll(cfg, roots)) {
      var u := ReachAll(cfg, roots);
      var x, y :| x in u && y in u && x != y && IsSnapshotLibrary(x) && IsSnapshotLibrary(y);
      TwoLibrariesClear(cfg, roots, clock, times, x, y);
    }
  }
}
