/** Whole bootstrap runs: any sequence of root requests, from an empty cache, on any clock. */
module StageRun {
  import opened StepEngine
  import opened EngineMemo
  import opened EngineTrace
  import opened EngineFacts
  import opened EngineOrder
  import opened StageGraph
  import opened StageContracts

  type RunOutcome = (Outcome<seq<Output>>, State<Step, Output, Effect>)

  /** Roots are well-formed steps, and not among those that rely on their callers: the link steps and
      the LLD wrapper. */
  ghost predicate Requests(cfg: Config, roots: seq<Step>) {
    forall s | s in roots :: WellFormed(cfg, s) && !s.StdLink? && !s.RustcLink? && !s.LldWrapper? && !s.LldWrapperBuild?
  }

  ghost predicate IsFresh(st: State<Step, Output, Effect>) {
    st == Fresh()
  }

  /** With the rules for `all`, an engine that starts afresh answers `roots` with `out`. Being about
      any such engine, this speaks of a run without calculating it. */
  ghost predicate Yields(cfg: Config, all: seq<Step>, clock: nat -> nat, roots: seq<Step>, out: RunOutcome)
    requires Requests(cfg, all) && Elems(roots) <= Elems(all)
  {
    StageRulesAreClosed(cfg, all, clock);
    forall st | IsFresh(st) :: ExecAll(StageRules(cfg, all, clock), st, roots) == out
  }

  ghost function Part(cfg: Config, all: seq<Step>, clock: nat -> nat, roots: seq<Step>): RunOutcome
    requires Requests(cfg, all) && Elems(roots) <= Elems(all)
  {
    SomethingIsYielded(cfg, all, clock, roots);
    var out :| Yields(cfg, all, clock, roots, out);
    out
  }

  lemma SomethingIsYielded(cfg: Config, all: seq<Step>, clock: nat -> nat, roots: seq<Step>)
    requires Requests(cfg, all) && Elems(roots) <= Elems(all)
    ensures exists out :: Yields(cfg, all, clock, roots, out)
  {
    StageRulesAreClosed(cfg, all, clock);
    assert Yields(cfg, all, clock, roots, ExecAll(StageRules(cfg, all, clock), Fresh(), roots));
  }

  lemma PartIsExec(cfg: Config, all: seq<Step>, clock: nat -> nat, roots: seq<Step>)
    requires Requests(cfg, all) && Elems(roots) <= Elems(all)
    ensures Closed(StageRules(cfg, all, clock)) && Elems(roots) <= StageRules(cfg, all, clock).universe
    ensures Part(cfg, all, clock, roots) == ExecAll(StageRules(cfg, all, clock), Fresh(), roots)
  {
    StageRulesAreClosed(cfg, all, clock);
    SomethingIsYielded(cfg, all, clock, roots);
    assert Yields(cfg, all, clock, roots, Part(cfg, all, clock, roots));
    assert IsFresh(Fresh());
  }

  ghost function Run(cfg: Config, roots: seq<Step>, clock: nat -> nat): RunOutcome
    requires Requests(cfg, roots)
  {
    Part(cfg, roots, clock, roots)
  }

  ghost function RunLog(cfg: Config, roots: seq<Step>, clock: nat -> nat): seq<Event<Step, Effect>>
    requires Requests(cfg, roots)
  {
    Run(cfg, roots, clock).1.log
  }

  // ---------------------------------------------------------------------------
  // No cycle.

  lemma {:induction false} WalksDescend(cfg: Config, r: Rules<Step, Output, Effect>, p: seq<Step>, i: nat)
    requires forall s :: r.body(s) == Body(cfg, s)
    requires Walk(r, p) && WellFormed(cfg, p[0]) && i < |p| - 1
    ensures Rank(cfg, p[|p| - 1]) < Rank(cfg, p[i]) <= Rank(cfg, p[0])
    decreases |p|
  {
    WalkTail(r, p);
    BodiesAreProper(cfg, p[0]);
    ProperMember(cfg, p[0], Body(cfg, p[0]), Need(p[1]));
    if |p| > 2 {
      WalksDescend(cfg, r, p[1..], if i == 0 then 0 else i - 1);
    }
  }

  lemma NoCycle(cfg: Config, r: Rules<Step, Output, Effect>, s: Step)
    requires forall s :: r.body(s) == Body(cfg, s)
    requires WellFormed(cfg, s)
    ensures !CycleReachable(r, s)
  {
    forall p | Walk(r, p) && p[0] == s
      ensures !Returns(p)
    {
      forall i | 0 <= i < |p| - 1
        ensures p[i] != p[|p| - 1]
      {
        WalksDescend(cfg, r, p, i);
      }
    }
  }

  /** The state a finished run leaves: every cached step has left exactly its effects, every effect
      came after what it relies on, and every promise of a cached step is kept. */
  ghost predicate Ended(cfg: Config, end: State<Step, Output, Effect>) {
    && Once(end)
    && (forall x | x in end.cache :: WellFormed(cfg, x) && EffectsOf(end.log, x) == Effects(Body(cfg, x)))
    && (forall x, d | x in end.cache && Need(d) in Body(cfg, x) :: d in end.cache)
    && (forall x | x !in end.cache :: EffectsOf(end.log, x) == [])
    && Kept(StageContract(cfg), 0, end)
  }

  /** Rules whose bodies are those of the stage graph. */
  ghost predicate RulesOf(cfg: Config, r: Rules<Step, Output, Effect>) {
    && Closed(r) && Monotone(r.clock) && ClosedSet(cfg, r.universe)
    && forall s :: r.body(s) == Body(cfg, s)
  }

  /** Every run finishes: no cycle panic and no failed assertion of the engine. The steps it runs are
      exactly those that its roots can reach. */
  lemma RootsFinish(cfg: Config, r: Rules<Step, Output, Effect>, roots: seq<Step>)
    requires RulesOf(cfg, r) && Requests(cfg, roots) && Elems(roots) <= r.universe
    ensures var (out, end) := ExecAll(r, Fresh(), roots);
            && out.Done? && Ended(cfg, end) && end.stack == []
            && end.cache.Keys == ReachAll(cfg, roots)
  {
    var k := StageContract(cfg);
    var st: State<Step, Output, Effect> := Fresh();
    RunReturns(cfg, r, st, roots);
    FreshIsOnce(r);
    RunExecutesEachBodyOnce(r, st, roots);
    BodiesRespect(cfg, r);
    RunKeepsFacts(r, k, 0, st, roots);
    RootsAreCached(r, st, roots);
    var end := ExecAll(r, st, roots).1;
    forall x | x !in end.cache
      ensures EffectsOf(end.log, x) == []
    {
      assert x !in Elems(Entered(end.log));
    }
    ReachAllIsClosed(cfg, roots);
    RunStaysIn(r, ReachAll(cfg, roots), st, roots);
    ReachAllIsCached(cfg, end.cache.Keys, roots);
  }

  lemma BodiesRespect(cfg: Config, r: Rules<Step, Output, Effect>)
    requires RulesOf(cfg, r)
    ensures AllRespect(r, StageContract(cfg))
  {
    var k := StageContract(cfg);
    forall s | s in r.universe
      ensures BodyRespects(k, s, r.body(s))
    {
      EveryBodyHolds(cfg, s);
    }
  }

  lemma StageRulesAreRules(cfg: Config, roots: seq<Step>, clock: nat -> nat)
    requires Requests(cfg, roots) && Monotone(clock)
    ensures RulesOf(cfg, StageRules(cfg, roots, clock))
    ensures Elems(roots) <= StageRules(cfg, roots, clock).universe
  {
    StageRulesAreClosed(cfg, roots, clock);
  }

  lemma EveryRunFinishes(cfg: Config, roots: seq<Step>, clock: nat -> nat)
    requires Requests(cfg, roots) && Monotone(clock)
    ensures var (out, end) := Run(cfg, roots, clock);
            && out.Done? && Ended(cfg, end) && end.stack == []
            && end.cache.Keys == ReachAll(cfg, roots)
  {
    PartIsExec(cfg, roots, clock, roots);
    StageRulesAreRules(cfg, roots, clock);
    RootsFinish(cfg, StageRules(cfg, roots, clock), roots);
  }

  lemma RunReturns(cfg: Config, r: Rules<Step, Output, Effect>, st: State<Step, Output, Effect>, roots: seq<Step>)
    requires Closed(r) && Elems(roots) <= r.universe && Monotone(r.clock)
    requires forall s :: r.body(s) == Body(cfg, s)
    requires forall s | s in roots :: WellFormed(cfg, s)
    requires Sound(r, st) && st.stack == []
    ensures var (out, end) := ExecAll(r, st, roots);
            out.Done? && Sound(r, end) && end.stack == []
  {
    forall s | s in roots
      ensures !CycleReachable(r, s)
    {
      NoCycle(cfg, r, s);
    }
    RunAgreesWithPlain(r, st, roots);
  }

  lemma {:induction false} RootsAreCached(r: Rules<Step, Output, Effect>, st: State<Step, Output, Effect>, roots: seq<Step>)
    requires Closed(r) && Elems(roots) <= r.universe && Monotone(r.clock)
    requires Sound(r, st) && st.stack == []
    requires ExecAll(r, st, roots).0.Done?
    ensures forall x | x in st.cache :: x in ExecAll(r, st, roots).1.cache
    ensures forall x | x in roots :: x in ExecAll(r, st, roots).1.cache
    decreases |roots|
  {
    if roots != [] {
      assert roots[0] in Elems(roots) && Elems(roots[1..]) <= Elems(roots);
      MemoAgreesWithPlain(r, st, roots[0]);
      RootsAreCached(r, Exec(r, st, roots[0]).1, roots[1..]);
    }
  }

  /** What is closed under requests and has a step has all that the step can reach. */
  lemma {:induction false} ReachIsCached(cfg: Config, u: set<Step>, s: Step)
    requires WellFormed(cfg, s) && s in u
    requires forall x, d | x in u && Need(d) in Body(cfg, x) :: d in u
    ensures Reach(cfg, s) <= u
    decreases Rank(cfg, s), 1, 0
  {
    BodiesAreProper(cfg, s);
    ReachOpsIsCached(cfg, u, s, Body(cfg, s));
  }

  lemma {:induction false} ReachOpsIsCached(cfg: Config, u: set<Step>, s: Step, ops: seq<StepOp>)
    requires Proper(cfg, s, ops)
    requires forall d | Need(d) in ops :: d in u
    requires forall x, d | x in u && Need(d) in Body(cfg, x) :: d in u
    ensures ReachOps(cfg, s, ops) <= u
    decreases Rank(cfg, s), 0, |ops|
  {
    if ops != [] {
      assert forall d | Need(d) in ops[1..] :: Need(d) in ops;
      ReachOpsIsCached(cfg, u, s, ops[1..]);
      if ops[0].Need? {
        assert Need(ops[0].step) in ops;
        ReachIsCached(cfg, u, ops[0].step);
      }
    }
  }

  lemma {:induction false} ReachAllIsCached(cfg: Config, u: set<Step>, roots: seq<Step>)
    requires forall s | s in roots :: WellFormed(cfg, s) && s in u
    requires forall x, d | x in u && Need(d) in Body(cfg, x) :: d in u
    ensures ReachAll(cfg, roots) <= u
  {
    if roots != [] {
      ReachIsCached(cfg, u, roots[0]);
      ReachAllIsCached(cfg, u, roots[1..]);
    }
  }

  lemma {:induction false} EffectStandsInBody(ops: seq<StepOp>, e: Effect)
    requires e in Effects(ops)
    ensures Do(e) in ops
  {
    if ops[0] != Do(e) {
      EffectStandsInBody(ops[1..], e);
    }
  }

  lemma {:induction false} BodyHasEffect(ops: seq<StepOp>, e: Effect)
    requires Do(e) in ops
    ensures e in Effects(ops)
  {
    if ops[0] != Do(e) {
      BodyHasEffect(ops[1..], e);
    }
  }

  /** What stands in the body of a step of the run happens in the run. */
  lemma EffectHappens(cfg: Config, end: State<Step, Output, Effect>, s: Step, e: Effect) returns (i: nat)
    requires Ended(cfg, end) && s in end.cache && Do(e) in Body(cfg, s)
    ensures i < |end.log| && end.log[i] == Did(s, e)
  {
    BodyHasEffect(Body(cfg, s), e);
    i := EffectPlace(end.log, s, e);
  }

  /** Every event of a finished run stands in the body of a cached step, which owns it. */
  lemma EventsAreOwned(cfg: Config, end: State<Step, Output, Effect>, i: nat)
    requires Ended(cfg, end)
    requires i < |end.log| && end.log[i].Did?
    ensures end.log[i].who in end.cache && Owns(cfg, end.log[i].who, end.log[i].effect)
  {
    var s, e := end.log[i].who, end.log[i].effect;
    EffectRecorded(end.log, s, e, i);
    EffectStandsInBody(Body(cfg, s), e);
    BodiesAreProper(cfg, s);
    ProperMember(cfg, s, Body(cfg, s), Do(e));
  }

  /** An effect that another effect relies on comes earlier in the log. */
  lemma ReliedOnEarlier(cfg: Config, end: State<Step, Output, Effect>, i: nat, f: Fact) returns (k: nat)
    requires Ended(cfg, end)
    requires i < |end.log| && end.log[i].Did?
    requires f in Needs(cfg, end.log[i].effect)
    ensures k < i && end.log[k].Did? && f in Gives(end.log[k].effect)
  {
    k := FactPlace(StageContract(cfg), end.log[..i], f);
  }

  /** What a step of the run promises was established by some effect of the run. */
  lemma PromiseKept(cfg: Config, end: State<Step, Output, Effect>, s: Step, f: Fact) returns (i: nat)
    requires Ended(cfg, end)
    requires s in end.cache && f in Post(cfg, s)
    ensures i < |end.log| && end.log[i].Did? && f in Gives(end.log[i].effect)
  {
    assert StageContract(cfg).post(s) == Post(cfg, s);
    i := FactPlace(StageContract(cfg), end.log, f);
  }

  // ---------------------------------------------------------------------------
  // What a step does through the steps it requests, it can be blamed for.

  lemma {:induction false} TraitsComeFromRoots(cfg: Config, roots: seq<Step>, s: Step) returns (x: Step)
    requires forall x | x in roots :: WellFormed(cfg, x)
    requires s in ReachAll(cfg, roots)
    ensures x in roots && Inherits(cfg, x, s)
    decreases |roots|
  {
    if s in Reach(cfg, roots[0]) {
      TraitsGoUp(cfg, roots[0], s);
      x := roots[0];
    } else {
      x := TraitsComeFromRoots(cfg, roots[1..], s);
    }
  }

  lemma {:induction false} TraitsGoUp(cfg: Config, root: Step, s: Step)
    requires WellFormed(cfg, root) && s in Reach(cfg, root)
    ensures Inherits(cfg, root, s)
    decreases Rank(cfg, root), 1, 0
  {
    BodiesAreProper(cfg, root);
    if s != root {
      TraitsGoUpOps(cfg, root, Body(cfg, root), s);
    }
  }

  lemma {:induction false} TraitsGoUpOps(cfg: Config, root: Step, ops: seq<StepOp>, s: Step)
    requires Proper(cfg, root, ops) && s in ReachOps(cfg, root, ops)
    ensures Inherits(cfg, root, s)
    decreases Rank(cfg, root), 0, |ops|
  {
    if ops[0].Need? && s in Reach(cfg, ops[0].step) {
      TraitsGoUp(cfg, ops[0].step, s);
    } else {
      TraitsGoUpOps(cfg, root, ops[1..], s);
    }
  }

  // ---------------------------------------------------------------------------
  // The run after its first roots.

  ghost function After(cfg: Config, roots: seq<Step>, clock: nat -> nat, m: nat): State<Step, Output, Effect>
    requires Requests(cfg, roots) && Monotone(clock) && m <= |roots|
  {
    assert Elems(roots[..m]) <= Elems(roots);
    Part(cfg, roots, clock, roots[..m]).1
  }

  /** After `m` roots, exactly the steps that they reach have run. */
  lemma PrefixEnds(cfg: Config, roots: seq<Step>, clock: nat -> nat, m: nat)
    requires Requests(cfg, roots) && Monotone(clock) && m <= |roots|
    ensures Requests(cfg, roots[..m])
    ensures Ended(cfg, After(cfg, roots, clock, m)) && After(cfg, roots, clock, m).stack == []
    ensures After(cfg, roots, clock, m).cache.Keys == ReachAll(cfg, roots[..m])
  {
    StageRulesAreRules(cfg, roots, clock);
    assert Elems(roots[..m]) <= Elems(roots);
    PartIsExec(cfg, roots, clock, roots[..m]);
    RootsFinish(cfg, StageRules(cfg, roots, clock), roots[..m]);
  }

  /** The next root continues where the roots before it ended. */
  lemma PrefixContinues(cfg: Config, roots: seq<Step>, clock: nat -> nat, m: nat, n: nat)
    requires Requests(cfg, roots) && Monotone(clock) && m <= n <= |roots|
    ensures After(cfg, roots, clock, m).log <= After(cfg, roots, clock, n).log
    ensures After(cfg, roots, clock, |roots|) == Run(cfg, roots, clock).1
  {
    assert Elems(roots[..m]) <= Elems(roots) && Elems(roots[..n]) <= Elems(roots);
    PartIsExec(cfg, roots, clock, roots[..m]);
    PartIsExec(cfg, roots, clock, roots[..n]);
    StageRulesAreRules(cfg, roots, clock);
    PrefixOfRun(cfg, StageRules(cfg, roots, clock), roots, m, n);
    assert roots[..|roots|] == roots;
  }

  lemma PrefixOfRun(cfg: Config, r: Rules<Step, Output, Effect>, roots: seq<Step>, m: nat, n: nat)
    requires RulesOf(cfg, r) && Requests(cfg, roots) && Elems(roots) <= r.universe && m <= n <= |roots|
    ensures Elems(roots[..m]) <= r.universe && Elems(roots[..n]) <= r.universe
    ensures ExecAll(r, Fresh(), roots[..m]).1.log <= ExecAll(r, Fresh(), roots[..n]).1.log
  {
    var a, b := roots[..m], roots[m..n];
    assert Elems(a) <= Elems(roots) && Elems(b) <= Elems(roots) && Elems(roots[..n]) <= Elems(roots);
    assert a + b == roots[..n];
    RootsFinish(cfg, r, a);
    SplitExtends(r, a, b);
  }

  lemma SplitExtends(r: Rules<Step, Output, Effect>, a: seq<Step>, b: seq<Step>)
    requires Closed(r) && Elems(a) <= r.universe && Elems(b) <= r.universe && Elems(a + b) <= r.universe
    requires ExecAll(r, Fresh(), a).0.Done?
    ensures ExecAll(r, Fresh(), a).1.log <= ExecAll(r, Fresh(), a + b).1.log
  {
    RunSplits(r, Fresh(), a, b);
    RunExtendsLog(r, ExecAll(r, Fresh(), a).1, b);
  }

  /** One root more is one more call of `ensure`. */
  lemma OneRootMore(cfg: Config, roots: seq<Step>, clock: nat -> nat, m: nat)
    requires Requests(cfg, roots) && Monotone(clock) && m < |roots|
    ensures roots[m] in StageRules(cfg, roots, clock).universe && Closed(StageRules(cfg, roots, clock))
    ensures After(cfg, roots, clock, m + 1) == Exec(StageRules(cfg, roots, clock), After(cfg, roots, clock, m), roots[m]).1
    ensures Exec(StageRules(cfg, roots, clock), After(cfg, roots, clock, m), roots[m]).0.Done?
  {
    assert Elems(roots[..m]) <= Elems(roots) && Elems(roots[..m + 1]) <= Elems(roots);
    PartIsExec(cfg, roots, clock, roots[..m]);
    PartIsExec(cfg, roots, clock, roots[..m + 1]);
    StageRulesAreRules(cfg, roots, clock);
    assert roots[m] in Elems(roots);
    NextRoot(cfg, StageRules(cfg, roots, clock), roots, m);
  }

  lemma NextRoot(cfg: Config, r: Rules<Step, Output, Effect>, roots: seq<Step>, m: nat)
    requires RulesOf(cfg, r) && Requests(cfg, roots) && Elems(roots) <= r.universe && m < |roots|
    ensures Elems(roots[..m]) <= r.universe && Elems(roots[..m + 1]) <= r.universe && roots[m] in r.universe
    ensures ExecAll(r, Fresh(), roots[..m + 1]).1 == Exec(r, ExecAll(r, Fresh(), roots[..m]).1, roots[m]).1
    ensures Exec(r, ExecAll(r, Fresh(), roots[..m]).1, roots[m]).0.Done?
  {
    var a := roots[..m];
    assert Elems(a) <= Elems(roots) && Elems(roots[..m + 1]) <= Elems(roots) && roots[m] in Elems(roots);
    assert a + [roots[m]] == roots[..m + 1];
    RootsFinish(cfg, r, a);
    RootsFinish(cfg, r, roots[..m + 1]);
    OneMore(r, Fresh(), a, roots[m]);
  }

  /** Which root a step is run for: the first that reaches it. Its effects stand in the part of the
      log that this root adds. */
  lemma EventIsInItsPart(cfg: Config, roots: seq<Step>, clock: nat -> nat, m: nat, i: nat)
    requires Requests(cfg, roots) && Monotone(clock) && m <= |roots|
    requires i < |RunLog(cfg, roots, clock)| && RunLog(cfg, roots, clock)[i].Did?
    ensures i < |After(cfg, roots, clock, m).log| <==> RunLog(cfg, roots, clock)[i].who in ReachAll(cfg, roots[..m])
  {
    var log, part := RunLog(cfg, roots, clock), After(cfg, roots, clock, m);
    PrefixEnds(cfg, roots, clock, m);
    PrefixEnds(cfg, roots, clock, |roots|);
    PrefixContinues(cfg, roots, clock, m, |roots|);
    var s := log[i].who;
    EventsAreOwned(cfg, Run(cfg, roots, clock).1, i);
    if i < |part.log| {
      EventsAreOwned(cfg, part, i);
    } else if s in part.cache {
      NoMoreEffects(part.log, log, s, i);
    }
  }

  // ---------------------------------------------------------------------------
  // The part of the log in which a step runs.

  /** Between `a` and `b`, `x` runs: there are all its effects and only effects of steps that it reaches,
      and by `b` these are all done. */
  ghost predicate Spans(cfg: Config, log: seq<Event<Step, Effect>>, x: Step, a: nat, b: nat)
    requires WellFormed(cfg, x)
  {
    && a <= b <= |log|
    && (forall i | 0 <= i < |log| && log[i].Did? && log[i].who == x :: a <= i < b)
    && (forall i | a <= i < b && log[i].Did? :: log[i].who in Reach(cfg, x))
    && (forall i | 0 <= i < |log| && log[i].Did? && log[i].who in Reach(cfg, x) :: i < b)
  }

  lemma StepSpan(cfg: Config, roots: seq<Step>, clock: nat -> nat, x: Step) returns (a: nat, b: nat)
    requires Requests(cfg, roots) && Monotone(clock) && x in ReachAll(cfg, roots)
    ensures WellFormed(cfg, x) && Spans(cfg, RunLog(cfg, roots, clock), x, a, b)
  {
    PartIsExec(cfg, roots, clock, roots);
    StageRulesAreRules(cfg, roots, clock);
    EveryRunFinishes(cfg, roots, clock);
    a, b := SpanInRun(cfg, StageRules(cfg, roots, clock), roots, x);
  }

  lemma SpanInRun(cfg: Config, r: Rules<Step, Output, Effect>, roots: seq<Step>, x: Step) returns (a: nat, b: nat)
    requires RulesOf(cfg, r) && Requests(cfg, roots) && Elems(roots) <= r.universe
    requires x in ExecAll(r, Fresh(), roots).1.cache
    ensures WellFormed(cfg, x) && Spans(cfg, ExecAll(r, Fresh(), roots).1.log, x, a, b)
  {
    RootsFinish(cfg, r, roots);
    FreshIsOnce(r);
    var at := RunMoment(r, Fresh(), roots, x);
    a, b := |at.log|, |Exec(r, at, x).1.log|;
    MomentSpans(cfg, r, at, ExecAll(r, Fresh(), roots).1, x);
  }

  lemma MomentSpans(cfg: Config, r: Rules<Step, Output, Effect>, at: State<Step, Output, Effect>, end: State<Step, Output, Effect>, x: Step)
    requires RulesOf(cfg, r) && Starts(r, at, x) && Exec(r, at, x).1.log <= end.log && Ended(cfg, end)
    ensures WellFormed(cfg, x) && Spans(cfg, end.log, x, |at.log|, |Exec(r, at, x).1.log|)
  {
    var after := Exec(r, at, x).1;
    EnsureExtendsLog(r, at, x);
    forall i | 0 <= i < |end.log| && end.log[i].Did? && end.log[i].who in Reach(cfg, x)
      ensures i < |after.log|
    {
      DoneByThen(cfg, r, at, end, x, i);
    }
    forall i | |at.log| <= i < |after.log| && end.log[i].Did?
      ensures end.log[i].who in Reach(cfg, x)
    {
      ReachIsClosed(cfg, x);
      OnlyReachableActs(r, Reach(cfg, x), at, x, i);
    }
    forall i | 0 <= i < |end.log| && end.log[i].Did? && end.log[i].who == x
      ensures |at.log| <= i
    {
      NotBefore(r, at, end.log, x, i);
    }
  }

  lemma DoneByThen(cfg: Config, r: Rules<Step, Output, Effect>, at: State<Step, Output, Effect>, end: State<Step, Output, Effect>, x: Step, i: nat)
    requires RulesOf(cfg, r) && Starts(r, at, x) && Exec(r, at, x).1.log <= end.log && Ended(cfg, end)
    requires WellFormed(cfg, x) && i < |end.log| && end.log[i].Did? && end.log[i].who in Reach(cfg, x)
    ensures i < |Exec(r, at, x).1.log|
  {
    var after, y := Exec(r, at, x).1, end.log[i].who;
    MemoAgreesWithPlain(r, at, x);
    EnsureRunsOnce(r, at, x);
    ReachIsCached(cfg, after.cache.Keys, x);
    EventsAreOwned(cfg, end, i);
    NoMoreEffects(after.log, end.log, y, i);
  }

  lemma NotBefore(r: Rules<Step, Output, Effect>, at: State<Step, Output, Effect>, log: seq<Event<Step, Effect>>, x: Step, i: nat)
    requires Closed(r) && Starts(r, at, x) && at.log <= log
    requires i < |log| && log[i].Did? && log[i].who == x
    ensures |at.log| <= i
  {
    assert x !in Elems(Entered(at.log));
    if i < |at.log| {
      EffectRecorded(at.log, x, log[i].effect, i);
    }
  }

  /** Other than itself, a step only reaches steps of smaller rank. */
  lemma {:induction false} ReachRanksBelow(cfg: Config, s: Step, x: Step)
    requires WellFormed(cfg, s) && x in Reach(cfg, s) && x != s
    ensures Rank(cfg, x) < Rank(cfg, s)
    ensures exists y :: y in Reach(cfg, s) && Need(x) in Body(cfg, y)
    decreases Rank(cfg, s), 1, 0
  {
    BodiesAreProper(cfg, s);
    var y := RequesterIn(cfg, s, Body(cfg, s), x);
  }

  lemma ReachGoesDown(cfg: Config, s: Step, x: Step)
    requires WellFormed(cfg, s) && x in Reach(cfg, s)
    ensures Rank(cfg, x) <= Rank(cfg, s)
  {
    if x != s {
      ReachRanksBelow(cfg, s, x);
    }
  }

  lemma {:induction false} RequesterIn(cfg: Config, s: Step, ops: seq<StepOp>, x: Step) returns (y: Step)
    requires WellFormed(cfg, s) && Proper(cfg, s, ops) && x in ReachOps(cfg, s, ops)
    requires forall op | op in ops :: op in Body(cfg, s)
    ensures Rank(cfg, x) < Rank(cfg, s) && y in Reach(cfg, s) && Need(x) in Body(cfg, y)
    decreases Rank(cfg, s), 0, |ops|
  {
    BodiesAreProper(cfg, s);
    if ops[0].Need? && x in Reach(cfg, ops[0].step) {
      var d := ops[0].step;
      if x == d {
        y := s;
      } else {
        ReachRanksBelow(cfg, d, x);
        y :| y in Reach(cfg, d) && Need(x) in Body(cfg, y);
        ReachInside(cfg, s, d);
      }
    } else {
      assert forall op | op in ops[1..] :: op in ops;
      y := RequesterIn(cfg, s, ops[1..], x);
    }
  }

  lemma ReachInside(cfg: Config, s: Step, d: Step)
    requires WellFormed(cfg, s) && WellFormed(cfg, d)
    requires d in Reach(cfg, s) || Need(d) in Body(cfg, s)
    ensures Reach(cfg, d) <= Reach(cfg, s)
  {
    ReachIsClosed(cfg, s);
    var u := Reach(cfg, s);
    forall x, e | x in u && Need(e) in Body(cfg, x)
      ensures e in u
    {
      assert OpsIn(u, Body(cfg, x));
    }
    ReachIsCached(cfg, u, d);
  }
}
