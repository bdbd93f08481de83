/** Which root of a run an event belongs to: every root adds a part to the log, for the steps that no
    earlier root reaches. */
module RootParts {
  import opened StepEngine
  import opened StageGraph
  import opened StageRun

  type Clock = nat -> nat

  lemma {:induction false} ReachAllGrows(cfg: Config, roots: seq<Step>, m: nat)
    requires forall s | s in roots :: WellFormed(cfg, s)
    requires m < |roots|
    ensures ReachAll(cfg, roots[..m + 1]) == ReachAll(cfg, roots[..m]) + Reach(cfg, roots[m])
    decreases m
  {
    var a := roots[..m + 1];
    if m == 0 {
      assert a[1..] == [] && roots[..0] == [];
    } else {
      ReachAllGrows(cfg, roots[1..], m - 1);
      assert a[1..] == roots[1..][..m] && roots[..m][1..] == roots[1..][..m - 1];
      assert roots[1..][m - 1] == roots[m];
    }
  }

  ghost function Start(cfg: Config, roots: seq<Step>, clock: Clock, m: nat): nat
    requires Requests(cfg, roots) && Monotone(clock) && m <= |roots|
  {
    |After(cfg, roots, clock, m).log|
  }

  /** Root `m` adds the event at `i`, for a step that no earlier root reaches. */
  ghost predicate Adds(cfg: Config, roots: seq<Step>, clock: Clock, m: nat, i: nat)
    requires Requests(cfg, roots) && Monotone(clock)
  {
    && m < |roots| && Start(cfg, roots, clock, m) <= i < Start(cfg, roots, clock, m + 1)
    && i < |RunLog(cfg, roots, clock)| && RunLog(cfg, roots, clock)[i].Did?
    && RunLog(cfg, roots, clock)[i].who in Reach(cfg, roots[m])
    && RunLog(cfg, roots, clock)[i].who !in ReachAll(cfg, roots[..m])
  }

  lemma ReachNothing(cfg: Config, roots: seq<Step>)
    requires forall s | s in roots :: WellFormed(cfg, s)
    ensures ReachAll(cfg, roots[..0]) == {}
  {
    assert roots[..0] == [];
  }

  lemma {:induction false} FirstSet(sets: seq<set<Step>>, x: Step, n: nat) returns (m: nat)
    requires n < |sets| && sets[0] == {} && x in sets[n]
    ensures m < n && x in sets[m + 1] && x !in sets[m]
  {
    if x in sets[n - 1] {
      m := FirstSet(sets, x, n - 1);
    } else {
      m := n - 1;
    }
  }

  lemma FirstReach(cfg: Config, roots: seq<Step>, x: Step, n: nat) returns (m: nat)
    requires forall s | s in roots :: WellFormed(cfg, s)
    requires n <= |roots| && x in ReachAll(cfg, roots[..n])
    ensures m < n && x in Reach(cfg, roots[m]) && x !in ReachAll(cfg, roots[..m])
  {
    var sets := seq(n + 1, k requires 0 <= k <= n => ReachAll(cfg, roots[..k]));
    ReachNothing(cfg, roots);
    m := FirstSet(sets, x, n);
    ReachAllGrows(cfg, roots, m);
  }

  lemma ActorIsReached(cfg: Config, roots: seq<Step>, clock: Clock, i: nat)
    requires Requests(cfg, roots) && Monotone(clock)
    requires i < |RunLog(cfg, roots, clock)| && RunLog(cfg, roots, clock)[i].Did?
    ensures RunLog(cfg, roots, clock)[i].who in ReachAll(cfg, roots)
  {
    EveryRunFinishes(cfg, roots, clock);
    EventsAreOwned(cfg, Run(cfg, roots, clock).1, i);
  }

  lemma RootOf(cfg: Config, roots: seq<Step>, clock: Clock, i: nat) returns (m: nat)
    requires Requests(cfg, roots) && Monotone(clock)
    requires i < |RunLog(cfg, roots, clock)| && RunLog(cfg, roots, clock)[i].Did?
    ensures Adds(cfg, roots, clock, m, i)
  {
    ActorIsReached(cfg, roots, clock, i);
    assert roots[..|roots|] == roots;
    var x := RunLog(cfg, roots, clock)[i].who;
    m := FirstReach(cfg, roots, x, |roots|);
    ReachAllGrows(cfg, roots, m);
    EventIsInItsPart(cfg, roots, clock, m, i);
    EventIsInItsPart(cfg, roots, clock, m + 1, i);
  }

  lemma StartsGrow(cfg: Config, roots: seq<Step>, clock: Clock, m: nat, n: nat)
    requires Requests(cfg, roots) && Monotone(clock) && m <= n <= |roots|
    ensures Start(cfg, roots, clock, m) <= Start(cfg, roots, clock, n) <= |RunLog(cfg, roots, clock)|
    ensures RunLog(cfg, roots, clock)[..Start(cfg, roots, clock, n)] == After(cfg, roots, clock, n).log
  {
    PrefixContinues(cfg, roots, clock, m, n);
    PrefixContinues(cfg, roots, clock, n, |roots|);
  }

  /** Events of steps that no root before `m` reaches come after those roots. */
  lemma ComesAfter(cfg: Config, roots: seq<Step>, clock: Clock, m: nat, i: nat)
    requires Requests(cfg, roots) && Monotone(clock) && m <= |roots|
    requires i < |RunLog(cfg, roots, clock)| && RunLog(cfg, roots, clock)[i].Did?
    ensures Start(cfg, roots, clock, m) <= i <==> RunLog(cfg, roots, clock)[i].who !in ReachAll(cfg, roots[..m])
  {
    EventIsInItsPart(cfg, roots, clock, m, i);
  }
}
