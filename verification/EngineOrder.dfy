/** In which order things happen: a run only adds to its log, only starts steps that its roots can
    reach, and serves its roots one after the other. */
module EngineOrder {
  import opened StepEngine
  import opened EngineMemo
  import opened EngineTrace

  lemma {:induction false} EnsureExtendsLog<S, V, E>(r: Rules<S, V, E>, st: State<S, V, E>, s: S)
    requires Closed(r) && s in r.universe
    ensures st.log <= Exec(r, st, s).1.log
    decreases r.universe - Elems(st.stack), 0
  {
    if s !in st.stack && s !in st.cache {
      var inner := Begin(r, st, s);
      assert Elems(inner.stack) == Elems(st.stack) + {s};
      assert s in r.universe - Elems(st.stack) && s !in r.universe - Elems(inner.stack);
      OpsExtendLog(r, inner, s, r.body(s), []);
    }
  }

  lemma {:induction false} OpsExtendLog<S, V, E>(r: Rules<S, V, E>, st: State<S, V, E>, s: S, ops: seq<Op<S, E>>, vals: seq<V>)
    requires Closed(r) && OpsIn(r.universe, ops)
    ensures st.log <= ExecOps(r, st, s, ops, vals).1.log
    decreases r.universe - Elems(st.stack), |ops| + 1
  {
    if ops != [] {
      match ops[0]
      case Need(x) =>
        EnsureExtendsLog(r, st, x);
        var (out, mid) := Exec(r, st, x);
        if out.Done? {
          OpsExtendLog(r, mid, s, ops[1..], vals + [out.value]);
        }
      case Do(e) =>
        OpsExtendLog(r, st.(log := st.log + [Did(s, e)]), s, ops[1..], vals);
    }
  }

  lemma {:induction false} RunExtendsLog<S, V, E>(r: Rules<S, V, E>, st: State<S, V, E>, roots: seq<S>)
    requires Closed(r) && Elems(roots) <= r.universe
    ensures st.log <= ExecAll(r, st, roots).1.log
    decreases |roots|
  {
    if roots != [] {
      assert roots[0] in Elems(roots) && Elems(roots[1..]) <= Elems(roots);
      EnsureExtendsLog(r, st, roots[0]);
      var (out, mid) := Exec(r, st, roots[0]);
      if out.Done? {
        RunExtendsLog(r, mid, roots[1..]);
      }
    }
  }

  /** The set is closed under requests. */
  ghost predicate ClosedUnder<S(!new), V, E>(r: Rules<S, V, E>, u: set<S>) {
    forall s | s in u :: OpsIn(u, r.body(s))
  }

  /** Only steps that the request can reach are added to the cache. */
  lemma {:induction false} EnsureStaysIn<S(!new), V, E>(r: Rules<S, V, E>, u: set<S>, st: State<S, V, E>, s: S)
    requires Closed(r) && s in r.universe
    requires ClosedUnder(r, u) && s in u
    ensures Exec(r, st, s).1.cache.Keys <= st.cache.Keys + u
    decreases r.universe - Elems(st.stack), 0
  {
    if s !in st.stack && s !in st.cache {
      var inner := Begin(r, st, s);
      assert Elems(inner.stack) == Elems(st.stack) + {s};
      assert s in r.universe - Elems(st.stack) && s !in r.universe - Elems(inner.stack);
      OpsStayIn(r, u, inner, s, r.body(s), []);
    }
  }

  lemma {:induction false} OpsStayIn<S(!new), V, E>(r: Rules<S, V, E>, u: set<S>, st: State<S, V, E>, s: S, ops: seq<Op<S, E>>, vals: seq<V>)
    requires Closed(r) && OpsIn(r.universe, ops)
    requires ClosedUnder(r, u) && OpsIn(u, ops)
    ensures ExecOps(r, st, s, ops, vals).1.cache.Keys <= st.cache.Keys + u
    decreases r.universe - Elems(st.stack), |ops| + 1
  {
    if ops != [] {
      match ops[0]
      case Need(x) =>
        EnsureStaysIn(r, u, st, x);
        var (out, mid) := Exec(r, st, x);
        if out.Done? {
          OpsStayIn(r, u, mid, s, ops[1..], vals + [out.value]);
        }
      case Do(e) =>
        OpsStayIn(r, u, st.(log := st.log + [Did(s, e)]), s, ops[1..], vals);
    }
  }

  lemma {:induction false} RunStaysIn<S(!new), V, E>(r: Rules<S, V, E>, u: set<S>, st: State<S, V, E>, roots: seq<S>)
    requires Closed(r) && Elems(roots) <= r.universe
    requires ClosedUnder(r, u) && Elems(roots) <= u
    ensures ExecAll(r, st, roots).1.cache.Keys <= st.cache.Keys + u
    decreases |roots|
  {
    if roots != [] {
      assert roots[0] in Elems(roots) && Elems(roots[1..]) <= Elems(roots);
      EnsureStaysIn(r, u, st, roots[0]);
      var (out, mid) := Exec(r, st, roots[0]);
      if out.Done? {
        RunStaysIn(r, u, mid, roots[1..]);
      }
    }
  }

  /** A run is a run of its first roots, continued with the others. */
  lemma {:induction false} RunSplits<S, V, E>(r: Rules<S, V, E>, st: State<S, V, E>, a: seq<S>, b: seq<S>)
    requires Closed(r) && Elems(a) <= r.universe && Elems(b) <= r.universe
    ensures Elems(a + b) <= r.universe
    ensures ExecAll(r, st, a).0.Done? ==> ExecAll(r, st, a + b).1 == ExecAll(r, ExecAll(r, st, a).1, b).1
    decreases |a|
  {
    assert Elems(a + b) <= r.universe;
    if a == [] {
      assert a + b == b;
    } else {
      assert (a + b)[0] == a[0] && (a + b)[1..] == a[1..] + b;
      assert a[0] in Elems(a) && Elems(a[1..]) <= Elems(a);
      var (out, mid) := Exec(r, st, a[0]);
      if out.Done? {
        RunSplits(r, mid, a[1..], b);
      }
    }
  }

  lemma {:induction false} OneMore<S, V, E>(r: Rules<S, V, E>, st: State<S, V, E>, a: seq<S>, s: S)
    requires Closed(r) && Elems(a) <= r.universe && s in r.universe
    requires ExecAll(r, st, a).0.Done?
    ensures Elems(a + [s]) <= r.universe
    ensures ExecAll(r, st, a + [s]).1 == Exec(r, ExecAll(r, st, a).1, s).1
    ensures ExecAll(r, st, a + [s]).0.Done? <==> Exec(r, ExecAll(r, st, a).1, s).0.Done?
    decreases |a|
  {
    assert Elems(a + [s]) <= r.universe;
    if a == [] {
      assert a + [s] == [s] && [s][1..] == [];
      assert ExecAll(r, st, a).1 == st;
    } else {
      assert (a + [s])[0] == a[0] && (a + [s])[1..] == a[1..] + [s];
      assert a[0] in Elems(a) && Elems(a[1..]) <= Elems(a);
      OneMore(r, Exec(r, st, a[0]).1, a[1..], s);
    }
  }

  lemma {:induction false} EffectsOfConcat<S, E>(a: seq<Event<S, E>>, b: seq<Event<S, E>>, s: S)
    ensures EffectsOf(a + b, s) == EffectsOf(a, s) + EffectsOf(b, s)
    decreases |b|
  {
    if b == [] {
      assert a + b == a;
    } else {
      var n := |b| - 1;
      assert (a + b)[..|a| + n] == a + b[..n];
      EffectsOfConcat(a, b[..n], s);
    }
  }

  /** A step that has left all its effects leaves no more. */
  lemma NoMoreEffects<S, E>(log: seq<Event<S, E>>, longer: seq<Event<S, E>>, s: S, i: nat)
    requires log <= longer && EffectsOf(log, s) == EffectsOf(longer, s)
    requires i < |longer| && longer[i].Did? && longer[i].who == s
    ensures i < |log|
  {
    if i >= |log| {
      var rest := longer[|log|..];
      assert longer == log + rest && rest[i - |log|] == longer[i];
      EffectsOfConcat(log, rest, s);
      EffectRecorded(rest, s, longer[i].effect, i - |log|);
    }
  }

  // ---------------------------------------------------------------------------
  // The moment at which a step is started.

  /** What holds of the engine whenever a step is requested. */
  ghost predicate Steady<S(!new), V, E>(r: Rules<S, V, E>, st: State<S, V, E>)
    requires Closed(r)
  {
    Sound(r, st) && Once(st) && Complete(r, st)
  }

  /** The state in which `x` is requested and not yet in the cache. */
  ghost predicate Starts<S(!new), V, E>(r: Rules<S, V, E>, at: State<S, V, E>, x: S)
    requires Closed(r)
  {
    x in r.universe && Steady(r, at) && x !in at.cache && x !in at.stack && Exec(r, at, x).0.Done?
  }

  lemma EnsureStaysSteady<S(!new), V, E>(r: Rules<S, V, E>, st: State<S, V, E>, s: S)
    requires Closed(r) && s in r.universe && Monotone(r.clock) && Steady(r, st) && Exec(r, st, s).0.Done?
    ensures Steady(r, Exec(r, st, s).1)
  {
    MemoAgreesWithPlain(r, st, s);
    EnsureRunsOnce(r, st, s);
  }

  /** Every step that a call adds to the cache was started at some moment of the call. */
  lemma {:induction false} EnsureMoment<S(!new), V, E>(r: Rules<S, V, E>, st: State<S, V, E>, s: S, x: S) returns (at: State<S, V, E>)
    requires Closed(r) && s in r.universe && Monotone(r.clock) && Steady(r, st) && Exec(r, st, s).0.Done?
    requires x in Exec(r, st, s).1.cache && x !in st.cache
    ensures Starts(r, at, x) && Exec(r, at, x).1.log <= Exec(r, st, s).1.log
    decreases r.universe - Elems(st.stack), 0
  {
    if x == s {
      at := st;
    } else {
      var inner := Begin(r, st, s);
      BeginIsSteady(r, st, s);
      InsideBody(r, st, s, x);
      at := OpsMoment(r, inner, s, r.body(s), [], x);
    }
  }

  lemma BeginIsSteady<S(!new), V, E>(r: Rules<S, V, E>, st: State<S, V, E>, s: S)
    requires Closed(r) && s in r.universe && Steady(r, st) && s !in st.stack && s !in st.cache
    ensures var inner := Begin(r, st, s);
            Steady(r, inner) && s in inner.stack && r.universe - Elems(inner.stack) < r.universe - Elems(st.stack)
  {
    var inner := Begin(r, st, s);
    EnterKeepsOnce(r, st, s);
    assert Elems(inner.stack) == Elems(st.stack) + {s};
    assert s in r.universe - Elems(st.stack) && s !in r.universe - Elems(inner.stack);
  }

  /** What a call adds to the cache besides its own step, it adds while the body runs. */
  lemma InsideBody<S, V, E>(r: Rules<S, V, E>, st: State<S, V, E>, s: S, x: S)
    requires Closed(r) && s in r.universe && Exec(r, st, s).0.Done?
    requires x in Exec(r, st, s).1.cache && x !in st.cache && x != s
    ensures var (out, mid) := ExecOps(r, Begin(r, st, s), s, r.body(s), []);
            out.Done? && x in mid.cache && mid.log <= Exec(r, st, s).1.log
  {
    var (out, mid) := ExecOps(r, Begin(r, st, s), s, r.body(s), []);
    assert out.Done?;
    assert Exec(r, st, s) == Finish(r, st, s, out.value, mid);
  }

  lemma {:induction false} OpsMoment<S(!new), V, E>(r: Rules<S, V, E>, st: State<S, V, E>, s: S, ops: seq<Op<S, E>>, vals: seq<V>, x: S)
    returns (at: State<S, V, E>)
    requires Closed(r) && OpsIn(r.universe, ops) && Monotone(r.clock) && Steady(r, st) && s in st.stack
    requires ExecOps(r, st, s, ops, vals).0.Done?
    requires x in ExecOps(r, st, s, ops, vals).1.cache && x !in st.cache
    ensures Starts(r, at, x) && Exec(r, at, x).1.log <= ExecOps(r, st, s, ops, vals).1.log
    decreases r.universe - Elems(st.stack), |ops| + 1
  {
    match ops[0]
    case Need(d) =>
      var (out, mid) := Exec(r, st, d);
      EnsureStaysSteady(r, st, d);
      if x in mid.cache {
        at := EnsureMoment(r, st, d, x);
        OpsExtendLog(r, mid, s, ops[1..], vals + [out.value]);
      } else {
        at := OpsMoment(r, mid, s, ops[1..], vals + [out.value], x);
      }
    case Do(e) =>
      EffectKeepsOnce(r, st, s, e);
      at := OpsMoment(r, st.(log := st.log + [Did(s, e)]), s, ops[1..], vals, x);
  }

  lemma {:induction false} RunMoment<S(!new), V, E>(r: Rules<S, V, E>, st: State<S, V, E>, roots: seq<S>, x: S) returns (at: State<S, V, E>)
    requires Closed(r) && Elems(roots) <= r.universe && Monotone(r.clock) && Steady(r, st) && ExecAll(r, st, roots).0.Done?
    requires x in ExecAll(r, st, roots).1.cache && x !in st.cache
    ensures Starts(r, at, x) && Exec(r, at, x).1.log <= ExecAll(r, st, roots).1.log
    decreases |roots|
  {
    assert roots[0] in Elems(roots) && Elems(roots[1..]) <= Elems(roots);
    var mid := Exec(r, st, roots[0]).1;
    EnsureStaysSteady(r, st, roots[0]);
    if x in mid.cache {
      at := EnsureMoment(r, st, roots[0], x);
      RunExtendsLog(r, mid, roots[1..]);
    } else {
      at := RunMoment(r, mid, roots[1..], x);
    }
  }

  /** While `x` runs, only steps that it can reach leave effects. */
  lemma OnlyReachableActs<S(!new), V, E>(r: Rules<S, V, E>, u: set<S>, at: State<S, V, E>, x: S, i: nat)
    requires Closed(r) && Monotone(r.clock) && Starts(r, at, x)
    requires ClosedUnder(r, u) && x in u
    requires |at.log| <= i < |Exec(r, at, x).1.log| && Exec(r, at, x).1.log[i].Did?
    ensures Exec(r, at, x).1.log[i].who in u
  {
    var after := Exec(r, at, x).1;
    var y := after.log[i].who;
    EnsureRunsOnce(r, at, x);
    EnsureStaysIn(r, u, at, x);
    EnsureExtendsLog(r, at, x);
    if y in Entered(at.log) {
      NoMoreEffects(at.log, after.log, y, i);
    } else {
      EffectRecorded(after.log, y, after.log[i].effect, i);
      assert y in Entered(after.log);
      assert y in Elems(Entered(after.log)) && y !in Elems(Entered(at.log));
    }
  }
}
