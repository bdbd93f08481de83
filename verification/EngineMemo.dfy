/** The memoising engine against plain recursion: same answers, same panics. */
module EngineMemo {
  import opened StepEngine

  // ---------------------------------------------------------------------------
  // Plain recursion finds exactly the reachable cycles.

  /** A finished evaluation shows that no walk from `s` runs back into `path`. */
  lemma {:induction false} PlainAvoidsPath<S, V, E>(r: Rules<S, V, E>, path: set<S>, s: S, p: seq<S>)
    requires Closed(r) && s in r.universe
    requires Plain(r, path, s).Done?
    requires Walk(r, p) && p[0] == s
    ensures p[|p| - 1] !in path
    decreases |p|
  {
    if |p| > 1 {
      WalkTail(r, p);
      PlainOpsNeed(r, path + {s}, r.body(s), [], p[1]);
      PlainAvoidsPath(r, path + {s}, p[1], p[1..]);
    }
  }

  /** Every request in a finished body finished. */
  lemma {:induction false} PlainOpsNeed<S, V, E>(r: Rules<S, V, E>, path: set<S>, ops: seq<Op<S, E>>, vals: seq<V>, d: S)
    requires Closed(r) && OpsIn(r.universe, ops)
    requires PlainOps(r, path, ops, vals).Done?
    requires Need(d) in ops
    ensures d in r.universe && Plain(r, path, d).Done?
    decreases |ops|
  {
    if ops[0] != Need(d) {
      assert Need(d) in ops[1..];
      var vals' := if ops[0].Need? then vals + [Plain(r, path, ops[0].step).value] else vals;
      PlainOpsNeed(r, path, ops[1..], vals', d);
    }
  }

  lemma {:induction false} PlainDoneMeansNoCycle<S, V, E>(r: Rules<S, V, E>, path: set<S>, s: S, p: seq<S>)
    requires Closed(r) && s in r.universe
    requires Plain(r, path, s).Done?
    requires Walk(r, p) && p[0] == s
    ensures !Returns(p)
    decreases |p|
  {
    if |p| > 1 {
      WalkTail(r, p);
      var q := p[1..];
      PlainOpsNeed(r, path + {s}, r.body(s), [], p[1]);
      PlainAvoidsPath(r, path + {s}, p[1], q);
      PlainDoneMeansNoCycle(r, path + {s}, p[1], q);
      forall i | 0 <= i < |p| - 1
        ensures p[i] != p[|p| - 1]
      {
        if i > 0 {
          assert p[i] == q[i - 1] != q[|q| - 1];
        }
      }
    }
  }

  /** A panic of plain recursion is always a cycle, and comes with a walk that shows it. */
  lemma {:induction false} PlainPanicWitness<S, V, E>(r: Rules<S, V, E>, path: set<S>, s: S) returns (p: seq<S>)
    requires Closed(r) && s in r.universe
    requires Plain(r, path, s).Panic?
    ensures Plain(r, path, s).why == Cycle
    ensures Walk(r, p) && p[0] == s && (p[|p| - 1] in path || Returns(p))
    decreases r.universe - path, 0
  {
    p := [s];
    if s !in path {
      assert s in r.universe - path && s !in r.universe - (path + {s});
      var d, q := PlainOpsPanicWitness(r, path + {s}, r.body(s), []);
      WalkCons(r, s, q);
      p := [s] + q;
      if q[|q| - 1] == s {
        assert p[0] == p[|p| - 1];
      } else if Returns(q) {
        var i :| 0 <= i < |q| - 1 && q[i] == q[|q| - 1];
        assert p[i + 1] == p[|p| - 1];
      }
    }
  }

  lemma {:induction false} PlainOpsPanicWitness<S, V, E>(r: Rules<S, V, E>, path: set<S>, ops: seq<Op<S, E>>, vals: seq<V>)
    returns (d: S, p: seq<S>)
    requires Closed(r) && OpsIn(r.universe, ops)
    requires PlainOps(r, path, ops, vals).Panic?
    ensures PlainOps(r, path, ops, vals).why == Cycle
    ensures Need(d) in ops
    ensures Walk(r, p) && p[0] == d && (p[|p| - 1] in path || Returns(p))
    decreases r.universe - path, |ops| + 1
  {
    match ops[0]
    case Need(x) =>
      var out := Plain(r, path, x);
      if out.Panic? {
        d := x;
        p := PlainPanicWitness(r, path, x);
      } else {
        d, p := PlainOpsPanicWitness(r, path, ops[1..], vals + [out.value]);
      }
    case Do(_) =>
      d, p := PlainOpsPanicWitness(r, path, ops[1..], vals);
  }

  /** Plain recursion from nothing fails exactly when a cycle can be reached. */
  lemma PlainFailsIffCycle<S(!new), V, E>(r: Rules<S, V, E>, s: S)
    requires Closed(r) && s in r.universe
    ensures Plain(r, {}, s).Panic? <==> CycleReachable(r, s)
    ensures Plain(r, {}, s).Panic? ==> Plain(r, {}, s).why == Cycle
  {
    if Plain(r, {}, s).Panic? {
      var p := PlainPanicWitness(r, {}, s);
    } else {
      forall p | Walk(r, p) && p[0] == s
        ensures !Returns(p)
      {
        PlainDoneMeansNoCycle(r, {}, s, p);
      }
    }
  }

  // ---------------------------------------------------------------------------
  // The answer does not depend on the steps being run, as long as they are not met again.

  lemma {:induction false} PlainFrame<S(!new), V, E>(r: Rules<S, V, E>, a: set<S>, b: set<S>, s: S)
    requires Closed(r) && s in r.universe
    requires Plain(r, a, s).Done?
    requires Avoids(r, s, b)
    ensures Plain(r, b, s) == Plain(r, a, s)
    decreases r.universe - a, 0
  {
    assert Walk(r, [s]) && [s][0] == s;
    assert s !in b;
    assert s in r.universe - a && s !in r.universe - (a + {s});
    forall d | Need(d) in r.body(s)
      ensures Avoids(r, d, b + {s})
    {
      PlainOpsNeed(r, a + {s}, r.body(s), [], d);
      forall p | Walk(r, p) && p[0] == d
        ensures p[|p| - 1] !in b + {s}
      {
        PlainAvoidsPath(r, a + {s}, d, p);
        assert Edge(r, s, d);
        WalkCons(r, s, p);
        var q := [s] + p;
        assert Walk(r, q) && q[0] == s && q[|q| - 1] == p[|p| - 1];
      }
    }
    PlainOpsFrame(r, a + {s}, b + {s}, r.body(s), []);
  }

  lemma {:induction false} PlainOpsFrame<S(!new), V, E>(r: Rules<S, V, E>, a: set<S>, b: set<S>, ops: seq<Op<S, E>>, vals: seq<V>)
    requires Closed(r) && OpsIn(r.universe, ops)
    requires PlainOps(r, a, ops, vals).Done?
    requires forall d | Need(d) in ops :: Avoids(r, d, b)
    ensures PlainOps(r, b, ops, vals) == PlainOps(r, a, ops, vals)
    decreases r.universe - a, |ops| + 1
  {
    if ops != [] {
      var rest := ops[1..];
      assert forall d | Need(d) in rest :: Need(d) in ops;
      match ops[0]
      case Need(x) =>
        assert Need(x) in ops;
        PlainFrame(r, a, b, x);
        PlainOpsFrame(r, a, b, rest, vals + [Plain(r, a, x).value]);
      case Do(_) =>
        PlainOpsFrame(r, a, b, rest, vals);
    }
  }

  // ---------------------------------------------------------------------------
  // The cache.

  /** The cache is closed under requests and every entry is the answer of plain recursion. */
  ghost predicate TrueCache<S(!new), V, E>(r: Rules<S, V, E>, cache: map<S, V>)
    requires Closed(r)
  {
    forall x | x in cache ::
      && x in r.universe
      && (forall d | Need(d) in r.body(x) :: d in cache)
      && Plain(r, {}, x) == Done(cache[x])
  }

  ghost predicate Sound<S(!new), V, E>(r: Rules<S, V, E>, st: State<S, V, E>)
    requires Closed(r)
  {
    && TrueCache(r, st.cache)
    && (forall x | x in st.cache :: x !in st.stack)
  }

  /** What one call of `ensure` promises about its answer and the state it leaves. */
  ghost predicate Agrees<S(!new), V, E>(r: Rules<S, V, E>, st: State<S, V, E>, s: S)
    requires Closed(r) && s in r.universe
  {
    var (out, after) := Exec(r, st, s);
    && out == Plain(r, Elems(st.stack), s)
    && (out.Done? ==>
          && Sound(r, after)
          && s in after.cache
          && (forall x | x in st.cache :: x in after.cache && after.cache[x] == st.cache[x])
          && st.ticks <= after.ticks
          && after.spent <= st.spent + Elapsed(r.clock(st.ticks), r.clock(after.ticks)))
  }

  lemma CachedAnswer<S(!new), V, E>(r: Rules<S, V, E>, st: State<S, V, E>, s: S)
    requires Closed(r) && Sound(r, st) && s in st.cache
    ensures Plain(r, Elems(st.stack), s) == Done(st.cache[s])
  {
    forall p | Walk(r, p) && p[0] == s
      ensures p[|p| - 1] !in Elems(st.stack)
    {
      WalkStays(r, st.cache.Keys, p);
    }
    PlainFrame(r, {}, Elems(st.stack), s);
  }

  /** The memoising engine agrees with plain recursion, on every graph, cyclic or not. */
  lemma {:induction false} MemoAgreesWithPlain<S(!new), V, E>(r: Rules<S, V, E>, st: State<S, V, E>, s: S)
    requires Closed(r) && s in r.universe && Monotone(r.clock)
    requires Sound(r, st)
    ensures Agrees(r, st, s)
    decreases r.universe - Elems(st.stack), 0
  {
    if s in st.stack {
    } else if s in st.cache {
      CachedAnswer(r, st, s);
    } else {
      var inner := Begin(r, st, s);
      assert Elems(inner.stack) == Elems(st.stack) + {s};
      assert s in r.universe - Elems(st.stack) && s !in r.universe - Elems(inner.stack);
      MemoOpsAgree(r, inner, s, r.body(s), []);
      var (out, after) := ExecOps(r, inner, s, r.body(s), []);
      if out.Done? {
        Finished(r, st, s, out.value, after);
      }
    }
  }

  /** The end of a step: no assertion fails, and the new cache entry is right. */
  lemma Finished<S(!new), V, E>(r: Rules<S, V, E>, st: State<S, V, E>, s: S, vals: seq<V>, after: State<S, V, E>)
    requires Closed(r) && s in r.universe && Monotone(r.clock)
    requires Sound(r, after) && s !in st.stack && after.stack == st.stack + [s]
    requires Plain(r, Elems(st.stack), s) == Done(r.output(s, vals))
    requires forall d | Need(d) in r.body(s) :: d in after.cache
    requires st.ticks + 3 <= after.ticks
    requires after.spent <= Elapsed(r.clock(st.ticks + 3), r.clock(after.ticks))
    ensures var (out, end) := Finish(r, st, s, vals, after);
            && out == Done(r.output(s, vals))
            && Sound(r, end)
            && end.cache == after.cache[s := r.output(s, vals)]
            && end.spent == st.spent + Elapsed(r.clock(st.ticks + 2), r.clock(after.ticks))
            && end.ticks == after.ticks + 3
  {
    assert r.clock(st.ticks) <= r.clock(st.ticks + 2) <= r.clock(st.ticks + 3) <= r.clock(after.ticks) <= r.clock(after.ticks + 3);
    assert s in after.stack;
    PlainFrame(r, Elems(st.stack), {}, s);
  }

  lemma {:induction false} MemoOpsAgree<S(!new), V, E>(r: Rules<S, V, E>, st: State<S, V, E>, s: S, ops: seq<Op<S, E>>, vals: seq<V>)
    requires Closed(r) && OpsIn(r.universe, ops) && Monotone(r.clock)
    requires Sound(r, st)
    ensures var (out, after) := ExecOps(r, st, s, ops, vals);
            && out == PlainOps(r, Elems(st.stack), ops, vals)
            && (out.Done? ==>
                  && Sound(r, after)
                  && (forall d | Need(d) in ops :: d in after.cache)
                  && (forall x | x in st.cache :: x in after.cache && after.cache[x] == st.cache[x])
                  && st.ticks <= after.ticks
                  && after.spent <= st.spent + Elapsed(r.clock(st.ticks), r.clock(after.ticks)))
    decreases r.universe - Elems(st.stack), |ops| + 1
  {
    if ops != [] {
      var rest := ops[1..];
      assert forall d | Need(d) in ops :: Need(d) == ops[0] || Need(d) in rest;
      match ops[0]
      case Need(x) =>
        MemoAgreesWithPlain(r, st, x);
        var (out, mid) := Exec(r, st, x);
        if out.Done? {
          MemoOpsAgree(r, mid, s, rest, vals + [out.value]);
          ElapsedSplits(r, st.ticks, mid.ticks, ExecOps(r, mid, s, rest, vals + [out.value]).1.ticks);
        }
      case Do(e) =>
        MemoOpsAgree(r, st.(log := st.log + [Did(s, e)]), s, rest, vals);
    }
  }

  lemma ElapsedSplits<S, V, E>(r: Rules<S, V, E>, a: nat, b: nat, c: nat)
    requires Monotone(r.clock)
    ensures a <= b <= c ==>
              Elapsed(r.clock(a), r.clock(b)) + Elapsed(r.clock(b), r.clock(c)) == Elapsed(r.clock(a), r.clock(c))
  {
    if a <= b <= c {
      assert r.clock(a) <= r.clock(b) <= r.clock(c);
    }
  }

  // ---------------------------------------------------------------------------
  // Main results.

  /** From an empty stack and cache, `ensure` panics exactly when a cycle is reachable from the
      request, always with the cycle message, and otherwise returns what plain recursion returns. */
  lemma EnsurePanicsIffCycle<S(!new), V, E>(r: Rules<S, V, E>, s: S)
    requires Closed(r) && s in r.universe && Monotone(r.clock)
    ensures Exec(r, Fresh(), s).0 == Plain(r, {}, s)
    ensures Exec(r, Fresh(), s).0 == Panic(Cycle) <==> CycleReachable(r, s)
    ensures Exec(r, Fresh(), s).0.Done? <==> !CycleReachable(r, s)
  {
    var st: State<S, V, E> := Fresh();
    assert Elems(st.stack) == {};
    MemoAgreesWithPlain(r, st, s);
    PlainFailsIffCycle(r, s);
  }

  ghost predicate SomeRootCycles<S(!new), V, E>(r: Rules<S, V, E>, roots: seq<S>) {
    exists s :: s in roots && CycleReachable(r, s)
  }

  /** Each root is answered as plain recursion answers it. */
  ghost predicate Answers<S, V, E>(r: Rules<S, V, E>, roots: seq<S>, vals: seq<V>)
    requires Closed(r)
  {
    |vals| == |roots| && forall i | 0 <= i < |roots| :: roots[i] in r.universe && Plain(r, {}, roots[i]) == Done(vals[i])
  }

  /** Any sequence of root requests: the answers are those of plain recursion, asked one by one, the
      first request that reaches a cycle ends the run, and every cache entry stays right. */
  lemma {:induction false} RunAgreesWithPlain<S(!new), V, E>(r: Rules<S, V, E>, st: State<S, V, E>, roots: seq<S>)
    requires Closed(r) && Elems(roots) <= r.universe && Monotone(r.clock)
    requires Sound(r, st) && st.stack == []
    ensures var (out, after) := ExecAll(r, st, roots);
            && (out.Panic? <==> SomeRootCycles(r, roots))
            && (out.Panic? ==> out.why == Cycle)
            && (out.Done? ==> Answers(r, roots, out.value) && Sound(r, after) && after.stack == [])
    decreases |roots|
  {
    if roots != [] {
      var rest := roots[1..];
      assert roots[0] in Elems(roots) && Elems(rest) <= Elems(roots);
      assert Elems(st.stack) == {};
      MemoAgreesWithPlain(r, st, roots[0]);
      PlainFailsIffCycle(r, roots[0]);
      var (first, mid) := Exec(r, st, roots[0]);
      assert SomeRootCycles(r, roots) <==> CycleReachable(r, roots[0]) || SomeRootCycles(r, rest);
      if first.Done? {
        RunAgreesWithPlain(r, mid, rest);
        var vals := ExecAll(r, mid, rest).0;
        if vals.Done? {
          AnswersOneMore(r, roots[0], first.value, rest, vals.value);
          assert [roots[0]] + rest == roots;
        }
      }
    }
  }

  lemma AnswersOneMore<S(!new), V, E>(r: Rules<S, V, E>, s: S, v: V, roots: seq<S>, vals: seq<V>)
    requires Closed(r) && s in r.universe && Plain(r, {}, s) == Done(v)
    requires Answers(r, roots, vals)
    ensures Answers(r, [s] + roots, [v] + vals)
  {
  }
}
