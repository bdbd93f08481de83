/** What a run of the engine leaves in its log: every step body runs at most once,
    completely and in order, and the time accounting of `ensure` is exact. */
module EngineTrace {
  import opened Sequences
  import opened StepEngine

  // ---------------------------------------------------------------------------
  // Every body runs at most once.

  /** The steps whose bodies were started, in order. */
  ghost function Entered<S, E>(log: seq<Event<S, E>>): seq<S> {
    if log == [] then []
    else
      var e := log[|log| - 1];
      Entered(log[..|log| - 1]) + (if e.Enter? then [e.step] else [])
  }

  /** The effects of `s`, in order. */
  ghost function EffectsOf<S, E>(log: seq<Event<S, E>>, s: S): seq<E> {
    if log == [] then []
    else
      var e := log[|log| - 1];
      EffectsOf(log[..|log| - 1], s) + (if e.Did? && e.who == s then [e.effect] else [])
  }

  /** The effects that a body asks for, in order. */
  ghost function Effects<S, E>(ops: seq<Op<S, E>>): seq<E> {
    if ops == [] then []
    else (if ops[0].Do? then [ops[0].effect] else []) + Effects(ops[1..])
  }

  ghost predicate NoDup<T>(xs: seq<T>) {
    forall i, j | 0 <= i < j < |xs| :: xs[i] != xs[j]
  }

  lemma LogGrows<S, E>(log: seq<Event<S, E>>, e: Event<S, E>)
    ensures Entered(log + [e]) == Entered(log) + (if e.Enter? then [e.step] else [])
    ensures forall s :: EffectsOf(log + [e], s) == EffectsOf(log, s) + (if e.Did? && e.who == s then [e.effect] else [])
  {
    assert (log + [e])[..|log|] == log;
  }

  /** Started steps are the cached ones and the running ones, each started once. */
  ghost predicate Once<S, V, E>(st: State<S, V, E>) {
    && NoDup(Entered(st.log))
    && NoDup(st.stack)
    && Elems(Entered(st.log)) == st.cache.Keys + Elems(st.stack)
    && (forall x | x in st.cache :: x !in st.stack)
  }

  /** A finished step left exactly the effects of its body; a step never started left none. */
  ghost predicate Complete<S(!new), V, E>(r: Rules<S, V, E>, st: State<S, V, E>) {
    && (forall x | x in st.cache :: EffectsOf(st.log, x) == Effects(r.body(x)))
    && (forall x | x !in Entered(st.log) :: EffectsOf(st.log, x) == [])
  }

  /** What was started stays started, what was cached stays cached, and only `busy` and steps not
      yet started leave new effects. */
  ghost predicate Preserves<S(!new), V, E>(st: State<S, V, E>, after: State<S, V, E>, busy: set<S>) {
    && (forall x | x in Entered(st.log) :: x in Entered(after.log))
    && (forall x | x in st.cache :: x in after.cache)
    && (forall x | x in Entered(st.log) && x !in busy :: EffectsOf(after.log, x) == EffectsOf(st.log, x))
  }

  /** One call of `ensure`, whether it returns or panics. */
  lemma {:induction false} EnsureRunsOnce<S(!new), V, E>(r: Rules<S, V, E>, st: State<S, V, E>, s: S)
    requires Closed(r) && s in r.universe
    requires Once(st) && Complete(r, st)
    ensures var after := Exec(r, st, s).1;
            Once(after) && Complete(r, after) && Preserves(st, after, {})
    decreases r.universe - Elems(st.stack), 0, 0
  {
    if s !in st.stack && s !in st.cache {
      var inner := Begin(r, st, s);
      EnterKeepsOnce(r, st, s);
      assert Elems(inner.stack) == Elems(st.stack) + {s};
      assert s in r.universe - Elems(st.stack) && s !in r.universe - Elems(inner.stack);
      OpsRunOnce(r, inner, s, r.body(s), []);
      StepRanOnce(r, st, s);
    }
  }

  /** From the start of a step to its end, given what its body did. */
  lemma StepRanOnce<S(!new), V, E>(r: Rules<S, V, E>, st: State<S, V, E>, s: S)
    requires Closed(r) && s in r.universe && s !in st.stack && s !in st.cache
    requires var inner := Begin(r, st, s);
             Preserves(st, inner, {}) && s !in Entered(st.log) && EffectsOf(inner.log, s) == [] && OpsOnce(r, inner, s, r.body(s), [])
    ensures var after := Exec(r, st, s).1;
            Once(after) && Complete(r, after) && Preserves(st, after, {})
  {
    var inner := Begin(r, st, s);
    var (out, mid) := ExecOps(r, inner, s, r.body(s), []);
    assert Preserves(st, mid, {});
    if out.Done? && Finish(r, st, s, out.value, mid).0.Done? {
      assert EffectsOf(mid.log, s) == Effects(r.body(s));
      LeaveKeepsOnce(r, st, s, out.value, mid);
      PreservesTransitive(st, mid, Finish(r, st, s, out.value, mid).1, {});
    }
  }

  lemma EnterKeepsOnce<S(!new), V, E>(r: Rules<S, V, E>, st: State<S, V, E>, s: S)
    requires Once(st) && Complete(r, st) && s !in st.stack && s !in st.cache
    ensures var inner := Begin(r, st, s);
            && Once(inner) && Complete(r, inner) && Preserves(st, inner, {})
            && s !in Entered(st.log) && EffectsOf(inner.log, s) == []
  {
    var inner := Begin(r, st, s);
    LogGrows(st.log, inner.log[|st.log|]);
    assert s !in Elems(Entered(st.log));
    assert Elems(inner.stack) == Elems(st.stack) + {s};
    assert Elems(Entered(inner.log)) == Elems(Entered(st.log)) + {s};
  }

  lemma LeaveKeepsOnce<S(!new), V, E>(r: Rules<S, V, E>, st: State<S, V, E>, s: S, vals: seq<V>, mid: State<S, V, E>)
    requires Once(mid) && Complete(r, mid) && mid.stack == st.stack + [s]
    requires EffectsOf(mid.log, s) == Effects(r.body(s))
    requires Finish(r, st, s, vals, mid).0.Done?
    ensures var after := Finish(r, st, s, vals, mid).1;
            Once(after) && Complete(r, after) && Preserves(mid, after, {})
  {
    var after := Finish(r, st, s, vals, mid).1;
    var e := after.log[|mid.log|];
    assert after.log == mid.log + [e] && e.Leave?;
    LogGrows(mid.log, e);
    assert after.stack == st.stack;
    PopKeepsDistinct(st.stack, s);
    assert after.cache.Keys == mid.cache.Keys + {s};
  }

  lemma PopKeepsDistinct<T>(stack: seq<T>, s: T)
    requires NoDup(stack + [s])
    ensures NoDup(stack) && s !in stack
    ensures Elems(stack + [s]) == Elems(stack) + {s}
    ensures forall x | x !in stack + [s] :: x !in stack
  {
    var long := stack + [s];
    assert long[|stack|] == s;
    assert forall i | 0 <= i < |stack| :: long[i] == stack[i];
  }

  lemma EffectKeepsOnce<S(!new), V, E>(r: Rules<S, V, E>, st: State<S, V, E>, s: S, e: E)
    requires Once(st) && Complete(r, st) && s in st.stack
    ensures var after := st.(log := st.log + [Did(s, e)]);
            && Once(after) && Complete(r, after) && Preserves(st, after, {s})
            && EffectsOf(after.log, s) == EffectsOf(st.log, s) + [e]
  {
    LogGrows(st.log, Did(s, e));
    assert s in Elems(Entered(st.log));
  }

  lemma PreservesTransitive<S(!new), V, E>(a: State<S, V, E>, b: State<S, V, E>, c: State<S, V, E>, busy: set<S>)
    requires Preserves(a, b, busy) && Preserves(b, c, busy)
    ensures Preserves(a, c, busy)
  {
  }

  ghost predicate OpsOnce<S(!new), V, E>(r: Rules<S, V, E>, st: State<S, V, E>, s: S, ops: seq<Op<S, E>>, vals: seq<V>)
    requires Closed(r) && OpsIn(r.universe, ops)
  {
    var (out, after) := ExecOps(r, st, s, ops, vals);
    && Once(after) && Complete(r, after) && Preserves(st, after, {s})
    && (out.Done? ==> EffectsOf(after.log, s) == EffectsOf(st.log, s) + Effects(ops))
  }

  lemma {:induction false} OpsRunOnce<S(!new), V, E>(r: Rules<S, V, E>, st: State<S, V, E>, s: S, ops: seq<Op<S, E>>, vals: seq<V>)
    requires Closed(r) && OpsIn(r.universe, ops)
    requires Once(st) && Complete(r, st) && s in st.stack
    ensures OpsOnce(r, st, s, ops, vals)
    decreases r.universe - Elems(st.stack), |ops| + 1, 1
  {
    if ops == [] {
      assert ExecOps(r, st, s, ops, vals) == (Done(vals), st);
      assert EffectsOf(st.log, s) + [] == EffectsOf(st.log, s);
    } else if ops[0].Need? {
      NeedFirstRunsOnce(r, st, s, ops, vals);
    } else {
      EffectFirstRunsOnce(r, st, s, ops, vals);
    }
  }

  lemma {:induction false} EffectFirstRunsOnce<S(!new), V, E>(r: Rules<S, V, E>, st: State<S, V, E>, s: S, ops: seq<Op<S, E>>, vals: seq<V>)
    requires Closed(r) && OpsIn(r.universe, ops) && ops != [] && ops[0].Do?
    requires Once(st) && Complete(r, st) && s in st.stack
    ensures OpsOnce(r, st, s, ops, vals)
    decreases r.universe - Elems(st.stack), |ops| + 1, 0
  {
    var mid := st.(log := st.log + [Did(s, ops[0].effect)]);
    EffectKeepsOnce(r, st, s, ops[0].effect);
    OpsRunOnce(r, mid, s, ops[1..], vals);
    EffectRunsOnce(r, st, s, ops, vals);
  }

  lemma {:induction false} NeedFirstRunsOnce<S(!new), V, E>(r: Rules<S, V, E>, st: State<S, V, E>, s: S, ops: seq<Op<S, E>>, vals: seq<V>)
    requires Closed(r) && OpsIn(r.universe, ops) && ops != [] && ops[0].Need?
    requires Once(st) && Complete(r, st) && s in st.stack
    ensures OpsOnce(r, st, s, ops, vals)
    decreases r.universe - Elems(st.stack), |ops| + 1, 0
  {
    EnsureRunsOnce(r, st, ops[0].step);
    var (out, mid) := Exec(r, st, ops[0].step);
    if out.Done? {
      OpsRunOnce(r, mid, s, ops[1..], vals + [out.value]);
    }
    NeedRunsOnce(r, st, s, ops, vals);
  }

  lemma NeedRunsOnce<S(!new), V, E>(r: Rules<S, V, E>, st: State<S, V, E>, s: S, ops: seq<Op<S, E>>, vals: seq<V>)
    requires Closed(r) && OpsIn(r.universe, ops) && ops != [] && ops[0].Need?
    requires Once(st) && s in st.stack
    requires var (out, mid) := Exec(r, st, ops[0].step);
             && Once(mid) && Complete(r, mid) && Preserves(st, mid, {})
             && (out.Done? ==> OpsOnce(r, mid, s, ops[1..], vals + [out.value]))
    ensures OpsOnce(r, st, s, ops, vals)
  {
    var (out, mid) := Exec(r, st, ops[0].step);
    assert s in Elems(Entered(st.log));
    if out.Done? {
      var end := ExecOps(r, mid, s, ops[1..], vals + [out.value]);
      assert ExecOps(r, st, s, ops, vals) == end;
      PreservesTransitive(st, mid, end.1, {s});
    }
  }

  lemma EffectRunsOnce<S(!new), V, E>(r: Rules<S, V, E>, st: State<S, V, E>, s: S, ops: seq<Op<S, E>>, vals: seq<V>)
    requires Closed(r) && OpsIn(r.universe, ops) && ops != [] && ops[0].Do?
    requires var mid := st.(log := st.log + [Did(s, ops[0].effect)]);
             && Preserves(st, mid, {s})
             && EffectsOf(mid.log, s) == EffectsOf(st.log, s) + [ops[0].effect]
             && OpsOnce(r, mid, s, ops[1..], vals)
    ensures OpsOnce(r, st, s, ops, vals)
  {
    var mid := st.(log := st.log + [Did(s, ops[0].effect)]);
    var end := ExecOps(r, mid, s, ops[1..], vals);
    assert ExecOps(r, st, s, ops, vals) == end;
    PreservesTransitive(st, mid, end.1, {s});
    Regroup(EffectsOf(st.log, s), [ops[0].effect], Effects(ops[1..]), []);
    assert Effects(ops) == [ops[0].effect] + Effects(ops[1..]);
  }

  /** Whole runs: across any sequence of requests, finished or cut short by a panic, no body is
      started twice, and every finished body left exactly its effects, in order. */
  lemma {:induction false} RunExecutesEachBodyOnce<S(!new), V, E>(r: Rules<S, V, E>, st: State<S, V, E>, roots: seq<S>)
    requires Closed(r) && Elems(roots) <= r.universe
    requires Once(st) && Complete(r, st)
    ensures var after := ExecAll(r, st, roots).1;
            Once(after) && Complete(r, after) && Preserves(st, after, {})
    decreases |roots|
  {
    if roots != [] {
      assert roots[0] in Elems(roots) && Elems(roots[1..]) <= Elems(roots);
      EnsureRunsOnce(r, st, roots[0]);
      var (out, mid) := Exec(r, st, roots[0]);
      if out.Done? {
        RunExecutesEachBodyOnce(r, mid, roots[1..]);
      }
    }
  }

  lemma FreshIsOnce<S(!new), V, E>(r: Rules<S, V, E>)
    ensures Once<S, V, E>(Fresh()) && Complete(r, Fresh())
  {
    var log: seq<Event<S, E>> := [];
    assert Entered(log) == [];
  }

  // ---------------------------------------------------------------------------
  // Positions in the log.

  ghost function Count<T>(xs: seq<T>, x: T): nat {
    if xs == [] then 0 else Count(xs[..|xs| - 1], x) + (if xs[|xs| - 1] == x then 1 else 0)
  }

  lemma CountLast<T>(xs: seq<T>, y: T, x: T)
    ensures Count(xs + [y], x) == Count(xs, x) + (if x == y then 1 else 0)
  {
    assert (xs + [y])[..|xs|] == xs;
  }

  lemma {:induction false} CountConcat<T>(a: seq<T>, b: seq<T>, x: T)
    ensures Count(a + b, x) == Count(a, x) + Count(b, x)
    decreases |b|
  {
    if b == [] {
      assert a + b == a;
    } else {
      var n := |b| - 1;
      assert a + b == (a + b[..n]) + [b[n]];
      CountConcat(a, b[..n], x);
      CountLast(a + b[..n], b[n], x);
    }
  }

  lemma {:induction false} CountIsPositive<T>(xs: seq<T>, x: T)
    ensures Count(xs, x) > 0 <==> x in xs
    decreases |xs|
  {
    if xs != [] {
      CountIsPositive(xs[..|xs| - 1], x);
    }
  }

  lemma EffectsGrow<S, E>(log: seq<Event<S, E>>, s: S, e: E)
    requires log != []
    ensures var n := |log| - 1;
            Count(EffectsOf(log, s), e) == Count(EffectsOf(log[..n], s), e) + (if log[n] == Did(s, e) then 1 else 0)
  {
    var n := |log| - 1;
    var a := EffectsOf(log[..n], s);
    if log[n].Did? && log[n].who == s {
      assert EffectsOf(log, s) == a + [log[n].effect];
      CountLast(a, log[n].effect, e);
    } else {
      assert EffectsOf(log, s) == a;
    }
  }

  /** Two equal effects of one step at different places of the log are two places of its body. */
  lemma {:induction false} RepeatedEffect<S, E>(log: seq<Event<S, E>>, s: S, e: E, i: nat, j: nat)
    requires i < j < |log| && log[i] == Did(s, e) && log[j] == Did(s, e)
    ensures Count(EffectsOf(log, s), e) >= 2
    decreases |log|
  {
    var n := |log| - 1;
    EffectsGrow(log, s, e);
    if j < n {
      RepeatedEffect(log[..n], s, e, i, j);
    } else {
      EffectRecorded(log[..n], s, e, i);
      CountIsPositive(EffectsOf(log[..n], s), e);
    }
  }

  lemma {:induction false} EffectRecorded<S, E>(log: seq<Event<S, E>>, s: S, e: E, i: nat)
    requires i < |log| && log[i] == Did(s, e)
    ensures e in EffectsOf(log, s)
    decreases |log|
  {
    if i < |log| - 1 {
      EffectRecorded(log[..|log| - 1], s, e, i);
    }
  }

  /** An effect in the record of a step stands somewhere in the log. */
  lemma {:induction false} EffectPlace<S, E>(log: seq<Event<S, E>>, s: S, e: E) returns (i: nat)
    requires e in EffectsOf(log, s)
    ensures i < |log| && log[i] == Did(s, e)
    decreases |log|
  {
    var n := |log| - 1;
    if log[n] == Did(s, e) {
      i := n;
    } else {
      i := EffectPlace(log[..n], s, e);
    }
  }

  /** The last effect of a step comes after its other effects. */
  lemma {:induction false} LastEffectPlace<S, E>(log: seq<Event<S, E>>, s: S) returns (k: nat)
    requires EffectsOf(log, s) != []
    ensures k < |log| && log[k] == Did(s, EffectsOf(log, s)[|EffectsOf(log, s)| - 1])
    ensures forall m | k < m < |log| :: !(log[m].Did? && log[m].who == s)
    decreases |log|
  {
    var n := |log| - 1;
    if log[n].Did? && log[n].who == s {
      k := n;
    } else {
      k := LastEffectPlace(log[..n], s);
    }
  }

  // ---------------------------------------------------------------------------
  // Time accounting.

  /** One run of a step, with the runs it waited for and the recorder's readings around it. */
  datatype Span<S> = Span(step: S, before: Reading, start: nat, stop: nat, exclusive: nat, after: Reading, kids: seq<Span<S>>)

  ghost function Opening<S, E>(k: Span<S>): Event<S, E> {
    Enter(k.step, k.before, k.start)
  }

  ghost function Closing<S, E>(k: Span<S>): Event<S, E> {
    Leave(k.step, k.stop, k.exclusive, k.after)
  }

  /** The enter and leave events of a log. */
  ghost function Brackets<S, E>(log: seq<Event<S, E>>): seq<Event<S, E>> {
    if log == [] then []
    else
      var e := log[|log| - 1];
      Brackets(log[..|log| - 1]) + (if e.Did? then [] else [e])
  }

  ghost function Unfold<S, E>(f: seq<Span<S>>): seq<Event<S, E>> {
    if f == [] then []
    else
      var k := f[0];
      [Opening(k)] + Unfold(k.kids) + [Closing(k)] + Unfold(f[1..])
  }

  ghost function TotalDuration<S>(f: seq<Span<S>>): nat {
    if f == [] then 0 else Elapsed(f[0].start, f[0].stop) + TotalDuration(f[1..])
  }

  /** Exclusive times, summed over whole trees. */
  ghost function TotalExclusive<S>(f: seq<Span<S>>): nat {
    if f == [] then 0 else f[0].exclusive + TotalExclusive(f[0].kids) + TotalExclusive(f[1..])
  }

  /** Every span lasts at least as long as its direct dependencies, and its exclusive time is the rest. */
  ghost predicate Timed<S>(f: seq<Span<S>>) {
    f != [] ==>
      && f[0].start <= f[0].stop
      && Timed(f[0].kids)
      && TotalDuration(f[0].kids) <= f[0].stop - f[0].start
      && f[0].exclusive == f[0].stop - f[0].start - TotalDuration(f[0].kids)
      && Timed(f[1..])
  }

  /** The spans follow each other between `lo` and `hi`, and so do the spans inside each. */
  ghost predicate Ordered<S>(lo: nat, f: seq<Span<S>>, hi: nat)
    decreases f
  {
    if f == [] then lo <= hi
    else
      && lo <= f[0].before.collected <= f[0].before.restarted <= f[0].start
      && Ordered(f[0].start, f[0].kids, f[0].stop)
      && f[0].stop <= f[0].after.collected <= f[0].after.restarted
      && Ordered(f[0].after.restarted, f[1..], hi)
  }

  lemma {:induction false} OrderedConcat<S>(lo: nat, a: seq<Span<S>>, mid: nat, b: seq<Span<S>>, hi: nat)
    requires Ordered(lo, a, mid) && Ordered(mid, b, hi)
    ensures Ordered(lo, a + b, hi)
    decreases |a|
  {
    if a == [] {
      assert a + b == b;
    } else {
      assert (a + b)[1..] == a[1..] + b;
      OrderedConcat(a[0].after.restarted, a[1..], mid, b, hi);
    }
  }

  lemma {:induction false} ExclusiveSumsToDuration<S>(f: seq<Span<S>>)
    requires Timed(f)
    ensures TotalExclusive(f) == TotalDuration(f)
  {
    if f != [] {
      ExclusiveSumsToDuration(f[0].kids);
      ExclusiveSumsToDuration(f[1..]);
    }
  }

  lemma {:induction false} UnfoldConcat<S, E>(a: seq<Span<S>>, b: seq<Span<S>>)
    ensures Unfold<S, E>(a + b) == Unfold(a) + Unfold(b)
    ensures TotalDuration(a + b) == TotalDuration(a) + TotalDuration(b)
    ensures Timed(a) && Timed(b) ==> Timed(a + b)
    decreases |a|
  {
    if a == [] {
      assert a + b == b;
    } else {
      assert (a + b)[1..] == a[1..] + b;
      UnfoldConcat<S, E>(a[1..], b);
      var k := a[0];
      Assoc([Opening(k)] + Unfold<S, E>(k.kids) + [Closing(k)], Unfold(a[1..]), Unfold(b));
    }
  }

  lemma BracketsGrow<S, E>(log: seq<Event<S, E>>, e: Event<S, E>)
    ensures Brackets(log + [e]) == Brackets(log) + (if e.Did? then [] else [e])
  {
    assert (log + [e])[..|log|] == log;
  }

  /** The runs `f` account for everything between two states of the engine. */
  ghost predicate Accounts<S, V, E>(r: Rules<S, V, E>, st: State<S, V, E>, after: State<S, V, E>, f: seq<Span<S>>) {
    && Timed(f)
    && Ordered(r.clock(st.ticks), f, r.clock(after.ticks))
    && Brackets(after.log) == Brackets(st.log) + Unfold(f)
    && after.spent == st.spent + TotalDuration(f)
    && st.ticks <= after.ticks
  }

  /** One finished call of `ensure` appends the brackets of exactly the runs it caused. The time it
      charges to its caller is their total duration, and nothing was charged twice. */
  lemma {:induction false} EnsureIsTimed<S, V, E>(r: Rules<S, V, E>, st: State<S, V, E>, s: S) returns (f: seq<Span<S>>)
    requires Closed(r) && s in r.universe && Monotone(r.clock)
    requires Exec(r, st, s).0.Done?
    ensures Accounts(r, st, Exec(r, st, s).1, f)
    ensures f == [] <==> s in st.cache
    ensures f != [] ==> |f| == 1 && f[0].step == s
    decreases r.universe - Elems(st.stack), 0
  {
    f := [];
    if s !in st.cache {
      var inner := Begin(r, st, s);
      assert Elems(inner.stack) == Elems(st.stack) + {s};
      assert s in r.universe - Elems(st.stack) && s !in r.universe - Elems(inner.stack);
      var kids := OpsAreTimed(r, inner, s, r.body(s), []);
      var (out, mid) := ExecOps(r, inner, s, r.body(s), []);
      var start, stop := r.clock(st.ticks + 2), r.clock(mid.ticks);
      f := [Span(s, ReadingAt(r, st.ticks), start, stop, Elapsed(start, stop) - mid.spent, ReadingAt(r, mid.ticks + 1), kids)];
      StepIsTimed(r, st, s, out.value, mid, f[0]);
    }
  }

  lemma AccountsTransitive<S, V, E>(r: Rules<S, V, E>, a: State<S, V, E>, b: State<S, V, E>, c: State<S, V, E>, f: seq<Span<S>>, g: seq<Span<S>>)
    requires Accounts(r, a, b, f) && Accounts(r, b, c, g)
    ensures Accounts(r, a, c, f + g)
  {
    UnfoldConcat<S, E>(f, g);
    OrderedConcat(r.clock(a.ticks), f, r.clock(b.ticks), g, r.clock(c.ticks));
    Regroup(Brackets(a.log), Unfold<S, E>(f), Unfold<S, E>(g), []);
  }

  ghost function ReadingAt<S, V, E>(r: Rules<S, V, E>, t: nat): Reading {
    Reading(r.clock(t), r.clock(t + 1))
  }

  lemma StepIsTimed<S, V, E>(r: Rules<S, V, E>, st: State<S, V, E>, s: S, vals: seq<V>, mid: State<S, V, E>, k: Span<S>)
    requires Monotone(r.clock)
    requires Finish(r, st, s, vals, mid).0.Done?
    requires Accounts(r, Begin(r, st, s), mid, k.kids)
    requires k.step == s && k.start == r.clock(st.ticks + 2) && k.stop == r.clock(mid.ticks)
    requires k.before == ReadingAt(r, st.ticks) && k.after == ReadingAt(r, mid.ticks + 1)
    requires k.exclusive + mid.spent == Elapsed(k.start, k.stop)
    ensures Accounts(r, st, Finish(r, st, s, vals, mid).1, [k])
  {
    assert k.start <= k.stop;
    var after := Finish(r, st, s, vals, mid).1;
    assert after.log == mid.log + [Closing(k)];
    StepIsBracketed(st.log, mid.log, k);
    assert Timed([k]) && TotalDuration([k]) == Elapsed(k.start, k.stop) by {
      UnfoldOne<S, E>(k);
      assert [k][1..] == [];
    }
    SpanIsOrdered(r, st.ticks, mid.ticks, k);
  }

  lemma StepIsBracketed<S, E>(before: seq<Event<S, E>>, log: seq<Event<S, E>>, k: Span<S>)
    requires Brackets(log) == Brackets(before + [Opening(k)]) + Unfold(k.kids)
    ensures Brackets(log + [Closing(k)]) == Brackets(before) + Unfold([k])
  {
    UnfoldOne<S, E>(k);
    BracketsGrow(before, Opening(k));
    BracketsGrow(log, Closing(k));
    Regroup(Brackets(before), [Opening(k)], Unfold(k.kids), [Closing(k)]);
  }

  lemma SpanIsOrdered<S, V, E>(r: Rules<S, V, E>, t: nat, u: nat, k: Span<S>)
    requires Monotone(r.clock) && t + 3 <= u
    requires k.start == r.clock(t + 2) && k.stop == r.clock(u)
    requires k.before == ReadingAt(r, t) && k.after == ReadingAt(r, u + 1)
    requires Ordered(r.clock(t + 3), k.kids, r.clock(u))
    ensures Ordered(r.clock(t), [k], r.clock(u + 3))
  {
    assert r.clock(t) <= r.clock(t + 1) <= r.clock(t + 2) <= r.clock(t + 3);
    assert r.clock(u) <= r.clock(u + 1) <= r.clock(u + 2) <= r.clock(u + 3);
    assert Ordered(k.start, k.kids, k.stop);
    assert [k][1..] == [];
  }

  lemma UnfoldOne<S, E>(k: Span<S>)
    ensures Unfold<S, E>([k]) == [Opening(k)] + Unfold(k.kids) + [Closing(k)]
    ensures TotalDuration([k]) == Elapsed(k.start, k.stop)
  {
    assert [k][1..] == [];
    assert Unfold<S, E>([k][1..]) == [];
  }

  lemma {:induction false} OpsAreTimed<S, V, E>(r: Rules<S, V, E>, st: State<S, V, E>, s: S, ops: seq<Op<S, E>>, vals: seq<V>)
    returns (f: seq<Span<S>>)
    requires Closed(r) && OpsIn(r.universe, ops) && Monotone(r.clock)
    requires ExecOps(r, st, s, ops, vals).0.Done?
    ensures Accounts(r, st, ExecOps(r, st, s, ops, vals).1, f)
    decreases r.universe - Elems(st.stack), |ops| + 1
  {
    f := [];
    if ops != [] {
      match ops[0]
      case Need(x) =>
        var g := EnsureIsTimed(r, st, x);
        var (out, mid) := Exec(r, st, x);
        var h := OpsAreTimed(r, mid, s, ops[1..], vals + [out.value]);
        AccountsTransitive(r, st, mid, ExecOps(r, mid, s, ops[1..], vals + [out.value]).1, g, h);
        f := g + h;
      case Do(e) =>
        BracketsGrow(st.log, Did(s, e));
        f := OpsAreTimed(r, st.(log := st.log + [Did(s, e)]), s, ops[1..], vals);
    }
  }

  /** Whole runs: the bracket structure of the log is a forest of spans whose exclusive times add up
      to the time the top-level steps took. */
  lemma {:induction false} RunIsTimed<S, V, E>(r: Rules<S, V, E>, st: State<S, V, E>, roots: seq<S>) returns (f: seq<Span<S>>)
    requires Closed(r) && Elems(roots) <= r.universe && Monotone(r.clock)
    requires ExecAll(r, st, roots).0.Done?
    ensures Accounts(r, st, ExecAll(r, st, roots).1, f)
    ensures TotalExclusive(f) == TotalDuration(f)
    decreases |roots|
  {
    f := [];
    if roots != [] {
      assert roots[0] in Elems(roots) && Elems(roots[1..]) <= Elems(roots);
      var g := EnsureIsTimed(r, st, roots[0]);
      var mid := Exec(r, st, roots[0]).1;
      var h := RunIsTimed(r, mid, roots[1..]);
      AccountsTransitive(r, st, mid, ExecAll(r, mid, roots[1..]).1, g, h);
      f := g + h;
    }
    ExclusiveSumsToDuration(f);
  }
}
