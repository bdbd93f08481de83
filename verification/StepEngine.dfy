/** The memoising step engine of rustbuild.

    `Builder::ensure` runs build steps on demand.  It keeps a stack of the steps
    that are being run, a write-once cache of finished steps, a clock, and the
    time the current step has spent waiting for its dependencies.  A step body
    is a sequence of operations: requests for other steps, and effects on the
    outside world.  Every reading of the clock takes the next value of `clock`,
    so a statement for every monotone `clock` is a statement for every timing.
    The metrics recorder reads the same clock at moments of its own: twice before
    `ensure` starts to measure a step, and twice after it has stopped.
 */
module StepEngine {

  /** One operation of a step body. */
  datatype Op<S, E> = Need(step: S) | Do(effect: E)

  /** The recorder's readings around one event: when it took the elapsed time, and when it restarted
      its timer. */
  datatype Reading = Reading(collected: nat, restarted: nat)

  /** What a run leaves behind, oldest first. */
  datatype Event<S, E> =
    | Enter(step: S, metrics: Reading, at: nat)
    | Leave(step: S, at: nat, exclusive: nat, metrics: Reading)
    | Did(who: S, effect: E)

  /** The ways in which `ensure` can panic. */
  datatype Fault = Cycle | StackEmpty | WrongTop | SecondTime | Underflow

  datatype Outcome<T> = Done(value: T) | Panic(why: Fault)

  datatype Rules<!S, !V, !E> = Rules(
    universe: set<S>,
    body: S -> seq<Op<S, E>>,
    output: (S, seq<V>) -> V,
    clock: nat -> nat)

  datatype State<S(==), V, E> = State(
    stack: seq<S>,
    cache: map<S, V>,
    ticks: nat,
    spent: nat,
    log: seq<Event<S, E>>)

  function Fresh<S(==), V, E>(): State<S, V, E> {
    State([], map[], 0, 0, [])
  }

  function Elems<T>(xs: seq<T>): set<T> {
    set x | x in xs
  }

  predicate OpsIn<S, E>(universe: set<S>, ops: seq<Op<S, E>>) {
    forall i | 0 <= i < |ops| :: ops[i].Need? ==> ops[i].step in universe
  }

  /** The universe of steps is closed under requests. */
  ghost predicate Closed<S, V, E>(r: Rules<S, V, E>) {
    forall s | s in r.universe :: OpsIn(r.universe, r.body(s))
  }

  ghost predicate Monotone(clock: nat -> nat) {
    forall i: nat, j: nat | i <= j :: clock(i) <= clock(j)
  }

  /** A direct request of the body of `a` for `b`. */
  ghost predicate Edge<S, V, E>(r: Rules<S, V, E>, a: S, b: S) {
    Need(b) in r.body(a)
  }

  /** The time between two readings of the clock, never negative. */
  function Elapsed(start: nat, stop: nat): nat {
    if stop < start then 0 else stop - start
  }

  /** `ensure`, as a function from the state before to the outcome and the state after. */
  ghost function Exec<S, V, E>(r: Rules<S, V, E>, st: State<S, V, E>, s: S)
    : (res: (Outcome<V>, State<S, V, E>))
    requires Closed(r) && s in r.universe
    ensures res.0.Done? ==> res.1.stack == st.stack
    decreases r.universe - Elems(st.stack), 0
  {
    if s in st.stack then (Panic(Cycle), st)
    else if s in st.cache then (Done(st.cache[s]), st)
    else
      var inner := Begin(r, st, s);
      assert r.universe - Elems(inner.stack) < r.universe - Elems(st.stack) by {
        assert s in Elems(inner.stack) && Elems(st.stack) <= Elems(inner.stack);
        assert s in r.universe - Elems(st.stack);
      }
      var (out, after) := ExecOps(r, inner, s, r.body(s), []);
      if out.Panic? then (Panic(out.why), after)
      else Finish(r, st, s, out.value, after)
  }

  /** The remaining operations of the body of `s`; `vals` are the answers so far. */
  ghost function ExecOps<S, V, E>(r: Rules<S, V, E>, st: State<S, V, E>, s: S, ops: seq<Op<S, E>>, vals: seq<V>)
    : (res: (Outcome<seq<V>>, State<S, V, E>))
    requires Closed(r) && OpsIn(r.universe, ops)
    ensures res.0.Done? ==> res.1.stack == st.stack
    decreases r.universe - Elems(st.stack), |ops| + 1
  {
    if ops == [] then (Done(vals), st)
    else
      match ops[0]
      case Need(d) =>
        var (out, after) := Exec(r, st, d);
        if out.Panic? then (Panic(out.why), after)
        else ExecOps(r, after, s, ops[1..], vals + [out.value])
      case Do(e) =>
        ExecOps(r, st.(log := st.log + [Did(s, e)]), s, ops[1..], vals)
  }

  function Begin<S(==), V, E>(r: Rules<S, V, E>, st: State<S, V, E>, s: S): State<S, V, E> {
    State(st.stack + [s], st.cache, st.ticks + 3, 0,
          st.log + [Enter(s, Reading(r.clock(st.ticks), r.clock(st.ticks + 1)), r.clock(st.ticks + 2))])
  }

  function Finish<S(==), V, E>(r: Rules<S, V, E>, st: State<S, V, E>, s: S, vals: seq<V>, after: State<S, V, E>)
    : (Outcome<V>, State<S, V, E>)
  {
    var dur := Elapsed(r.clock(st.ticks + 2), r.clock(after.ticks));
    if dur < after.spent then (Panic(Underflow), after)
    else if after.stack == [] then (Panic(StackEmpty), after)
    else if after.stack[|after.stack| - 1] != s then (Panic(WrongTop), after)
    else if s in after.cache then (Panic(SecondTime), after)
    else
      var v := r.output(s, vals);
      var reading := Reading(r.clock(after.ticks + 1), r.clock(after.ticks + 2));
      (Done(v), State(after.stack[..|after.stack| - 1], after.cache[s := v], after.ticks + 3, st.spent + dur,
                      after.log + [Leave(s, r.clock(after.ticks), dur - after.spent, reading)]))
  }

  /** A sequence of root requests, as `StepDescription::run` issues them; a panic ends the run. */
  ghost function ExecAll<S, V, E>(r: Rules<S, V, E>, st: State<S, V, E>, roots: seq<S>)
    : (res: (Outcome<seq<V>>, State<S, V, E>))
    requires Closed(r) && Elems(roots) <= r.universe
    decreases |roots|
  {
    if roots == [] then (Done([]), st)
    else
      assert roots[0] in Elems(roots) && Elems(roots[1..]) <= Elems(roots);
      var (out, after) := Exec(r, st, roots[0]);
      if out.Panic? then (Panic(out.why), after)
      else
        var (rest, end) := ExecAll(r, after, roots[1..]);
        (if rest.Panic? then rest else Done([out.value] + rest.value), end)
  }

  // ---------------------------------------------------------------------------
  // The simple form: recursion without a cache.

  /** `ensure` without the cache: every request is run again; `path` is the set of steps being run. */
  ghost function Plain<S, V, E>(r: Rules<S, V, E>, path: set<S>, s: S): Outcome<V>
    requires Closed(r) && s in r.universe
    decreases r.universe - path, 0
  {
    if s in path then Panic(Cycle)
    else
      assert s in r.universe - path && s !in r.universe - (path + {s});
      var out := PlainOps(r, path + {s}, r.body(s), []);
      if out.Panic? then Panic(out.why) else Done(r.output(s, out.value))
  }

  ghost function PlainOps<S, V, E>(r: Rules<S, V, E>, path: set<S>, ops: seq<Op<S, E>>, vals: seq<V>): Outcome<seq<V>>
    requires Closed(r) && OpsIn(r.universe, ops)
    decreases r.universe - path, |ops| + 1
  {
    if ops == [] then Done(vals)
    else
      match ops[0]
      case Need(d) =>
        var out := Plain(r, path, d);
        if out.Panic? then Panic(out.why) else PlainOps(r, path, ops[1..], vals + [out.value])
      case Do(_) => PlainOps(r, path, ops[1..], vals)
  }

  // ---------------------------------------------------------------------------
  // Walks in the request graph.

  ghost predicate Walk<S, V, E>(r: Rules<S, V, E>, p: seq<S>) {
    p != [] && forall i | 0 <= i < |p| - 1 :: Edge(r, p[i], p[i + 1])
  }

  /** The last step of `p` occurs earlier in `p`. */
  ghost predicate Returns<S>(p: seq<S>) {
    exists i :: 0 <= i < |p| - 1 && p[i] == p[|p| - 1]
  }

  ghost predicate CycleReachable<S(!new), V, E>(r: Rules<S, V, E>, s: S) {
    exists p :: Walk(r, p) && p[0] == s && Returns(p)
  }

  /** No walk from `s` ends in `avoid`. */
  ghost predicate Avoids<S(!new), V, E>(r: Rules<S, V, E>, s: S, avoid: set<S>) {
    forall p :: Walk(r, p) && p[0] == s ==> p[|p| - 1] !in avoid
  }

  lemma WalkTail<S, V, E>(r: Rules<S, V, E>, p: seq<S>)
    requires Walk(r, p) && |p| > 1
    ensures Edge(r, p[0], p[1]) && Walk(r, p[1..])
  {
    forall i | 0 <= i < |p[1..]| - 1
      ensures Edge(r, p[1..][i], p[1..][i + 1])
    {
      assert Edge(r, p[i + 1], p[i + 1 + 1]);
    }
  }

  lemma WalkCons<S, V, E>(r: Rules<S, V, E>, a: S, p: seq<S>)
    requires Walk(r, p) && Edge(r, a, p[0])
    ensures Walk(r, [a] + p)
  {
    var q := [a] + p;
    forall i | 0 <= i < |q| - 1
      ensures Edge(r, q[i], q[i + 1])
    {
      if i > 0 {
        assert Edge(r, p[i - 1], p[i - 1 + 1]);
      }
    }
  }

  /** A walk that starts in a set closed under requests stays there. */
  lemma {:induction false} WalkStays<S, V, E>(r: Rules<S, V, E>, closed: set<S>, p: seq<S>)
    requires Walk(r, p) && p[0] in closed
    requires forall a, b | a in closed && Edge(r, a, b) :: b in closed
    ensures p[|p| - 1] in closed
    decreases |p|
  {
    if |p| > 1 {
      WalkTail(r, p);
      WalkStays(r, closed, p[1..]);
    }
  }
}
