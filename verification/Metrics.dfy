/** Build metrics: a second, independent account of where the time of a run goes. */
module Metrics {
  import opened Sequences
  import opened Options
  import opened StepEngine
  import opened EngineTrace

  datatype TestSuite = TestSuite(metadata: string, tests: seq<string>)

  datatype StepMetrics<S> = StepMetrics(step: S, exclusive: nat, children: seq<StepMetrics<S>>, suites: seq<TestSuite>)

  datatype Board<S> = Board(finished: seq<StepMetrics<S>>, running: seq<StepMetrics<S>>, timer: Option<nat>)

  /** `collected` is the clock when the elapsed time was taken, `restarted` when the timer was set again. */
  datatype Tick<S> = Started(step: S, collected: nat, restarted: nat) | Stopped(collected: nat, restarted: nat)

  // ---------------------------------------------------------------------------
  // One event. `None` stands for a failed `unwrap`.

  /** Charge the time since the timer was set to the innermost running step. */
  function Collect<S>(b: Board<S>, now: nat): Option<Board<S>> {
    if b.running == [] || b.timer.None? then None
    else
      var n := |b.running| - 1;
      var step := b.running[n];
      Some(b.(running := b.running[..n] + [step.(exclusive := step.exclusive + Elapsed(b.timer.value, now))]))
  }

  function EnterStep<S>(b: Board<S>, step: S, collected: nat, restarted: nat): Option<Board<S>> {
    var c := if b.running == [] then Some(b) else Collect(b, collected);
    if c.None? then None
    else Some(Board(c.value.finished, c.value.running + [StepMetrics(step, 0, [], [])], Some(restarted)))
  }

  function ExitStep<S>(b: Board<S>, collected: nat, restarted: nat): Option<Board<S>> {
    var c := Collect(b, collected);
    if c.None? then None
    else
      var n := |c.value.running| - 1;
      var step := c.value.running[n];
      if n == 0 then Some(Board(c.value.finished + [step], [], None))
      else
        var parent := c.value.running[n - 1];
        Some(Board(c.value.finished, c.value.running[..n - 1] + [parent.(children := parent.children + [step])], Some(restarted)))
  }

  function Apply<S>(b: Board<S>, t: Tick<S>): Option<Board<S>> {
    match t
    case Started(s, c, r) => EnterStep(b, s, c, r)
    case Stopped(c, r) => ExitStep(b, c, r)
  }

  function Process<S>(ticks: seq<Tick<S>>): Option<Board<S>> {
    if ticks == [] then Some(Board([], [], None))
    else
      var b := Process(ticks[..|ticks| - 1]);
      if b.None? then None else Apply(b.value, ticks[|ticks| - 1])
  }

  /** The recorder over mutable fields. */
  class BuildMetrics<S> {
    var finished: seq<StepMetrics<S>>
    var running: seq<StepMetrics<S>>
    var timer: Option<nat>

    constructor ()
      ensures Now() == Board([], [], None)
    {
      finished, running, timer := [], [], None;
    }

    ghost function Now(): Board<S>
      reads this
    {
      Board(finished, running, timer)
    }

    method CollectStats(now: nat)
      requires Collect(Now(), now).Some?
      modifies this
      ensures Some(Now()) == Collect(old(Now()), now)
    {
      var n := |running| - 1;
      running := running[..n] + [running[n].(exclusive := running[n].exclusive + Elapsed(timer.value, now))];
    }

    method Enter(step: S, collected: nat, restarted: nat)
      requires EnterStep(Now(), step, collected, restarted).Some?
      modifies this
      ensures Some(Now()) == EnterStep(old(Now()), step, collected, restarted)
    {
      if running != [] {
        CollectStats(collected);
      }
      timer := Some(restarted);
      running := running + [StepMetrics(step, 0, [], [])];
    }

    method Exit(collected: nat, restarted: nat)
      requires ExitStep(Now(), collected, restarted).Some?
      modifies this
      ensures Some(Now()) == ExitStep(old(Now()), collected, restarted)
    {
      CollectStats(collected);
      var n := |running| - 1;
      var step := running[n];
      running := running[..n];
      if running == [] {
        finished := finished + [step];
        timer := None;
      } else {
        var parent := running[n - 1];
        assert running[..n - 1] == (running + [step])[..n - 1];
        running := running[..n - 1] + [parent.(children := parent.children + [step])];
        timer := Some(restarted);
      }
    }
  }

  // ---------------------------------------------------------------------------
  // Shape and total time of a board.

  datatype Bracket<S> = Open(step: S) | Close

  ghost function Shape<S>(f: seq<StepMetrics<S>>): seq<Bracket<S>> {
    if f == [] then [] else [Open(f[0].step)] + Shape(f[0].children) + [Close] + Shape(f[1..])
  }

  ghost function ShapeRunning<S>(f: seq<StepMetrics<S>>): seq<Bracket<S>> {
    if f == [] then [] else [Open(f[0].step)] + Shape(f[0].children) + ShapeRunning(f[1..])
  }

  ghost function Total<S>(f: seq<StepMetrics<S>>): nat {
    if f == [] then 0 else f[0].exclusive + Total(f[0].children) + Total(f[1..])
  }

  ghost function BracketsOf<S>(ticks: seq<Tick<S>>): seq<Bracket<S>> {
    if ticks == [] then []
    else
      var t := ticks[|ticks| - 1];
      BracketsOf(ticks[..|ticks| - 1]) + [if t.Started? then Open(t.step) else Close]
  }

  /** Steps entered minus steps exited. */
  ghost function Depth<S>(ticks: seq<Tick<S>>): int {
    if ticks == [] then 0
    else Depth(ticks[..|ticks| - 1]) + (if ticks[|ticks| - 1].Started? then 1 else -1)
  }

  /** At no point have more steps been exited than entered. */
  ghost predicate WellNested<S>(ticks: seq<Tick<S>>) {
    ticks != [] ==> WellNested(ticks[..|ticks| - 1]) && Depth(ticks) >= 0
  }

  /** The time during which some step was running and the timer was on. */
  ghost function Covered<S>(ticks: seq<Tick<S>>): nat {
    if |ticks| < 2 then 0
    else
      var before := ticks[..|ticks| - 1];
      Covered(before) + (if Depth(before) > 0 then Elapsed(before[|before| - 1].restarted, ticks[|ticks| - 1].collected) else 0)
  }

  lemma {:induction false} ShapeConcat<S>(a: seq<StepMetrics<S>>, b: seq<StepMetrics<S>>)
    ensures Shape(a + b) == Shape(a) + Shape(b)
    ensures ShapeRunning(a + b) == ShapeRunning(a) + ShapeRunning(b)
    ensures Total(a + b) == Total(a) + Total(b)
    decreases |a|
  {
    if a == [] {
      assert a + b == b;
    } else {
      assert (a + b)[1..] == a[1..] + b;
      ShapeConcat(a[1..], b);
      var open := [Open(a[0].step)] + Shape(a[0].children);
      Assoc(open + [Close], Shape(a[1..]), Shape(b));
      Assoc(open, ShapeRunning(a[1..]), ShapeRunning(b));
    }
  }

  lemma ShapeOne<S>(m: StepMetrics<S>)
    ensures Shape([m]) == [Open(m.step)] + Shape(m.children) + [Close]
    ensures ShapeRunning([m]) == [Open(m.step)] + Shape(m.children)
    ensures Total([m]) == m.exclusive + Total(m.children)
  {
    assert [m][1..] == [];
    assert Shape([m][1..]) == [] && ShapeRunning([m][1..]) == [] && Total([m][1..]) == 0;
  }

  ghost predicate Consistent<S>(b: Board<S>, ticks: seq<Tick<S>>) {
    && (b.timer.Some? <==> b.running != [])
    && (b.running != [] ==> ticks != [] && b.timer == Some(ticks[|ticks| - 1].restarted))
    && |b.running| == Depth(ticks)
    && Shape(b.finished) + ShapeRunning(b.running) == BracketsOf(ticks)
    && Total(b.finished) + Total(b.running) == Covered(ticks)
  }

  lemma CollectKeepsShape<S>(b: Board<S>, now: nat)
    requires Collect(b, now).Some?
    ensures var c := Collect(b, now).value;
            && c.finished == b.finished && c.timer == b.timer && |c.running| == |b.running|
            && ShapeRunning(c.running) == ShapeRunning(b.running)
            && Total(c.running) == Total(b.running) + Elapsed(b.timer.value, now)
  {
    var n := |b.running| - 1;
    var m := b.running[n];
    var m' := m.(exclusive := m.exclusive + Elapsed(b.timer.value, now));
    assert b.running == b.running[..n] + [m];
    ShapeConcat(b.running[..n], [m]);
    ShapeConcat(b.running[..n], [m']);
    ShapeOne(m);
    ShapeOne(m');
  }

  lemma EnterKeepsConsistent<S>(b: Board<S>, ticks: seq<Tick<S>>, s: S, collected: nat, restarted: nat)
    requires Consistent(b, ticks)
    ensures EnterStep(b, s, collected, restarted).Some?
    ensures Consistent(EnterStep(b, s, collected, restarted).value, ticks + [Started(s, collected, restarted)])
  {
    var long := ticks + [Started(s, collected, restarted)];
    assert long[..|long| - 1] == ticks;
    var begun := StepMetrics(s, 0, [], []);
    ShapeOne(begun);
    if b.running != [] {
      CollectKeepsShape(b, collected);
      ShapeConcat(Collect(b, collected).value.running, [begun]);
    } else {
      ShapeConcat([], [begun]);
    }
  }

  lemma ExitKeepsConsistent<S>(b: Board<S>, ticks: seq<Tick<S>>, collected: nat, restarted: nat)
    requires Consistent(b, ticks) && b.running != []
    ensures ExitStep(b, collected, restarted).Some?
    ensures Consistent(ExitStep(b, collected, restarted).value, ticks + [Stopped(collected, restarted)])
  {
    var long := ticks + [Stopped(collected, restarted)];
    assert long[..|long| - 1] == ticks;
    CollectKeepsShape(b, collected);
    PopKeepsShape(Collect(b, collected).value, restarted);
    assert ExitStep(b, collected, restarted) == Some(Popped(Collect(b, collected).value, restarted));
  }

  /** What `exit_step` does after it has charged the time. */
  ghost function Popped<S>(c: Board<S>, restarted: nat): Board<S>
    requires c.running != []
  {
    var n := |c.running| - 1;
    if n == 0 then Board(c.finished + [c.running[n]], [], None)
    else
      var parent := c.running[n - 1];
      Board(c.finished, c.running[..n - 1] + [parent.(children := parent.children + [c.running[n]])], Some(restarted))
  }

  lemma PopKeepsShape<S>(c: Board<S>, restarted: nat)
    requires c.running != []
    ensures var p := Popped(c, restarted);
            && |p.running| == |c.running| - 1
            && Shape(p.finished) + ShapeRunning(p.running) == Shape(c.finished) + ShapeRunning(c.running) + [Close]
            && Total(p.finished) + Total(p.running) == Total(c.finished) + Total(c.running)
  {
    var n := |c.running| - 1;
    var m := c.running[n];
    if n == 0 {
      assert c.running == [m];
      PopToFinished(c.finished, m);
      assert Shape(c.finished) + ShapeRunning([m]) + [Close] + [] == Shape(c.finished) + ShapeRunning([m]) + [Close];
    } else {
      var low, parent := c.running[..n - 1], c.running[n - 1];
      assert c.running == low + [parent] + [m];
      PopToParent(low, parent, m);
      Assoc(Shape(c.finished), ShapeRunning(c.running), [Close]);
    }
  }

  /** Moving the innermost running step to where it is kept closes one bracket. */
  lemma PopToFinished<S>(finished: seq<StepMetrics<S>>, m: StepMetrics<S>)
    ensures Shape(finished + [m]) == Shape(finished) + ShapeRunning([m]) + [Close]
    ensures Total(finished + [m]) == Total(finished) + Total([m])
  {
    ShapeConcat(finished, [m]);
    ShapeOne(m);
  }

  lemma PopToParent<S>(low: seq<StepMetrics<S>>, parent: StepMetrics<S>, m: StepMetrics<S>)
    ensures var up := low + [parent.(children := parent.children + [m])];
            && ShapeRunning(up) == ShapeRunning(low + [parent] + [m]) + [Close]
            && Total(up) == Total(low + [parent] + [m])
  {
    var parent' := parent.(children := parent.children + [m]);
    ShapeConcat(low + [parent], [m]);
    ShapeConcat(low, [parent]);
    ShapeConcat(low, [parent']);
    ParentShape(parent, m);
  }

  lemma ParentShape<S>(parent: StepMetrics<S>, m: StepMetrics<S>)
    ensures var parent' := parent.(children := parent.children + [m]);
            && ShapeRunning([parent']) == ShapeRunning([parent]) + ShapeRunning([m]) + [Close]
            && Total([parent']) == Total([parent]) + Total([m])
  {
    ShapeConcat(parent.children, [m]);
    ShapeOne(m);
    ShapeOne(parent);
    ShapeOne(parent.(children := parent.children + [m]));
    Nested([Open(parent.step)], Shape(parent.children), [Open(m.step)] + Shape(m.children), [Close]);
  }

  /** No `unwrap` fails exactly when no step is exited before it was entered. Then the recorded forest,
      finished and still running, mirrors the nesting, the timer is on exactly while a step runs, and
      the exclusive times add up to the time covered. */
  lemma {:induction false} RecordingIsExact<S>(ticks: seq<Tick<S>>)
    ensures Process(ticks).Some? <==> WellNested(ticks)
    ensures Process(ticks).Some? ==> Consistent(Process(ticks).value, ticks)
    decreases |ticks|
  {
    if ticks != [] {
      var n := |ticks| - 1;
      var before := ticks[..n];
      RecordingIsExact(before);
      if Process(before).Some? {
        OneMoreTick(Process(before).value, before, ticks[n]);
        assert ticks == before + [ticks[n]];
      }
    }
  }

  lemma OneMoreTick<S>(b: Board<S>, ticks: seq<Tick<S>>, t: Tick<S>)
    requires Consistent(b, ticks) && WellNested(ticks)
    ensures Apply(b, t).Some? <==> WellNested(ticks + [t])
    ensures Apply(b, t).Some? ==> Consistent(Apply(b, t).value, ticks + [t])
  {
    NestedGrows(ticks, t);
    match t
    case Started(s, c, r) => EnterKeepsConsistent(b, ticks, s, c, r);
    case Stopped(c, r) =>
      if b.running != [] {
        ExitKeepsConsistent(b, ticks, c, r);
      }
  }

  lemma NestedGrows<S>(ticks: seq<Tick<S>>, t: Tick<S>)
    ensures Depth(ticks + [t]) == Depth(ticks) + (if t.Started? then 1 else -1)
    ensures WellNested(ticks + [t]) <==> WellNested(ticks) && Depth(ticks + [t]) >= 0
  {
    assert (ticks + [t])[..|ticks|] == ticks;
  }

  // ---------------------------------------------------------------------------
  // The two accounts of one run.

  /** The time from the recorder's first reading for a span to its last one, summed over a forest. */
  ghost function Held<S>(f: seq<Span<S>>): nat {
    if f == [] then 0 else Elapsed(f[0].before.collected, f[0].after.restarted) + Held(f[1..])
  }

  /** The exclusive time of a span as the recorder measures it: from its own restart to its own
      collection, without what the inner spans held. */
  ghost function Recorded<S>(k: Span<S>): nat {
    Elapsed(Held(k.kids), Elapsed(k.before.restarted, k.after.collected))
  }

  /** What the recorder shows for a forest of engine runs. */
  ghost function Mirror<S>(f: seq<Span<S>>): seq<StepMetrics<S>> {
    if f == [] then []
    else [StepMetrics(f[0].step, Recorded(f[0]), Mirror(f[0].kids), [])] + Mirror(f[1..])
  }

  /** The recorder's view of the engine's enter and leave events, with its own readings of the clock. */
  ghost function Ticks<S, E>(log: seq<Event<S, E>>): seq<Tick<S>> {
    if log == [] then []
    else
      match log[0]
      case Enter(s, m, _) => [Started(s, m.collected, m.restarted)] + Ticks(log[1..])
      case Leave(_, _, _, m) => [Stopped(m.collected, m.restarted)] + Ticks(log[1..])
      case Did(_, _) => Ticks(log[1..])
  }

  ghost function Continue<S>(b: Board<S>, ticks: seq<Tick<S>>): Option<Board<S>>
    decreases |ticks|
  {
    if ticks == [] then Some(b)
    else
      var c := Apply(b, ticks[0]);
      if c.None? then None else Continue(c.value, ticks[1..])
  }

  lemma {:induction false} ContinueConcat<S>(b: Board<S>, x: seq<Tick<S>>, y: seq<Tick<S>>)
    ensures Continue(b, x + y) == (var c := Continue(b, x); if c.None? then None else Continue(c.value, y))
    decreases |x|
  {
    if x == [] {
      assert x + y == y;
    } else {
      assert (x + y)[1..] == x[1..] + y;
      var c := Apply(b, x[0]);
      if c.Some? {
        ContinueConcat(c.value, x[1..], y);
      }
    }
  }

  lemma {:induction false} ProcessContinues<S>(ticks: seq<Tick<S>>)
    ensures Process(ticks) == Continue(Board([], [], None), ticks)
    decreases |ticks|
  {
    if ticks != [] {
      var n := |ticks| - 1;
      ProcessContinues(ticks[..n]);
      assert ticks == ticks[..n] + [ticks[n]];
      ContinueConcat(Board([], [], None), ticks[..n], [ticks[n]]);
      var b := Process(ticks[..n]);
      if b.Some? {
        ContinueOne(b.value, ticks[n]);
      }
    }
  }

  lemma ContinueOne<S>(b: Board<S>, t: Tick<S>)
    ensures Continue(b, [t]) == Apply(b, t)
  {
    assert [t][1..] == [];
  }

  lemma {:induction false} TicksConcat<S, E>(a: seq<Event<S, E>>, b: seq<Event<S, E>>)
    ensures Ticks(a + b) == Ticks(a) + Ticks(b)
    decreases |a|
  {
    if a == [] {
      assert a + b == b;
    } else {
      assert (a + b)[1..] == a[1..] + b;
      TicksConcat(a[1..], b);
      var first := Ticks([a[0]]);
      assert [a[0]][1..] == [];
      Assoc(first, Ticks(a[1..]), Ticks(b));
    }
  }

  /** The ticks of a forest, one span at a time. */
  ghost function ForestTicks<S>(f: seq<Span<S>>): seq<Tick<S>> {
    if f == [] then [] else [First(f[0])] + ForestTicks(f[0].kids) + [Last(f[0])] + ForestTicks(f[1..])
  }

  ghost function First<S>(k: Span<S>): Tick<S> {
    Started(k.step, k.before.collected, k.before.restarted)
  }

  ghost function Last<S>(k: Span<S>): Tick<S> {
    Stopped(k.after.collected, k.after.restarted)
  }

  ghost function SpanTicks<S>(k: Span<S>): seq<Tick<S>> {
    [First(k)] + ForestTicks(k.kids) + [Last(k)]
  }

  lemma {:induction false} UnfoldTicks<S, E>(f: seq<Span<S>>)
    ensures Ticks(Unfold<S, E>(f)) == ForestTicks(f)
  {
    if f != [] {
      var k := f[0];
      var a, b: seq<Event<S, E>> := [Opening(k)], Unfold(k.kids);
      var c, d: seq<Event<S, E>> := [Closing(k)], Unfold(f[1..]);
      assert Unfold<S, E>(f) == a + b + c + d;
      TicksConcat(a + b + c, d);
      TicksConcat(a + b, c);
      TicksConcat(a, b);
      assert a[1..] == [] && c[1..] == [] && Ticks(a[1..]) == [] && Ticks(c[1..]) == [];
      UnfoldTicks<S, E>(k.kids);
      UnfoldTicks<S, E>(f[1..]);
    }
  }

  /** Where the recorder's timer stands after a forest. */
  ghost function EndOf<S>(t: nat, f: seq<Span<S>>): nat
    decreases |f|
  {
    if f == [] then t else EndOf(f[0].after.restarted, f[1..])
  }

  lemma {:induction false} OrderedWider<S>(lower: nat, lo: nat, f: seq<Span<S>>, hi: nat, higher: nat)
    requires Ordered(lo, f, hi) && lower <= lo && hi <= higher
    ensures Ordered(lower, f, higher)
    decreases |f|
  {
    if f != [] {
      OrderedWider(f[0].after.restarted, f[0].after.restarted, f[1..], hi, higher);
    }
  }

  lemma {:induction false} EndBound<S>(t: nat, f: seq<Span<S>>, hi: nat)
    requires Ordered(t, f, hi)
    ensures t + Held(f) <= EndOf(t, f) <= hi
    decreases |f|
  {
    if f != [] {
      SpanBound(f[0].start, f[0].kids, f[0].stop);
      EndBound(f[0].after.restarted, f[1..], hi);
    }
  }

  lemma {:induction false} SpanBound<S>(lo: nat, f: seq<Span<S>>, hi: nat)
    requires Ordered(lo, f, hi)
    ensures lo <= hi
    decreases f
  {
    if f != [] {
      SpanBound(f[0].start, f[0].kids, f[0].stop);
      SpanBound(f[0].after.restarted, f[1..], hi);
    }
  }

  ghost function MirrorOf<S>(k: Span<S>): StepMetrics<S> {
    StepMetrics(k.step, Recorded(k), Mirror(k.kids), [])
  }

  ghost function Charged<S>(m: StepMetrics<S>, time: nat): StepMetrics<S> {
    m.(exclusive := m.exclusive + time)
  }

  ghost function Begun<S>(s: S): StepMetrics<S> {
    StepMetrics(s, 0, [], [])
  }

  ghost function Adopt<S>(p: StepMetrics<S>, m: StepMetrics<S>): StepMetrics<S> {
    p.(children := p.children + [m])
  }

  lemma CollectInside<S>(finished: seq<StepMetrics<S>>, low: seq<StepMetrics<S>>, p: StepMetrics<S>, t: nat, now: nat)
    ensures Collect(Board(finished, low + [p], Some(t)), now) == Some(Board(finished, low + [Charged(p, Elapsed(t, now))], Some(t)))
  {
    assert (low + [p])[..|low|] == low;
  }

  lemma EnterInside<S>(finished: seq<StepMetrics<S>>, low: seq<StepMetrics<S>>, p: StepMetrics<S>, t: nat, s: S, now: nat, again: nat)
    ensures Apply(Board(finished, low + [p], Some(t)), Started(s, now, again))
            == Some(Board(finished, low + [Charged(p, Elapsed(t, now))] + [Begun(s)], Some(again)))
  {
    CollectInside(finished, low, p, t, now);
  }

  lemma ExitInside<S>(finished: seq<StepMetrics<S>>, low: seq<StepMetrics<S>>, p: StepMetrics<S>, m: StepMetrics<S>, t: nat, now: nat, again: nat)
    ensures Apply(Board(finished, low + [p] + [m], Some(t)), Stopped(now, again))
            == Some(Board(finished, low + [Adopt(p, Charged(m, Elapsed(t, now)))], Some(again)))
  {
    CollectInside(finished, low + [p], m, t, now);
    assert (low + [p] + [Charged(m, Elapsed(t, now))])[..|low|] == low;
  }

  lemma ExitTop<S>(finished: seq<StepMetrics<S>>, m: StepMetrics<S>, t: nat, now: nat, again: nat)
    ensures Apply(Board(finished, [] + [m], Some(t)), Stopped(now, again))
            == Some(Board(finished + [Charged(m, Elapsed(t, now))], [], None))
  {
    CollectInside(finished, [], m, t, now);
  }

  /** A first tick, some ticks, and a last one. */
  lemma Around<S>(b: Board<S>, first: Tick<S>, c: Board<S>, mid: seq<Tick<S>>, d: Board<S>, last: Tick<S>, e: Board<S>)
    requires Apply(b, first) == Some(c) && Continue(c, mid) == Some(d) && Apply(d, last) == Some(e)
    ensures Continue(b, [first] + mid + [last]) == Some(e)
  {
    ContinueConcat(b, [first] + mid, [last]);
    assert ([first] + mid)[1..] == mid;
    assert [last][1..] == [];
  }

  /** `p` once the spans of `f` ran inside it: their mirrors are among its children and the gaps
      between them, up to the end of the last one, are charged to it. */
  ghost function Grown<S>(p: StepMetrics<S>, t: nat, f: seq<Span<S>>): StepMetrics<S>
    requires t + Held(f) <= EndOf(t, f)
  {
    p.(exclusive := p.exclusive + (EndOf(t, f) - t - Held(f)), children := p.children + Mirror(f))
  }

  lemma GrownSplits<S>(p: StepMetrics<S>, t: nat, f: seq<Span<S>>)
    requires f != [] && t <= f[0].before.collected <= f[0].after.restarted
    requires f[0].after.restarted + Held(f[1..]) <= EndOf(f[0].after.restarted, f[1..])
    ensures t + Held(f) <= EndOf(t, f)
    ensures Grown(p, t, f)
            == Grown(Adopt(Charged(p, Elapsed(t, f[0].before.collected)), MirrorOf(f[0])), f[0].after.restarted, f[1..])
  {
    Assoc(p.children, [MirrorOf(f[0])], Mirror(f[1..]));
  }

  /** A step that just began grows into the mirror of its span once it is charged up to its end. */
  lemma BegunGrows<S>(k: Span<S>)
    requires k.before.restarted + Held(k.kids) <= EndOf(k.before.restarted, k.kids) <= k.after.collected
    ensures Charged(Grown(Begun(k.step), k.before.restarted, k.kids), Elapsed(EndOf(k.before.restarted, k.kids), k.after.collected))
            == MirrorOf(k)
  {
    assert [] + Mirror(k.kids) == Mirror(k.kids);
  }

  /** Inside a running step: each span is mirrored and the gaps are charged to that step. */
  lemma {:induction false} ForestInsideStep<S>(finished: seq<StepMetrics<S>>, low: seq<StepMetrics<S>>, p: StepMetrics<S>, t: nat, f: seq<Span<S>>, hi: nat)
    requires Ordered(t, f, hi)
    ensures t + Held(f) <= EndOf(t, f) <= hi
    ensures Continue(Board(finished, low + [p], Some(t)), ForestTicks(f)) == Some(Board(finished, low + [Grown(p, t, f)], Some(EndOf(t, f))))
    decreases f, 1
  {
    EndBound(t, f, hi);
    if f == [] {
      assert p.children + [] == p.children;
    } else {
      var k, rest := f[0], f[1..];
      var p' := Adopt(Charged(p, Elapsed(t, k.before.collected)), MirrorOf(k));
      SpanInsideStep(finished, low, p, t, f);
      ForestInsideStep(finished, low, p', k.after.restarted, rest, hi);
      SpanBound(k.start, k.kids, k.stop);
      GrownSplits(p, t, f);
      ContinueConcat(Board(finished, low + [p], Some(t)), SpanTicks(k), ForestTicks(rest));
    }
  }

  /** The inner spans lie between the recorder's restart for a step and its collection. */
  ghost predicate Encloses<S>(k: Span<S>) {
    && k.before.restarted <= k.start && k.stop <= k.after.collected
    && Ordered(k.start, k.kids, k.stop)
  }

  lemma {:induction false} SpanInsideStep<S>(finished: seq<StepMetrics<S>>, low: seq<StepMetrics<S>>, p: StepMetrics<S>, t: nat, f: seq<Span<S>>)
    requires f != [] && Encloses(f[0])
    ensures Continue(Board(finished, low + [p], Some(t)), SpanTicks(f[0]))
            == Some(Board(finished, low + [Adopt(Charged(p, Elapsed(t, f[0].before.collected)), MirrorOf(f[0]))], Some(f[0].after.restarted)))
    decreases f, 0
  {
    var k := f[0];
    var from, to := k.before.restarted, k.after.collected;
    var p1 := Charged(p, Elapsed(t, k.before.collected));
    EnterInside(finished, low, p, t, k.step, k.before.collected, from);
    OrderedWider(from, k.start, k.kids, k.stop, to);
    ForestInsideStep(finished, low + [p1], Begun(k.step), from, k.kids, to);
    var end := EndOf(from, k.kids);
    var m := Grown(Begun(k.step), from, k.kids);
    ExitInside(finished, low, p1, m, end, to, k.after.restarted);
    BegunGrows(k);
    Around(Board(finished, low + [p], Some(t)), First(k),
           Board(finished, low + [p1] + [Begun(k.step)], Some(from)), ForestTicks(k.kids),
           Board(finished, low + [p1] + [m], Some(end)), Last(k),
           Board(finished, low + [Adopt(p1, MirrorOf(k))], Some(k.after.restarted)));
  }

  /** At top level, a span is recorded as its mirror. */
  lemma SpanAtTop<S>(finished: seq<StepMetrics<S>>, k: Span<S>)
    requires Encloses(k)
    ensures Continue(Board(finished, [], None), SpanTicks(k)) == Some(Board(finished + [MirrorOf(k)], [], None))
  {
    var from, to := k.before.restarted, k.after.collected;
    OrderedWider(from, k.start, k.kids, k.stop, to);
    ForestInsideStep(finished, [], Begun(k.step), from, k.kids, to);
    var end := EndOf(from, k.kids);
    var m := Grown(Begun(k.step), from, k.kids);
    ExitTop(finished, m, end, to, k.after.restarted);
    BegunGrows(k);
    Around(Board(finished, [], None), First(k),
           Board(finished, [] + [Begun(k.step)], Some(from)), ForestTicks(k.kids),
           Board(finished, [] + [m], Some(end)), Last(k),
           Board(finished + [MirrorOf(k)], [], None));
  }

  /** At top level, a forest is recorded as its mirror. */
  lemma {:induction false} ForestAtTop<S>(finished: seq<StepMetrics<S>>, lo: nat, f: seq<Span<S>>, hi: nat)
    requires Ordered(lo, f, hi)
    ensures Continue(Board(finished, [], None), ForestTicks(f)) == Some(Board(finished + Mirror(f), [], None))
    decreases |f|
  {
    if f == [] {
      assert finished + [] == finished;
    } else {
      var k, rest := f[0], f[1..];
      SpanAtTop(finished, k);
      ForestAtTop(finished + [MirrorOf(k)], k.after.restarted, rest, hi);
      Assoc(finished, [MirrorOf(k)], Mirror(rest));
      ContinueConcat(Board(finished, [], None), SpanTicks(k), ForestTicks(rest));
    }
  }

  /** What the recorder spends around the spans of a forest, outside of what `ensure` measures. */
  ghost function Overhead<S>(f: seq<Span<S>>): nat {
    if f == [] then 0
    else Elapsed(f[0].before.collected, f[0].start) + Elapsed(f[0].stop, f[0].after.restarted) + Overhead(f[1..])
  }

  /** At every node of a forest the two figures differ by exactly the recorder's overhead: inside the
      step around its dependencies on one side, around the step itself on the other. */
  ghost predicate Reconciled<S>(f: seq<Span<S>>) {
    f != [] ==>
      && Recorded(f[0]) + Overhead(f[0].kids)
         == f[0].exclusive + Elapsed(f[0].before.restarted, f[0].start) + Elapsed(f[0].stop, f[0].after.collected)
      && Reconciled(f[0].kids)
      && Reconciled(f[1..])
  }

  lemma {:induction false} HeldSplits<S>(lo: nat, f: seq<Span<S>>, hi: nat)
    requires Ordered(lo, f, hi)
    ensures Held(f) == TotalDuration(f) + Overhead(f)
    decreases |f|
  {
    if f != [] {
      SpanBound(f[0].start, f[0].kids, f[0].stop);
      HeldSplits(f[0].after.restarted, f[1..], hi);
    }
  }

  lemma {:induction false} AccountsAreReconciled<S>(lo: nat, f: seq<Span<S>>, hi: nat)
    requires Timed(f) && Ordered(lo, f, hi)
    ensures Reconciled(f)
    decreases f
  {
    if f != [] {
      var k := f[0];
      HeldSplits(k.start, k.kids, k.stop);
      OrderedWider(k.before.restarted, k.start, k.kids, k.stop, k.after.collected);
      EndBound(k.before.restarted, k.kids, k.after.collected);
      AccountsAreReconciled(k.start, k.kids, k.stop);
      AccountsAreReconciled(k.after.restarted, f[1..], hi);
    }
  }

  /** The forest with the exclusive times that `ensure` computed. */
  ghost function Measured<S>(f: seq<Span<S>>): seq<StepMetrics<S>> {
    if f == [] then []
    else [StepMetrics(f[0].step, f[0].exclusive, Measured(f[0].kids), [])] + Measured(f[1..])
  }

  /** All six readings around a step coincide in two moments. */
  ghost predicate NoOverhead<S>(f: seq<Span<S>>) {
    f != [] ==>
      && f[0].before == Reading(f[0].start, f[0].start) && f[0].after == Reading(f[0].stop, f[0].stop)
      && NoOverhead(f[0].kids) && NoOverhead(f[1..])
  }

  /** If the recorder takes no time, the two accounts show the same figures at every node. */
  lemma {:induction false} SameFiguresWithoutOverhead<S>(f: seq<Span<S>>)
    requires Reconciled(f) && NoOverhead(f)
    ensures Mirror(f) == Measured(f) && Overhead(f) == 0
  {
    if f != [] {
      SameFiguresWithoutOverhead(f[0].kids);
      SameFiguresWithoutOverhead(f[1..]);
    }
  }

  /** In every finished run of the engine, the recorder, reading the clock for itself, ends with no
      running step and a forest whose nodes are the steps that ran, nested as they ran. At every node
      its figure and the exclusive time that `ensure` computed are reconciled. */
  lemma RecorderAgreesWithEngine<S, V, E>(r: Rules<S, V, E>, roots: seq<S>) returns (f: seq<Span<S>>)
    requires Closed(r) && Elems(roots) <= r.universe && Monotone(r.clock)
    requires ExecAll(r, Fresh(), roots).0.Done?
    ensures var end := ExecAll(r, Fresh(), roots).1;
            && Brackets(end.log) == Unfold(f)
            && Process(Ticks(Brackets(end.log))) == Some(Board(Mirror(f), [], None))
            && end.spent == TotalExclusive(f)
    ensures Reconciled(f)
    ensures NoOverhead(f) ==> Mirror(f) == Measured(f)
  {
    f := RunIsTimed(r, Fresh(), roots);
    var end := ExecAll(r, Fresh(), roots).1;
    var none: seq<Event<S, E>> := [];
    assert Brackets(none) == [];
    assert Brackets(end.log) == Unfold(f);
    ForestIsRecorded<S, E>(r.clock(0), f, r.clock(end.ticks));
    AccountsAreReconciled(r.clock(0), f, r.clock(end.ticks));
    if NoOverhead(f) {
      SameFiguresWithoutOverhead(f);
    }
  }

  lemma ForestIsRecorded<S, E>(lo: nat, f: seq<Span<S>>, hi: nat)
    requires Ordered(lo, f, hi)
    ensures Process(Ticks(Unfold<S, E>(f))) == Some(Board(Mirror(f), [], None))
  {
    UnfoldTicks<S, E>(f);
    ProcessContinues(ForestTicks(f));
    ForestAtTop([], lo, f, hi);
    assert [] + Mirror(f) == Mirror(f);
  }

  // ---------------------------------------------------------------------------
  // JSON.

  datatype JsonNode<S> = RustbuildStep(step: S, exclusive: nat, children: seq<JsonNode<S>>) | Suite(suite: TestSuite)

  function Suites<S>(suites: seq<TestSuite>): seq<JsonNode<S>> {
    if suites == [] then [] else [Suite(suites[0])] + Suites(suites[1..])
  }

  /** Child steps first, then test suites. */
  function PrepareJsonStep<S>(m: StepMetrics<S>): JsonNode<S> {
    RustbuildStep(m.step, m.exclusive, PrepareJsonSteps(m.children) + Suites(m.suites))
  }

  function PrepareJsonSteps<S>(ms: seq<StepMetrics<S>>): seq<JsonNode<S>> {
    if ms == [] then [] else [PrepareJsonStep(ms[0])] + PrepareJsonSteps(ms[1..])
  }

  /** Reading a node list back: the steps and the suites it holds, in order. */
  function ReadSteps<S>(nodes: seq<JsonNode<S>>): seq<StepMetrics<S>> {
    if nodes == [] then [] else ReadStep(nodes[0]) + ReadSteps(nodes[1..])
  }

  function ReadStep<S>(node: JsonNode<S>): seq<StepMetrics<S>> {
    match node
    case RustbuildStep(s, x, kids) => [StepMetrics(s, x, ReadSteps(kids), ReadSuites(kids))]
    case Suite(_) => []
  }

  function ReadSuites<S>(nodes: seq<JsonNode<S>>): seq<TestSuite> {
    if nodes == [] then []
    else (if nodes[0].Suite? then [nodes[0].suite] else []) + ReadSuites(nodes[1..])
  }

  lemma {:induction false} ReadConcat<S>(a: seq<JsonNode<S>>, b: seq<JsonNode<S>>)
    ensures ReadSteps(a + b) == ReadSteps(a) + ReadSteps(b)
    ensures ReadSuites(a + b) == ReadSuites(a) + ReadSuites(b)
    decreases |a|
  {
    if a == [] {
      assert a + b == b;
    } else {
      assert (a + b)[1..] == a[1..] + b;
      ReadConcat(a[1..], b);
      var suite := if a[0].Suite? then [a[0].suite] else [];
      Regroup(ReadStep(a[0]), ReadSteps(a[1..]), ReadSteps(b), []);
      Regroup(suite, ReadSuites(a[1..]), ReadSuites(b), []);
    }
  }

  lemma {:induction false} ReadJustSuites<S>(suites: seq<TestSuite>)
    ensures ReadSteps(Suites<S>(suites)) == [] && ReadSuites(Suites<S>(suites)) == suites
  {
    if suites != [] {
      ReadJustSuites<S>(suites[1..]);
      assert Suites<S>(suites)[1..] == Suites(suites[1..]);
    }
  }

  /** The JSON conversion loses nothing: steps, nesting, exclusive times and suites can be read back. */
  lemma {:induction false} JsonRoundTrip<S>(ms: seq<StepMetrics<S>>)
    ensures ReadSteps(PrepareJsonSteps(ms)) == ms && ReadSuites(PrepareJsonSteps(ms)) == []
  {
    if ms != [] {
      JsonRoundTrip(ms[0].children);
      JsonRoundTrip(ms[1..]);
      JsonOneStep(ms[0]);
      assert PrepareJsonSteps(ms)[1..] == PrepareJsonSteps(ms[1..]);
      assert [ms[0]] + ms[1..] == ms;
    }
  }

  lemma JsonOneStep<S>(m: StepMetrics<S>)
    requires ReadSteps(PrepareJsonSteps(m.children)) == m.children && ReadSuites(PrepareJsonSteps(m.children)) == []
    ensures ReadStep(PrepareJsonStep(m)) == [m]
  {
    ReadConcat(PrepareJsonSteps(m.children), Suites(m.suites));
    ReadJustSuites<S>(m.suites);
    assert m.children + [] == m.children && [] + m.suites == m.suites;
  }

  /** The children of a node are the nodes of its child steps, in order, and after them its test suites. */
  lemma StepsComeBeforeSuites<S>(m: StepMetrics<S>, i: nat)
    ensures |PrepareJsonStep(m).children| == |m.children| + |m.suites|
    ensures i < |m.children| ==>
              var node := PrepareJsonStep(m).children[i];
              node.RustbuildStep? && node.step == m.children[i].step && node.exclusive == m.children[i].exclusive
              && ReadStep(node) == [m.children[i]]
    ensures i < |m.suites| ==> PrepareJsonStep(m).children[|m.children| + i] == Suite(m.suites[i])
  {
    JsonNodes(m.children, i);
    SuiteNodes<S>(m.suites, i);
  }

  lemma {:induction false} JsonNodes<S>(ms: seq<StepMetrics<S>>, i: nat)
    ensures |PrepareJsonSteps(ms)| == |ms|
    ensures i < |ms| ==> PrepareJsonSteps(ms)[i] == PrepareJsonStep(ms[i]) && ReadStep(PrepareJsonStep(ms[i])) == [ms[i]]
    decreases |ms|
  {
    if ms != [] {
      JsonNodes(ms[1..], if i == 0 then 0 else i - 1);
      if i == 0 {
        JsonRoundTrip(ms[0].children);
        JsonOneStep(ms[0]);
      }
    }
  }

  lemma {:induction false} SuiteNodes<S>(suites: seq<TestSuite>, i: nat)
    ensures |Suites<S>(suites)| == |suites|
    ensures i < |suites| ==> Suites<S>(suites)[i] == Suite(suites[i])
  {
    if suites != [] {
      SuiteNodes<S>(suites[1..], if i == 0 then 0 else i - 1);
    }
  }
}
