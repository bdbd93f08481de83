/** `Builder`: the engine as rustbuild runs it, over mutable fields. */
module BuilderObject {
  import opened StepEngine

  class Builder<S(==), V, E> {
    const rules: Rules<S, V, E>
    var stack: seq<S>
    var cache: map<S, V>
    var ticks: nat
    var timeSpentOnDependencies: nat
    var log: seq<Event<S, E>>

    constructor (rules: Rules<S, V, E>)
      ensures this.rules == rules && Now() == Fresh()
    {
      this.rules := rules;
      stack, cache, ticks, timeSpentOnDependencies, log := [], map[], 0, 0, [];
    }

    ghost function Now(): State<S, V, E>
      reads this
    {
      State(stack, cache, ticks, timeSpentOnDependencies, log)
    }

    /** Read the clock. */
    method Instant() returns (now: nat)
      modifies this`ticks
      ensures now == rules.clock(old(ticks)) && ticks == old(ticks) + 1
    {
      now := rules.clock(ticks);
      ticks := ticks + 1;
    }

    /** Whether a step is being run: a scan of the stack from the bottom. */
    method IsRunning(step: S) returns (found: bool)
      ensures found <==> step in stack
    {
      for i := 0 to |stack|
        invariant forall k | 0 <= k < i :: stack[k] != step
      {
        if stack[i] == step {
          return true;
        }
      }
      return false;
    }

    /** Run a step unless it is cached. The outcome and the new state are those of `Exec`. */
    method Ensure(step: S) returns (out: Outcome<V>)
      requires Closed(rules) && step in rules.universe
      modifies this
      ensures (out, Now()) == Exec(rules, old(Now()), step)
      decreases rules.universe - Elems(stack), 0
    {
      var running := IsRunning(step);
      if running {
        return Panic(Cycle);
      }
      if step in cache {
        return Done(cache[step]);
      }
      ghost var before := Now();
      stack := stack + [step];
      var collected := Instant();
      var restarted := Instant();
      var start := Instant();
      log := log + [Enter(step, Reading(collected, restarted), start)];
      var parent := timeSpentOnDependencies;
      timeSpentOnDependencies := 0;
      assert Now() == Begin(rules, before, step);
      assert Elems(stack) == Elems(before.stack) + {step};
      assert step in rules.universe - Elems(before.stack) && step !in rules.universe - Elems(stack);
      var body := RunBody(step);
      if body.Panic? {
        return Panic(body.why);
      }
      out := EndStep(step, start, parent, body.value, before);
    }

    /** Charge the time, pop the stack and fill the cache, with the assertions that guard each. */
    method EndStep(step: S, start: nat, parent: nat, vals: seq<V>, ghost before: State<S, V, E>) returns (out: Outcome<V>)
      requires start == rules.clock(before.ticks + 2) && parent == before.spent
      modifies this
      ensures (out, Now()) == Finish(rules, before, step, vals, old(Now()))
    {
      var stop := rules.clock(ticks);
      var dur, deps := Elapsed(start, stop), timeSpentOnDependencies;
      if dur < deps {
        return Panic(Underflow);
      }
      if stack == [] {
        return Panic(StackEmpty);
      }
      if stack[|stack| - 1] != step {
        return Panic(WrongTop);
      }
      if step in cache {
        return Panic(SecondTime);
      }
      out := Done(rules.output(step, vals));
      Record(step, out.value, stop, dur - deps, parent + dur);
    }

    /** The last part of a step, once nothing can go wrong any more. */
    method Record(step: S, value: V, stop: nat, exclusive: nat, spent: nat)
      requires stack != []
      modifies this
      ensures ticks == old(ticks) + 3 && timeSpentOnDependencies == spent
      ensures stack == old(stack[..|stack| - 1]) && cache == old(cache)[step := value]
      ensures log == old(log) + [Leave(step, stop, exclusive, Reading(rules.clock(old(ticks) + 1), rules.clock(old(ticks) + 2)))]
    {
      ticks := ticks + 1;
      timeSpentOnDependencies := spent;
      var collected := Instant();
      var restarted := Instant();
      log := log + [Leave(step, stop, exclusive, Reading(collected, restarted))];
      stack := stack[..|stack| - 1];
      cache := cache[step := value];
    }

    /** Run the operations of a step body in order, collecting the answers to its requests. */
    method RunBody(step: S) returns (out: Outcome<seq<V>>)
      requires Closed(rules) && step in rules.universe
      modifies this
      ensures (out, Now()) == ExecOps(rules, old(Now()), step, rules.body(step), [])
      decreases rules.universe - Elems(stack), |rules.body(step)| + 1
    {
      var ops := rules.body(step);
      var vals: seq<V> := [];
      ghost var goal := ExecOps(rules, Now(), step, ops, []);
      assert ops[0..] == ops;
      for i := 0 to |ops|
        invariant stack == old(stack)
        invariant goal == ExecOps(rules, Now(), step, ops[i..], vals)
      {
        assert ops[i..][0] == ops[i] && ops[i..][1..] == ops[i + 1..];
        match ops[i]
        case Need(d) =>
          var answer := Ensure(d);
          if answer.Panic? {
            return Panic(answer.why);
          }
          vals := vals + [answer.value];
        case Do(e) =>
          log := log + [Did(step, e)];
      }
      assert ops[|ops|..] == [];
      out := Done(vals);
    }

    /** Root requests, one after the other. */
    method EnsureAll(roots: seq<S>) returns (out: Outcome<seq<V>>)
      requires Closed(rules) && Elems(roots) <= rules.universe
      modifies this
      ensures (out, Now()) == ExecAll(rules, old(Now()), roots)
    {
      if roots == [] {
        return Done([]);
      }
      assert roots[0] in Elems(roots) && Elems(roots[1..]) <= Elems(roots);
      var first := Ensure(roots[0]);
      if first.Panic? {
        return Panic(first.why);
      }
      var rest := EnsureAll(roots[1..]);
      out := if rest.Panic? then rest else Done([first.value] + rest.value);
    }
  }
}
