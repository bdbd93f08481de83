/** Contracts for step bodies, and why a memoised run respects them.

    A contract names the facts a step relies on when it is started and the facts
    it has established when it is done; effects rely on facts and establish facts.
    Facts are never revoked.  If every body, taken on its own, respects its
    contract, then in every run every effect happens after effects that establish
    what it relies on, although most requests are answered from the cache. */
module EngineFacts {
  import opened StepEngine

  datatype Contract<!S, !E, !F> = Contract(
    pre: S -> set<F>,
    post: S -> set<F>,
    needs: E -> set<F>,
    gives: E -> set<F>)

  /** The facts known after `ops`, starting from `acc`. */
  ghost function Known<S, E, F>(k: Contract<S, E, F>, acc: set<F>, ops: seq<Op<S, E>>): set<F>
    decreases |ops|
  {
    if ops == [] then acc
    else
      var more := match ops[0] { case Need(d) => k.post(d) case Do(e) => k.gives(e) };
      Known(k, acc + more, ops[1..])
  }

  /** Every operation finds the facts it relies on. */
  ghost predicate Respects<S, E, F>(k: Contract<S, E, F>, acc: set<F>, ops: seq<Op<S, E>>)
    decreases |ops|
  {
    ops != [] ==>
      match ops[0] {
        case Need(d) => k.pre(d) <= acc && Respects(k, acc + k.post(d), ops[1..])
        case Do(e) => k.needs(e) <= acc && Respects(k, acc + k.gives(e), ops[1..])
      }
  }

  ghost predicate BodyRespects<S, E, F>(k: Contract<S, E, F>, s: S, body: seq<Op<S, E>>) {
    Respects(k, k.pre(s), body) && k.post(s) <= Known(k, k.pre(s), body)
  }

  ghost predicate AllRespect<S, V, E, F>(r: Rules<S, V, E>, k: Contract<S, E, F>) {
    forall s | s in r.universe :: BodyRespects(k, s, r.body(s))
  }

  // Bodies are put together from pieces.

  lemma {:induction false} KnownConcat<S, E, F>(k: Contract<S, E, F>, acc: set<F>, a: seq<Op<S, E>>, b: seq<Op<S, E>>)
    ensures Known(k, acc, a + b) == Known(k, Known(k, acc, a), b)
    ensures Respects(k, acc, a + b) <==> Respects(k, acc, a) && Respects(k, Known(k, acc, a), b)
    decreases |a|
  {
    if a == [] {
      assert a + b == b;
    } else {
      assert (a + b)[1..] == a[1..] + b;
      match a[0]
      case Need(d) => KnownConcat(k, acc + k.post(d), a[1..], b);
      case Do(e) => KnownConcat(k, acc + k.gives(e), a[1..], b);
    }
  }

  lemma {:induction false} KnownGrows<S, E, F>(k: Contract<S, E, F>, acc: set<F>, more: set<F>, ops: seq<Op<S, E>>)
    requires acc <= more
    ensures acc <= Known(k, acc, ops) <= Known(k, more, ops)
    ensures Respects(k, acc, ops) ==> Respects(k, more, ops)
    decreases |ops|
  {
    if ops != [] {
      match ops[0]
      case Need(d) => KnownGrows(k, acc + k.post(d), more + k.post(d), ops[1..]);
      case Do(e) => KnownGrows(k, acc + k.gives(e), more + k.gives(e), ops[1..]);
    }
  }

  /** Contracts are checked piece by piece. */
  lemma ByPieces<S(!new), E(!new), F(!new)>(k: Contract<S, E, F>)
    ensures forall acc, a, b {:trigger Known(k, acc, a + b)} :: Known(k, acc, a + b) == Known(k, Known(k, acc, a), b)
    ensures forall acc, a, b {:trigger Respects(k, acc, a + b)} ::
              Respects(k, acc, a + b) <==> Respects(k, acc, a) && Respects(k, Known(k, acc, a), b)
    ensures forall acc, d {:trigger Known(k, acc, [Need(d)])} :: Known(k, acc, [Need(d)]) == acc + k.post(d)
    ensures forall acc, e {:trigger Known(k, acc, [Do(e)])} :: Known(k, acc, [Do(e)]) == acc + k.gives(e)
    ensures forall acc, d {:trigger Respects(k, acc, [Need(d)])} :: Respects(k, acc, [Need(d)]) <==> k.pre(d) <= acc
    ensures forall acc, e {:trigger Respects(k, acc, [Do(e)])} :: Respects(k, acc, [Do(e)]) <==> k.needs(e) <= acc
  {
    forall acc, a, b
      ensures Known(k, acc, a + b) == Known(k, Known(k, acc, a), b)
      ensures Respects(k, acc, a + b) <==> Respects(k, acc, a) && Respects(k, Known(k, acc, a), b)
    {
      KnownConcat(k, acc, a, b);
    }
  }

  /** Started with `p`, the operations find what they rely on and leave at least `q`. */
  ghost predicate Carries<S, E, F>(k: Contract<S, E, F>, p: set<F>, ops: seq<Op<S, E>>, q: set<F>) {
    Respects(k, p, ops) && q <= Known(k, p, ops)
  }

  /** Sequential composition. */
  lemma CarriesThen<S, E, F>(k: Contract<S, E, F>, p: set<F>, a: seq<Op<S, E>>, q: set<F>, b: seq<Op<S, E>>, r: set<F>)
    requires Carries(k, p, a, q) && Carries(k, q, b, r)
    ensures Carries(k, p, a + b, r)
  {
    KnownConcat(k, p, a, b);
    KnownGrows(k, q, Known(k, p, a), b);
  }

  lemma CarriesNeed<S, E, F>(k: Contract<S, E, F>, p: set<F>, d: S)
    requires k.pre(d) <= p
    ensures Carries(k, p, [Need(d)], p + k.post(d))
  {
    var ops: seq<Op<S, E>> := [Need(d)];
    assert ops[1..] == [];
  }

  lemma CarriesDo<S, E, F>(k: Contract<S, E, F>, p: set<F>, e: E)
    requires k.needs(e) <= p
    ensures Carries(k, p, [Do(e)], p + k.gives(e))
  {
    var ops: seq<Op<S, E>> := [Do(e)];
    assert ops[1..] == [];
  }

  /** Operations that rely on nothing may stand anywhere. */
  ghost predicate Harmless<S, E, F>(k: Contract<S, E, F>, op: Op<S, E>) {
    match op
    case Need(d) => k.pre(d) == {}
    case Do(e) => k.needs(e) == {}
  }

  lemma {:induction false} HarmlessOps<S, E, F>(k: Contract<S, E, F>, acc: set<F>, ops: seq<Op<S, E>>)
    requires forall op | op in ops :: Harmless(k, op)
    ensures Carries(k, acc, ops, acc)
    decreases |ops|
  {
    if ops != [] {
      assert ops[0] in ops && forall op | op in ops[1..] :: op in ops;
      match ops[0]
      case Need(d) => HarmlessOps(k, acc + k.post(d), ops[1..]);
      case Do(e) => HarmlessOps(k, acc + k.gives(e), ops[1..]);
    }
  }

  lemma {:induction false} KnownHas<S, E, F>(k: Contract<S, E, F>, acc: set<F>, ops: seq<Op<S, E>>, d: S)
    requires Need(d) in ops
    ensures k.post(d) <= Known(k, acc, ops)
    decreases |ops|
  {
    var more := match ops[0] { case Need(x) => k.post(x) case Do(e) => k.gives(e) };
    if ops[0] == Need(d) {
      KnownGrows(k, acc + more, acc + more, ops[1..]);
    } else {
      KnownHas(k, acc + more, ops[1..], d);
    }
  }

  // ---------------------------------------------------------------------------
  // Facts in a log.

  /** The facts established by the effects of a log. */
  ghost function Facts<S, E, F>(k: Contract<S, E, F>, log: seq<Event<S, E>>): set<F> {
    if log == [] then {}
    else
      var e := log[|log| - 1];
      Facts(k, log[..|log| - 1]) + (if e.Did? then k.gives(e.effect) else {})
  }

  /** Every effect of the log, from the place `start` on, came after effects that established what it relies on. */
  ghost predicate Justified<S, E, F>(k: Contract<S, E, F>, start: nat, log: seq<Event<S, E>>) {
    forall i | start <= i < |log| :: log[i].Did? ==> k.needs(log[i].effect) <= Facts(k, log[..i])
  }

  lemma FactsGrow<S, E, F>(k: Contract<S, E, F>, start: nat, log: seq<Event<S, E>>, e: Event<S, E>)
    requires Justified(k, start, log)
    requires e.Did? ==> k.needs(e.effect) <= Facts(k, log)
    ensures Facts(k, log + [e]) == Facts(k, log) + (if e.Did? then k.gives(e.effect) else {})
    ensures Justified(k, start, log + [e])
  {
    var long := log + [e];
    assert long[..|log|] == log;
    forall i | start <= i < |long| && long[i].Did?
      ensures k.needs(long[i].effect) <= Facts(k, long[..i])
    {
      if i < |log| {
        assert long[..i] == log[..i];
      }
    }
  }

  /** A fact of a log has an effect that established it. */
  lemma {:induction false} FactPlace<S, E, F>(k: Contract<S, E, F>, log: seq<Event<S, E>>, f: F) returns (i: nat)
    requires f in Facts(k, log)
    ensures i < |log| && log[i].Did? && f in k.gives(log[i].effect)
    decreases |log|
  {
    var n := |log| - 1;
    if log[n].Did? && f in k.gives(log[n].effect) {
      i := n;
    } else {
      i := FactPlace(k, log[..n], f);
    }
  }

  /** The log is justified from `start` on and every cached step has kept its promise. */
  ghost predicate Kept<S, V, E, F>(k: Contract<S, E, F>, start: nat, st: State<S, V, E>) {
    && Justified(k, start, st.log)
    && (forall x | x in st.cache :: k.post(x) <= Facts(k, st.log))
  }

  /** One call of `ensure`, whether it returns or panics. */
  lemma {:induction false} EnsureKeepsFacts<S, V, E, F>(r: Rules<S, V, E>, k: Contract<S, E, F>, start: nat, st: State<S, V, E>, s: S)
    requires Closed(r) && s in r.universe && AllRespect(r, k)
    requires Kept(k, start, st) && k.pre(s) <= Facts(k, st.log)
    ensures var (out, after) := Exec(r, st, s);
            && Kept(k, start, after)
            && Facts(k, st.log) <= Facts(k, after.log)
            && (out.Done? ==> k.post(s) <= Facts(k, after.log))
    decreases r.universe - Elems(st.stack), 0
  {
    if s !in st.stack && s !in st.cache {
      var inner := Begin(r, st, s);
      FactsGrow(k, start, st.log, inner.log[|st.log|]);
      assert Elems(inner.stack) == Elems(st.stack) + {s};
      assert s in r.universe - Elems(st.stack) && s !in r.universe - Elems(inner.stack);
      KnownGrows(k, k.pre(s), Facts(k, inner.log), r.body(s));
      OpsKeepFacts(r, k, start, inner, s, r.body(s), []);
      var (out, mid) := ExecOps(r, inner, s, r.body(s), []);
      assert out.Done? ==> k.post(s) <= Facts(k, mid.log);
      if out.Done? && Finish(r, st, s, out.value, mid).0.Done? {
        LeaveKeepsFacts(r, k, start, st, s, out.value, mid);
      }
    }
  }

  lemma LeaveKeepsFacts<S, V, E, F>(r: Rules<S, V, E>, k: Contract<S, E, F>, start: nat, st: State<S, V, E>, s: S, vals: seq<V>, mid: State<S, V, E>)
    requires Kept(k, start, mid) && k.post(s) <= Facts(k, mid.log)
    requires Finish(r, st, s, vals, mid).0.Done?
    ensures var after := Finish(r, st, s, vals, mid).1;
            Kept(k, start, after) && Facts(k, after.log) == Facts(k, mid.log)
  {
    var after := Finish(r, st, s, vals, mid).1;
    var e := after.log[|mid.log|];
    assert after.log == mid.log + [e] && e.Leave?;
    FactsGrow(k, start, mid.log, e);
    assert Facts(k, after.log) == Facts(k, mid.log);
    assert forall x | x in after.cache :: x == s || x in mid.cache;
  }

  lemma {:induction false} OpsKeepFacts<S, V, E, F>(r: Rules<S, V, E>, k: Contract<S, E, F>, start: nat, st: State<S, V, E>, s: S, ops: seq<Op<S, E>>, vals: seq<V>)
    requires Closed(r) && OpsIn(r.universe, ops) && AllRespect(r, k)
    requires Kept(k, start, st) && Respects(k, Facts(k, st.log), ops)
    ensures var (out, after) := ExecOps(r, st, s, ops, vals);
            && Kept(k, start, after)
            && Facts(k, st.log) <= Facts(k, after.log)
            && (out.Done? ==> Known(k, Facts(k, st.log), ops) <= Facts(k, after.log))
    decreases r.universe - Elems(st.stack), |ops| + 1
  {
    if ops != [] {
      var rest := ops[1..];
      match ops[0]
      case Need(d) =>
        EnsureKeepsFacts(r, k, start, st, d);
        var (out, mid) := Exec(r, st, d);
        if out.Done? {
          KnownGrows(k, Facts(k, st.log) + k.post(d), Facts(k, mid.log), rest);
          OpsKeepFacts(r, k, start, mid, s, rest, vals + [out.value]);
        }
      case Do(e) =>
        FactsGrow(k, start, st.log, Did(s, e));
        OpsKeepFacts(r, k, start, st.(log := st.log + [Did(s, e)]), s, rest, vals);
    }
  }

  /** Whole runs, from nothing: every effect finds what it relies on, and every root that returned
      has established what it promises. */
  lemma {:induction false} RunKeepsFacts<S, V, E, F>(r: Rules<S, V, E>, k: Contract<S, E, F>, start: nat, st: State<S, V, E>, roots: seq<S>)
    requires Closed(r) && Elems(roots) <= r.universe && AllRespect(r, k)
    requires Kept(k, start, st)
    requires forall s | s in roots :: k.pre(s) == {}
    ensures var (out, after) := ExecAll(r, st, roots);
            && Kept(k, start, after)
            && Facts(k, st.log) <= Facts(k, after.log)
            && (out.Done? ==> forall s | s in roots :: k.post(s) <= Facts(k, after.log))
    decreases |roots|
  {
    if roots != [] {
      assert roots[0] in Elems(roots) && Elems(roots[1..]) <= Elems(roots);
      EnsureKeepsFacts(r, k, start, st, roots[0]);
      var (out, mid) := Exec(r, st, roots[0]);
      if out.Done? {
        RunKeepsFacts(r, k, start, mid, roots[1..]);
        assert forall s | s in roots :: s == roots[0] || s in roots[1..];
      }
    }
  }
}
