/** Which step a requested path goes to: `StepDescription::run` and the path sets it matches. */
module PathDispatch {
  import opened Sequences
  import opened Options

  type Path = seq<string>
  type Kind = string

  datatype TaskPath = TaskPath(path: Path, kind: Option<Kind>)

  /** A set lists its members in their own order, as a `BTreeSet` iterates. */
  datatype PathSet = Set(paths: seq<TaskPath>) | Suite(suite: TaskPath)

  /** A registered step: the kind of command it belongs to and the path sets it answers to. */
  datatype Description = Description(kind: Kind, pathsets: seq<PathSet>)

  predicate EndsWith(p: Path, needle: Path) {
    |needle| <= |p| && p[|p| - |needle|..] == needle
  }

  /** A needle matches a task path that ends with it, if the kinds agree. */
  predicate Check(p: TaskPath, needle: Path, kind: Kind) {
    EndsWith(p.path, needle) && (p.kind.None? || p.kind.value == kind)
  }

  function Strip(p: Path): Path {
    if p != [] && p[0] == "." then p[1..] else p
  }

  // ---------------------------------------------------------------------------
  // The reference: one pass over all task paths, each taking the first needle that matches it.

  datatype Slot = Slot(kind: Kind, taskPath: TaskPath)

  predicate Fits(s: Slot, needle: Path) {
    Check(s.taskPath, needle, s.kind)
  }

  function FirstFit(s: Slot, needles: seq<Path>): (r: Option<nat>)
    ensures r.None? ==> forall n | n in needles :: !Fits(s, n)
    ensures r.Some? ==> r.value < |needles| && Fits(s, needles[r.value]) && forall k | 0 <= k < r.value :: !Fits(s, needles[k])
  {
    if needles == [] then None
    else if Fits(s, needles[0]) then Some(0)
    else
      var rest := FirstFit(s, needles[1..]);
      if rest.None? then None else Some(rest.value + 1)
  }

  function Without(needles: seq<Path>, i: nat): seq<Path>
    requires i < |needles|
  {
    needles[..i] + needles[i + 1..]
  }

  /** For each slot the needle it takes, if any, and the needles nobody takes. */
  datatype Matching = Matching(taken: seq<Option<Path>>, rest: seq<Path>)

  function Greedy(slots: seq<Slot>, needles: seq<Path>): (m: Matching)
    ensures |m.taken| == |slots|
  {
    if slots == [] then Matching([], needles)
    else
      var f := FirstFit(slots[0], needles);
      if f.None? then
        var m := Greedy(slots[1..], needles);
        Matching([None] + m.taken, m.rest)
      else
        var m := Greedy(slots[1..], Without(needles, f.value));
        Matching([Some(needles[f.value])] + m.taken, m.rest)
  }

  lemma {:induction false} GreedyConcat(a: seq<Slot>, b: seq<Slot>, needles: seq<Path>)
    ensures var m := Greedy(a, needles);
            var n := Greedy(b, m.rest);
            Greedy(a + b, needles) == Matching(m.taken + n.taken, n.rest)
    decreases |a|
  {
    if a == [] {
      assert a + b == b;
    } else {
      assert (a + b)[1..] == a[1..] + b;
      var f := FirstFit(a[0], needles);
      var first := if f.None? then [None] else [Some(needles[f.value])];
      var needles' := if f.None? then needles else Without(needles, f.value);
      GreedyConcat(a[1..], b, needles');
      var m := Greedy(a[1..], needles');
      Assoc(first, m.taken, Greedy(b, m.rest).taken);
    }
  }

  /** The needles that slots took. */
  ghost function Takes(taken: seq<Option<Path>>): seq<Path> {
    if taken == [] then [] else (if taken[0].Some? then [taken[0].value] else []) + Takes(taken[1..])
  }

  lemma WithoutOne(needles: seq<Path>, i: nat)
    requires i < |needles|
    ensures multiset(needles) == multiset{needles[i]} + multiset(Without(needles, i))
  {
    assert needles == needles[..i] + [needles[i]] + needles[i + 1..];
  }

  /** Every needle is taken by exactly one slot or left; a slot only takes a needle that fits it. */
  lemma {:induction false} GreedyConserves(slots: seq<Slot>, needles: seq<Path>)
    ensures var m := Greedy(slots, needles);
            && multiset(needles) == multiset(Takes(m.taken)) + multiset(m.rest)
            && (forall i | 0 <= i < |slots| && m.taken[i].Some? :: Fits(slots[i], m.taken[i].value))
    decreases |slots|
  {
    if slots != [] {
      var f := FirstFit(slots[0], needles);
      var m := Greedy(slots, needles);
      var needles' := if f.None? then needles else Without(needles, f.value);
      var m' := Greedy(slots[1..], needles');
      GreedyConserves(slots[1..], needles');
      assert m.taken[1..] == m'.taken;
      if f.Some? {
        WithoutOne(needles, f.value);
        assert Takes(m.taken) == [needles[f.value]] + Takes(m'.taken);
      } else {
        assert Takes(m.taken) == Takes(m'.taken);
      }
      forall i | 0 <= i < |slots| && m.taken[i].Some?
        ensures Fits(slots[i], m.taken[i].value)
      {
        if i > 0 {
          assert m.taken[i] == m'.taken[i - 1] && slots[i] == slots[1..][i - 1];
        }
      }
    }
  }

  ghost predicate NoneFits(s: Slot, needles: seq<Path>) {
    forall n | n in needles :: !Fits(s, n)
  }

  /** The matching is maximal: no needle left over fits a slot that took nothing. */
  lemma {:induction false} GreedyIsMaximal(slots: seq<Slot>, needles: seq<Path>)
    ensures var m := Greedy(slots, needles);
            && (forall n | n in m.rest :: n in needles)
            && (forall i | 0 <= i < |slots| && m.taken[i].None? :: NoneFits(slots[i], m.rest))
    decreases |slots|
  {
    if slots != [] {
      var f := FirstFit(slots[0], needles);
      var m := Greedy(slots, needles);
      var needles' := if f.None? then needles else Without(needles, f.value);
      var m' := Greedy(slots[1..], needles');
      GreedyIsMaximal(slots[1..], needles');
      assert m.rest == m'.rest;
      assert forall n | n in needles' :: n in needles;
      forall i | 0 <= i < |slots| && m.taken[i].None?
        ensures NoneFits(slots[i], m.rest)
      {
        if i > 0 {
          assert m.taken[i] == m'.taken[i - 1] && slots[i] == slots[1..][i - 1];
        }
      }
    }
  }

  // ---------------------------------------------------------------------------
  // The code: nested loops that remove needles as they go.

  function Members(set': PathSet): seq<TaskPath> {
    if set'.Suite? then [set'.suite] else set'.paths
  }

  ghost function SlotsOfPaths(kind: Kind, paths: seq<TaskPath>): seq<Slot> {
    seq(|paths|, i requires 0 <= i < |paths| => Slot(kind, paths[i]))
  }

  ghost function SlotsOfSets(kind: Kind, sets: seq<PathSet>): seq<Slot> {
    if sets == [] then [] else SlotsOfPaths(kind, Members(sets[0])) + SlotsOfSets(kind, sets[1..])
  }

  ghost function SlotsOf(descs: seq<Description>): seq<Slot> {
    if descs == [] then [] else SlotsOfSets(descs[0].kind, descs[0].pathsets) + SlotsOf(descs[1..])
  }

  /** The members that took a needle, in order. */
  ghost function Kept(paths: seq<TaskPath>, taken: seq<Option<Path>>): seq<TaskPath>
    requires |paths| == |taken|
  {
    if paths == [] then [] else (if taken[0].Some? then [paths[0]] else []) + Kept(paths[1..], taken[1..])
  }

  /** Remove the first needle that matches `p`, if there is one. */
  method RemoveMatch(p: TaskPath, needles: seq<Path>, kind: Kind) returns (matched: bool, needles': seq<Path>)
    ensures var f := FirstFit(Slot(kind, p), needles);
            && matched == f.Some?
            && needles' == (if f.Some? then Without(needles, f.value) else needles)
  {
    ghost var slot := Slot(kind, p);
    ghost var f := FirstFit(slot, needles);
    for i := 0 to |needles|
      invariant forall k | 0 <= k < i :: !Fits(slot, needles[k])
    {
      if Check(p, needles[i], kind) {
        assert f.Some? by {
          assert needles[i] in needles && Fits(slot, needles[i]);
        }
        return true, needles[..i] + needles[i + 1..];
      }
    }
    return false, needles;
  }

  lemma GreedyOne(slot: Slot, needles: seq<Path>)
    ensures var f := FirstFit(slot, needles);
            Greedy([slot], needles) ==
            (if f.Some? then Matching([Some(needles[f.value])], Without(needles, f.value)) else Matching([None], needles))
  {
    assert [slot][1..] == [];
  }

  /** One more task path after the first `i`. */
  lemma GreedyAdvances(slots: seq<Slot>, needles: seq<Path>, i: nat)
    requires i < |slots|
    ensures var m := Greedy(slots[..i], needles);
            var f := FirstFit(slots[i], m.rest);
            Greedy(slots[..i + 1], needles) ==
            (if f.Some? then Matching(m.taken + [Some(m.rest[f.value])], Without(m.rest, f.value)) else Matching(m.taken + [None], m.rest))
  {
    assert slots[..i + 1] == slots[..i] + [slots[i]];
    GreedyConcat(slots[..i], [slots[i]], needles);
    GreedyOne(slots[i], Greedy(slots[..i], needles).rest);
  }

  /** The given task paths that match some needle; the matched needles are removed. */
  method FilterRemovingMatches(paths: seq<TaskPath>, needles: seq<Path>, kind: Kind) returns (kept: seq<TaskPath>, needles': seq<Path>)
    ensures var m := Greedy(SlotsOfPaths(kind, paths), needles);
            needles' == m.rest && kept == Kept(paths, m.taken)
  {
    ghost var slots := SlotsOfPaths(kind, paths);
    kept, needles' := [], needles;
    for i := 0 to |paths|
      invariant needles' == Greedy(slots[..i], needles).rest
      invariant kept == Kept(paths[..i], Greedy(slots[..i], needles).taken)
    {
      GreedyAdvances(slots, needles, i);
      ghost var m := Greedy(slots[..i], needles);
      ghost var f := FirstFit(slots[i], m.rest);
      KeptGrows(paths[..i], m.taken, paths[i], if f.Some? then Some(m.rest[f.value]) else None);
      assert paths[..i + 1] == paths[..i] + [paths[i]];
      var matched;
      matched, needles' := RemoveMatch(paths[i], needles', kind);
      if matched {
        kept := kept + [paths[i]];
      }
    }
    assert slots[..|paths|] == slots && paths[..|paths|] == paths;
  }

  /** The part of a path set that matches some needle: for a suite all or nothing. */
  method IntersectionRemovingMatches(set': PathSet, needles: seq<Path>, kind: Kind) returns (subset: PathSet, needles': seq<Path>)
    ensures var m := Greedy(SlotsOfPaths(kind, Members(set')), needles);
            && needles' == m.rest
            && subset == Part(set', m.taken)
  {
    var kept;
    kept, needles' := FilterRemovingMatches(Members(set'), needles, kind);
    if set'.Suite? {
      assert Members(set')[1..] == [];
      subset := if kept == [] then Set([]) else set';
    } else {
      subset := Set(kept);
    }
  }

  ghost function Part(set': PathSet, taken: seq<Option<Path>>): PathSet
    requires |taken| == |Members(set')|
  {
    if set'.Set? then Set(Kept(set'.paths, taken))
    else if taken[0].Some? then set' else Set([])
  }

  lemma PartIsEmptyIff(set': PathSet, taken: seq<Option<Path>>)
    requires |taken| == |Members(set')|
    ensures Part(set', taken) == Set([]) <==> Takes(taken) == []
  {
    TakesIffKept(Members(set'), taken);
    if set'.Suite? {
      assert taken[1..] == [];
    }
  }

  lemma {:induction false} KeptGrows(paths: seq<TaskPath>, taken: seq<Option<Path>>, p: TaskPath, t: Option<Path>)
    requires |paths| == |taken|
    ensures Kept(paths + [p], taken + [t]) == Kept(paths, taken) + (if t.Some? then [p] else [])
    decreases |paths|
  {
    var last := if t.Some? then [p] else [];
    if paths == [] {
      assert (paths + [p])[1..] == [] && (taken + [t])[1..] == [];
    } else {
      assert (paths + [p])[1..] == paths[1..] + [p] && (taken + [t])[1..] == taken[1..] + [t];
      KeptGrows(paths[1..], taken[1..], p, t);
      var first := if taken[0].Some? then [paths[0]] else [];
      calc {
        Kept(paths + [p], taken + [t]);
        first + Kept(paths[1..] + [p], taken[1..] + [t]);
        first + (Kept(paths[1..], taken[1..]) + last);
        first + Kept(paths[1..], taken[1..]) + last;
        Kept(paths, taken) + last;
      }
    }
  }

  lemma {:induction false} SlotsOfSetsConcat(kind: Kind, a: seq<PathSet>, b: seq<PathSet>)
    ensures SlotsOfSets(kind, a + b) == SlotsOfSets(kind, a) + SlotsOfSets(kind, b)
    decreases |a|
  {
    if a == [] {
      assert a + b == b;
    } else {
      assert (a + b)[1..] == a[1..] + b;
      SlotsOfSetsConcat(kind, a[1..], b);
      Assoc(SlotsOfPaths(kind, Members(a[0])), SlotsOfSets(kind, a[1..]), SlotsOfSets(kind, b));
    }
  }

  /** The path sets that a description is run with: the nonempty parts of its own, in order. */
  ghost function Parts(kind: Kind, sets: seq<PathSet>, needles: seq<Path>): seq<PathSet> {
    if sets == [] then []
    else
      var n := |sets| - 1;
      var m := Greedy(SlotsOfPaths(kind, Members(sets[n])), Greedy(SlotsOfSets(kind, sets[..n]), needles).rest);
      var part := Part(sets[n], m.taken);
      Parts(kind, sets[..n], needles) + (if part == Set([]) then [] else [part])
  }

  /** One more path set after the first `i`. */
  lemma SetsAdvance(kind: Kind, sets: seq<PathSet>, needles: seq<Path>, i: nat)
    requires i < |sets|
    ensures var m := Greedy(SlotsOfSets(kind, sets[..i]), needles);
            var n := Greedy(SlotsOfPaths(kind, Members(sets[i])), m.rest);
            && Greedy(SlotsOfSets(kind, sets[..i + 1]), needles) == Matching(m.taken + n.taken, n.rest)
            && Parts(kind, sets[..i + 1], needles)
               == Parts(kind, sets[..i], needles) + (if Part(sets[i], n.taken) == Set([]) then [] else [Part(sets[i], n.taken)])
  {
    assert sets[..i + 1] == sets[..i] + [sets[i]];
    SlotsOfSetsConcat(kind, sets[..i], [sets[i]]);
    assert [sets[i]][1..] == [];
    assert SlotsOfSets(kind, [sets[i]]) == SlotsOfPaths(kind, Members(sets[i]));
    GreedyConcat(SlotsOfSets(kind, sets[..i]), SlotsOfPaths(kind, Members(sets[i])), needles);
    assert sets[..i + 1][..i] == sets[..i];
  }

  /** One step description: the path sets it is run with, and the needles it leaves. */
  method PathsetsRemovingMatches(sets: seq<PathSet>, needles: seq<Path>, kind: Kind) returns (kept: seq<PathSet>, needles': seq<Path>)
    ensures needles' == Greedy(SlotsOfSets(kind, sets), needles).rest
    ensures kept == Parts(kind, sets, needles)
  {
    kept, needles' := [], needles;
    for i := 0 to |sets|
      invariant needles' == Greedy(SlotsOfSets(kind, sets[..i]), needles).rest
      invariant kept == Parts(kind, sets[..i], needles)
    {
      SetsAdvance(kind, sets, needles, i);
      var subset;
      subset, needles' := IntersectionRemovingMatches(sets[i], needles', kind);
      if subset != Set([]) {
        kept := kept + [subset];
      }
    }
    assert sets[..|sets|] == sets;
  }

  /** A description is run exactly when one of its task paths took a needle. */
  lemma {:induction false} PartsAreEmptyIff(kind: Kind, sets: seq<PathSet>, needles: seq<Path>)
    ensures Parts(kind, sets, needles) == [] <==> Takes(Greedy(SlotsOfSets(kind, sets), needles).taken) == []
    decreases |sets|
  {
    if sets != [] {
      var i := |sets| - 1;
      PartsAreEmptyIff(kind, sets[..i], needles);
      SetsAdvance(kind, sets, needles, i);
      assert sets[..i + 1] == sets;
      var m := Greedy(SlotsOfSets(kind, sets[..i]), needles);
      var n := Greedy(SlotsOfPaths(kind, Members(sets[i])), m.rest);
      TakesConcat(m.taken, n.taken);
      PartIsEmptyIff(sets[i], n.taken);
    }
  }

  lemma {:induction false} TakesConcat(a: seq<Option<Path>>, b: seq<Option<Path>>)
    ensures Takes(a + b) == Takes(a) + Takes(b)
    decreases |a|
  {
    if a == [] {
      assert a + b == b;
    } else {
      assert (a + b)[1..] == a[1..] + b;
      TakesConcat(a[1..], b);
      Assoc(if a[0].Some? then [a[0].value] else [], Takes(a[1..]), Takes(b));
    }
  }

  lemma {:induction false} TakesIffKept(paths: seq<TaskPath>, taken: seq<Option<Path>>)
    requires |paths| == |taken|
    ensures Takes(taken) == [] <==> Kept(paths, taken) == []
    decreases |paths|
  {
    if paths != [] {
      TakesIffKept(paths[1..], taken[1..]);
    }
  }

  // ---------------------------------------------------------------------------
  // The whole dispatch.

  /** A suite answers for everything below its path. */
  predicate SuiteTakes(set': PathSet, requested: Path) {
    set'.Suite? && set'.suite.path <= requested
  }

  predicate HasSuite(d: Description, requested: Path) {
    exists i | 0 <= i < |d.pathsets| :: SuiteTakes(d.pathsets[i], requested)
  }

  /** `suite` is the first path set of the description that answers for the path. */
  ghost predicate FirstSuite(d: Description, requested: Path, suite: PathSet) {
    exists i :: && 0 <= i < |d.pathsets| && d.pathsets[i] == suite && SuiteTakes(suite, requested)
                && forall k | 0 <= k < i :: !SuiteTakes(d.pathsets[k], requested)
  }

  predicate GoesToSuite(descs: seq<Description>, requested: Path) {
    exists i | 0 <= i < |descs| :: HasSuite(descs[i], requested)
  }

  /** A call of `maybe_run`: which description, with which path sets. */
  datatype Job = Job(desc: nat, pathsets: seq<PathSet>)

  datatype Outcome = Finished(jobs: seq<Job>) | NoRuleMatched(jobs: seq<Job>, left: seq<Path>)

  /** The first description and the first of its suites that answers for a path. */
  method FindSuite(descs: seq<Description>, requested: Path) returns (r: Option<(nat, PathSet)>)
    ensures r.Some? <==> GoesToSuite(descs, requested)
    ensures r.Some? ==>
              && r.value.0 < |descs|
              && FirstSuite(descs[r.value.0], requested, r.value.1)
              && (forall i | 0 <= i < r.value.0 :: !HasSuite(descs[i], requested))
  {
    for i := 0 to |descs|
      invariant forall k | 0 <= k < i :: !HasSuite(descs[k], requested)
    {
      for j := 0 to |descs[i].pathsets|
        invariant forall k | 0 <= k < j :: !SuiteTakes(descs[i].pathsets[k], requested)
      {
        if SuiteTakes(descs[i].pathsets[j], requested) {
          assert HasSuite(descs[i], requested);
          assert FirstSuite(descs[i], requested, descs[i].pathsets[j]);
          return Some((i, descs[i].pathsets[j]));
        }
      }
    }
    return None;
  }

  ghost function WithSuite(descs: seq<Description>, paths: seq<Path>): seq<Path> {
    if paths == [] then [] else (if GoesToSuite(descs, paths[0]) then [paths[0]] else []) + WithSuite(descs, paths[1..])
  }

  ghost function WithoutSuite(descs: seq<Description>, paths: seq<Path>): seq<Path> {
    if paths == [] then [] else (if GoesToSuite(descs, paths[0]) then [] else [paths[0]]) + WithoutSuite(descs, paths[1..])
  }

  lemma {:induction false} SuitesSplit(descs: seq<Description>, paths: seq<Path>)
    ensures multiset(paths) == multiset(WithSuite(descs, paths)) + multiset(WithoutSuite(descs, paths))
  {
    if paths != [] {
      assert paths == [paths[0]] + paths[1..];
      SuitesSplit(descs, paths[1..]);
    }
  }

  ghost predicate ServesSuite(descs: seq<Description>, job: Job, requested: Path) {
    && job.desc < |descs| && |job.pathsets| == 1
    && FirstSuite(descs[job.desc], requested, job.pathsets[0])
    && (forall i | 0 <= i < job.desc :: !HasSuite(descs[i], requested))
  }

  ghost predicate ServeSuites(descs: seq<Description>, jobs: seq<Job>, requested: seq<Path>) {
    |jobs| == |requested| && forall k | 0 <= k < |jobs| :: ServesSuite(descs, jobs[k], requested[k])
  }

  lemma {:induction false} SuiteSplitsConcat(descs: seq<Description>, a: seq<Path>, b: seq<Path>)
    ensures WithSuite(descs, a + b) == WithSuite(descs, a) + WithSuite(descs, b)
    ensures WithoutSuite(descs, a + b) == WithoutSuite(descs, a) + WithoutSuite(descs, b)
    decreases |a|
  {
    if a == [] {
      assert a + b == b;
    } else {
      assert (a + b)[1..] == a[1..] + b;
      SuiteSplitsConcat(descs, a[1..], b);
      var x, y := if GoesToSuite(descs, a[0]) then [a[0]] else [], if GoesToSuite(descs, a[0]) then [] else [a[0]];
      Assoc(x, WithSuite(descs, a[1..]), WithSuite(descs, b));
      Assoc(y, WithoutSuite(descs, a[1..]), WithoutSuite(descs, b));
    }
  }

  lemma SuiteSplitsGrow(descs: seq<Description>, paths: seq<Path>, i: nat)
    requires i < |paths|
    ensures WithSuite(descs, paths[..i + 1]) == WithSuite(descs, paths[..i]) + (if GoesToSuite(descs, paths[i]) then [paths[i]] else [])
    ensures WithoutSuite(descs, paths[..i + 1]) == WithoutSuite(descs, paths[..i]) + (if GoesToSuite(descs, paths[i]) then [] else [paths[i]])
  {
    assert paths[..i + 1] == paths[..i] + [paths[i]];
    SuiteSplitsConcat(descs, paths[..i], [paths[i]]);
    LoneSplit(descs, paths[i]);
  }

  /** One job per path that belongs to a suite; the other paths are retained in order. */
  method RunSuites(descs: seq<Description>, paths: seq<Path>) returns (jobs: seq<Job>, left: seq<Path>)
    ensures left == WithoutSuite(descs, paths)
    ensures ServeSuites(descs, jobs, WithSuite(descs, paths))
  {
    jobs, left := [], [];
    for i := 0 to |paths|
      invariant left == WithoutSuite(descs, paths[..i])
      invariant ServeSuites(descs, jobs, WithSuite(descs, paths[..i]))
    {
      SuiteSplitsGrow(descs, paths, i);
      var found := FindSuite(descs, paths[i]);
      if found.Some? {
        jobs := jobs + [Job(found.value.0, [found.value.1])];
      } else {
        left := left + [paths[i]];
      }
    }
    assert paths[..|paths|] == paths;
  }

  ghost function StripAll(paths: seq<Path>): seq<Path> {
    seq(|paths|, i requires 0 <= i < |paths| => Strip(paths[i]))
  }

  /** The jobs of the descriptions that took something, in order. */
  ghost function DescJobs(descs: seq<Description>, needles: seq<Path>): seq<Job> {
    if descs == [] then []
    else
      var n := |descs| - 1;
      var parts := Parts(descs[n].kind, descs[n].pathsets, Greedy(SlotsOf(descs[..n]), needles).rest);
      DescJobs(descs[..n], needles) + (if parts == [] then [] else [Job(n, parts)])
  }

  /** The suites that the paths name, then the descriptions that take the others; what nobody takes is an error. */
  ghost predicate IsDispatch(descs: seq<Description>, requested: seq<Path>, r: Outcome) {
    var needles := WithoutSuite(descs, StripAll(requested));
    var left := Greedy(SlotsOf(descs), needles).rest;
    && (exists jobs :: ServeSuites(descs, jobs, WithSuite(descs, StripAll(requested))) && r.jobs == jobs + DescJobs(descs, needles))
    && (r.NoRuleMatched? <==> left != [])
    && (r.NoRuleMatched? ==> r.left == left)
  }

  /** Dispatch of requested paths: suites first, then every description in order. */
  method Dispatch(descs: seq<Description>, requested: seq<Path>) returns (r: Outcome)
    ensures IsDispatch(descs, requested, r)
  {
    var paths := seq(|requested|, i requires 0 <= i < |requested| => Strip(requested[i]));
    var jobs, needles := RunSuites(descs, paths);
    ghost var start := needles;
    if needles == [] {
      NothingToMatch(SlotsOf(descs));
      NoJobs(descs);
      assert jobs == jobs + [];
      return Finished(jobs);
    }
    var more: seq<Job> := [];
    for i := 0 to |descs|
      invariant needles == Greedy(SlotsOf(descs[..i]), start).rest
      invariant more == DescJobs(descs[..i], start)
    {
      DescsAdvance(descs, start, i);
      assert descs[..i + 1][..i] == descs[..i];
      var kept;
      kept, needles := PathsetsRemovingMatches(descs[i].pathsets, needles, descs[i].kind);
      if kept != [] {
        more := more + [Job(i, kept)];
      }
    }
    assert descs[..|descs|] == descs;
    r := if needles == [] then Finished(jobs + more) else NoRuleMatched(jobs + more, needles);
  }

  lemma {:induction false} NoJobs(descs: seq<Description>)
    ensures DescJobs(descs, []) == []
    decreases |descs|
  {
    if descs != [] {
      var n := |descs| - 1;
      NoJobs(descs[..n]);
      NothingToMatch(SlotsOf(descs[..n]));
      var slots := SlotsOfSets(descs[n].kind, descs[n].pathsets);
      GreedyConserves(slots, []);
      assert |multiset(Takes(Greedy(slots, []).taken))| == 0;
      assert Takes(Greedy(slots, []).taken) == [];
      PartsAreEmptyIff(descs[n].kind, descs[n].pathsets, []);
    }
  }

  lemma {:induction false} NothingToMatch(slots: seq<Slot>)
    ensures Greedy(slots, []).rest == []
  {
    if slots != [] {
      NothingToMatch(slots[1..]);
    }
  }

  lemma {:induction false} SlotsConcat(a: seq<Description>, b: seq<Description>)
    ensures SlotsOf(a + b) == SlotsOf(a) + SlotsOf(b)
    decreases |a|
  {
    if a == [] {
      assert a + b == b;
    } else {
      assert (a + b)[1..] == a[1..] + b;
      SlotsConcat(a[1..], b);
      Assoc(SlotsOfSets(a[0].kind, a[0].pathsets), SlotsOf(a[1..]), SlotsOf(b));
    }
  }

  lemma DescsAdvance(descs: seq<Description>, needles: seq<Path>, i: nat)
    requires i < |descs|
    ensures Greedy(SlotsOf(descs[..i + 1]), needles).rest
            == Greedy(SlotsOfSets(descs[i].kind, descs[i].pathsets), Greedy(SlotsOf(descs[..i]), needles).rest).rest
  {
    assert descs[..i + 1] == descs[..i] + [descs[i]];
    SlotsConcat(descs[..i], [descs[i]]);
    assert [descs[i]][1..] == [];
    assert SlotsOf([descs[i]]) == SlotsOfSets(descs[i].kind, descs[i].pathsets);
    GreedyConcat(SlotsOf(descs[..i]), SlotsOfSets(descs[i].kind, descs[i].pathsets), needles);
  }

  /** Conservation over the whole dispatch: every requested path goes to a suite, is taken by exactly
      one task path that it matches, or is left over; and no path left over matches a task path that
      took nothing. */
  lemma DispatchConserves(descs: seq<Description>, requested: seq<Path>)
    ensures var paths := StripAll(requested);
            var m := Greedy(SlotsOf(descs), WithoutSuite(descs, paths));
            && multiset(paths) == multiset(WithSuite(descs, paths)) + multiset(Takes(m.taken)) + multiset(m.rest)
            && (forall i | 0 <= i < |m.taken| && m.taken[i].Some? :: Fits(SlotsOf(descs)[i], m.taken[i].value))
            && (forall i | 0 <= i < |m.taken| && m.taken[i].None? :: NoneFits(SlotsOf(descs)[i], m.rest))
  {
    var paths := StripAll(requested);
    SuitesSplit(descs, paths);
    GreedyConserves(SlotsOf(descs), WithoutSuite(descs, paths));
    GreedyIsMaximal(SlotsOf(descs), WithoutSuite(descs, paths));
  }

  // ---------------------------------------------------------------------------
  // What matching means, spelled out.

  /** A task path of a description answers to a needle: it ends with it, and its kind is that of the
      description or open. */
  ghost predicate Answers(kind: Kind, p: TaskPath, needle: Path) {
    (exists pre: Path :: p.path == pre + needle) && p.kind in {None, Some(kind)}
  }

  lemma FitsIff(s: Slot, needle: Path)
    ensures Fits(s, needle) <==> Answers(s.kind, s.taskPath, needle)
  {
    var p := s.taskPath.path;
    if Fits(s, needle) {
      assert p == p[..|p| - |needle|] + needle;
    }
    if pre: Path :| p == pre + needle {
      assert p[|p| - |needle|..] == needle;
    }
  }

  ghost predicate IsMember(descs: seq<Description>, s: Slot) {
    exists d, set' :: d in descs && set' in d.pathsets && s.kind == d.kind && s.taskPath in Members(set')
  }

  lemma {:induction false} SetSlots(kind: Kind, sets: seq<PathSet>, s: Slot)
    ensures s in SlotsOfSets(kind, sets) <==> s.kind == kind && exists set' :: set' in sets && s.taskPath in Members(set')
    decreases |sets|
  {
    if sets != [] {
      SetSlots(kind, sets[1..], s);
      var ps := Members(sets[0]);
      if s.kind == kind && s.taskPath in ps {
        var i :| 0 <= i < |ps| && ps[i] == s.taskPath;
        assert SlotsOfPaths(kind, ps)[i] == s;
      }
      assert forall set' :: set' in sets <==> set' == sets[0] || set' in sets[1..];
    }
  }

  /** The slots are the task paths of the descriptions, each with the kind of its description. */
  lemma {:induction false} SlotsAreMembers(descs: seq<Description>, s: Slot)
    ensures s in SlotsOf(descs) <==> IsMember(descs, s)
    decreases |descs|
  {
    if descs != [] {
      SlotsAreMembers(descs[1..], s);
      SetSlots(descs[0].kind, descs[0].pathsets, s);
      assert forall d :: d in descs <==> d == descs[0] || d in descs[1..];
    }
  }

  /** The whole dispatch again: what a task path takes it answers to, and no path left over is answered
      by a task path that took nothing. */
  lemma TakenAndLeft(descs: seq<Description>, requested: seq<Path>, i: nat)
    requires i < |SlotsOf(descs)|
    ensures var m := Greedy(SlotsOf(descs), WithoutSuite(descs, StripAll(requested)));
            var slot := SlotsOf(descs)[i];
            && IsMember(descs, slot)
            && (m.taken[i].Some? ==> Answers(slot.kind, slot.taskPath, m.taken[i].value))
            && (m.taken[i].None? ==> forall n | n in m.rest :: !Answers(slot.kind, slot.taskPath, n))
  {
    var m := Greedy(SlotsOf(descs), WithoutSuite(descs, StripAll(requested)));
    var slot := SlotsOf(descs)[i];
    DispatchConserves(descs, requested);
    SlotsAreMembers(descs, slot);
    if m.taken[i].Some? {
      FitsIff(slot, m.taken[i].value);
    } else {
      forall n | n in m.rest
        ensures !Answers(slot.kind, slot.taskPath, n)
      {
        FitsIff(slot, n);
      }
    }
  }

  // ---------------------------------------------------------------------------
  // One path is requested.

  /** The description has a task path that answers to the needle. */
  ghost predicate AnswersTo(d: Description, needle: Path) {
    exists set', p :: set' in d.pathsets && p in Members(set') && Answers(d.kind, p, needle)
  }

  /** The first description that answers to the needle. */
  ghost predicate FirstToAnswer(descs: seq<Description>, k: nat, needle: Path) {
    k < |descs| && AnswersTo(descs[k], needle) && forall i | 0 <= i < k :: !AnswersTo(descs[i], needle)
  }

  /** What a description is run with for one needle: the suite or the one path of a set that answers. */
  ghost predicate RunsWith(d: Description, needle: Path, parts: seq<PathSet>) {
    exists set', p :: && set' in d.pathsets && p in Members(set') && Answers(d.kind, p, needle)
                      && parts == [if set'.Suite? then set' else Set([p])]
  }

  lemma {:induction false} LoneNeedle(slots: seq<Slot>, n: Path)
    ensures var m := Greedy(slots, [n]);
            if exists s :: s in slots && Fits(s, n) then m.rest == [] && |Takes(m.taken)| == 1 else m.rest == [n] && Takes(m.taken) == []
    decreases |slots|
  {
    if slots != [] {
      var m := Greedy(slots, [n]);
      if Fits(slots[0], n) {
        assert slots[0] in slots && Without([n], 0) == [];
        NothingToMatch(slots[1..]);
        NothingTaken(slots[1..]);
        assert m.taken[1..] == Greedy(slots[1..], []).taken;
      } else {
        LoneNeedle(slots[1..], n);
        assert m.taken[1..] == Greedy(slots[1..], [n]).taken;
        assert forall s :: s in slots <==> s == slots[0] || s in slots[1..];
      }
    }
  }

  lemma NothingTaken(slots: seq<Slot>)
    ensures Takes(Greedy(slots, []).taken) == []
  {
    GreedyConserves(slots, []);
    assert |multiset(Takes(Greedy(slots, []).taken))| == 0;
  }

  lemma {:induction false} LoneKept(kind: Kind, ps: seq<TaskPath>, n: Path)
    ensures var kept := Kept(ps, Greedy(SlotsOfPaths(kind, ps), [n]).taken);
            if exists p :: p in ps && Answers(kind, p, n) then |kept| == 1 && kept[0] in ps && Answers(kind, kept[0], n) else kept == []
    decreases |ps|
  {
    if ps != [] {
      var slots := SlotsOfPaths(kind, ps);
      var m := Greedy(slots, [n]);
      assert slots[1..] == SlotsOfPaths(kind, ps[1..]);
      FitsIff(slots[0], n);
      assert forall p :: p in ps <==> p == ps[0] || p in ps[1..];
      if Fits(slots[0], n) {
        assert Without([n], 0) == [] && m.taken[1..] == Greedy(slots[1..], []).taken;
        NothingTaken(slots[1..]);
        TakesIffKept(ps[1..], m.taken[1..]);
      } else {
        LoneKept(kind, ps[1..], n);
        assert m.taken[1..] == Greedy(slots[1..], [n]).taken;
      }
    }
  }

  lemma LonePart(kind: Kind, set': PathSet, n: Path)
    ensures var part := Part(set', Greedy(SlotsOfPaths(kind, Members(set')), [n]).taken);
            if exists p :: p in Members(set') && Answers(kind, p, n) then
              exists p :: p in Members(set') && Answers(kind, p, n) && part == if set'.Suite? then set' else Set([p])
            else part == Set([])
  {
    var ps := Members(set');
    var m := Greedy(SlotsOfPaths(kind, ps), [n]);
    LoneKept(kind, ps, n);
    if set'.Suite? {
      assert ps[1..] == [] && m.taken[1..] == [];
    } else if exists p :: p in ps && Answers(kind, p, n) {
      assert Kept(ps, m.taken) == [Kept(ps, m.taken)[0]];
    }
  }

  lemma {:induction false} LoneParts(kind: Kind, sets: seq<PathSet>, n: Path)
    ensures var d := Description(kind, sets);
            if AnswersTo(d, n) then RunsWith(d, n, Parts(kind, sets, [n])) && Greedy(SlotsOfSets(kind, sets), [n]).rest == []
            else Parts(kind, sets, [n]) == [] && Greedy(SlotsOfSets(kind, sets), [n]).rest == [n]
    decreases |sets|
  {
    if sets != [] {
      var i := |sets| - 1;
      var few, last := sets[..i], sets[i];
      assert sets[..i + 1] == sets;
      assert forall set' :: set' in sets <==> set' == last || set' in few;
      LoneParts(kind, few, n);
      SetsAdvance(kind, sets, [n], i);
      var slots := SlotsOfPaths(kind, Members(last));
      if AnswersTo(Description(kind, few), n) {
        NothingToMatch(slots);
        NothingTaken(slots);
        PartIsEmptyIff(last, Greedy(slots, []).taken);
        assert Parts(kind, sets, [n]) == Parts(kind, few, [n]);
      } else {
        LonePart(kind, last, n);
        LoneRest(kind, Members(last), n);
      }
    }
  }

  lemma LoneRest(kind: Kind, ps: seq<TaskPath>, n: Path)
    ensures Greedy(SlotsOfPaths(kind, ps), [n]).rest == if exists p :: p in ps && Answers(kind, p, n) then [] else [n]
  {
    var slots := SlotsOfPaths(kind, ps);
    LoneNeedle(slots, n);
    forall i | 0 <= i < |ps|
      ensures Fits(slots[i], n) <==> Answers(kind, ps[i], n)
    {
      FitsIff(slots[i], n);
    }
    if p :| p in ps && Answers(kind, p, n) {
      var i :| 0 <= i < |ps| && ps[i] == p;
      assert slots[i] in slots;
    }
  }

  ghost predicate Answered(descs: seq<Description>, n: Path) {
    exists d :: d in descs && AnswersTo(d, n)
  }

  /** One job: the first description that answers. */
  ghost predicate FirstRuns(descs: seq<Description>, n: Path, jobs: seq<Job>) {
    exists k: nat, parts :: FirstToAnswer(descs, k, n) && RunsWith(descs[k], n, parts) && jobs == [Job(k, parts)]
  }

  lemma {:induction false} LoneJobs(descs: seq<Description>, n: Path)
    ensures if Answered(descs, n) then FirstRuns(descs, n, DescJobs(descs, [n])) else DescJobs(descs, [n]) == []
    ensures Greedy(SlotsOf(descs), [n]).rest == if Answered(descs, n) then [] else [n]
    decreases |descs|
  {
    if descs != [] {
      var few, last := descs[..|descs| - 1], descs[|descs| - 1];
      assert descs == few + [last];
      LoneJobs(few, n);
      AnsweredByLast(few, last, n);
      if Answered(few, n) {
        OneMoreIdle(few, last, n);
        FirstStaysFirst(few, last, n, DescJobs(few, [n]));
      } else {
        OneMoreTries(few, last, n);
      }
    }
  }

  lemma AnsweredByLast(few: seq<Description>, last: Description, n: Path)
    ensures Answered(few + [last], n) <==> Answered(few, n) || AnswersTo(last, n)
  {
    assert forall d :: d in few + [last] <==> d == last || d in few;
  }

  lemma FirstStaysFirst(few: seq<Description>, last: Description, n: Path, jobs: seq<Job>)
    requires FirstRuns(few, n, jobs)
    ensures FirstRuns(few + [last], n, jobs)
  {
    var k: nat, parts :| FirstToAnswer(few, k, n) && RunsWith(few[k], n, parts) && jobs == [Job(k, parts)];
    assert FirstToAnswer(few + [last], k, n);
  }

  /** The path is taken already. */
  lemma OneMoreIdle(few: seq<Description>, last: Description, n: Path)
    requires Greedy(SlotsOf(few), [n]).rest == []
    ensures DescJobs(few + [last], [n]) == DescJobs(few, [n]) && Greedy(SlotsOf(few + [last]), [n]).rest == []
  {
    var descs, i := few + [last], |few|;
    assert descs[..i] == few && descs[..i + 1] == descs;
    DescsAdvance(descs, [n], i);
    TookNothing(last);
  }

  /** The path is not taken yet. */
  lemma OneMoreTries(few: seq<Description>, last: Description, n: Path)
    requires Greedy(SlotsOf(few), [n]).rest == [n] && DescJobs(few, [n]) == [] && !Answered(few, n)
    ensures var descs := few + [last];
            && Greedy(SlotsOf(descs), [n]).rest == (if AnswersTo(last, n) then [] else [n])
            && if AnswersTo(last, n) then FirstRuns(descs, n, DescJobs(descs, [n])) else DescJobs(descs, [n]) == []
  {
    var descs, i := few + [last], |few|;
    assert descs[..i] == few && descs[..i + 1] == descs;
    DescsAdvance(descs, [n], i);
    LoneParts(last.kind, last.pathsets, n);
    assert last == Description(last.kind, last.pathsets);
    if AnswersTo(last, n) {
      assert forall k | 0 <= k < i :: few[k] in few && descs[k] == few[k];
      assert FirstToAnswer(descs, i, n);
    }
  }

  lemma TookNothing(d: Description)
    ensures Parts(d.kind, d.pathsets, []) == [] && Greedy(SlotsOfSets(d.kind, d.pathsets), []).rest == []
  {
    NothingToMatch(SlotsOfSets(d.kind, d.pathsets));
    NothingTaken(SlotsOfSets(d.kind, d.pathsets));
    PartsAreEmptyIff(d.kind, d.pathsets, []);
  }

  /** The path lies in a suite. */
  ghost predicate LiesInSuite(descs: seq<Description>, path: Path) {
    exists d, set', rest: Path :: d in descs && set' in d.pathsets && set'.Suite? && path == set'.suite.path + rest
  }

  lemma SuiteTakesIff(descs: seq<Description>, path: Path)
    ensures GoesToSuite(descs, path) <==> LiesInSuite(descs, path)
  {
    if i :| 0 <= i < |descs| && HasSuite(descs[i], path) {
      var j :| 0 <= j < |descs[i].pathsets| && SuiteTakes(descs[i].pathsets[j], path);
      var start := descs[i].pathsets[j].suite.path;
      assert path == start + path[|start|..];
      assert descs[i] in descs && descs[i].pathsets[j] in descs[i].pathsets;
    }
    if d, set', rest: Path :| d in descs && set' in d.pathsets && set'.Suite? && path == set'.suite.path + rest {
      var i :| 0 <= i < |descs| && descs[i] == d;
      var j :| 0 <= j < |d.pathsets| && d.pathsets[j] == set';
      assert SuiteTakes(descs[i].pathsets[j], path);
      assert HasSuite(descs[i], path);
    }
  }

  /** A request for one path, with or without a leading dot. A path in a suite runs that suite. Any other
      runs the first description with a task path that ends with it and is of its kind, for that task path
      alone; if there is none, no rule matched. */
  lemma LoneRequest(descs: seq<Description>, request: Path, n: Path, r: Outcome)
    requires request == ["."] + n || (request == n && (n != [] ==> n[0] != "."))
    requires IsDispatch(descs, [request], r)
    ensures LiesInSuite(descs, n) ==> exists job :: r == Finished([job]) && ServesSuite(descs, job, n)
    ensures !LiesInSuite(descs, n) && Answered(descs, n) ==> r.Finished? && FirstRuns(descs, n, r.jobs)
    ensures !LiesInSuite(descs, n) && !Answered(descs, n) ==> r == NoRuleMatched([], [n])
  {
    assert StripAll([request]) == [n];
    SuiteTakesIff(descs, n);
    LoneSplit(descs, n);
    if LiesInSuite(descs, n) {
      LoneSuite(descs, n, r);
    } else {
      LoneOther(descs, n, r);
    }
  }

  lemma LoneSuite(descs: seq<Description>, n: Path, r: Outcome)
    requires exists jobs :: ServeSuites(descs, jobs, [n]) && r.jobs == jobs + DescJobs(descs, [])
    requires r.NoRuleMatched? <==> Greedy(SlotsOf(descs), []).rest != []
    ensures exists job :: r == Finished([job]) && ServesSuite(descs, job, n)
  {
    var jobs :| ServeSuites(descs, jobs, [n]) && r.jobs == jobs + DescJobs(descs, []);
    NothingToMatch(SlotsOf(descs));
    NoJobs(descs);
    assert jobs == [jobs[0]] && r == Finished([jobs[0]]);
  }

  lemma LoneOther(descs: seq<Description>, n: Path, r: Outcome)
    requires exists jobs :: ServeSuites(descs, jobs, []) && r.jobs == jobs + DescJobs(descs, [n])
    requires r.NoRuleMatched? <==> Greedy(SlotsOf(descs), [n]).rest != []
    requires r.NoRuleMatched? ==> r.left == Greedy(SlotsOf(descs), [n]).rest
    ensures if Answered(descs, n) then r.Finished? && FirstRuns(descs, n, r.jobs) else r == NoRuleMatched([], [n])
  {
    LoneJobs(descs, n);
    assert [] + DescJobs(descs, [n]) == DescJobs(descs, [n]);
  }

  lemma LoneSplit(descs: seq<Description>, n: Path)
    ensures WithSuite(descs, [n]) == if GoesToSuite(descs, n) then [n] else []
    ensures WithoutSuite(descs, [n]) == if GoesToSuite(descs, n) then [] else [n]
  {
    assert [n][1..] == [];
  }
}
