/** `Build::in_tree_crates`: the local crates that a crate depends on, found with a worklist. */
module CrateClosure {
  import opened Sorting

  type Name = string

  /** Workspace members with the names they depend on, as `cargo metadata` reports them. */
  type Crates = map<Name, set<Name>>

  datatype Features = Features(profilerEnabled: bool, llvmEnabled: bool)

  datatype Result<+T> = Ok(value: T) | MetadataMissing(crate: Name)

  /** Optional dependencies are left out unless their feature is on. */
  predicate Enabled(feat: Features, dep: Name) {
    (dep != "profiler_builtins" || feat.profilerEnabled) && (dep != "rustc_codegen_llvm" || feat.llvmEnabled)
  }

  predicate DependsOn(crates: Crates, feat: Features, a: Name, b: Name) {
    a in crates && b in crates[a] && b in crates && Enabled(feat, b)
  }

  ghost predicate Chain(crates: Crates, feat: Features, p: seq<Name>) {
    p != [] && forall i | 0 <= i < |p| - 1 :: DependsOn(crates, feat, p[i], p[i + 1])
  }

  /** There is a nonempty chain of enabled local dependencies from `a` to `b`. */
  ghost predicate Reaches(crates: Crates, feat: Features, a: Name, b: Name) {
    exists p :: Chain(crates, feat, p) && |p| > 1 && p[0] == a && p[|p| - 1] == b
  }

  ghost function Reachable(crates: Crates, feat: Features, root: Name): set<Name> {
    set x | x in crates && Reaches(crates, feat, root, x)
  }

  /** Names compare as strings do. */
  predicate NameLe(a: Name, b: Name) {
    a == [] || (b != [] && (a[0] < b[0] || (a[0] == b[0] && NameLe(a[1..], b[1..]))))
  }

  lemma {:induction false} NameLeTotal(a: Name, b: Name)
    ensures NameLe(a, b) || NameLe(b, a)
    ensures NameLe(a, b) && NameLe(b, a) ==> a == b
  {
    if a != [] && b != [] {
      NameLeTotal(a[1..], b[1..]);
      assert a == [a[0]] + a[1..] && b == [b[0]] + b[1..];
    }
  }

  lemma {:induction false} NameLeTransitive(a: Name, b: Name, c: Name)
    requires NameLe(a, b) && NameLe(b, c)
    ensures NameLe(a, c)
  {
    if a != [] && a[0] == b[0] && b[0] == c[0] {
      NameLeTransitive(a[1..], b[1..], c[1..]);
    }
  }

  /** A name comes first if the other continues it, or at the first difference has the later character. */
  lemma {:induction false} NameLeIff(a: Name, b: Name)
    ensures NameLe(a, b) <==> a <= b || exists i: nat :: i < |a| && i < |b| && a[..i] == b[..i] && a[i] < b[i]
  {
    if a != [] && b != [] {
      NameLeIff(a[1..], b[1..]);
      if a[0] < b[0] {
        assert a[..0] == b[..0];
      }
      if i: nat :| i < |a[1..]| && i < |b[1..]| && a[1..][..i] == b[1..][..i] && a[1..][i] < b[1..][i] && a[0] == b[0] {
        assert a[..i + 1] == [a[0]] + a[1..][..i] && b[..i + 1] == [b[0]] + b[1..][..i];
        assert a[i + 1] < b[i + 1];
      }
      if i: nat :| 0 < i < |a| && i < |b| && a[..i] == b[..i] && a[i] < b[i] {
        assert a[..i][0] == b[..i][0];
        assert a[1..][..i - 1] == a[..i][1..] && b[1..][..i - 1] == b[..i][1..];
        assert a[1..][i - 1] < b[1..][i - 1];
      }
      if a <= b {
        assert a[1..] <= b[1..];
      }
    }
  }

  lemma NamesAreTotallyOrdered()
    ensures TotalOrder(NameLe)
  {
    forall a, b
      ensures NameLe(a, b) || NameLe(b, a)
      ensures NameLe(a, b) && NameLe(b, a) ==> a == b
    {
      NameLeTotal(a, b);
    }
    forall a, b, c | NameLe(a, b) && NameLe(b, c)
      ensures NameLe(a, c)
    {
      NameLeTransitive(a, b, c);
    }
  }

  lemma ChainExtends(crates: Crates, feat: Features, root: Name, a: Name, b: Name)
    requires a == root || Reaches(crates, feat, root, a)
    requires DependsOn(crates, feat, a, b)
    ensures Reaches(crates, feat, root, b)
  {
    var p := [root];
    if a != root {
      p :| Chain(crates, feat, p) && |p| > 1 && p[0] == root && p[|p| - 1] == a;
    }
    var q := p + [b];
    forall i | 0 <= i < |q| - 1
      ensures DependsOn(crates, feat, q[i], q[i + 1])
    {
      if i < |p| - 1 {
        assert DependsOn(crates, feat, p[i], p[i + 1]);
      }
    }
    assert Chain(crates, feat, q) && q[0] == root && q[|q| - 1] == b;
  }

  /** A set that holds the dependencies of the root and of its own members holds everything reachable. */
  lemma {:induction false} ClosedHoldsChain(crates: Crates, feat: Features, root: Name, s: set<Name>, p: seq<Name>)
    requires forall a, b | (a == root || a in s) && DependsOn(crates, feat, a, b) :: b in s
    requires Chain(crates, feat, p) && |p| > 1 && p[0] == root
    ensures p[|p| - 1] in s
    decreases |p|
  {
    var n := |p| - 1;
    assert DependsOn(crates, feat, p[n - 1], p[n]);
    if n > 1 {
      forall i | 0 <= i < |p[..n]| - 1
        ensures DependsOn(crates, feat, p[..n][i], p[..n][i + 1])
      {
        assert DependsOn(crates, feat, p[i], p[i + 1]);
      }
      ClosedHoldsChain(crates, feat, root, s, p[..n]);
    }
  }

  ghost function EnabledIn(feat: Features, s: set<Name>): set<Name> {
    set x | x in s && Enabled(feat, x)
  }

  ghost predicate Counted(feat: Features, root: Name, found: seq<Name>, list: seq<Name>, visited: set<Name>) {
    multiset(found) + multiset(list) == multiset{root} + multiset(EnabledIn(feat, visited))
  }

  /** What has been found is the root and the enabled visited crates, each once, and everything found
      is reachable and has its dependencies visited once it has left the list. */
  ghost predicate Exploring(crates: Crates, feat: Features, root: Name, found: seq<Name>, list: seq<Name>, visited: set<Name>) {
    && visited <= crates.Keys
    && Counted(feat, root, found, list, visited)
    && (forall x | x in visited && Enabled(feat, x) :: Reaches(crates, feat, root, x))
    && (forall x, d | x in found && x in crates && d in crates[x] && d in crates :: d in visited)
  }

  lemma FoundIsKnown(crates: Crates, feat: Features, root: Name, found: seq<Name>, list: seq<Name>, visited: set<Name>, x: Name)
    requires Exploring(crates, feat, root, found, list, visited)
    requires x in found || x in list
    ensures x == root || (x in visited && Enabled(feat, x) && x in crates)
  {
    assert x in multiset(found) + multiset(list);
  }

  lemma VisitOne(feat: Features, root: Name, found: seq<Name>, list: seq<Name>, visited: set<Name>, dep: Name)
    requires Counted(feat, root, found, list, visited) && dep !in visited
    ensures Counted(feat, root, found, if Enabled(feat, dep) then list + [dep] else list, visited + {dep})
  {
    var s := EnabledIn(feat, visited);
    if Enabled(feat, dep) {
      AddOne(s, dep);
      assert EnabledIn(feat, visited + {dep}) == s + {dep};
      assert multiset(found) + multiset(list + [dep]) == (multiset(found) + multiset(list)) + multiset{dep};
    } else {
      assert EnabledIn(feat, visited + {dep}) == s;
    }
  }

  lemma AddOne(s: set<Name>, x: Name)
    requires x !in s
    ensures multiset(s + {x}) == multiset(s) + multiset{x}
  {
  }

  /** Visit the dependencies of the crate that was just moved to the end of `found`, in any order. */
  method VisitDeps(crates: Crates, feat: Features, krate: Name, list: seq<Name>, visited: set<Name>, ghost root: Name, ghost found: seq<Name>)
    returns (list': seq<Name>, visited': set<Name>)
    requires krate in crates
    requires Exploring(crates, feat, root, found, list + [krate], visited)
    ensures Exploring(crates, feat, root, found + [krate], list', visited')
    ensures |crates.Keys - visited'| <= |crates.Keys - visited|
    ensures list' == list || |crates.Keys - visited'| < |crates.Keys - visited|
  {
    FoundIsKnown(crates, feat, root, found, list + [krate], visited, krate);
    list', visited' := list, visited;
    ghost var done := found + [krate];
    assert multiset(done) + multiset(list) == multiset(found) + multiset(list + [krate]);
    var todo := crates[krate];
    while todo != {}
      invariant todo <= crates[krate]
      invariant visited <= visited' <= crates.Keys
      invariant Counted(feat, root, done, list', visited')
      invariant forall x | x in visited' && Enabled(feat, x) :: Reaches(crates, feat, root, x)
      invariant forall d | d in crates[krate] - todo && d in crates :: d in visited'
      invariant visited' == visited ==> list' == list
    {
      var dep :| dep in todo;
      todo := todo - {dep};
      if dep in crates && dep !in visited' {
        VisitOne(feat, root, done, list', visited', dep);
        visited' := visited' + {dep};
        if Enabled(feat, dep) {
          list' := list' + [dep];
          ChainExtends(crates, feat, root, krate, dep);
        }
      }
    }
    if visited' != visited {
      SmallerDifference(crates.Keys, visited, visited');
    }
  }

  /** The crates reachable from the root through enabled local dependencies, in name order. The root
      is listed once more exactly when it can reach itself. */
  ghost predicate IsClosure(crates: Crates, feat: Features, root: Name, r: seq<Name>) {
    && SortedBy(NameLe, r)
    && multiset(r) == multiset{root} + multiset(Reachable(crates, feat, root))
  }

  method InTreeCrates(crates: Crates, feat: Features, root: Name) returns (r: Result<seq<Name>>)
    ensures root in crates ==> r.Ok? && IsClosure(crates, feat, root, r.value)
    ensures root !in crates ==> r == MetadataMissing(root)
  {
    var found: seq<Name> := [];
    var list := [root];
    var visited: set<Name> := {};
    assert EnabledIn(feat, visited) == {};
    while list != []
      invariant Exploring(crates, feat, root, found, list, visited)
      invariant root !in crates ==> found == [] && list == [root] && visited == {}
      decreases |crates.Keys - visited|, |list|
    {
      var krate := list[|list| - 1];
      FoundIsKnown(crates, feat, root, found, list, visited, krate);
      if krate !in crates {
        return MetadataMissing(krate);
      }
      var rest := list[..|list| - 1];
      LastSplits(list);
      list, visited := VisitDeps(crates, feat, krate, rest, visited, root, found);
      found := found + [krate];
    }
    SortedFound(crates, feat, root, found, visited);
    r := Ok(Sort(NameLe, found));
  }

  lemma LastSplits(list: seq<Name>)
    requires list != []
    ensures list == list[..|list| - 1] + [list[|list| - 1]]
  {
  }

  lemma SortedFound(crates: Crates, feat: Features, root: Name, found: seq<Name>, visited: set<Name>)
    requires root in crates && Exploring(crates, feat, root, found, [], visited)
    ensures IsClosure(crates, feat, root, Sort(NameLe, found))
  {
    AllFound(crates, feat, root, found, visited);
    NamesAreTotallyOrdered();
    SortSorts(NameLe, found);
  }

  lemma SmallerDifference(all: set<Name>, a: set<Name>, b: set<Name>)
    requires a < b <= all
    ensures |all - b| < |all - a|
  {
    var x :| x in b && x !in a;
    assert all - b <= all - a - {x};
    Subset(all - b, all - a - {x});
  }

  lemma {:induction false} Subset(a: set<Name>, b: set<Name>)
    requires a <= b
    ensures |a| <= |b|
  {
    if a != {} {
      var x :| x in a;
      Subset(a - {x}, b - {x});
    }
  }

  lemma AllFound(crates: Crates, feat: Features, root: Name, found: seq<Name>, visited: set<Name>)
    requires root in crates && Exploring(crates, feat, root, found, [], visited)
    ensures multiset(found) == multiset{root} + multiset(Reachable(crates, feat, root))
  {
    var s := EnabledIn(feat, visited);
    assert multiset(found) == multiset{root} + multiset(s);
    forall a, b | (a == root || a in s) && DependsOn(crates, feat, a, b)
      ensures b in s
    {
      assert a in multiset(found);
    }
    forall x | x in Reachable(crates, feat, root)
      ensures x in s
    {
      var p :| Chain(crates, feat, p) && |p| > 1 && p[0] == root && p[|p| - 1] == x;
      ClosedHoldsChain(crates, feat, root, s, p);
    }
    assert s == Reachable(crates, feat, root);
  }

  /** How often each crate is listed. */
  lemma ClosureCounts(crates: Crates, feat: Features, root: Name, r: seq<Name>, x: Name)
    requires IsClosure(crates, feat, root, r)
    ensures x in r <==> x == root || (x in crates && Reaches(crates, feat, root, x))
    ensures x != root && x in r ==> multiset(r)[x] == 1
    ensures root in crates ==> multiset(r)[root] == (if Reaches(crates, feat, root, root) then 2 else 1)
  {
    assert x in r <==> x in multiset(r);
  }

  // ---------------------------------------------------------------------------
  // What the features decide, said of the bare map.

  ghost predicate Edge(crates: Crates, a: Name, b: Name) {
    a in crates && b in crates && b in crates[a]
  }

  /** A chain of dependencies between members, whatever the features. */
  ghost predicate Path(crates: Crates, p: seq<Name>) {
    p != [] && forall i | 0 <= i < |p| - 1 :: Edge(crates, p[i], p[i + 1])
  }

  ghost predicate Leads(crates: Crates, a: Name, b: Name) {
    exists p :: Path(crates, p) && |p| > 1 && p[0] == a && p[|p| - 1] == b
  }

  /** The same members, none of which depends on the names given. */
  ghost function Drop(crates: Crates, names: set<Name>): Crates {
    map a | a in crates :: crates[a] - names
  }

  /** What is listed besides the root is what dependencies lead to once those on the codegen backend are
      dropped unless LLVM is enabled, and those on the profiler runtime unless the profiler is. */
  lemma ListedIff(crates: Crates, feat: Features, root: Name, r: seq<Name>, x: Name)
    requires IsClosure(crates, feat, root, r)
    ensures var off := (if feat.llvmEnabled then {} else {"rustc_codegen_llvm"}) + (if feat.profilerEnabled then {} else {"profiler_builtins"});
            x in r <==> x == root || Leads(Drop(crates, off), root, x)
    ensures feat.llvmEnabled && feat.profilerEnabled ==> (x in r <==> x == root || Leads(crates, root, x))
  {
    var off := (if feat.llvmEnabled then {} else {"rustc_codegen_llvm"}) + (if feat.profilerEnabled then {} else {"profiler_builtins"});
    ListedIffLeads(crates, feat, off, root, r, x);
    if feat.llvmEnabled && feat.profilerEnabled {
      DropNothing(crates);
    }
  }

  lemma DropNothing(crates: Crates)
    ensures Drop(crates, {}) == crates
  {
    forall a | a in crates
      ensures Drop(crates, {})[a] == crates[a]
    {
      assert crates[a] - {} == crates[a];
    }
  }

  lemma ListedIffLeads(crates: Crates, feat: Features, off: set<Name>, root: Name, r: seq<Name>, x: Name)
    requires IsClosure(crates, feat, root, r) && forall d :: Enabled(feat, d) <==> d !in off
    ensures x in r <==> x == root || Leads(Drop(crates, off), root, x)
  {
    ClosureCounts(crates, feat, root, r, x);
    if p :| Chain(crates, feat, p) && |p| > 1 && p[0] == root && p[|p| - 1] == x {
      ChainIsPath(crates, feat, off, p);
    }
    if p :| Path(Drop(crates, off), p) && |p| > 1 && p[0] == root && p[|p| - 1] == x {
      ChainIsPath(crates, feat, off, p);
      assert Edge(Drop(crates, off), p[|p| - 2], p[|p| - 1]);
    }
  }

  lemma ChainIsPath(crates: Crates, feat: Features, off: set<Name>, p: seq<Name>)
    requires forall d :: Enabled(feat, d) <==> d !in off
    ensures Chain(crates, feat, p) <==> Path(Drop(crates, off), p)
  {
    assert forall a, b :: DependsOn(crates, feat, a, b) <==> Edge(Drop(crates, off), a, b);
  }

  /** Whatever is found without either of the two is listed under any features; and more features never
      list less. */
  lemma FeaturesOnlyAdd(crates: Crates, few: Features, many: Features, root: Name, r: seq<Name>, r': seq<Name>, x: Name)
    requires IsClosure(crates, few, root, r) && IsClosure(crates, many, root, r')
    ensures Leads(Drop(crates, {"rustc_codegen_llvm", "profiler_builtins"}), root, x) ==> x in r && x in r'
    ensures (few.llvmEnabled ==> many.llvmEnabled) && (few.profilerEnabled ==> many.profilerEnabled) && x in r ==> x in r'
  {
    var both := {"rustc_codegen_llvm", "profiler_builtins"};
    var a := (if few.llvmEnabled then {} else {"rustc_codegen_llvm"}) + (if few.profilerEnabled then {} else {"profiler_builtins"});
    var b := (if many.llvmEnabled then {} else {"rustc_codegen_llvm"}) + (if many.profilerEnabled then {} else {"profiler_builtins"});
    ListedIff(crates, few, root, r, x);
    ListedIff(crates, many, root, r', x);
    if Leads(Drop(crates, both), root, x) {
      LeadsMore(crates, both, a, root, x);
      LeadsMore(crates, both, b, root, x);
    }
    if b <= a && Leads(Drop(crates, a), root, x) {
      LeadsMore(crates, a, b, root, x);
    }
  }

  lemma LeadsMore(crates: Crates, more: set<Name>, less: set<Name>, a: Name, b: Name)
    requires less <= more && Leads(Drop(crates, more), a, b)
    ensures Leads(Drop(crates, less), a, b)
  {
    var p :| Path(Drop(crates, more), p) && |p| > 1 && p[0] == a && p[|p| - 1] == b;
    assert forall x, y | Edge(Drop(crates, more), x, y) :: Edge(Drop(crates, less), x, y);
    assert Path(Drop(crates, less), p);
  }
}
