/** Merging configurations: the user's file, the profile it names, and `--set` options. */
module ConfigMerge {
  import opened Options

  type Section = string
  type Field = string
  type Value = string
  type Table = map<Field, Value>

  /** A parsed configuration: the fields present in each section present. */
  datatype Toml = Toml(
    changelogSeen: Option<nat>,
    sections: map<Section, Table>,
    hasTargetTable: bool,
    profile: Option<string>)

  datatype ReplaceOpt = IgnoreDuplicate | Override | ErrorOnDuplicate

  /** `Exit2` is the "overriding existing option" error, `TargetPanic` the assertion on target tables. */
  datatype Result<+T> = Ok(value: T) | Exit2 | TargetPanic

  const EMPTY := Toml(None, map[], false, None)

  function Get(t: Toml, s: Section, f: Field): Option<Value> {
    if s in t.sections && f in t.sections[s] then Some(t.sections[s][f]) else None
  }

  // ---------------------------------------------------------------------------
  // What merging means.

  function MergeTable(x: Table, y: Table, replace: ReplaceOpt): Result<Table> {
    match replace
    case IgnoreDuplicate => Ok(y + x)
    case Override => Ok(x + y)
    case ErrorOnDuplicate => if x.Keys !! y.Keys then Ok(x + y) else Exit2
  }

  function MergeOption<T>(x: Option<T>, y: Option<T>, replace: ReplaceOpt): Result<Option<T>> {
    match replace
    case IgnoreDuplicate => Ok(if x.None? then y else x)
    case Override => Ok(if y.Some? then y else x)
    case ErrorOnDuplicate => if y.None? then Ok(x) else if x.Some? then Exit2 else Ok(y)
  }

  /** A section present on both sides is merged field by field; otherwise the one there is taken. */
  function MergeSection(x: map<Section, Table>, y: map<Section, Table>, s: Section, replace: ReplaceOpt): Result<Table>
    requires s in x || s in y
  {
    if s !in y then Ok(x[s]) else if s !in x then Ok(y[s]) else MergeTable(x[s], y[s], replace)
  }

  ghost predicate SectionsClash(x: map<Section, Table>, y: map<Section, Table>, replace: ReplaceOpt) {
    exists s :: s in x && s in y && MergeTable(x[s], y[s], replace).Exit2?
  }

  ghost function MergeSections(x: map<Section, Table>, y: map<Section, Table>, replace: ReplaceOpt): map<Section, Table>
    requires !SectionsClash(x, y, replace)
  {
    map s | s in x.Keys + y.Keys :: MergeSection(x, y, s, replace).value
  }

  ghost function Merge(x: Toml, y: Toml, replace: ReplaceOpt): Result<Toml> {
    var seen := MergeOption(x.changelogSeen, y.changelogSeen, replace);
    if seen.Exit2? || SectionsClash(x.sections, y.sections, replace) then Exit2
    else if y.hasTargetTable then TargetPanic
    else Ok(Toml(seen.value, MergeSections(x.sections, y.sections, replace), x.hasTargetTable, x.profile))
  }

  // ---------------------------------------------------------------------------
  // The code, over mutable fields.

  class TomlConfig {
    var changelogSeen: Option<nat>
    var sections: map<Section, Table>
    const hasTargetTable: bool
    const profile: Option<string>

    constructor (t: Toml)
      ensures Now() == t
    {
      changelogSeen, sections, hasTargetTable, profile := t.changelogSeen, t.sections, t.hasTargetTable, t.profile;
    }

    function Now(): Toml
      reads this
    {
      Toml(changelogSeen, sections, hasTargetTable, profile)
    }

    /** Field by field, as the `define_config` macro spells it out. */
    static method MergeFields(x: Table, y: Table, replace: ReplaceOpt) returns (r: Result<Table>)
      ensures r == MergeTable(x, y, replace)
    {
      var out := x;
      var todo := y.Keys;
      while todo != {}
        invariant todo <= y.Keys
        invariant forall f :: f in out <==> f in x || (f in y && f !in todo)
        invariant forall f | f in out :: out[f] ==
                    if replace == IgnoreDuplicate || f in todo then (if f in x then x[f] else y[f])
                    else if f in y then y[f] else x[f]
        invariant replace == ErrorOnDuplicate ==> forall f | f in y && f in x :: f in todo
      {
        var field :| field in todo;
        todo := todo - {field};
        match replace
        case IgnoreDuplicate =>
          if field !in out {
            out := out[field := y[field]];
          }
        case Override =>
          out := out[field := y[field]];
        case ErrorOnDuplicate =>
          if field in out {
            assert field in x.Keys && field in y.Keys;
            return Exit2;
          }
          out := out[field := y[field]];
      }
      if replace == IgnoreDuplicate {
        assert out == y + x;
      } else {
        assert out == x + y;
      }
      r := Ok(out);
    }

    /** Section by section; an error stops at once. */
    static method MergeTables(x: map<Section, Table>, y: map<Section, Table>, replace: ReplaceOpt) returns (r: Result<map<Section, Table>>)
      ensures SectionsClash(x, y, replace) ==> r == Exit2
      ensures !SectionsClash(x, y, replace) ==> r == Ok(MergeSections(x, y, replace))
    {
      var out := x;
      var todo := y.Keys;
      while todo != {}
        invariant Merged(x, y, replace, todo, out)
      {
        var s :| s in todo;
        if s in out {
          var merged := MergeFields(out[s], y[s], replace);
          if !merged.Ok? {
            assert s in x && s in y && MergeTable(x[s], y[s], replace).Exit2?;
            return Exit2;
          }
          MergedOneMore(x, y, replace, todo, out, s, merged.value);
          out := out[s := merged.value];
        } else {
          MergedOneMore(x, y, replace, todo, out, s, y[s]);
          out := out[s := y[s]];
        }
        todo := todo - {s};
      }
      assert !SectionsClash(x, y, replace);
      assert out == MergeSections(x, y, replace);
      r := Ok(out);
    }

    /** The options in turn, then the sections in turn, then the assertion on target tables. */
    method MergeIn(other: Toml, replace: ReplaceOpt) returns (r: Result<()>)
      modifies this
      ensures var m := Merge(old(Now()), other, replace);
              && (r.Ok? <==> m.Ok?)
              && (r.Ok? ==> Now() == m.value)
              && (r.Exit2? ==> m.Exit2?) && (r.TargetPanic? ==> m.TargetPanic?)
    {
      var seen := MergeOption(changelogSeen, other.changelogSeen, replace);
      if !seen.Ok? {
        return Exit2;
      }
      changelogSeen := seen.value;
      var merged := MergeTables(sections, other.sections, replace);
      if !merged.Ok? {
        return Exit2;
      }
      sections := merged.value;
      if other.hasTargetTable {
        return TargetPanic;
      }
      r := Ok(());
    }
  }

  /** The sections of `y` outside `todo` have been merged into `out`. */
  ghost predicate Merged(x: map<Section, Table>, y: map<Section, Table>, replace: ReplaceOpt, todo: set<Section>, out: map<Section, Table>) {
    && todo <= y.Keys
    && out.Keys == x.Keys + (y.Keys - todo)
    && (forall s | s in out :: if s in todo then out[s] == x[s] else MergeSection(x, y, s, replace) == Ok(out[s]))
  }

  lemma MergedOneMore(x: map<Section, Table>, y: map<Section, Table>, replace: ReplaceOpt, todo: set<Section>, out: map<Section, Table>,
                      s: Section, t: Table)
    requires Merged(x, y, replace, todo, out) && s in todo
    requires MergeSection(x, y, s, replace) == Ok(t)
    ensures Merged(x, y, replace, todo - {s}, out[s := t])
  {
  }

  // ---------------------------------------------------------------------------
  // Field by field.

  function First<T>(a: Option<T>, b: Option<T>): Option<T> {
    if a.Some? then a else b
  }

  /** A merged field is the first present, from the left or from the right as the mode says. */
  lemma MergedField(x: Toml, y: Toml, replace: ReplaceOpt, s: Section, f: Field)
    requires Merge(x, y, replace).Ok?
    ensures var m := Merge(x, y, replace).value;
            && Get(m, s, f) == (if replace == Override then First(Get(y, s, f), Get(x, s, f)) else First(Get(x, s, f), Get(y, s, f)))
            && m.changelogSeen == (if replace == Override then First(y.changelogSeen, x.changelogSeen) else First(x.changelogSeen, y.changelogSeen))
            && m.profile == x.profile
  {
    var m := Merge(x, y, replace).value;
    if s in x.sections || s in y.sections {
      assert m.sections[s] == MergeSection(x.sections, y.sections, s, replace).value;
    }
  }

  /** Two configurations set the same thing. */
  ghost predicate Conflict(x: Toml, y: Toml) {
    || (x.changelogSeen.Some? && y.changelogSeen.Some?)
    || (exists s, f :: Get(x, s, f).Some? && Get(y, s, f).Some?)
  }

  /** Strict merging fails exactly when the two sides set the same thing. */
  lemma StrictMergeFailsIff(x: Toml, y: Toml)
    requires !y.hasTargetTable
    ensures Merge(x, y, ErrorOnDuplicate).Exit2? <==> Conflict(x, y)
    ensures Merge(x, y, ErrorOnDuplicate).Ok? <==> !Conflict(x, y)
  {
    if SectionsClash(x.sections, y.sections, ErrorOnDuplicate) {
      var s :| s in x.sections && s in y.sections && MergeTable(x.sections[s], y.sections[s], ErrorOnDuplicate).Exit2?;
      var f :| f in x.sections[s].Keys && f in y.sections[s].Keys;
      assert Get(x, s, f).Some? && Get(y, s, f).Some?;
    }
    if s, f :| Get(x, s, f).Some? && Get(y, s, f).Some? {
      assert f in x.sections[s].Keys && f in y.sections[s].Keys;
      assert MergeTable(x.sections[s], y.sections[s], ErrorOnDuplicate).Exit2?;
    }
  }

  // ---------------------------------------------------------------------------
  // `--set` options.

  ghost function FoldSets(sets: seq<Toml>): Result<Toml>
    decreases |sets|
  {
    if sets == [] then Ok(EMPTY)
    else
      var n := |sets| - 1;
      var before := FoldSets(sets[..n]);
      if before.Ok? then Merge(before.value, sets[n], ErrorOnDuplicate) else before
  }

  /** Two different options set the same thing. */
  ghost predicate Clashing(sets: seq<Toml>) {
    exists i, j :: 0 <= i < j < |sets| && Conflict(sets[i], sets[j])
  }

  ghost predicate NoTargets(sets: seq<Toml>) {
    forall i | 0 <= i < |sets| :: !sets[i].hasTargetTable
  }

  /** `t` holds exactly what some option sets. */
  ghost predicate Collects(t: Toml, sets: seq<Toml>) {
    && !t.hasTargetTable && t.profile == None
    && (forall s :: s in t.sections <==> exists x :: x in sets && s in x.sections)
    && (forall s, f, v :: Get(t, s, f) == Some(v) <==> exists x :: x in sets && Get(x, s, f) == Some(v))
    && (forall n :: t.changelogSeen == Some(n) <==> exists x :: x in sets && x.changelogSeen == Some(n))
  }

  lemma CollectsOneMore(t: Toml, sets: seq<Toml>, y: Toml)
    requires Collects(t, sets) && !y.hasTargetTable && !Conflict(t, y)
    ensures Merge(t, y, ErrorOnDuplicate).Ok? && Collects(Merge(t, y, ErrorOnDuplicate).value, sets + [y])
  {
    StrictMergeFailsIff(t, y);
    var m := Merge(t, y, ErrorOnDuplicate).value;
    var all := sets + [y];
    forall s
      ensures s in m.sections <==> exists x :: x in all && s in x.sections
    {
      if s in y.sections {
        assert y in all;
      }
      if x :| x in sets && s in x.sections {
        assert x in all;
      }
    }
    forall s, f, v
      ensures Get(m, s, f) == Some(v) <==> exists x :: x in all && Get(x, s, f) == Some(v)
    {
      MergedField(t, y, ErrorOnDuplicate, s, f);
      if Get(y, s, f) == Some(v) {
        assert y in all;
        assert Get(t, s, f) == None;
      }
      if x :| x in sets && Get(x, s, f) == Some(v) {
        assert x in all;
      }
    }
    forall n
      ensures m.changelogSeen == Some(n) <==> exists x :: x in all && x.changelogSeen == Some(n)
    {
      MergedField(t, y, ErrorOnDuplicate, "", "");
      if y.changelogSeen == Some(n) {
        assert y in all;
      }
      if x :| x in sets && x.changelogSeen == Some(n) {
        assert x in all;
      }
    }
  }

  /** A collection conflicts with `y` exactly when one of its options does. */
  lemma CollectionConflict(t: Toml, sets: seq<Toml>, y: Toml)
    requires Collects(t, sets)
    ensures Conflict(t, y) <==> exists x :: x in sets && Conflict(x, y)
  {
    if Conflict(t, y) {
      if t.changelogSeen.Some? && y.changelogSeen.Some? {
        var x :| x in sets && x.changelogSeen == Some(t.changelogSeen.value);
        assert Conflict(x, y);
      } else {
        var s, f :| Get(t, s, f).Some? && Get(y, s, f).Some?;
        var v := Get(t, s, f).value;
        assert Get(t, s, f) == Some(v);
        var x :| x in sets && Get(x, s, f) == Some(v);
        assert Conflict(x, y);
      }
    }
    if x :| x in sets && Conflict(x, y) {
      if x.changelogSeen.Some? && y.changelogSeen.Some? {
        assert t.changelogSeen == Some(x.changelogSeen.value);
      } else {
        var s, f :| Get(x, s, f).Some? && Get(y, s, f).Some?;
        var v := Get(x, s, f).value;
        assert Get(x, s, f) == Some(v);
        assert Get(t, s, f) == Some(v);
      }
    }
  }

  /** The fold over `--set` options fails exactly when two of them set the same thing, and otherwise
      collects exactly what they set. */
  lemma {:induction false} FoldFailsIffClashing(sets: seq<Toml>)
    requires NoTargets(sets)
    ensures FoldSets(sets).Exit2? <==> Clashing(sets)
    ensures FoldSets(sets).Ok? <==> !Clashing(sets)
    ensures FoldSets(sets).Ok? ==> Collects(FoldSets(sets).value, sets)
    decreases |sets|
  {
    if sets != [] {
      var n := |sets| - 1;
      var before, y := sets[..n], sets[n];
      assert sets == before + [y];
      FoldFailsIffClashing(before);
      if Clashing(before) {
        var i, j :| 0 <= i < j < |before| && Conflict(before[i], before[j]);
        assert Conflict(sets[i], sets[j]);
      } else {
        var t := FoldSets(before).value;
        CollectionConflict(t, before, y);
        StrictMergeFailsIff(t, y);
        if Conflict(t, y) {
          var x :| x in before && Conflict(x, y);
          var i :| 0 <= i < n && before[i] == x;
          assert Conflict(sets[i], sets[n]);
        } else {
          CollectsOneMore(t, before, y);
          NoNewClash(sets);
        }
      }
    }
  }

  lemma NoNewClash(sets: seq<Toml>)
    requires sets != []
    requires var n := |sets| - 1;
             !Clashing(sets[..n]) && !(exists x :: x in sets[..n] && Conflict(x, sets[n]))
    ensures !Clashing(sets)
  {
    var n := |sets| - 1;
    forall i, j | 0 <= i < j < |sets|
      ensures !Conflict(sets[i], sets[j])
    {
      assert sets[i] == sets[..n][i] && sets[i] in sets[..n];
      assert j < n ==> sets[j] == sets[..n][j];
    }
  }

  /** The order of the options does not matter. */
  lemma FoldIsOrderIndependent(a: seq<Toml>, b: seq<Toml>)
    requires NoTargets(a) && multiset(a) == multiset(b)
    ensures FoldSets(a) == FoldSets(b)
  {
    SameMembers(a, b);
    FoldFailsIffClashing(a);
    FoldFailsIffClashing(b);
    if Clashing(a) {
      ClashIsSymmetric(a, b);
    }
    if Clashing(b) {
      ClashIsSymmetric(b, a);
    }
    if !Clashing(a) {
      CollectionIsUnique(FoldSets(a).value, FoldSets(b).value, a, b);
    }
  }

  lemma SameMembers(a: seq<Toml>, b: seq<Toml>)
    requires NoTargets(a) && multiset(a) == multiset(b)
    ensures NoTargets(b) && forall x :: x in a <==> x in b
  {
    forall x
      ensures x in a <==> x in b
    {
      assert x in a <==> x in multiset(a);
      assert x in b <==> x in multiset(b);
    }
    forall i | 0 <= i < |b|
      ensures !b[i].hasTargetTable
    {
      assert b[i] in b && b[i] in a;
    }
  }

  /** A clash in one order is a clash in every order. */
  lemma ClashIsSymmetric(a: seq<Toml>, b: seq<Toml>)
    requires multiset(a) == multiset(b) && Clashing(a)
    ensures Clashing(b)
  {
    var i, j :| 0 <= i < j < |a| && Conflict(a[i], a[j]);
    var k, l := TwoPlaces(a, b, i, j);
    if k < l {
      assert Conflict(b[k], b[l]);
    } else {
      assert Conflict(b[l], b[k]);
    }
  }

  lemma RemoveAt(a: seq<Toml>, i: nat)
    requires i < |a|
    ensures multiset(a[..i] + a[i + 1..]) == multiset(a) - multiset{a[i]}
  {
    assert a == a[..i] + [a[i]] + a[i + 1..];
    assert multiset(a) == multiset(a[..i]) + multiset{a[i]} + multiset(a[i + 1..]);
  }

  lemma TwoPlaces(a: seq<Toml>, b: seq<Toml>, i: nat, j: nat) returns (k: nat, l: nat)
    requires multiset(a) == multiset(b) && i < j < |a|
    ensures k < |b| && l < |b| && k != l && b[k] == a[i] && b[l] == a[j]
  {
    assert a[i] in multiset(b);
    k :| 0 <= k < |b| && b[k] == a[i];
    var a' := a[..i] + a[i + 1..];
    var b' := b[..k] + b[k + 1..];
    RemoveAt(a, i);
    RemoveAt(b, k);
    assert multiset(a') == multiset(a) - multiset{a[i]} == multiset(b) - multiset{b[k]} == multiset(b');
    assert a'[j - 1] == a[j] && a[j] in multiset(b');
    var m :| 0 <= m < |b'| && b'[m] == a[j];
    l := if m < k then m else m + 1;
  }

  lemma CollectionIsUnique(t: Toml, u: Toml, a: seq<Toml>, b: seq<Toml>)
    requires Collects(t, a) && Collects(u, b)
    requires forall x :: x in a <==> x in b
    ensures t == u
  {
    assert t.sections.Keys == u.sections.Keys;
    forall s | s in t.sections
      ensures t.sections[s] == u.sections[s]
    {
      SameSection(t, u, a, b, s);
    }
    assert t.changelogSeen == u.changelogSeen by {
      if t.changelogSeen.Some? {
        var x :| x in a && x.changelogSeen == Some(t.changelogSeen.value);
      } else if u.changelogSeen.Some? {
        var x :| x in b && x.changelogSeen == Some(u.changelogSeen.value);
      }
    }
  }

  lemma SameSection(t: Toml, u: Toml, a: seq<Toml>, b: seq<Toml>, s: Section)
    requires Collects(t, a) && Collects(u, b)
    requires forall x :: x in a <==> x in b
    requires s in t.sections && s in u.sections
    ensures t.sections[s] == u.sections[s]
  {
    var x, y := t.sections[s], u.sections[s];
    forall f
      ensures f in x <==> f in y
      ensures f in x && f in y ==> x[f] == y[f]
    {
      SameField(t, u, a, b, s, f);
      assert f in x <==> Get(t, s, f).Some?;
      assert f in y <==> Get(u, s, f).Some?;
    }
    assert x.Keys == y.Keys;
  }

  lemma SameField(t: Toml, u: Toml, a: seq<Toml>, b: seq<Toml>, s: Section, f: Field)
    requires Collects(t, a) && Collects(u, b)
    requires forall x :: x in a <==> x in b
    ensures Get(t, s, f) == Get(u, s, f)
  {
    if Get(t, s, f).Some? {
      assert Get(t, s, f) == Some(Get(t, s, f).value);
      var x :| x in a && Get(x, s, f) == Some(Get(t, s, f).value);
      assert Get(u, s, f) == Get(t, s, f);
    } else if Get(u, s, f).Some? {
      assert Get(u, s, f) == Some(Get(u, s, f).value);
      var x :| x in b && Get(x, s, f) == Some(Get(u, s, f).value);
      assert Get(t, s, f) == Get(u, s, f);
    }
  }

  // ---------------------------------------------------------------------------
  // The pipeline of `parse_inner`.

  ghost function Pipeline(user: Toml, profile: Option<Toml>, sets: seq<Toml>): Result<Toml> {
    var base := if profile.Some? then Merge(user, profile.value, IgnoreDuplicate) else Ok(user);
    if !base.Ok? then base
    else
      var options := FoldSets(sets);
      if !options.Ok? then options else Merge(base.value, options.value, Override)
  }

  /** An option that cannot be merged decides the outcome, whatever comes after it. */
  lemma {:induction false} FoldStops(sets: seq<Toml>, n: nat)
    requires n <= |sets| && !FoldSets(sets[..n]).Ok?
    ensures FoldSets(sets) == FoldSets(sets[..n])
    decreases |sets| - n
  {
    if n < |sets| {
      assert sets[..n + 1][..n] == sets[..n];
      FoldStops(sets, n + 1);
    } else {
      assert sets[..n] == sets;
    }
  }

  /** The profile under the user's file, the options among themselves, and the options over both. */
  method ParseInner(user: Toml, profile: Option<Toml>, sets: seq<Toml>) returns (r: Result<Toml>)
    ensures r == Pipeline(user, profile, sets)
  {
    var toml := new TomlConfig(user);
    if profile.Some? {
      var merged := toml.MergeIn(profile.value, IgnoreDuplicate);
      if !merged.Ok? {
        return if merged.Exit2? then Exit2 else TargetPanic;
      }
    }
    ghost var base := toml.Now();
    var options := new TomlConfig(EMPTY);
    for i := 0 to |sets|
      invariant toml.Now() == base && toml != options
      invariant FoldSets(sets[..i]) == Ok(options.Now())
    {
      assert sets[..i + 1][..i] == sets[..i];
      var merged := options.MergeIn(sets[i], ErrorOnDuplicate);
      if !merged.Ok? {
        FoldStops(sets, i + 1);
        return if merged.Exit2? then Exit2 else TargetPanic;
      }
    }
    assert sets[..|sets|] == sets;
    var merged := toml.MergeIn(options.Now(), Override);
    r := if merged.Ok? then Ok(toml.Now()) else if merged.Exit2? then Exit2 else TargetPanic;
  }

  /** Every field ends up as the first present of `--set`, user file and profile; the pipeline fails
      exactly when two options set the same thing. */
  lemma PipelinePrecedence(user: Toml, profile: Option<Toml>, sets: seq<Toml>, s: Section, f: Field)
    requires NoTargets(sets) && (profile.Some? ==> !profile.value.hasTargetTable)
    ensures Pipeline(user, profile, sets).Exit2? <==> Clashing(sets)
    ensures Pipeline(user, profile, sets).Ok? <==> !Clashing(sets)
    ensures !Clashing(sets) ==>
              var included := if profile.Some? then Get(profile.value, s, f) else None;
              && FoldSets(sets).Ok?
              && Get(Pipeline(user, profile, sets).value, s, f)
                 == First(Get(FoldSets(sets).value, s, f), First(Get(user, s, f), included))
              && (forall x | x in sets && Get(x, s, f).Some? :: Get(Pipeline(user, profile, sets).value, s, f) == Get(x, s, f))
              && Pipeline(user, profile, sets).value.changelogSeen
                 == First(FoldSets(sets).value.changelogSeen,
                          First(user.changelogSeen, if profile.Some? then profile.value.changelogSeen else None))
  {
    FoldFailsIffClashing(sets);
    if profile.Some? {
      LenientMergeSucceeds(user, profile.value, IgnoreDuplicate);
      MergedField(user, profile.value, IgnoreDuplicate, s, f);
    }
    if !Clashing(sets) {
      var base := if profile.Some? then Merge(user, profile.value, IgnoreDuplicate).value else user;
      var options := FoldSets(sets).value;
      LenientMergeSucceeds(base, options, Override);
      MergedField(base, options, Override, s, f);
      forall x | x in sets && Get(x, s, f).Some?
        ensures Get(options, s, f) == Get(x, s, f)
      {
        assert Get(x, s, f) == Some(Get(x, s, f).value);
      }
    }
  }

  lemma LenientMergeSucceeds(x: Toml, y: Toml, replace: ReplaceOpt)
    requires replace != ErrorOnDuplicate && !y.hasTargetTable
    ensures Merge(x, y, replace).Ok?
  {
  }
}
