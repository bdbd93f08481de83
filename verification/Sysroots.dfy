/** Sysroot directories: which of them are wiped when, and what that deletes. */
module Sysroots {
  import opened Sequences
  import opened StepEngine
  import opened EngineTrace
  import opened StageGraph
  import opened StageContracts
  import opened Layout
  import opened StageRun

  type Log = seq<Event<Step, Effect>>

  predicate IsWipe(e: Effect) {
    e.WipeSysroot? || e.WipeLibdir?
  }

  function WipePath(cfg: Config, e: Effect): Path
    requires IsWipe(e)
  {
    if e.WipeSysroot? then SysrootPath(e.compiler) else LibdirPath(cfg, e.compiler, e.target)
  }

  /** Where a piece of a sysroot goes. */
  function PieceDir(cfg: Config, c: Compiler, piece: Piece): Path {
    var lib := SysrootPath(c) + LibRelative(cfg, c.stage);
    match piece
    case SnapshotParts => SysrootPath(c) + ["bin"]
    case RustcLibdir => lib
    case Dylibs => lib
    case LlvmRuntime => lib
    case LinkerTools => lib + ["rustlib", c.host.triple, "bin"]
    case LlvmTools => lib + ["rustlib", c.host.triple, "bin"]
  }

  /** The directories into which an effect copies artifacts. */
  function Destinations(cfg: Config, e: Effect): set<Path> {
    match e
    case CopyToLibdir(c, t, _) => {LibdirPath(cfg, c, t)}
    case LinkStamped(_, c, tc, t, _) => {LibdirPath(cfg, tc, t), LibdirPath(cfg, tc, c.host)}
    case InstallLlvm(c, _) => {LlvmPath(c)}
    case InstallCompiler(c) => {SysrootPath(c) + ["bin"]}
    case CopyToSysroot(c, piece) => {PieceDir(cfg, c, piece)} + (if piece == SnapshotParts then {SysrootPath(c) + ["lib"]} else {})
    case AddBackends(c, _) => {SysrootPath(c) + LibRelative(cfg, c.stage) + ["rustlib", c.host.triple, "codegen-backends"]}
    case LinkSources(c) => {SysrootPath(c) + ["lib", "rustlib", "src"], SysrootPath(c) + ["lib", "rustlib", "rustc-src"]}
    case _ => {}
  }

  /** There is a libLLVM for `h` to copy: from before the run, or because the run has built one for the
      same triple. */
  ghost predicate LlvmReady(cfg: Config, log: Log, h: Target) {
    HasLibLlvm(cfg, h) || exists k: nat :: BuiltLlvm(log, h, k)
  }

  ghost predicate BuiltLlvm(log: Log, h: Target, k: nat) {
    k < |log| && log[k].Did? && log[k].effect.BuildLlvm? && log[k].effect.target.triple == h.triple
  }

  lemma ReadyStaysReady(cfg: Config, log: Log, longer: Log, h: Target)
    requires LlvmReady(cfg, log, h) && log <= longer
    ensures LlvmReady(cfg, longer, h)
  {
    if !HasLibLlvm(cfg, h) {
      var k: nat :| BuiltLlvm(log, h, k);
      assert BuiltLlvm(longer, h, k);
    }
  }

  /** The event copies what its effect says: libLLVM is copied only if there is one. */
  ghost predicate Copies(cfg: Config, log: Log, i: nat) {
    && i < |log| && log[i].Did?
    && (log[i].effect.InstallLlvm? ==> LlvmReady(cfg, log[..i], log[i].effect.compiler.host))
  }

  /** `w` deletes a directory into which `e` copies. */
  ghost predicate Undoes(cfg: Config, w: Effect, e: Effect) {
    IsWipe(w) && exists d :: d in Destinations(cfg, e) && WipePath(cfg, w) <= d
  }

  /** Something that was copied is deleted later in the run. */
  ghost predicate LosesArtifacts(cfg: Config, log: Log, i: nat, j: nat) {
    i < j < |log| && Copies(cfg, log, i) && log[j].Did? && Undoes(cfg, log[j].effect, log[i].effect)
  }

  /** A directory that was wiped and handed out is wiped once more. */
  ghost predicate WipesAgain(cfg: Config, log: Log, i: nat, j: nat) {
    && i < j < |log| && log[i].Did? && log[j].Did? && IsWipe(log[i].effect) && IsWipe(log[j].effect)
    && WipePath(cfg, log[j].effect) <= WipePath(cfg, log[i].effect)
  }

  ghost predicate SomeArtifactIsLost(cfg: Config, log: Log) {
    exists i: nat, j: nat :: LosesArtifacts(cfg, log, i, j)
  }

  ghost predicate SomeDirectoryIsWipedAgain(cfg: Config, log: Log) {
    exists i: nat, j: nat :: WipesAgain(cfg, log, i, j)
  }

  // ---------------------------------------------------------------------------
  // Whoever copies into a directory asked for it first.

  /** Where things go, by name, in the sysroot of a stage-1 compiler with the usual libdir. */
  lemma DestinationsByName(cfg: Config, h: Target, t: Target, from: Compiler, mode: Mode, part: Part, build: Build)
    requires cfg.libdirRelative.None?
    ensures var c, at := Compiler(1, h), [h.triple, "stage1"];
            && Destinations(cfg, CopyToLibdir(c, t, part)) == {at + ["lib", "rustlib", t.triple, "lib"]}
            && Destinations(cfg, LinkStamped(mode, from, c, t, build))
               == {at + ["lib", "rustlib", t.triple, "lib"], at + ["lib", "rustlib", from.host.triple, "lib"]}
            && Destinations(cfg, InstallLlvm(c, t)) == {at + ["lib", "rustlib", h.triple, "lib"]}
            && Destinations(cfg, InstallCompiler(c)) == {at + ["bin"]}
            && Destinations(cfg, AddBackends(c, t)) == {at + ["lib", "rustlib", h.triple, "codegen-backends"]}
            && Destinations(cfg, LinkSources(c)) == {at + ["lib", "rustlib", "src"], at + ["lib", "rustlib", "rustc-src"]}
  {
    NamesOfStages();
    LibdirsByName(cfg, h, t);
    LibdirsByName(cfg, h, from.host);
    var c, at := Compiler(1, h), [h.triple, "stage1"];
    assert SysrootPath(c) == at;
    assert at + ["lib"] + ["rustlib", t.triple, "lib"] == at + ["lib", "rustlib", t.triple, "lib"];
    assert at + ["lib"] + ["rustlib", from.host.triple, "lib"] == at + ["lib", "rustlib", from.host.triple, "lib"];
    assert at + ["lib"] + ["rustlib", h.triple, "codegen-backends"] == at + ["lib", "rustlib", h.triple, "codegen-backends"];
  }

  lemma PiecesByName(cfg: Config, h: Target)
    requires cfg.libdirRelative.None?
    ensures var c, at := Compiler(1, h), [h.triple, "stage1"];
            && Destinations(cfg, CopyToSysroot(c, Dylibs)) == Destinations(cfg, CopyToSysroot(c, LlvmRuntime)) == {at + ["lib"]}
            && Destinations(cfg, CopyToSysroot(c, LinkerTools)) == {at + ["lib", "rustlib", h.triple, "bin"]}
            && Destinations(cfg, CopyToSysroot(c, LlvmTools)) == {at + ["lib", "rustlib", h.triple, "bin"]}
    ensures Destinations(cfg, CopyToSysroot(Compiler(0, h), SnapshotParts)) == {[h.triple, "stage0-sysroot", "bin"], [h.triple, "stage0-sysroot", "lib"]}
  {
    NamesOfStages();
    var at := [h.triple, "stage1"];
    assert SysrootPath(Compiler(1, h)) == at && SysrootPath(Compiler(0, h)) == [h.triple, "stage0-sysroot"];
    assert at + ["lib"] + ["rustlib", h.triple, "bin"] == at + ["lib", "rustlib", h.triple, "bin"];
    assert [h.triple, "stage0-sysroot"] + ["bin"] == [h.triple, "stage0-sysroot", "bin"];
    assert [h.triple, "stage0-sysroot"] + ["lib"] == [h.triple, "stage0-sysroot", "lib"];
  }

  /** No target libdir is a prefix of the other places in a sysroot. */
  lemma LibdirIsElsewhere(cfg: Config, wc: Compiler, t: Target, e: Effect, d: Path)
    requires e.CopyToSysroot? || e.LinkSources? || e.InstallCompiler? || e.AddBackends?
    requires d in Destinations(cfg, e) && wc.stage == e.compiler.stage
    ensures !(LibdirPath(cfg, wc, t) <= d)
  {
    var r := LibRelative(cfg, wc.stage);
    var p := LibdirPath(cfg, wc, t);
    assert |p| == |r| + 5 && p[|r| + 2] == "rustlib" && p[|r| + 4] == "lib";
    assert r == [] ==> p[2] == "rustlib";
  }

  /** Every destination lies in the sysroot that the effect relies on. */
  lemma DestinationsAreInside(cfg: Config, e: Effect, d: Path) returns (c: Compiler, rest: Path)
    requires d in Destinations(cfg, e)
    ensures d == SysrootPath(c) + rest && Wiped(c) in Needs(cfg, e)
    ensures c == (if e.LinkStamped? then e.targetCompiler else e.compiler)
  {
    c := if e.LinkStamped? then e.targetCompiler else e.compiler;
    rest := d[2..];
  }

  /** libLLVM of the snapshot's sysroot is the one thing that is copied by a step which did not ask for
      the directory: it lies in a target libdir if the libdir is `lib`. */
  ghost predicate LosesLlvm(cfg: Config, w: Effect, e: Effect) {
    && e.InstallLlvm? && e.compiler.stage == 0 && cfg.initialLibdir == ["lib"]
    && w.WipeLibdir? && SysrootPath(w.compiler) == SysrootPath(e.compiler) && w.target.triple == e.compiler.host.triple
  }

  /** What is deleted was copied on the strength of an earlier wipe of the same directory. */
  lemma UndoneEffectsRelyOnAWipe(cfg: Config, w: Effect, e: Effect) returns (w': Effect)
    requires Undoes(cfg, w, e) && !LosesLlvm(cfg, w, e)
    ensures IsWipe(w') && Gives(w') <= Needs(cfg, e) && WipePath(cfg, w') == WipePath(cfg, w)
  {
    var d :| d in Destinations(cfg, e) && WipePath(cfg, w) <= d;
    var c, rest := DestinationsAreInside(cfg, e, d);
    assert SysrootPath(w.compiler) <= d by {
      assert SysrootPath(w.compiler) <= WipePath(cfg, w);
    }
    SysrootsDiffer(w.compiler, c, rest);
    if w.WipeSysroot? {
      w' := WipeSysroot(c);
    } else {
      w' := LibdirOfDestination(cfg, w.compiler, w.target, e, c, d);
    }
  }

  lemma LibdirOfDestination(cfg: Config, wc: Compiler, t: Target, e: Effect, c: Compiler, d: Path) returns (w': Effect)
    requires d in Destinations(cfg, e) && LibdirPath(cfg, wc, t) <= d && !LosesLlvm(cfg, WipeLibdir(wc, t), e)
    requires c == (if e.LinkStamped? then e.targetCompiler else e.compiler)
    requires wc.stage == c.stage && SysrootPath(wc) == SysrootPath(c)
    ensures w'.WipeLibdir? && Gives(w') <= Needs(cfg, e) && WipePath(cfg, w') == LibdirPath(cfg, wc, t)
  {
    match e
    case CopyToLibdir(_, u, _) =>
      LibdirsDiffer(cfg, wc, t, c, u);
      w' := WipeLibdir(c, u);
    case LinkStamped(_, from, _, u, _) =>
      LibdirsDiffer(cfg, wc, t, c, u);
      LibdirsDiffer(cfg, wc, t, c, from.host);
      w' := if d == LibdirPath(cfg, c, u) then WipeLibdir(c, u) else WipeLibdir(c, from.host);
    case InstallLlvm(_, _) =>
      LibdirsDiffer(cfg, wc, t, c, c.host);
      w' := WipeLibdir(c, c.host);
    case CopyToSysroot(_, _) => LibdirIsElsewhere(cfg, wc, t, e, d);
    case AddBackends(_, _) => LibdirIsElsewhere(cfg, wc, t, e, d);
    case LinkSources(_) => LibdirIsElsewhere(cfg, wc, t, e, d);
    case InstallCompiler(_) => LibdirIsElsewhere(cfg, wc, t, e, d);
  }

  /** In every run, whatever is lost is libLLVM of the snapshot, or was in a directory that is wiped again. */
  lemma LostArtifacts(cfg: Config, end: State<Step, Output, Effect>, i: nat, j: nat)
    requires Ended(cfg, end) && LosesArtifacts(cfg, end.log, i, j)
    ensures LosesLlvm(cfg, end.log[j].effect, end.log[i].effect) || SomeDirectoryIsWipedAgain(cfg, end.log)
  {
    var w, e := end.log[j].effect, end.log[i].effect;
    if !LosesLlvm(cfg, w, e) {
      var w' := UndoneEffectsRelyOnAWipe(cfg, w, e);
      var f := WipeFact(w');
      var k := ReliedOnEarlier(cfg, end, i, f);
      OnlyTheWipe(w', f, end.log[k].effect);
      WipedTwice(cfg, end.log, k, j);
    }
  }

  lemma WipeFact(w: Effect) returns (f: Fact)
    requires IsWipe(w)
    ensures Gives(w) == {f} && (f.Wiped? || f.WipedLib?)
  {
    f := if w.WipeSysroot? then Wiped(w.compiler) else WipedLib(w.compiler, w.target);
  }

  lemma OnlyTheWipe(w: Effect, f: Fact, e: Effect)
    requires IsWipe(w) && Gives(w) == {f} && f in Gives(e)
    ensures e == w
  {
  }

  lemma WipedTwice(cfg: Config, log: Log, i: nat, j: nat)
    requires i < j < |log| && log[i].Did? && log[j].Did? && IsWipe(log[i].effect) && IsWipe(log[j].effect)
    requires WipePath(cfg, log[i].effect) == WipePath(cfg, log[j].effect)
    ensures SomeDirectoryIsWipedAgain(cfg, log)
  {
    assert WipesAgain(cfg, log, i, j);
  }

  // ---------------------------------------------------------------------------
  // A directory is wiped again exactly when two steps make the same one.

  predicate IsDirectory(s: Step) {
    s.Sysroot? || s.Libdir?
  }

  function WipeOf(s: Step): Effect
    requires IsDirectory(s)
  {
    if s.Sysroot? then WipeSysroot(s.compiler) else WipeLibdir(s.compiler, s.target)
  }

  /** Two different steps of `u` make the same directory. */
  ghost predicate AreTwins(cfg: Config, x: Step, y: Step) {
    x != y && IsDirectory(x) && IsDirectory(y) && WipePath(cfg, WipeOf(x)) == WipePath(cfg, WipeOf(y))
  }

  ghost predicate Twins(cfg: Config, u: set<Step>) {
    exists x, y :: x in u && y in u && AreTwins(cfg, x, y)
  }

  function SnapshotInstall(cfg: Config, c: Compiler, t: Target): seq<Effect> {
    if c.stage == 0 && InstallsLlvm(cfg, c.host) then [InstallLlvm(c, t)] else []
  }

  lemma SysrootEffects(cfg: Config, c: Compiler)
    ensures Effects(Body(cfg, Sysroot(c))) == [WipeSysroot(c)] + (SnapshotInstall(cfg, c, c.host) + [LinkSources(c)])
  {
    EffectsByPieces();
  }

  lemma LibdirEffects(cfg: Config, c: Compiler, t: Target)
    ensures Effects(Body(cfg, Libdir(c, t))) == [WipeLibdir(c, t)] + SnapshotInstall(cfg, c, t)
  {
    EffectsByPieces();
  }

  lemma {:induction false} EffectsConcat(a: seq<StepOp>, b: seq<StepOp>)
    ensures Effects(a + b) == Effects(a) + Effects(b)
  {
    if a == [] {
      assert a + b == b;
    } else {
      assert (a + b)[1..] == a[1..] + b;
      EffectsConcat(a[1..], b);
      Assoc(if a[0].Do? then [a[0].effect] else [], Effects(a[1..]), Effects(b));
    }
  }

  lemma EffectsByPieces()
    ensures forall a: seq<StepOp>, b {:trigger Effects(a + b)} :: Effects(a + b) == Effects(a) + Effects(b)
    ensures forall d: Step {:trigger Effects<Step, Effect>([Need(d)])} :: Effects<Step, Effect>([Need(d)]) == []
    ensures forall e: Effect {:trigger Effects<Step, Effect>([Do(e)])} :: Effects<Step, Effect>([Do(e)]) == [e]
  {
    forall a: seq<StepOp>, b
      ensures Effects(a + b) == Effects(a) + Effects(b)
    {
      EffectsConcat(a, b);
    }
  }

  lemma {:induction false} StandsOnce(e: Effect, rest: seq<Effect>)
    requires e !in rest
    ensures Count([e] + rest, e) == 1
    decreases |rest|
  {
    if rest == [] {
      assert [e] + rest == [] + [e];
      CountLast([], e, e);
    } else {
      var n := |rest| - 1;
      assert [e] + rest == ([e] + rest[..n]) + [rest[n]];
      StandsOnce(e, rest[..n]);
      CountLast([e] + rest[..n], rest[n], e);
    }
  }

  lemma WipeStandsOnce(cfg: Config, s: Step)
    requires IsDirectory(s)
    ensures Count(Effects(Body(cfg, s)), WipeOf(s)) == 1
  {
    var c := s.compiler;
    if s.Sysroot? {
      SysrootEffects(cfg, c);
      StandsOnce(WipeSysroot(c), SnapshotInstall(cfg, c, c.host) + [LinkSources(c)]);
    } else {
      LibdirEffects(cfg, c, s.target);
      StandsOnce(WipeLibdir(c, s.target), SnapshotInstall(cfg, c, s.target));
    }
  }

  /** Each directory step wipes once, and nobody else wipes for it. */
  lemma WipesHappenOnce(cfg: Config, end: State<Step, Output, Effect>, i: nat, j: nat)
    requires Ended(cfg, end)
    requires i < j < |end.log|
    requires end.log[i].Did? && end.log[j].Did?
    requires IsWipe(end.log[j].effect)
    ensures end.log[i].effect != end.log[j].effect
  {
    EventsAreOwned(cfg, end, i);
    EventsAreOwned(cfg, end, j);
    WipeStandsOnce(cfg, end.log[j].who);
    if end.log[i].effect == end.log[j].effect {
      RepeatedEffect(end.log, end.log[j].who, end.log[j].effect, i, j);
    }
  }

  lemma WipeIsOwned(cfg: Config, end: State<Step, Output, Effect>, i: nat)
    requires Ended(cfg, end)
    requires i < |end.log| && end.log[i].Did? && IsWipe(end.log[i].effect)
    ensures var s := end.log[i].who;
            s in end.cache && WellFormed(cfg, s) && IsDirectory(s) && WipeOf(s) == end.log[i].effect
  {
    EventsAreOwned(cfg, end, i);
  }

  lemma WipePlace(cfg: Config, end: State<Step, Output, Effect>, s: Step) returns (j: nat)
    requires Ended(cfg, end) && s in end.cache && IsDirectory(s)
    ensures j < |end.log| && end.log[j] == Did(s, WipeOf(s))
  {
    if s.Sysroot? {
      SysrootEffects(cfg, s.compiler);
    } else {
      LibdirEffects(cfg, s.compiler, s.target);
    }
    j := EffectPlace(end.log, s, WipeOf(s));
  }

  lemma WipedAgainMeansTwins(cfg: Config, end: State<Step, Output, Effect>, i: nat, j: nat)
    requires Ended(cfg, end) && WipesAgain(cfg, end.log, i, j)
    ensures Twins(cfg, end.cache.Keys)
  {
    WipeIsOwned(cfg, end, i);
    WipeIsOwned(cfg, end, j);
    WipesHappenOnce(cfg, end, i, j);
    var x, y := end.log[i].who, end.log[j].who;
    if WipePath(cfg, WipeOf(x)) == WipePath(cfg, WipeOf(y)) {
      assert AreTwins(cfg, x, y);
    } else {
      SysrootWipedUnderLibdir(cfg, end, i, j);
    }
  }

  /** The other case: a sysroot is wiped with a libdir in it, which was made for another step. */
  lemma SysrootWipedUnderLibdir(cfg: Config, end: State<Step, Output, Effect>, i: nat, j: nat)
    requires Ended(cfg, end) && WipesAgain(cfg, end.log, i, j)
    requires WipePath(cfg, end.log[j].effect) != WipePath(cfg, end.log[i].effect)
    ensures Twins(cfg, end.cache.Keys)
  {
    PrefixOfDirectory(cfg, end.log[j].effect, end.log[i].effect);
    var c := end.log[i].effect.compiler;
    var k := SysrootWipedBefore(cfg, end, i);
    WipesHappenOnce(cfg, end, k, j);
    WipeIsOwned(cfg, end, k);
    WipeIsOwned(cfg, end, j);
    assert AreTwins(cfg, end.log[k].who, end.log[j].who);
  }

  lemma SysrootWipedBefore(cfg: Config, end: State<Step, Output, Effect>, i: nat) returns (k: nat)
    requires Ended(cfg, end) && i < |end.log| && end.log[i].Did? && end.log[i].effect.WipeLibdir?
    ensures k < i && end.log[k].Did? && end.log[k].effect == WipeSysroot(end.log[i].effect.compiler)
  {
    var f := SysrootFact(cfg, end.log[i].effect);
    k := ReliedOnEarlier(cfg, end, i, f);
  }

  lemma SysrootFact(cfg: Config, w: Effect) returns (f: Fact)
    requires w.WipeLibdir?
    ensures f in Needs(cfg, w)
    ensures forall e: Effect | f in Gives(e) :: e == WipeSysroot(w.compiler)
  {
    f := Wiped(w.compiler);
  }

  lemma PrefixOfDirectory(cfg: Config, w: Effect, e: Effect)
    requires IsWipe(w) && IsWipe(e) && WipePath(cfg, w) <= WipePath(cfg, e) && WipePath(cfg, w) != WipePath(cfg, e)
    ensures w.WipeSysroot? && e.WipeLibdir? && SysrootPath(w.compiler) == SysrootPath(e.compiler)
  {
    var p, q := WipePath(cfg, w), WipePath(cfg, e);
    assert SysrootPath(w.compiler) == p[..2] && SysrootPath(e.compiler) == q[..2];
    assert p[..2] == q[..2];
    SysrootsDiffer(w.compiler, e.compiler, []);
    if w.WipeLibdir? && e.WipeLibdir? {
      LibdirsDiffer(cfg, w.compiler, w.target, e.compiler, e.target);
    }
  }

  /** A directory is wiped again exactly when two steps of the run make the same one. */
  lemma WipedAgainIffTwins(cfg: Config, end: State<Step, Output, Effect>)
    requires Ended(cfg, end)
    ensures SomeDirectoryIsWipedAgain(cfg, end.log) <==> Twins(cfg, end.cache.Keys)
  {
    if SomeDirectoryIsWipedAgain(cfg, end.log) {
      var i: nat, j: nat :| WipesAgain(cfg, end.log, i, j);
      WipedAgainMeansTwins(cfg, end, i, j);
    }
    if Twins(cfg, end.cache.Keys) {
      var x, y :| x in end.cache.Keys && y in end.cache.Keys && AreTwins(cfg, x, y);
      TwinsWipeAgain(cfg, end, x, y);
    }
  }

  lemma TwinsWipeAgain(cfg: Config, end: State<Step, Output, Effect>, x: Step, y: Step)
    requires Ended(cfg, end) && x in end.cache && y in end.cache && AreTwins(cfg, x, y)
    ensures SomeDirectoryIsWipedAgain(cfg, end.log)
  {
    var i := WipePlace(cfg, end, x);
    var j := WipePlace(cfg, end, y);
    SamePathWipesAgain(cfg, end.log, i, j, x, y);
  }

  lemma SamePathWipesAgain(cfg: Config, log: Log, i: nat, j: nat, x: Step, y: Step)
    requires AreTwins(cfg, x, y) && i < |log| && j < |log| && log[i] == Did(x, WipeOf(x)) && log[j] == Did(y, WipeOf(y))
    ensures SomeDirectoryIsWipedAgain(cfg, log)
  {
    assert WipesAgain(cfg, log, i, j) || WipesAgain(cfg, log, j, i);
  }

  /** No two targets or hosts share a triple. */
  ghost predicate Distinct(names: set<Target>) {
    forall a, b | a in names && b in names && a.triple == b.triple :: a == b
  }

  ghost function AllNames(cfg: Config, roots: seq<Step>): set<Target> {
    set s, t | s in roots && t in Names(cfg, s) :: t
  }

  /** Twins name targets or hosts that share a triple and differ. */
  lemma TwinsShareATriple(cfg: Config, x: Step, y: Step)
    requires AreTwins(cfg, x, y)
    ensures !Distinct(Names(cfg, x) + Names(cfg, y))
  {
    var p, q := WipePath(cfg, WipeOf(x)), WipePath(cfg, WipeOf(y));
    assert SysrootPath(x.compiler) == p[..2] && SysrootPath(y.compiler) == q[..2];
    SysrootsDiffer(x.compiler, y.compiler, []);
    if x.Libdir? && y.Libdir? {
      LibdirsDiffer(cfg, x.compiler, x.target, y.compiler, y.target);
      if x.compiler == y.compiler {
        assert x.target in Names(cfg, x) && y.target in Names(cfg, y);
      }
    }
    if x.compiler != y.compiler {
      assert x.compiler.host in Names(cfg, x) && y.compiler.host in Names(cfg, y);
    }
  }

  /** Roots that name no two targets with the same triple, the build target included, never lead to twins. */
  lemma DistinctNamesHaveNoTwins(cfg: Config, roots: seq<Step>)
    requires forall s | s in roots :: WellFormed(cfg, s)
    requires Distinct(AllNames(cfg, roots))
    ensures !Twins(cfg, ReachAll(cfg, roots))
  {
    forall x, y | x in ReachAll(cfg, roots) && y in ReachAll(cfg, roots)
      ensures !AreTwins(cfg, x, y)
    {
      if AreTwins(cfg, x, y) {
        var a := TraitsComeFromRoots(cfg, roots, x);
        var b := TraitsComeFromRoots(cfg, roots, y);
        TwinsShareATriple(cfg, x, y);
      }
    }
  }

  // ---------------------------------------------------------------------------
  // libLLVM of the snapshot.

  /** Who loses it and who had installed it. */
  lemma LostLlvm(cfg: Config, end: State<Step, Output, Effect>, i: nat, j: nat)
    requires Ended(cfg, end) && LosesArtifacts(cfg, end.log, i, j)
    requires LosesLlvm(cfg, end.log[j].effect, end.log[i].effect)
    ensures var c, t := Snapshot(cfg), end.log[j].effect.target;
            && end.log[i].effect.InstallLlvm? && end.log[i].effect.compiler == c && InstallsLlvm(cfg, cfg.build)
            && end.log[j] == Did(Libdir(c, t), WipeLibdir(c, t)) && t.triple == cfg.build.triple
            && Libdir(c, t) in end.cache && end.log[i].who in end.cache
  {
    WipeIsOwned(cfg, end, j);
    EventsAreOwned(cfg, end, i);
    var w, e := end.log[j].effect, end.log[i].effect;
    SysrootsDiffer(w.compiler, e.compiler, []);
  }

  /** An attempt to install it precedes every wipe of a libdir in the snapshot's sysroot. */
  lemma InstallPrecedesWipe(cfg: Config, end: State<Step, Output, Effect>, j: nat) returns (i: nat)
    requires Ended(cfg, end) && InstallsLlvm(cfg, cfg.build)
    requires j < |end.log| && end.log[j].Did? && end.log[j].effect.WipeLibdir? && end.log[j].effect.compiler == Snapshot(cfg)
    ensures i < j && end.log[i].Did? && end.log[i].effect.InstallLlvm? && end.log[i].effect.compiler == Snapshot(cfg)
  {
    var f := SnapshotFact(cfg, end.log[j].effect);
    i := ReliedOnEarlier(cfg, end, j, f);
  }

  lemma SnapshotFact(cfg: Config, w: Effect) returns (f: Fact)
    requires InstallsLlvm(cfg, cfg.build) && w.WipeLibdir? && w.compiler == Snapshot(cfg)
    ensures f in Needs(cfg, w)
    ensures forall e: Effect | f in Gives(e) :: e.InstallLlvm? && e.compiler == Snapshot(cfg)
  {
    f := LlvmIn(Snapshot(cfg));
  }

  /** The step that loses it installs it again. */
  lemma LostLlvmIsRestored(cfg: Config, end: State<Step, Output, Effect>, i: nat, j: nat) returns (k: nat)
    requires Ended(cfg, end) && LosesArtifacts(cfg, end.log, i, j)
    requires LosesLlvm(cfg, end.log[j].effect, end.log[i].effect)
    ensures j < k < |end.log| && end.log[k].Did? && end.log[k].who == end.log[j].who
    ensures Copies(cfg, end.log, k) && Destinations(cfg, end.log[k].effect) == Destinations(cfg, end.log[i].effect)
  {
    LostLlvm(cfg, end, i, j);
    var t := end.log[j].effect.target;
    k := LibdirInstallsLlvmLast(cfg, end, t);
    ReadyStaysReady(cfg, end.log[..i], end.log[..k], cfg.build);
  }

  lemma LibdirInstallsLlvmLast(cfg: Config, end: State<Step, Output, Effect>, t: Target) returns (k: nat)
    requires Ended(cfg, end) && Libdir(Snapshot(cfg), t) in end.cache && InstallsLlvm(cfg, cfg.build)
    ensures k < |end.log| && end.log[k] == Did(Libdir(Snapshot(cfg), t), InstallLlvm(Snapshot(cfg), t))
    ensures forall m | k < m < |end.log| :: !(end.log[m].Did? && end.log[m].who == Libdir(Snapshot(cfg), t))
  {
    LibdirEffects(cfg, Snapshot(cfg), t);
    k := LastEffectPlace(end.log, Libdir(Snapshot(cfg), t));
  }
}
