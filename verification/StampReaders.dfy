/** What a reader of a stamp finds in it. The stamp of a library or a compiler is written by every build
    for the same compiler and target, and a build that was asked for some crates lists only those. */
module StampReaders {
  import opened StepEngine
  import opened StageGraph
  import opened StageContracts
  import opened StageRun
  import opened RootParts
  import opened Sysroots
  import opened StageInputs

  ghost predicate Untwinned(cfg: Config, roots: seq<Step>, clock: Clock) {
    Requests(cfg, roots) && Monotone(clock) && KeepsNothing(cfg) && !Twins(cfg, ReachAll(cfg, roots))
  }

  // ---------------------------------------------------------------------------
  // The condition, on the roots.

  /** A root asks for some crates only, and no earlier root has made the same build. */
  ghost predicate LimitedAt(cfg: Config, roots: seq<Step>, m: nat, mode: Mode, c: Compiler, t: Target)
    requires Requests(cfg, roots)
  {
    && m < |roots| && Compiles(roots[m], mode, c, t) && BuildOf(roots[m]).crates != []
    && roots[m] !in ReachAll(cfg, roots[..m])
  }

  /** A root leads to a full build that no earlier root has led to. */
  ghost predicate FullAt(cfg: Config, roots: seq<Step>, l: nat, mode: Mode, c: Compiler, t: Target)
    requires Requests(cfg, roots)
  {
    l < |roots| && exists w :: w in Reach(cfg, roots[l]) && IsNewFull(cfg, roots, l, mode, c, t, w)
  }

  ghost predicate IsNewFull(cfg: Config, roots: seq<Step>, l: nat, mode: Mode, c: Compiler, t: Target, w: Step)
    requires Requests(cfg, roots) && l < |roots|
  {
    w !in ReachAll(cfg, roots[..l]) && Compiles(w, mode, c, t) && BuildOf(w).crates == []
  }

  /** By root `n`, the last new build was a limited one. */
  ghost predicate LimitedLast(cfg: Config, roots: seq<Step>, n: nat, mode: Mode, c: Compiler, t: Target)
    requires Requests(cfg, roots)
  {
    exists m: nat :: m < n && LimitedAt(cfg, roots, m, mode, c, t) && NoFullBetween(cfg, roots, m, n, mode, c, t)
  }

  ghost predicate NoFullBetween(cfg: Config, roots: seq<Step>, m: nat, n: nat, mode: Mode, c: Compiler, t: Target)
    requires Requests(cfg, roots)
  {
    forall l: nat | m < l <= n :: !FullAt(cfg, roots, l, mode, c, t)
  }

  // ---------------------------------------------------------------------------
  // Builds and their requests.

  lemma RequesterAsksProperly(cfg: Config, s: Step, x: Step) returns (y: Step)
    requires WellFormed(cfg, s) && x in Reach(cfg, s) && x != s
    ensures y in Reach(cfg, s) && WellFormed(cfg, y) && AsksProperly(cfg, y, x)
  {
    ReachRanksBelow(cfg, s, x);
    y :| y in Reach(cfg, s) && Need(x) in Body(cfg, y);
    ReachIsClosed(cfg, s);
    BodiesAreProper(cfg, y);
    ProperMember(cfg, y, Body(cfg, y), Need(x));
  }

  /** Only roots ask for less, or for more, than the full build. */
  lemma SpecialBuildsAreRoots(cfg: Config, s: Step, x: Step)
    requires WellFormed(cfg, s) && x in Reach(cfg, s) && (x.Std? || x.Rustc?) && BuildOf(x) != FULL
    ensures x == s
  {
    if x != s {
      var y := RequesterAsksProperly(cfg, s, x);
    }
  }

  /** Builds for the same compiler and target do not lead to each other. */
  lemma BuildsAreApart(cfg: Config, w: Step, x: Step, mode: Mode, c: Compiler, t: Target)
    requires WellFormed(cfg, w) && Compiles(w, mode, c, t) && Compiles(x, mode, c, t) && x in Reach(cfg, w)
    ensures x == w
  {
    if x != w {
      ReachRanksBelow(cfg, w, x);
    }
  }

  /** A reader that takes the stamp to be of the full build is not part of another build. */
  lemma NotReadInside(cfg: Config, w: Step, x: Step, e: Effect, mode: Mode, c: Compiler, t: Target)
    requires WellFormed(cfg, w) && Compiles(w, mode, c, t) && BuildOf(w) != FULL
    requires Owns(cfg, x, e) && Reads(e, mode, c, t, FULL)
    ensures x !in Reach(cfg, w)
  {
    if x in Reach(cfg, w) && x != w {
      if x.StdLink? || x.RustcLink? {
        LinkInside(cfg, w, x, mode, c, t);
      } else {
        ReachRanksBelow(cfg, w, x);
        ReaderRanksAbove(cfg, w, x, e, mode, c, t);
      }
    }
  }

  lemma ReaderRanksAbove(cfg: Config, w: Step, x: Step, e: Effect, mode: Mode, c: Compiler, t: Target)
    requires Compiles(w, mode, c, t) && (w.Std? || w.Rustc?) && e == ReadStamp(mode, c, t) && Owns(cfg, x, e)
    ensures Rank(cfg, w) < Rank(cfg, x)
  {
  }

  /** A link step inside a build links for that build. */
  lemma LinkInside(cfg: Config, w: Step, x: Step, mode: Mode, c: Compiler, t: Target)
    requires WellFormed(cfg, w) && Compiles(w, mode, c, t) && x in Reach(cfg, w) && x != w
    requires (x.StdLink? && mode == ForStd) || (x.RustcLink? && mode == ForRustc)
    requires x.compiler == c && x.target == t
    ensures x.targetCompiler == c && BuildOf(x) == BuildOf(w)
  {
    var y := RequesterAsksProperly(cfg, w, x);
    ReachIsClosed(cfg, w);
    if y != w {
      ReachRanksBelow(cfg, w, y);
    }
  }

  // ---------------------------------------------------------------------------
  // The last writer.

  /** The last write before a read: it is of the same mode, compiler and target, and either a full build or
      one that a root asked for by its crates. */
  lemma LastWriter(cfg: Config, roots: seq<Step>, clock: Clock, j: nat, mode: Mode, c: Compiler, t: Target, build: Build)
    returns (i: nat, k: nat)
    requires Untwinned(cfg, roots, clock)
    requires j < |RunLog(cfg, roots, clock)| && RunLog(cfg, roots, clock)[j].Did?
    requires Reads(RunLog(cfg, roots, clock)[j].effect, mode, c, t, build)
    ensures var log := RunLog(cfg, roots, clock);
            && i <= k < j && LastWrite(cfg, log, j, mode, c, t, k)
            && log[i].Did? && log[i].effect == WriteStamp(mode, c, t, build) && Compiles(log[i].who, mode, c, t)
            && BuildOf(log[i].who) == build && log[i].who in ReachAll(cfg, roots) && Builds(cfg, c, t) == c
            && IsWriteOf(cfg, roots, log, k, mode, c, t)
  {
    EveryRunFinishes(cfg, roots, clock);
    var end := Run(cfg, roots, clock).1;
    i := StampsAreWrittenFirst(cfg, end, j, mode, c, t, build);
    k := LastWriteExists(cfg, end.log, j, mode, c, t, i);
    SameFile(cfg, end, i, k);
    EventsAreOwned(cfg, end, i);
    EventsAreOwned(cfg, end, k);
  }

  ghost predicate IsWriteOf(cfg: Config, roots: seq<Step>, log: Log, k: nat, mode: Mode, c: Compiler, t: Target)
    requires forall s | s in roots :: WellFormed(cfg, s)
  {
    && k < |log| && log[k].Did? && log[k].effect == WriteStamp(mode, c, t, BuildOf(log[k].who))
    && Compiles(log[k].who, mode, c, t) && log[k].who in ReachAll(cfg, roots) && WellFormed(cfg, log[k].who)
  }

  /** A build that its own link step reads back is its own, whatever was built before. */
  lemma OwnLinkReadsItsBuild(cfg: Config, roots: seq<Step>, clock: Clock, j: nat, mode: Mode, c: Compiler, t: Target, build: Build) returns (k: nat)
    requires Untwinned(cfg, roots, clock)
    requires j < |RunLog(cfg, roots, clock)| && RunLog(cfg, roots, clock)[j].Did?
    requires RunLog(cfg, roots, clock)[j].effect == LinkStamped(mode, c, c, t, build)
    ensures LastWrite(cfg, RunLog(cfg, roots, clock), j, mode, c, t, k)
    ensures RunLog(cfg, roots, clock)[k].effect == WriteStamp(mode, c, t, build)
  {
    var log := RunLog(cfg, roots, clock);
    var i;
    i, k := LastWriter(cfg, roots, clock, j, mode, c, t, build);
    var w := log[i].who;
    var a, b := StepSpan(cfg, roots, clock, w);
    LinkBelongsTo(cfg, roots, clock, j, w);
    BuildsAreApart(cfg, w, log[k].who, mode, c, t);
  }

  lemma LinkBelongsTo(cfg: Config, roots: seq<Step>, clock: Clock, j: nat, w: Step)
    requires Untwinned(cfg, roots, clock) && WellFormed(cfg, w)
    requires j < |RunLog(cfg, roots, clock)| && RunLog(cfg, roots, clock)[j].Did? && RunLog(cfg, roots, clock)[j].effect.LinkStamped?
    requires var e := RunLog(cfg, roots, clock)[j].effect;
             && e.targetCompiler == e.compiler && Compiles(w, e.mode, e.compiler, e.target) && BuildOf(w) == e.build
             && Builds(cfg, e.compiler, e.target) == e.compiler
    ensures RunLog(cfg, roots, clock)[j].who in Reach(cfg, w)
  {
    EveryRunFinishes(cfg, roots, clock);
    EventsAreOwned(cfg, Run(cfg, roots, clock).1, j);
    OwnLinkIsReached(cfg, w, RunLog(cfg, roots, clock)[j].who);
  }

  lemma OwnLinkIsReached(cfg: Config, w: Step, x: Step)
    requires WellFormed(cfg, w) && KeepsNothing(cfg) && (w.Std? || w.Rustc?) && Builds(cfg, w.compiler, w.target) == w.compiler
    requires (w.Std? && x.StdLink?) || (w.Rustc? && x.RustcLink?)
    requires x.compiler == w.compiler && x.targetCompiler == w.compiler && x.target == w.target && BuildOf(x) == BuildOf(w)
    ensures x in Reach(cfg, w)
  {
    OwnLink(cfg, w);
    BodiesAreProper(cfg, w);
    ProperMember(cfg, w, Body(cfg, w), Need(x));
    ReachInside(cfg, w, x);
  }

  lemma OwnLink(cfg: Config, w: Step)
    requires WellFormed(cfg, w) && KeepsNothing(cfg) && (w.Std? || w.Rustc?) && Builds(cfg, w.compiler, w.target) == w.compiler
    ensures w.Std? ==> Need(StdLink(w.compiler, w.compiler, w.target, w.crates, w.forceRecompile)) in Body(cfg, w)
    ensures w.Rustc? ==> Need(RustcLink(w.compiler, w.compiler, w.target, w.crates)) in Body(cfg, w)
  {
  }

  // ---------------------------------------------------------------------------
  // Readers that take a stamp to be of the full build.

  /** A write belongs to the first root that reaches its step; a limited build is that root. */
  lemma WriteBelongsTo(cfg: Config, roots: seq<Step>, clock: Clock, k: nat, mode: Mode, c: Compiler, t: Target) returns (m: nat)
    requires Untwinned(cfg, roots, clock) && IsWriteOf(cfg, roots, RunLog(cfg, roots, clock), k, mode, c, t)
    ensures Adds(cfg, roots, clock, m, k)
    ensures BuildOf(RunLog(cfg, roots, clock)[k].who).crates != [] ==> LimitedAt(cfg, roots, m, mode, c, t)
    ensures BuildOf(RunLog(cfg, roots, clock)[k].who) != FULL ==> roots[m] == RunLog(cfg, roots, clock)[k].who
    ensures BuildOf(RunLog(cfg, roots, clock)[k].who).crates == [] ==> FullAt(cfg, roots, m, mode, c, t)
  {
    m := RootOf(cfg, roots, clock, k);
    var w := RunLog(cfg, roots, clock)[k].who;
    if BuildOf(w) != FULL {
      SpecialBuildsAreRoots(cfg, roots[m], w);
    }
    if BuildOf(w).crates == [] {
      assert IsNewFull(cfg, roots, m, mode, c, t, w);
    }
  }

  lemma Earlier(cfg: Config, roots: seq<Step>, clock: Clock, m: nat, k: nat, n: nat, j: nat)
    requires Requests(cfg, roots) && Monotone(clock) && Adds(cfg, roots, clock, m, k) && Adds(cfg, roots, clock, n, j)
    ensures k < j ==> m <= n
    ensures m < n ==> k < j
  {
    if n < m {
      StartsGrow(cfg, roots, clock, n + 1, m);
    } else if m < n {
      StartsGrow(cfg, roots, clock, m + 1, n);
    }
  }

  /** A full build that a root newly leads to is written in the part of that root. */
  lemma FullIsWritten(cfg: Config, roots: seq<Step>, clock: Clock, l: nat, mode: Mode, c: Compiler, t: Target) returns (w: Step, k: nat)
    requires Untwinned(cfg, roots, clock) && FullAt(cfg, roots, l, mode, c, t) && Builds(cfg, c, t) == c
    ensures Adds(cfg, roots, clock, l, k) && IsWriteOf(cfg, roots, RunLog(cfg, roots, clock), k, mode, c, t)
    ensures w == RunLog(cfg, roots, clock)[k].who && w in Reach(cfg, roots[l]) && BuildOf(w).crates == []
  {
    w :| w in Reach(cfg, roots[l]) && IsNewFull(cfg, roots, l, mode, c, t, w);
    k := BuildIsWritten(cfg, roots, clock, l, mode, c, t, w);
  }

  lemma BuildIsWritten(cfg: Config, roots: seq<Step>, clock: Clock, l: nat, mode: Mode, c: Compiler, t: Target, w: Step) returns (k: nat)
    requires Untwinned(cfg, roots, clock) && Builds(cfg, c, t) == c && l < |roots|
    requires w in Reach(cfg, roots[l]) && w !in ReachAll(cfg, roots[..l]) && Compiles(w, mode, c, t)
    ensures Adds(cfg, roots, clock, l, k) && IsWriteOf(cfg, roots, RunLog(cfg, roots, clock), k, mode, c, t)
    ensures RunLog(cfg, roots, clock)[k].who == w
  {
    ReachAllGrows(cfg, roots, l);
    WholeReach(cfg, roots, l + 1);
    EveryRunFinishes(cfg, roots, clock);
    k := WritePlace(cfg, Run(cfg, roots, clock).1, w, mode, c, t);
    ComesAfter(cfg, roots, clock, l, k);
    ComesAfter(cfg, roots, clock, l + 1, k);
  }

  lemma WholeReach(cfg: Config, roots: seq<Step>, m: nat)
    requires forall s | s in roots :: WellFormed(cfg, s)
    requires m <= |roots|
    ensures ReachAll(cfg, roots[..m]) <= ReachAll(cfg, roots)
  {
    ReachAllIsClosed(cfg, roots);
    var u := ReachAll(cfg, roots);
    forall x, d | x in u && Need(d) in Body(cfg, x)
      ensures d in u
    {
      assert OpsIn(u, Body(cfg, x));
    }
    forall s | s in roots[..m]
      ensures s in u
    {
      assert s in Elems(roots);
    }
    ReachAllIsCached(cfg, u, roots[..m]);
  }

  lemma WritePlace(cfg: Config, end: State<Step, Output, Effect>, w: Step, mode: Mode, c: Compiler, t: Target) returns (k: nat)
    requires Ended(cfg, end) && KeepsNothing(cfg) && w in end.cache && Compiles(w, mode, c, t) && Builds(cfg, c, t) == c
    ensures k < |end.log| && end.log[k] == Did(w, WriteStamp(mode, c, t, BuildOf(w)))
  {
    WriteStands(cfg, w, mode, c, t);
    k := EffectHappens(cfg, end, w, WriteStamp(mode, c, t, BuildOf(w)));
  }

  lemma WriteStands(cfg: Config, w: Step, mode: Mode, c: Compiler, t: Target)
    requires KeepsNothing(cfg) && Compiles(w, mode, c, t) && Builds(cfg, c, t) == c
    ensures Do(WriteStamp(mode, c, t, BuildOf(w))) in Body(cfg, w)
  {
    var cargo := BuildWithCargo(cfg, c, mode, t, BuildOf(w));
    assert cargo[|cargo| - 1] == Do(WriteStamp(mode, c, t, BuildOf(w)));
    assert Do(WriteStamp(mode, c, t, BuildOf(w))) in cargo;
  }

  /** The last write is limited only if the last new build was. */
  lemma LimitedMeansLimitedLast(cfg: Config, roots: seq<Step>, clock: Clock, j: nat, n: nat, mode: Mode, c: Compiler, t: Target, i: nat, k: nat)
    requires Untwinned(cfg, roots, clock) && Adds(cfg, roots, clock, n, j) && ReadsFull(cfg, roots, clock, j, mode, c, t, i, k)
    requires BuildOf(RunLog(cfg, roots, clock)[k].who).crates != []
    ensures LimitedLast(cfg, roots, n, mode, c, t)
  {
    var m := WriteBelongsTo(cfg, roots, clock, k, mode, c, t);
    Earlier(cfg, roots, clock, m, k, n, j);
    ReaderIsOutside(cfg, roots, clock, j, n, mode, c, t, roots[m]);
    NoFullToReader(cfg, roots, clock, j, n, mode, c, t, i, k, m);
    assert m < n && LimitedAt(cfg, roots, m, mode, c, t);
  }

  lemma NoFullToReader(cfg: Config, roots: seq<Step>, clock: Clock, j: nat, n: nat, mode: Mode, c: Compiler, t: Target, i: nat, k: nat, m: nat)
    requires Untwinned(cfg, roots, clock) && Adds(cfg, roots, clock, n, j) && ReadsFull(cfg, roots, clock, j, mode, c, t, i, k)
    requires Adds(cfg, roots, clock, m, k)
    ensures NoFullBetween(cfg, roots, m, n, mode, c, t)
  {
    forall l: nat | m < l <= n
      ensures !FullAt(cfg, roots, l, mode, c, t)
    {
      NoFullAfterLast(cfg, roots, clock, j, n, mode, c, t, i, k, m, l);
    }
  }

  /** The read at `j` takes the stamp to be of the full build, which was written at `i`; `k` wrote it last. */
  ghost predicate ReadsFull(cfg: Config, roots: seq<Step>, clock: Clock, j: nat, mode: Mode, c: Compiler, t: Target, i: nat, k: nat)
    requires Requests(cfg, roots)
  {
    var log := RunLog(cfg, roots, clock);
    && i <= k < j < |log| && log[j].Did? && Reads(log[j].effect, mode, c, t, FULL) && LastWrite(cfg, log, j, mode, c, t, k)
    && IsWriteOf(cfg, roots, log, i, mode, c, t) && BuildOf(log[i].who) == FULL && Builds(cfg, c, t) == c
    && IsWriteOf(cfg, roots, log, k, mode, c, t)
  }

  lemma ReaderIsOutside(cfg: Config, roots: seq<Step>, clock: Clock, j: nat, n: nat, mode: Mode, c: Compiler, t: Target, w: Step)
    requires Untwinned(cfg, roots, clock) && Adds(cfg, roots, clock, n, j) && Reads(RunLog(cfg, roots, clock)[j].effect, mode, c, t, FULL)
    requires w in roots && Compiles(w, mode, c, t) && BuildOf(w) != FULL
    ensures roots[n] != w
  {
    EveryRunFinishes(cfg, roots, clock);
    EventsAreOwned(cfg, Run(cfg, roots, clock).1, j);
    var e := RunLog(cfg, roots, clock)[j];
    NotReadInside(cfg, w, e.who, e.effect, mode, c, t);
  }

  lemma NoFullAfterLast(cfg: Config, roots: seq<Step>, clock: Clock, j: nat, n: nat, mode: Mode, c: Compiler, t: Target, i: nat, k: nat, m: nat, l: nat)
    requires Untwinned(cfg, roots, clock) && Adds(cfg, roots, clock, n, j) && ReadsFull(cfg, roots, clock, j, mode, c, t, i, k)
    requires Adds(cfg, roots, clock, m, k) && m < l <= n
    ensures !FullAt(cfg, roots, l, mode, c, t)
  {
    if FullAt(cfg, roots, l, mode, c, t) {
      var w, f := FullIsWritten(cfg, roots, clock, l, mode, c, t);
      Earlier(cfg, roots, clock, m, k, l, f);
      Earlier(cfg, roots, clock, l, f, n, j);
      if l == n {
        if BuildOf(w) == FULL {
          SameBuildSameStep(w, RunLog(cfg, roots, clock)[i].who, mode, c, t);
          ComesAfter(cfg, roots, clock, n, i);
          StartsGrow(cfg, roots, clock, m + 1, n);
        } else {
          SpecialBuildsAreRoots(cfg, roots[n], w);
          ReaderIsOutside(cfg, roots, clock, j, n, mode, c, t, w);
        }
      }
    }
  }

  lemma SameBuildSameStep(w: Step, x: Step, mode: Mode, c: Compiler, t: Target)
    requires Compiles(w, mode, c, t) && Compiles(x, mode, c, t) && BuildOf(w) == BuildOf(x)
    ensures w == x
  {
  }

  /** If the last new build was limited, so was the last write. */
  lemma LimitedLastMeansLimited(cfg: Config, roots: seq<Step>, clock: Clock, j: nat, n: nat, mode: Mode, c: Compiler, t: Target, i: nat, k: nat)
    requires Untwinned(cfg, roots, clock) && Adds(cfg, roots, clock, n, j) && ReadsFull(cfg, roots, clock, j, mode, c, t, i, k)
    requires LimitedLast(cfg, roots, n, mode, c, t)
    ensures BuildOf(RunLog(cfg, roots, clock)[k].who).crates != []
  {
    var m: nat :| m < n && LimitedAt(cfg, roots, m, mode, c, t) && NoFullBetween(cfg, roots, m, n, mode, c, t);
    var w := roots[m];
    var f := BuildIsWritten(cfg, roots, clock, m, mode, c, t, w);
    Earlier(cfg, roots, clock, m, f, n, j);
    assert WritesFile(cfg, RunLog(cfg, roots, clock)[f], mode, c, t);
    assert f <= k;
    var l := WriteBelongsTo(cfg, roots, clock, k, mode, c, t);
    Earlier(cfg, roots, clock, l, k, n, j);
    Earlier(cfg, roots, clock, l, k, m, f);
    if l == m {
      BuildsAreApart(cfg, w, RunLog(cfg, roots, clock)[k].who, mode, c, t);
    }
  }

  /** A reader that takes the stamp to be of the full build finds a limited list exactly if, by the root
      that leads to the reader, the last new build was a limited one. */
  lemma ReaderFindsLimitedIff(cfg: Config, roots: seq<Step>, clock: Clock, j: nat, n: nat, mode: Mode, c: Compiler, t: Target) returns (k: nat)
    requires Untwinned(cfg, roots, clock) && Adds(cfg, roots, clock, n, j) && Reads(RunLog(cfg, roots, clock)[j].effect, mode, c, t, FULL)
    ensures LastWrite(cfg, RunLog(cfg, roots, clock), j, mode, c, t, k) && IsWriteOf(cfg, roots, RunLog(cfg, roots, clock), k, mode, c, t)
    ensures RunLog(cfg, roots, clock)[k].effect.build.crates != [] <==> LimitedLast(cfg, roots, n, mode, c, t)
  {
    var i;
    i, k := LastWriter(cfg, roots, clock, j, mode, c, t, FULL);
    EveryRunFinishes(cfg, roots, clock);
    EventsAreOwned(cfg, Run(cfg, roots, clock).1, i);
    assert ReadsFull(cfg, roots, clock, j, mode, c, t, i, k);
    if BuildOf(RunLog(cfg, roots, clock)[k].who).crates != [] {
      LimitedMeansLimitedLast(cfg, roots, clock, j, n, mode, c, t, i, k);
    }
    if LimitedLast(cfg, roots, n, mode, c, t) {
      LimitedLastMeansLimited(cfg, roots, clock, j, n, mode, c, t, i, k);
    }
  }
}
