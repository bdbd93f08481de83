/** `clear_if_dirty`: before Cargo runs, the directory for its output is cleared if the compiler is newer
    than a marker file in it. A directory is shared by all targets, so this could delete stamps that were
    written earlier in the run. Copies keep the times of their originals, so every compiler has fixed
    times; moments of the run are places in its log. */
module OutputDirs {
  import opened Options
  import opened StepEngine
  import opened EngineTrace
  import opened StageGraph
  import opened StageContracts
  import opened Layout
  import opened StageRun
  import opened Sysroots

  /** When a compiler was built, its newest codegen backend if it has any, and the marker that an earlier
      run left in a directory, if any. */
  datatype Times = Times(rustc: Compiler -> int, backends: Compiler -> Option<int>, markers: Path -> Option<int>)

  function Later(a: Option<int>, b: Option<int>): Option<int> {
    if a.None? || (b.Some? && a.value < b.value) then b else a
  }

  /** The time of the compiler that lies in a sysroot after a log. */
  ghost function RustcAt(times: Times, sysroot: Path, log: Log): Option<int> {
    if log == [] then None
    else
      var n := |log| - 1;
      if Changes(log[n], sysroot) && log[n].effect.WipeSysroot? then None
      else if Changes(log[n], sysroot) && log[n].effect.InstallCompiler? then Some(times.rustc(log[n].effect.compiler))
      else RustcAt(times, sysroot, log[..n])
  }

  /** The time of the newest backend that lies there. */
  ghost function BackendsAt(times: Times, sysroot: Path, log: Log): Option<int> {
    if log == [] then None
    else
      var n := |log| - 1;
      if Changes(log[n], sysroot) && log[n].effect.WipeSysroot? then None
      else if Changes(log[n], sysroot) && log[n].effect.AddBackends? then times.backends(log[n].effect.compiler)
      else BackendsAt(times, sysroot, log[..n])
  }

  /** The event changes the compiler or the codegen backends in a sysroot. */
  ghost predicate Changes(e: Event<Step, Effect>, sysroot: Path) {
    e.Did? && (e.effect.WipeSysroot? || e.effect.InstallCompiler? || e.effect.AddBackends?) && SysrootPath(e.effect.compiler) == sysroot
  }

  /** What the marker is compared with: all backends in the sysroot, and for a library the compiler. The
      snapshot is run from where it was unpacked. */
  ghost function Newest(times: Times, log: Log, c: Compiler, mode: Mode): Option<int> {
    Later(if mode != ForStd then None else if c.stage == 0 then Some(times.rustc(c)) else RustcAt(times, SysrootPath(c), log),
          BackendsAt(times, SysrootPath(c), log))
  }

  ghost predicate Prepares(e: Event<Step, Effect>, dir: Path) {
    e.Did? && e.effect.PrepareOut? && OutDir(e.effect.compiler, e.effect.mode) == dir
  }

  predicate Dirty(marker: Option<int>, newest: Option<int>) {
    newest.Some? && (marker.None? || marker.value < newest.value)
  }

  ghost function NewestFor(times: Times, log: Log, e: Event<Step, Effect>): Option<int>
    requires e.Did? && e.effect.PrepareOut?
  {
    Newest(times, log, e.effect.compiler, e.effect.mode)
  }

  /** The marker in `dir` after a log. A preparation renews it if it is too old or not there. */
  ghost function Marker(times: Times, dir: Path, log: Log): Option<int> {
    if log == [] then times.markers(dir)
    else
      var n := |log| - 1;
      var before := Marker(times, dir, log[..n]);
      if Prepares(log[n], dir) && (before.None? || Dirty(before, NewestFor(times, log[..n], log[n]))) then Some(|log|) else before
  }

  /** The event at `q` clears `dir`. */
  ghost predicate Clears(times: Times, dir: Path, log: Log, q: nat) {
    q < |log| && Prepares(log[q], dir) && Dirty(Marker(times, dir, log[..q]), NewestFor(times, log[..q], log[q]))
  }

  /** A stamp that the run has written is deleted with its directory later in the run. */
  ghost predicate SomeStampIsCleared(times: Times, log: Log) {
    exists i: nat, q: nat :: StampIsCleared(times, log, i, q)
  }

  ghost predicate StampIsCleared(times: Times, log: Log, i: nat, q: nat) {
    && i < q < |log| && log[i].Did? && log[i].effect.WriteStamp?
    && Clears(times, OutDir(log[i].effect.compiler, log[i].effect.mode), log, q)
  }

  /** Nothing comes from the future: the snapshot and the markers are from before the run, and what is
      put into a sysroot was built by then. */
  ghost predicate Plausible(times: Times, log: Log) {
    && (forall dir :: AtMost(times.markers(dir), 0))
    && (forall c: Compiler | c.stage == 0 :: times.rustc(c) <= 0 && AtMost(times.backends(c), 0))
    && (forall k | 0 <= k < |log| && log[k].Did? ::
          && (log[k].effect.InstallCompiler? ==> times.rustc(log[k].effect.compiler) <= k)
          && (log[k].effect.AddBackends? ==> AtMost(times.backends(log[k].effect.compiler), k)))
  }

  predicate AtMost(time: Option<int>, bound: int) {
    time.Some? ==> time.value <= bound
  }

  // ---------------------------------------------------------------------------
  // Markers and files over a log.

  lemma {:induction false} FilesAreOld(times: Times, sysroot: Path, log: Log, n: nat)
    requires Plausible(times, log) && n <= |log|
    ensures AtMost(RustcAt(times, sysroot, log[..n]), n) && AtMost(BackendsAt(times, sysroot, log[..n]), n)
  {
    if n > 0 {
      assert log[..n][..n - 1] == log[..n - 1];
      FilesAreOld(times, sysroot, log, n - 1);
    }
  }

  lemma NewestIsOld(times: Times, log: Log, n: nat, c: Compiler, mode: Mode)
    requires Plausible(times, log) && n <= |log|
    ensures AtMost(Newest(times, log[..n], c, mode), n)
  {
    FilesAreOld(times, SysrootPath(c), log, n);
  }

  lemma {:induction false} FilesStay(times: Times, sysroot: Path, log: Log, p: nat, q: nat)
    requires p <= q <= |log| && forall z | p <= z < q :: !Changes(log[z], sysroot)
    ensures RustcAt(times, sysroot, log[..q]) == RustcAt(times, sysroot, log[..p])
    ensures BackendsAt(times, sysroot, log[..q]) == BackendsAt(times, sysroot, log[..p])
    decreases q
  {
    if p < q {
      assert log[..q][..q - 1] == log[..q - 1];
      FilesStay(times, sysroot, log, p, q - 1);
    }
  }

  lemma {:induction false} MarkerOnlyGrows(times: Times, dir: Path, log: Log, p: nat, q: nat)
    requires Plausible(times, log) && p <= q <= |log| && Marker(times, dir, log[..p]).Some?
    ensures var before, after := Marker(times, dir, log[..p]), Marker(times, dir, log[..q]);
            after.Some? && before.value <= after.value
    decreases q
  {
    if p < q {
      assert log[..q][..q - 1] == log[..q - 1];
      MarkerOnlyGrows(times, dir, log, p, q - 1);
      MarkerIsOld(times, dir, log, q - 1);
    }
  }

  lemma {:induction false} MarkerIsOld(times: Times, dir: Path, log: Log, n: nat)
    requires Plausible(times, log) && n <= |log|
    ensures AtMost(Marker(times, dir, log[..n]), n)
    ensures var m := Marker(times, dir, log[..n]); AtMost(m, 0) ==> m == times.markers(dir)
  {
    if n > 0 {
      assert log[..n][..n - 1] == log[..n - 1];
      MarkerIsOld(times, dir, log, n - 1);
    }
  }

  /** A preparation leaves a marker that is no older than what it was compared with. */
  lemma MarkerCovers(times: Times, dir: Path, log: Log, p: nat, q: nat)
    requires Plausible(times, log) && p < q <= |log| && Prepares(log[p], dir)
    ensures var m, newest := Marker(times, dir, log[..q]), NewestFor(times, log[..p], log[p]);
            m.Some? && AtMost(newest, m.value)
  {
    assert log[..p + 1][..p] == log[..p];
    NewestIsOld(times, log, p, log[p].effect.compiler, log[p].effect.mode);
    MarkerOnlyGrows(times, dir, log, p + 1, q);
  }

  lemma {:induction false} MarkerStays(times: Times, dir: Path, log: Log, n: nat, m: int)
    requires n <= |log| && times.markers(dir) == Some(m)
    requires forall r | 0 <= r < n && Prepares(log[r], dir) :: !Dirty(Some(m), NewestFor(times, log[..r], log[r]))
    ensures Marker(times, dir, log[..n]) == Some(m)
  {
    if n > 0 {
      assert log[..n][..n - 1] == log[..n - 1];
      MarkerStays(times, dir, log, n - 1, m);
    }
  }

  /** After a preparation, one for the same files does not clear. */
  lemma SameFilesAreClean(times: Times, dir: Path, log: Log, p: nat, q: nat)
    requires Plausible(times, log) && p < q < |log| && Prepares(log[p], dir) && Prepares(log[q], dir)
    requires NewestFor(times, log[..p], log[p]) == NewestFor(times, log[..q], log[q])
    ensures !Clears(times, dir, log, q)
  {
    MarkerCovers(times, dir, log, p, q);
  }

  /** Once backends of a compiler have been put into a sysroot that is not wiped again, they are there. */
  lemma {:induction false} BackendsAreThere(times: Times, sysroot: Path, log: Log, z: nat, n: nat, c: Compiler)
    requires z < n <= |log| && Changes(log[z], sysroot) && log[z].effect.AddBackends?
    requires forall y | z <= y < n && Changes(log[y], sysroot) :: !log[y].effect.WipeSysroot?
    requires forall y | z <= y < n && Changes(log[y], sysroot) && log[y].effect.AddBackends? :: log[y].effect.compiler == c
    ensures BackendsAt(times, sysroot, log[..n]) == times.backends(c)
    decreases n
  {
    assert log[..n][..n - 1] == log[..n - 1];
    if z < n - 1 {
      BackendsAreThere(times, sysroot, log, z, n - 1, c);
    }
  }

  lemma {:induction false} NoBackendsYet(times: Times, sysroot: Path, log: Log, n: nat)
    requires n <= |log| && forall y | 0 <= y < n && Changes(log[y], sysroot) :: !log[y].effect.AddBackends?
    ensures BackendsAt(times, sysroot, log[..n]) == None
  {
    if n > 0 {
      assert log[..n][..n - 1] == log[..n - 1];
      NoBackendsYet(times, sysroot, log, n - 1);
    }
  }

  // ---------------------------------------------------------------------------
  // Which times count.

  lemma {:induction false} SameBackends(times: Times, other: Times, sysroot: Path, log: Log)
    requires times.backends == other.backends
    ensures BackendsAt(times, sysroot, log) == BackendsAt(other, sysroot, log)
  {
    if log != [] {
      SameBackends(times, other, sysroot, log[..|log| - 1]);
    }
  }

  lemma {:induction false} SameMarkers(times: Times, other: Times, dir: Path, log: Log)
    requires times.backends == other.backends && times.markers == other.markers
    requires forall k | 0 <= k < |log| && Prepares(log[k], dir) :: log[k].effect.mode != ForStd
    ensures Marker(times, dir, log) == Marker(other, dir, log)
  {
    if log != [] {
      var n := |log| - 1;
      SameMarkers(times, other, dir, log[..n]);
      if Prepares(log[n], dir) {
        SameBackends(times, other, SysrootPath(log[n].effect.compiler), log[..n]);
      }
    }
  }

  /** When the compiler itself was built does not matter for the output of a compiler or a backend. */
  lemma CompilerTimesAreIgnored(times: Times, other: Times, c: Compiler, mode: Mode, log: Log, q: nat)
    requires times.backends == other.backends && times.markers == other.markers && mode != ForStd
    requires forall k | 0 <= k < |log| && Prepares(log[k], OutDir(c, mode)) :: log[k].effect.mode != ForStd
    ensures Clears(times, OutDir(c, mode), log, q) <==> Clears(other, OutDir(c, mode), log, q)
  {
    if q < |log| && Prepares(log[q], OutDir(c, mode)) {
      SameMarkers(times, other, OutDir(c, mode), log[..q]);
      SameBackends(times, other, SysrootPath(log[q].effect.compiler), log[..q]);
    }
  }

  /** It does for a library: if the compiler was installed at `k` and stays, and its output directory was
      left by an earlier run with an older marker, then the first preparation clears it. */
  lemma NewCompilerClears(times: Times, log: Log, k: nat, q: nat, c: Compiler, t: Target)
    requires k < q < |log| && c.stage > 0 && log[k].Did? && log[k].effect == InstallCompiler(c)
    requires forall z | k < z < q && Changes(log[z], SysrootPath(c)) :: log[z].effect.AddBackends?
    requires log[q].Did? && log[q].effect == PrepareOut(c, ForStd, t)
    requires forall z | 0 <= z < q :: !Prepares(log[z], OutDir(c, ForStd))
    requires times.markers(OutDir(c, ForStd)).Some? && times.markers(OutDir(c, ForStd)).value < times.rustc(c)
    ensures Clears(times, OutDir(c, ForStd), log, q)
  {
    InstalledIsThere(times, log, k, q, c);
    MarkerStays(times, OutDir(c, ForStd), log, q, times.markers(OutDir(c, ForStd)).value);
  }

  lemma {:induction false} InstalledIsThere(times: Times, log: Log, k: nat, n: nat, c: Compiler)
    requires k < n <= |log| && log[k].Did? && log[k].effect == InstallCompiler(c)
    requires forall z | k < z < n && Changes(log[z], SysrootPath(c)) :: log[z].effect.AddBackends?
    ensures RustcAt(times, SysrootPath(c), log[..n]) == Some(times.rustc(c))
    decreases n
  {
    assert log[..n][..n - 1] == log[..n - 1];
    if k < n - 1 {
      InstalledIsThere(times, log, k, n - 1, c);
    }
  }

  // ---------------------------------------------------------------------------
  // A compiler that was built does not change once Cargo has used it.

  lemma {:induction false} CopiesDoNotInstall(c: Compiler, tc: Compiler, backends: seq<string>)
    ensures Do(InstallCompiler(tc)) !in CopyBackends(c, tc, backends) && Do(InstallCompiler(tc)) !in RequestBackends(c, tc.host, backends)
  {
    if backends != [] {
      CopiesDoNotInstall(c, tc, backends[1..]);
    }
  }

  lemma PartsDoNotInstall(cfg: Config, bc: Compiler, tc: Compiler)
    ensures var op: StepOp := Do(InstallCompiler(tc));
            && op !in GatherParts(cfg, bc, tc, RequestBackends(bc, tc.host, cfg.backends))
            && op !in CopyLibraries(bc, tc) && op !in CopyTools(cfg, bc, tc)
            && op !in CopyBackends(bc, tc, cfg.backends)
  {
    CopiesDoNotInstall(bc, tc, cfg.backends);
  }

  lemma EndsInInstall(bc: Compiler, tc: Compiler, a: seq<StepOp>, b: seq<StepOp>, c: seq<StepOp>, d: seq<StepOp>) returns (ops: seq<StepOp>)
    requires var op: StepOp := Do(InstallCompiler(tc)); op !in a && op !in b && op !in c && op !in d
    ensures AssembleShape(bc, tc, InstallShape(tc, a, b, c, d)) == ops + [Do(InstallCompiler(tc))] && Do(InstallCompiler(tc)) !in ops
  {
    var start: seq<StepOp> := [Need(Assemble(bc))] + [Need(Rustc(bc, tc.host, []))];
    ops := start + (a + b + c + d);
    assert InstallShape(tc, a, b, c, d) == (a + b + c + d) + [Do(InstallCompiler(tc))];
  }

  lemma AssembleEndsInInstall(cfg: Config, tc: Compiler) returns (ops: seq<StepOp>)
    requires IsInstalled(cfg, tc)
    ensures Body(cfg, Assemble(tc)) == ops + [Do(InstallCompiler(tc))] && Do(InstallCompiler(tc)) !in ops
  {
    var bc := Compiler(tc.stage - 1, cfg.build);
    PartsDoNotInstall(cfg, bc, tc);
    ops := EndsInInstall(bc, tc, GatherParts(cfg, bc, tc, RequestBackends(bc, tc.host, cfg.backends)), CopyLibraries(bc, tc),
                         CopyBackends(bc, tc, cfg.backends), CopyTools(cfg, bc, tc));
  }

  /** Installing the compiler is the last thing that its `Assemble` does, and it does it once. */
  lemma InstalledLast(cfg: Config, tc: Compiler) returns (before: seq<Effect>)
    requires IsInstalled(cfg, tc)
    ensures Effects(Body(cfg, Assemble(tc))) == before + [InstallCompiler(tc)] && InstallCompiler(tc) !in before
  {
    var ops := AssembleEndsInInstall(cfg, tc);
    LastOfOps(ops, InstallCompiler(tc));
    before := Effects(ops);
  }

  lemma LastOfOps(ops: seq<StepOp>, e: Effect)
    requires Do(e) !in ops
    ensures Effects(ops + [Do(e)]) == Effects(ops) + [e] && e !in Effects(ops)
  {
    var last: seq<StepOp> := [Do(e)];
    EffectsConcat(ops, last);
    assert last[1..] == [] && Effects(last) == [e];
    if e in Effects(ops) {
      EffectStandsInBody(ops, e);
    }
  }

  lemma AssembleEndsWithInstall(cfg: Config, end: State<Step, Output, Effect>, c: Compiler, k: nat, z: nat)
    requires Ended(cfg, end) && IsInstalled(cfg, c)
    requires k < |end.log| && end.log[k] == Did(Assemble(c), InstallCompiler(c))
    requires z < |end.log| && end.log[z].Did? && end.log[z].who == Assemble(c)
    ensures z <= k
  {
    var s := Assemble(c);
    EventsAreOwned(cfg, end, k);
    var before := InstalledLast(cfg, c);
    var last := LastEffectPlace(end.log, s);
    CountLast(before, InstallCompiler(c), InstallCompiler(c));
    CountIsPositive(before, InstallCompiler(c));
    if k < last {
      RepeatedEffect(end.log, s, InstallCompiler(c), k, last);
    }
  }

  lemma InstalledBefore(cfg: Config, end: State<Step, Output, Effect>, p: nat) returns (k: nat)
    requires Ended(cfg, end) && p < |end.log| && end.log[p].Did? && end.log[p].effect.PrepareOut?
    requires IsInstalled(cfg, end.log[p].effect.compiler)
    ensures k < p && end.log[k] == Did(Assemble(end.log[p].effect.compiler), InstallCompiler(end.log[p].effect.compiler))
  {
    var f := InstalledFact(cfg, end.log[p].effect);
    k := ReliedOnEarlier(cfg, end, p, f);
    EventsAreOwned(cfg, end, k);
  }

  lemma InstalledFact(cfg: Config, e: Effect) returns (f: Fact)
    requires e.PrepareOut? && IsInstalled(cfg, e.compiler)
    ensures f in Needs(cfg, e)
    ensures forall x: Effect | f in Gives(x) :: x == InstallCompiler(e.compiler)
  {
    f := Installed(e.compiler);
  }

  /** After Cargo was prepared for a compiler that was built, it is not wiped again, nor installed, nor
      given other backends. */
  lemma CompilerStays(cfg: Config, end: State<Step, Output, Effect>, p: nat, z: nat)
    requires Ended(cfg, end) && !Twins(cfg, end.cache.Keys)
    requires p <= z < |end.log| && end.log[p].Did? && end.log[p].effect.PrepareOut?
    requires end.log[p].effect.compiler.stage > 0
    ensures !Changes(end.log[z], SysrootPath(end.log[p].effect.compiler))
  {
    var c := end.log[p].effect.compiler;
    if Changes(end.log[z], SysrootPath(c)) {
      SameSysroot(cfg, end, p, z);
      if end.log[z].effect.WipeSysroot? {
        var k := WipedBefore(cfg, end, p);
        WipesHappenOnce(cfg, end, k, z);
      } else {
        EventsAreOwned(cfg, end, z);
        var k := InstalledBefore(cfg, end, p);
        AssembleEndsWithInstall(cfg, end, c, k, z);
      }
    }
  }

  lemma WipedBefore(cfg: Config, end: State<Step, Output, Effect>, p: nat) returns (k: nat)
    requires Ended(cfg, end) && p < |end.log| && end.log[p].Did?
    requires end.log[p].effect.PrepareOut? || end.log[p].effect.InstallCompiler? || end.log[p].effect.AddBackends?
    ensures k < p && end.log[k].Did? && end.log[k].effect == WipeSysroot(end.log[p].effect.compiler)
  {
    var f := WipedFact(cfg, end.log[p].effect);
    k := ReliedOnEarlier(cfg, end, p, f);
  }

  lemma WipedFact(cfg: Config, e: Effect) returns (f: Fact)
    requires e.PrepareOut? || e.InstallCompiler? || e.AddBackends?
    ensures f in Needs(cfg, e)
    ensures forall x: Effect | f in Gives(x) :: x == WipeSysroot(e.compiler)
  {
    f := Wiped(e.compiler);
  }

  /** Without twins, a sysroot belongs to one compiler. */
  lemma SameSysroot(cfg: Config, end: State<Step, Output, Effect>, p: nat, z: nat)
    requires Ended(cfg, end) && !Twins(cfg, end.cache.Keys)
    requires p < |end.log| && end.log[p].Did? && end.log[p].effect.PrepareOut?
    requires z < |end.log| && Changes(end.log[z], SysrootPath(end.log[p].effect.compiler))
    ensures end.log[z].effect.compiler == end.log[p].effect.compiler
  {
    var k := WipedBefore(cfg, end, p);
    var l := z;
    if !end.log[z].effect.WipeSysroot? {
      l := WipedBefore(cfg, end, z);
    }
    WipeIsOwned(cfg, end, k);
    WipeIsOwned(cfg, end, l);
    if end.log[k].who != end.log[l].who {
      assert AreTwins(cfg, end.log[k].who, end.log[l].who);
    }
  }

  lemma PreparedBefore(cfg: Config, end: State<Step, Output, Effect>, i: nat) returns (p: nat)
    requires Ended(cfg, end) && i < |end.log| && end.log[i].Did? && end.log[i].effect.WriteStamp?
    ensures var e := end.log[i].effect;
            p < i && end.log[p].Did? && end.log[p].effect == PrepareOut(e.compiler, e.mode, e.target)
  {
    var f := PreparedFact(cfg, end.log[i].effect);
    p := ReliedOnEarlier(cfg, end, i, f);
  }

  lemma PreparedFact(cfg: Config, e: Effect) returns (f: Fact)
    requires e.WriteStamp?
    ensures f in Needs(cfg, e)
    ensures forall x: Effect | f in Gives(x) :: x == PrepareOut(e.compiler, e.mode, e.target)
  {
    f := Prepared(e.mode, e.compiler, e.target);
  }

  /** Whoever prepares the same directory does so for the same compiler and the same kind of build. */
  lemma SameDirectory(cfg: Config, end: State<Step, Output, Effect>, p: nat, q: nat)
    requires Ended(cfg, end) && p < |end.log| && q < |end.log|
    requires end.log[p].Did? && end.log[p].effect.PrepareOut?
    requires Prepares(end.log[q], OutDir(end.log[p].effect.compiler, end.log[p].effect.mode))
    ensures end.log[q].effect.compiler == end.log[p].effect.compiler
    ensures end.log[q].effect.mode == ForStd <==> end.log[p].effect.mode == ForStd
  {
    var e, f := end.log[p].effect, end.log[q].effect;
    OutDirsDiffer(e.compiler, e.mode, f.compiler, f.mode);
    PreparerRunsOnBuild(cfg, end, p);
    PreparerRunsOnBuild(cfg, end, q);
  }

  lemma PreparerRunsOnBuild(cfg: Config, end: State<Step, Output, Effect>, p: nat)
    requires Ended(cfg, end) && p < |end.log| && end.log[p].Did? && end.log[p].effect.PrepareOut?
    ensures end.log[p].effect.compiler.host == cfg.build
  {
    EventsAreOwned(cfg, end, p);
  }

  /** The stamps of a compiler that was built are never cleared away. */
  lemma BuiltCompilersKeepStamps(cfg: Config, end: State<Step, Output, Effect>, times: Times, p: nat, q: nat)
    requires Ended(cfg, end) && !Twins(cfg, end.cache.Keys) && Plausible(times, end.log)
    requires p < q < |end.log| && end.log[p].Did? && end.log[p].effect.PrepareOut? && end.log[p].effect.compiler.stage > 0
    ensures !Clears(times, OutDir(end.log[p].effect.compiler, end.log[p].effect.mode), end.log, q)
  {
    var e := end.log[p].effect;
    var dir := OutDir(e.compiler, e.mode);
    if Prepares(end.log[q], dir) {
      SameDirectory(cfg, end, p, q);
      forall z | p <= z < q
        ensures !Changes(end.log[z], SysrootPath(e.compiler))
      {
        CompilerStays(cfg, end, p, z);
      }
      FilesStay(times, SysrootPath(e.compiler), end.log, p, q);
      SameFilesAreClean(times, dir, end.log, p, q);
    }
  }

  // ---------------------------------------------------------------------------
  // The snapshot.

  lemma SnapshotChanges(cfg: Config, end: State<Step, Output, Effect>, z: nat)
    requires Ended(cfg, end) && z < |end.log| && Changes(end.log[z], SysrootPath(Snapshot(cfg)))
    ensures end.log[z].effect.compiler == Snapshot(cfg)
    ensures end.log[z].effect.AddBackends? ==> cfg.snapshotIsBeta
  {
    SysrootsDiffer(end.log[z].effect.compiler, Snapshot(cfg), []);
    EventsAreOwned(cfg, end, z);
  }

  /** Once the snapshot's backends were added, they stay. */
  lemma SnapshotBackendsStay(cfg: Config, end: State<Step, Output, Effect>, times: Times, z: nat, n: nat)
    requires Ended(cfg, end) && z < n <= |end.log|
    requires end.log[z].Did? && end.log[z].effect.AddBackends? && end.log[z].effect.compiler == Snapshot(cfg)
    ensures BackendsAt(times, SysrootPath(Snapshot(cfg)), end.log[..n]) == times.backends(Snapshot(cfg))
  {
    var sysroot := SysrootPath(Snapshot(cfg));
    var k := WipedBefore(cfg, end, z);
    forall y | z <= y < n && Changes(end.log[y], sysroot)
      ensures !end.log[y].effect.WipeSysroot? && end.log[y].effect.compiler == Snapshot(cfg)
    {
      SnapshotChanges(cfg, end, y);
      if end.log[y].effect.WipeSysroot? {
        WipesHappenOnce(cfg, end, k, y);
      }
    }
    BackendsAreThere(times, sysroot, end.log, z, n, Snapshot(cfg));
  }

  lemma SomeBackendWasAdded(cfg: Config, end: State<Step, Output, Effect>, times: Times, n: nat) returns (z: nat)
    requires Ended(cfg, end) && n <= |end.log| && BackendsAt(times, SysrootPath(Snapshot(cfg)), end.log[..n]).Some?
    ensures z < n && end.log[z].Did? && end.log[z].effect.AddBackends? && end.log[z].effect.compiler == Snapshot(cfg) && cfg.snapshotIsBeta
  {
    var sysroot := SysrootPath(Snapshot(cfg));
    if forall y | 0 <= y < n && Changes(end.log[y], sysroot) :: !end.log[y].effect.AddBackends? {
      NoBackendsYet(times, sysroot, end.log, n);
    }
    z :| 0 <= z < n && Changes(end.log[z], sysroot) && end.log[z].effect.AddBackends?;
    SnapshotChanges(cfg, end, z);
  }

  /** For compilers and backends, the snapshot's backends are there from the first preparation on. */
  lemma OtherSnapshotStampsStay(cfg: Config, end: State<Step, Output, Effect>, times: Times, p: nat, q: nat)
    requires Ended(cfg, end) && Plausible(times, end.log)
    requires p < q < |end.log| && end.log[p].Did? && end.log[p].effect.PrepareOut?
    requires end.log[p].effect.compiler == Snapshot(cfg) && end.log[p].effect.mode != ForStd
    ensures !Clears(times, OutDir(Snapshot(cfg), end.log[p].effect.mode), end.log, q)
  {
    var dir, sysroot := OutDir(Snapshot(cfg), end.log[p].effect.mode), SysrootPath(Snapshot(cfg));
    if Prepares(end.log[q], dir) {
      SameDirectory(cfg, end, p, q);
      if cfg.snapshotIsBeta {
        var z := BackedBefore(cfg, end, p);
        SnapshotBackendsStay(cfg, end, times, z, p);
        SnapshotBackendsStay(cfg, end, times, z, q);
      } else {
        NoBackendsWithoutBeta(cfg, end, times, p);
        NoBackendsWithoutBeta(cfg, end, times, q);
      }
      SameFilesAreClean(times, dir, end.log, p, q);
    }
  }

  lemma NoBackendsWithoutBeta(cfg: Config, end: State<Step, Output, Effect>, times: Times, n: nat)
    requires Ended(cfg, end) && n <= |end.log| && !cfg.snapshotIsBeta
    ensures BackendsAt(times, SysrootPath(Snapshot(cfg)), end.log[..n]) == None
  {
    if BackendsAt(times, SysrootPath(Snapshot(cfg)), end.log[..n]).Some? {
      var z := SomeBackendWasAdded(cfg, end, times, n);
    }
  }

  lemma BackedBefore(cfg: Config, end: State<Step, Output, Effect>, p: nat) returns (z: nat)
    requires Ended(cfg, end) && p < |end.log| && end.log[p].Did? && end.log[p].effect.PrepareOut? && cfg.snapshotIsBeta
    requires end.log[p].effect.compiler == Snapshot(cfg) && end.log[p].effect.mode != ForStd
    ensures z < p && end.log[z].Did? && end.log[z].effect.AddBackends? && end.log[z].effect.compiler == Snapshot(cfg)
  {
    var f := BackedFact(cfg, end.log[p].effect);
    z := ReliedOnEarlier(cfg, end, p, f);
  }

  lemma BackedFact(cfg: Config, e: Effect) returns (f: Fact)
    requires e.PrepareOut? && e.mode != ForStd && e.compiler == Snapshot(cfg) && cfg.snapshotIsBeta
    ensures f in Needs(cfg, e)
    ensures forall x: Effect | f in Gives(x) :: x.AddBackends? && x.compiler == Snapshot(cfg)
  {
    f := Backed(Snapshot(cfg));
  }
}
