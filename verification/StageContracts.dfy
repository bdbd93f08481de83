/** What each bootstrap step relies on and establishes, and why every body keeps to it. */
module StageContracts {
  import opened StepEngine
  import opened EngineFacts
  import opened StageGraph

  datatype Fact =
    | Wiped(compiler: Compiler)
    | WipedLib(compiler: Compiler, target: Target)
    | Stamped(mode: Mode, compiler: Compiler, target: Target, build: Build)
    | Linked(mode: Mode, compiler: Compiler, targetCompiler: Compiler, target: Target)
    | Prepared(mode: Mode, compiler: Compiler, target: Target)
    | Installed(compiler: Compiler)
    | Backed(compiler: Compiler)
    | LlvmIn(compiler: Compiler)
    | LlvmBuilt(target: Target)
    | Made(native: Native, target: Target)
    | Placed(compiler: Compiler, target: Target, part: Part)
    | Has(compiler: Compiler, piece: Piece)
    | Sourced(compiler: Compiler)
    | Wrapped(compiler: Compiler, target: Target)
    | StampRead(mode: Mode, compiler: Compiler, target: Target)

  /** No stage is kept from an earlier run. */
  predicate KeepsNothing(cfg: Config) {
    cfg.keepStage == {} && cfg.keepStageStd == {}
  }

  function Stamp(cfg: Config, mode: Mode, c: Compiler, t: Target, build: Build): set<Fact> {
    if KeepsNothing(cfg) then {Stamped(mode, c, t, build)} else {}
  }

  /** A downloaded snapshot gets its codegen backends when its first library is linked. */
  function SnapshotBacked(cfg: Config, c: Compiler): set<Fact> {
    if c.stage == 0 && cfg.snapshotIsBeta then {Backed(c)} else {}
  }

  /** The snapshot compiler's sysroot is created with LLVM in it. */
  function SnapshotLlvm(cfg: Config, c: Compiler): set<Fact> {
    if c.stage == 0 && InstallsLlvm(cfg, c.host) then {LlvmIn(c)} else {}
  }

  function LibdirReady(c: Compiler, t: Target): set<Fact> {
    {Wiped(c), WipedLib(c, t)}
  }

  /** The compilers that `Assemble` puts into a sysroot of their own. */
  predicate IsInstalled(cfg: Config, c: Compiler) {
    c.stage > 0 && !LeavesEarly(cfg, c)
  }

  /** Whoever uses a compiler that has a sysroot of its own was handed it by its `Assemble`. */
  function InstalledFirst(cfg: Config, c: Compiler): set<Fact> {
    if IsInstalled(cfg, c) then {Installed(c)} else {}
  }

  function StdSource(cfg: Config, c: Compiler, t: Target): Compiler {
    Source(cfg, ForStd, c, t)
  }

  function RustcSource(cfg: Config, c: Compiler, t: Target): Compiler {
    Source(cfg, ForRustc, c, t)
  }

  /** Whoever uses LLVM has made sure that there is one. */
  function LlvmFirst(cfg: Config, t: Target): set<Fact> {
    if HasLlvm(cfg, t) then {} else {LlvmBuilt(t)}
  }

  /** The startup objects, where the target has any. */
  function StartupFirst(c: Compiler, t: Target): set<Fact> {
    if HasStartupObjects(t) then {Placed(c, t, Startup)} else {}
  }

  /** The other objects that come with the library of a target. */
  function ObjectsFirst(cfg: Config, c: Compiler, t: Target): set<Fact> {
    ThirdPartyFirst(cfg, c, t) + SelfContainedFirst(c, t)
  }

  function ThirdPartyFirst(cfg: Config, c: Compiler, t: Target): set<Fact> {
    (if HasSanitizers(cfg, c, t) then {Placed(c, t, Sanitizing)} else {}) + (if HasUnwinder(cfg, t) then {Placed(c, t, Unwinding)} else {})
  }

  function SelfContainedFirst(c: Compiler, t: Target): set<Fact> {
    {Placed(c, t, SelfContained)}
    + (if IsMusl(t) then {Placed(c, t, SelfContainedCrt)} + (if IsS390x(t) then {} else {Placed(c, t, SelfContainedUnwinding)}) else {})
  }

  /** What Cargo relies on besides the compiler: startup objects to build a library; the library, for the
      target and for the machine it runs on, to build a compiler; the compiler to build a backend. */
  function CargoInputs(cfg: Config, c: Compiler, mode: Mode, t: Target): set<Fact> {
    match mode
    case ForStd => StartupFirst(c, t)
    case ForRustc => {Linked(ForStd, StdSource(cfg, c, t), c, t), Linked(ForStd, StdSource(cfg, c, cfg.build), c, cfg.build)}
    case ForCodegen(_) => {Linked(ForRustc, RustcSource(cfg, c, t), c, t)}
  }

  /** And LLVM to build a compiler or a backend. */
  function CargoLlvm(cfg: Config, mode: Mode, t: Target): set<Fact> {
    if mode != ForStd && LlvmEnabled(cfg) then LlvmFirst(cfg, t) else {}
  }

  /** What the stamp of a build lists besides what Cargo made. */
  function Listed(cfg: Config, mode: Mode, c: Compiler, t: Target): set<Fact> {
    if mode == ForStd then StartupFirst(c, t) + ObjectsFirst(cfg, c, t) else {}
  }

  /** What an object is copied from. */
  function MadeFirst(cfg: Config, t: Target, part: Part): set<Fact> {
    match part
    case Sanitizing => if t in cfg.sanitizerRuntimes then {Made(Runtimes, t)} else {}
    case Unwinding => {Made(Unwinder, t)}
    case SelfContainedCrt => {Made(CrtObjects, t)}
    case SelfContainedUnwinding => {Made(Unwinder, t)}
    case _ => {}
  }

  /** What a piece of the sysroot of `c`, which `bc` was used to build, is copied from. */
  function PieceFirst(cfg: Config, bc: Compiler, c: Compiler, piece: Piece): set<Fact> {
    match piece
    case LinkerTools => {Made(Linker, c.host), Wrapped(bc, c.host)}
    case LlvmTools => LlvmFirst(cfg, c.host)
    case _ => {}
  }

  /** The pieces that a compiler in a sysroot of its own comes with. */
  function Pieces(cfg: Config, c: Compiler): set<Fact> {
    {Has(c, Dylibs)}
    + (if cfg.lldEnabled then {Has(c, LinkerTools)} else {})
    + (if LlvmEnabled(cfg) then {Has(c, LlvmTools)} else {})
    + (if InstallsLlvm(cfg, c.host) then {Has(c, LlvmRuntime), LlvmIn(c)} else {})
  }

  /** The backends that a compiler comes with: their stamps were read, and something was copied. */
  function BackendsFirst(c: Compiler, tc: Compiler, backends: seq<string>): set<Fact> {
    if backends == [] then {}
    else (if backends[0] == "llvm" then {} else {StampRead(ForCodegen(backends[0]), c, tc.host), Backed(tc)}) + BackendsFirst(c, tc, backends[1..])
  }

  function Pre(cfg: Config, s: Step): set<Fact> {
    match s
    case StdLink(c, tc, t, _, _) => Stamp(cfg, ForStd, c, t, Expected(c, tc, BuildOf(s)))
    case RustcLink(c, tc, t, _) => Stamp(cfg, ForRustc, c, t, Expected(c, tc, BuildOf(s)))
    case LldWrapper(c, _) => InstalledFirst(cfg, c)
    case LldWrapperBuild(c, _) => InstalledFirst(cfg, c)
    case _ => {}
  }

  function Post(cfg: Config, s: Step): set<Fact> {
    match s
    case Sysroot(c) => {Wiped(c), Sourced(c)} + SnapshotLlvm(cfg, c)
    case Libdir(c, t) => LibdirReady(c, t)
    case StdLink(c, tc, t, _, _) => {Linked(ForStd, c, tc, t)} + SnapshotBacked(cfg, c)
    case RustcLink(c, tc, t, _) => {Linked(ForRustc, c, tc, t)}
    case Std(c, t, _, _) =>
      {Linked(ForStd, StdSource(cfg, c, t), c, t)} + SnapshotBacked(cfg, c) + ObjectsFirst(cfg, c, t)
      + Stamp(cfg, ForStd, StdSource(cfg, c, t), t, Expected(StdSource(cfg, c, t), c, BuildOf(s)))
    case Rustc(c, t, _) =>
      {Linked(ForStd, StdSource(cfg, c, t), c, t), Linked(ForRustc, RustcSource(cfg, c, t), c, t)}
      + SnapshotBacked(cfg, c)
      + Stamp(cfg, ForRustc, RustcSource(cfg, c, t), t, Expected(RustcSource(cfg, c, t), c, BuildOf(s)))
    case CodegenBackend(c, t, b) => Stamp(cfg, ForCodegen(b), Builds(cfg, c, t), t, FULL)
    case Assemble(c) => InstalledFirst(cfg, c)
    case StartupObjects(c, t) => StartupFirst(c, t)
    case Llvm(t) => LlvmFirst(cfg, t)
    case Lld(t) => {Made(Linker, t)}
    case Sanitizers(t) => MadeFirst(cfg, t, Sanitizing)
    case CrtBeginEnd(t) => {Made(CrtObjects, t)}
    case Libunwind(t) => {Made(Unwinder, t)}
    case LldWrapper(c, t) => {Wrapped(c, t)}
    case LldWrapperBuild(c, t) => {Wrapped(c, t)}
    case DistStd(c, t) => if c.host == cfg.build then {StampRead(ForStd, Builds(cfg, c, t), t)} else {}
    case DistRustcDev(c, t) => if c.host == cfg.build then {StampRead(ForRustc, Builds(cfg, c, t), t)} else {}
  }

  function Needs(cfg: Config, e: Effect): set<Fact> {
    match e
    case WipeSysroot(_) => {}
    case WipeLibdir(c, _) => {Wiped(c)} + SnapshotLlvm(cfg, c)
    case LinkSources(c) => {Wiped(c)}
    case CopyToSysroot(c, piece) => {Wiped(c)} + (if c.stage == 0 then {} else PieceFirst(cfg, Compiler(c.stage - 1, cfg.build), c, piece))
    case AddBackends(c, t) => {Wiped(c)} + (if c.stage == 0 then {Linked(ForStd, c, c, t)} else {})
    case CopyToLibdir(c, t, part) => LibdirReady(c, t) + MadeFirst(cfg, t, part)
    case InstallLlvm(c, _) => if c.stage == 0 then {Wiped(c)} else LibdirReady(c, c.host)
    case PrepareOut(c, mode, _) => InstalledFirst(cfg, c) + {Wiped(c)} + (if mode == ForStd then {} else SnapshotBacked(cfg, c))
    case RunCargo(c, mode, t) => InstalledFirst(cfg, c) + LibdirReady(c, c.host) + CargoInputs(cfg, c, mode, t) + CargoLlvm(cfg, mode, t)
    case RunTool(c, t) => InstalledFirst(cfg, c) + LibdirReady(c, c.host) + {Linked(ForStd, StdSource(cfg, c, t), c, t)}
    case BuildLlvm(t) => if t == cfg.build then {} else LlvmFirst(cfg, cfg.build)
    case BuildNative(n, t) => if n == Linker then LlvmFirst(cfg, t) else if n == Runtimes then LlvmFirst(cfg, cfg.build) else {}
    case WriteStamp(mode, c, t, _) => {Prepared(mode, c, t)} + Listed(cfg, mode, c, t)
    case ReadStamp(mode, c, t) => Stamp(cfg, mode, c, t, FULL)
    case LinkStamped(mode, c, tc, t, build) => LibdirReady(tc, t) + LibdirReady(tc, c.host) + Stamp(cfg, mode, c, t, build)
    case InstallCompiler(c) =>
      {Wiped(c)} + (if c.stage == 0 then {} else
        var bc := Compiler(c.stage - 1, cfg.build);
        {Linked(ForRustc, bc, bc, c.host), StampRead(ForRustc, bc, c.host)} + Stamp(cfg, ForRustc, bc, c.host, FULL)
        + Pieces(cfg, c) + BackendsFirst(bc, c, cfg.backends))
  }

  function Gives(e: Effect): set<Fact> {
    match e
    case WipeSysroot(c) => {Wiped(c)}
    case WipeLibdir(c, t) => {WipedLib(c, t)}
    case PrepareOut(c, mode, t) => {Prepared(mode, c, t)}
    case WriteStamp(mode, c, t, build) => {Stamped(mode, c, t, build)}
    case LinkStamped(mode, c, tc, t, _) => {Linked(mode, c, tc, t)}
    case AddBackends(c, _) => {Backed(c)}
    case InstallCompiler(c) => {Installed(c)}
    case InstallLlvm(c, _) => {LlvmIn(c)}
    case LinkSources(c) => {Sourced(c)}
    case CopyToSysroot(c, piece) => {Has(c, piece)}
    case CopyToLibdir(c, t, part) => {Placed(c, t, part)}
    case BuildLlvm(t) => {LlvmBuilt(t)}
    case BuildNative(n, t) => {Made(n, t)}
    case ReadStamp(mode, c, t) => {StampRead(mode, c, t)}
    case RunTool(c, t) => {Wrapped(c, t)}
    case RunCargo(_, _, _) => {}
  }

  ghost function StageContract(cfg: Config): Contract<Step, Effect, Fact> {
    Contract(s => Pre(cfg, s), s => Post(cfg, s), e => Needs(cfg, e), e => Gives(e))
  }

  /** Started with `p`, the operations find what they rely on and leave at least `q`. */
  ghost predicate Holds(cfg: Config, p: set<Fact>, ops: seq<StepOp>, q: set<Fact>) {
    Carries(StageContract(cfg), p, ops, q)
  }

  // ---------------------------------------------------------------------------
  // Pieces of bodies.

  lemma FillHolds(cfg: Config, p: set<Fact>, c: Compiler, t: Target, part: Part)
    requires MadeFirst(cfg, t, part) <= p
    ensures Holds(cfg, p, FillLibdir(c, t, part), p + LibdirReady(c, t) + {Placed(c, t, part)})
  {
    AskHolds(cfg, p, Libdir(c, t));
    DoHolds(cfg, p + LibdirReady(c, t), CopyToLibdir(c, t, part));
    Then(cfg, p, [Need(Libdir(c, t))], p + LibdirReady(c, t), [Do(CopyToLibdir(c, t, part))], p + LibdirReady(c, t) + {Placed(c, t, part)});
  }

  lemma SysrootHolds(cfg: Config, c: Compiler)
    ensures Holds(cfg, {}, SysrootBody(cfg, c), {Wiped(c), Sourced(c)} + SnapshotLlvm(cfg, c))
  {
    ByPieces(StageContract(cfg));
  }

  lemma LibdirHolds(cfg: Config, c: Compiler, t: Target)
    ensures Holds(cfg, {}, LibdirBody(cfg, c, t), LibdirReady(c, t))
  {
    ByPieces(StageContract(cfg));
  }

  /** Sequential composition. */
  lemma Then(cfg: Config, p: set<Fact>, a: seq<StepOp>, q: set<Fact>, b: seq<StepOp>, r: set<Fact>)
    requires Holds(cfg, p, a, q) && Holds(cfg, q, b, r)
    ensures Holds(cfg, p, a + b, r)
  {
    CarriesThen(StageContract(cfg), p, a, q, b, r);
  }

  lemma AskHolds(cfg: Config, p: set<Fact>, d: Step)
    requires Pre(cfg, d) <= p
    ensures Holds(cfg, p, [Need(d)], p + Post(cfg, d))
  {
    CarriesNeed(StageContract(cfg), p, d);
  }

  lemma NothingHolds(cfg: Config, p: set<Fact>)
    ensures Holds(cfg, p, [], p)
  {
  }

  /** Make something, then copy it into a libdir that is there. */
  lemma CopyMadeHolds(cfg: Config, p: set<Fact>, d: Step, c: Compiler, t: Target, part: Part)
    requires Pre(cfg, d) == {} && LibdirReady(c, t) <= p && MadeFirst(cfg, t, part) <= Post(cfg, d)
    ensures Holds(cfg, p, [Need(d)] + [Do(CopyToLibdir(c, t, part))], p + {Placed(c, t, part)})
  {
    AskHolds(cfg, p, d);
    DoHolds(cfg, p + Post(cfg, d), CopyToLibdir(c, t, part));
    Then(cfg, p, [Need(d)], p + Post(cfg, d), [Do(CopyToLibdir(c, t, part))], p + {Placed(c, t, part)});
  }

  lemma SanitizersHold(cfg: Config, p: set<Fact>, c: Compiler, t: Target)
    ensures Holds(cfg, p, [Need(Sanitizers(t))] + FillLibdir(c, t, Sanitizing), p + {Placed(c, t, Sanitizing)})
  {
    var q := p + Post(cfg, Sanitizers(t));
    AskHolds(cfg, p, Sanitizers(t));
    FillHolds(cfg, q, c, t, Sanitizing);
    Then(cfg, p, [Need(Sanitizers(t))], q, FillLibdir(c, t, Sanitizing), p + {Placed(c, t, Sanitizing)});
  }

  lemma LibunwindHolds(cfg: Config, p: set<Fact>, c: Compiler, t: Target)
    ensures Holds(cfg, p, [Need(Libdir(c, t))] + [Need(Libunwind(t))] + [Do(CopyToLibdir(c, t, Unwinding))], p + {Placed(c, t, Unwinding)})
  {
    var q := p + LibdirReady(c, t);
    var copy := [Need(Libunwind(t))] + [Do(CopyToLibdir(c, t, Unwinding))];
    AskHolds(cfg, p, Libdir(c, t));
    CopyMadeHolds(cfg, q, Libunwind(t), c, t, Unwinding);
    Then(cfg, p, [Need(Libdir(c, t))], q, copy, p + {Placed(c, t, Unwinding)});
    assert [Need(Libdir(c, t))] + copy == [Need(Libdir(c, t))] + [Need(Libunwind(t))] + [Do(CopyToLibdir(c, t, Unwinding))];
  }

  lemma ThirdPartyHolds(cfg: Config, p: set<Fact>, c: Compiler, t: Target)
    ensures Holds(cfg, p, ThirdPartyObjects(cfg, c, t), p + ThirdPartyFirst(cfg, c, t))
  {
    var a := if HasSanitizers(cfg, c, t) then [Need(Sanitizers(t))] + FillLibdir(c, t, Sanitizing) else [];
    var b := ThirdPartyObjects(cfg, c, t)[|a|..];
    var q := if HasSanitizers(cfg, c, t) then p + {Placed(c, t, Sanitizing)} else p;
    SanitizersHold(cfg, p, c, t);
    LibunwindHolds(cfg, q, c, t);
    NothingHolds(cfg, p);
    NothingHolds(cfg, q);
    assert ThirdPartyObjects(cfg, c, t) == a + b;
    Then(cfg, p, a, q, b, p + ThirdPartyFirst(cfg, c, t));
  }

  lemma MuslHolds(cfg: Config, p: set<Fact>, c: Compiler, t: Target)
    requires LibdirReady(c, t) <= p
    ensures Holds(cfg, p, [Need(CrtBeginEnd(t))] + [Do(CopyToLibdir(c, t, SelfContainedCrt))]
                          + (if IsS390x(t) then [] else [Need(Libunwind(t))] + [Do(CopyToLibdir(c, t, SelfContainedUnwinding))]),
                  p + {Placed(c, t, SelfContainedCrt)} + (if IsS390x(t) then {} else {Placed(c, t, SelfContainedUnwinding)}))
  {
    var q := p + {Placed(c, t, SelfContainedCrt)};
    CopyMadeHolds(cfg, p, CrtBeginEnd(t), c, t, SelfContainedCrt);
    CopyMadeHolds(cfg, q, Libunwind(t), c, t, SelfContainedUnwinding);
    NothingHolds(cfg, q);
    Then(cfg, p, [Need(CrtBeginEnd(t))] + [Do(CopyToLibdir(c, t, SelfContainedCrt))], q,
         if IsS390x(t) then [] else [Need(Libunwind(t))] + [Do(CopyToLibdir(c, t, SelfContainedUnwinding))],
         q + (if IsS390x(t) then {} else {Placed(c, t, SelfContainedUnwinding)}));
  }

  lemma SelfContainedHolds(cfg: Config, p: set<Fact>, c: Compiler, t: Target)
    ensures Holds(cfg, p, SelfContainedObjects(c, t), p + SelfContainedFirst(c, t))
  {
    var q := p + LibdirReady(c, t) + {Placed(c, t, SelfContained)};
    var b := SelfContainedObjects(c, t)[|FillLibdir(c, t, SelfContained)|..];
    FillHolds(cfg, p, c, t, SelfContained);
    MuslHolds(cfg, q, c, t);
    NothingHolds(cfg, q);
    assert SelfContainedObjects(c, t) == FillLibdir(c, t, SelfContained) + b;
    Then(cfg, p, FillLibdir(c, t, SelfContained), q, b, p + SelfContainedFirst(c, t));
  }

  lemma DoHolds(cfg: Config, p: set<Fact>, e: Effect)
    requires Needs(cfg, e) <= p
    ensures Holds(cfg, p, [Do(e)], p + Gives(e))
  {
    CarriesDo(StageContract(cfg), p, e);
  }

  lemma PrepareHolds(cfg: Config, p: set<Fact>, c: Compiler, mode: Mode, t: Target)
    requires InstalledFirst(cfg, c) <= p && (mode != ForStd ==> SnapshotBacked(cfg, c) <= p)
    ensures Holds(cfg, p, PrepareCargo(cfg, c, mode, t), p + Ready(cfg, c, mode, t))
  {
    var a, b: seq<StepOp> := [Need(Libdir(c, c.host))], [Need(Sysroot(c))];
    var e := PrepareOut(c, mode, t);
    var llvm: seq<StepOp> := if mode != ForStd && LlvmEnabled(cfg) then [Need(Llvm(t))] else [];
    var q, r := p + LibdirReady(c, c.host), p + LibdirReady(c, c.host) + {Prepared(mode, c, t)};
    AskHolds(cfg, p, Libdir(c, c.host));
    AskHolds(cfg, q, Sysroot(c));
    Then(cfg, p, a, q, b, q);
    DoHolds(cfg, q, e);
    Then(cfg, p, a + b, q, [Do(e)], r);
    AskHolds(cfg, r, Llvm(t));
    NothingHolds(cfg, r);
    Then(cfg, p, a + b + [Do(e)], r, llvm, p + Ready(cfg, c, mode, t));
  }

  /** What Cargo finds once it is prepared. */
  function Ready(cfg: Config, c: Compiler, mode: Mode, t: Target): set<Fact> {
    LibdirReady(c, c.host) + {Prepared(mode, c, t)} + CargoLlvm(cfg, mode, t)
  }

  lemma ReadyIsEnough(cfg: Config, p: set<Fact>, c: Compiler, mode: Mode, t: Target, build: Build)
    requires InstalledFirst(cfg, c) <= p && CargoInputs(cfg, c, mode, t) <= p && Listed(cfg, mode, c, t) <= p
    ensures Needs(cfg, RunCargo(c, mode, t)) <= p + Ready(cfg, c, mode, t)
    ensures Needs(cfg, WriteStamp(mode, c, t, build)) <= p + Ready(cfg, c, mode, t)
  {
  }

  lemma CargoHolds(cfg: Config, p: set<Fact>, c: Compiler, mode: Mode, t: Target, build: Build)
    requires InstalledFirst(cfg, c) <= p && (mode != ForStd ==> SnapshotBacked(cfg, c) <= p)
    requires CargoInputs(cfg, c, mode, t) <= p && Listed(cfg, mode, c, t) <= p
    ensures Holds(cfg, p, BuildWithCargo(cfg, c, mode, t, build), p + {Stamped(mode, c, t, build)})
  {
    var q := p + Ready(cfg, c, mode, t);
    var prepare := PrepareCargo(cfg, c, mode, t);
    PrepareHolds(cfg, p, c, mode, t);
    ReadyIsEnough(cfg, p, c, mode, t, build);
    DoAndForget(cfg, q, RunCargo(c, mode, t), q);
    Then(cfg, p, prepare, q, [Do(RunCargo(c, mode, t))], q);
    DoAndForget(cfg, q, WriteStamp(mode, c, t, build), p + {Stamped(mode, c, t, build)});
    Then(cfg, p, prepare + [Do(RunCargo(c, mode, t))], q, [Do(WriteStamp(mode, c, t, build))], p + {Stamped(mode, c, t, build)});
  }

  lemma DoAndForget(cfg: Config, p: set<Fact>, e: Effect, q: set<Fact>)
    requires Needs(cfg, e) <= p && q <= p + Gives(e)
    ensures Holds(cfg, p, [Do(e)], q)
  {
    DoHolds(cfg, p, e);
  }

  lemma LinkHolds(cfg: Config, mode: Mode, c: Compiler, tc: Compiler, t: Target, build: Build)
    ensures var link := [Need(Libdir(tc, t))] + [Need(Libdir(tc, c.host))] + [Do(LinkStamped(mode, c, tc, t, build))];
            Holds(cfg, Stamp(cfg, mode, c, t, build), link, LibdirReady(tc, c.host) + {Linked(mode, c, tc, t)})
  {
    var p := Stamp(cfg, mode, c, t, build);
    var q := p + LibdirReady(tc, t);
    var r := q + LibdirReady(tc, c.host);
    AskHolds(cfg, p, Libdir(tc, t));
    AskHolds(cfg, q, Libdir(tc, c.host));
    Then(cfg, p, [Need(Libdir(tc, t))], q, [Need(Libdir(tc, c.host))], r);
    DoHolds(cfg, r, LinkStamped(mode, c, tc, t, build));
    Then(cfg, p, [Need(Libdir(tc, t))] + [Need(Libdir(tc, c.host))], r, [Do(LinkStamped(mode, c, tc, t, build))],
         LibdirReady(tc, c.host) + {Linked(mode, c, tc, t)});
  }

  lemma BackendsOfSnapshotHold(cfg: Config, p: set<Fact>, c: Compiler, t: Target)
    requires Wiped(c) in p && Linked(ForStd, c, c, t) in p
    ensures Holds(cfg, p, [Do(CopyToSysroot(c, SnapshotParts))] + [Need(Libdir(c, c.host))] + [Do(AddBackends(c, t))], p + {Backed(c)})
  {
    DoHolds(cfg, p, CopyToSysroot(c, SnapshotParts));
    AskHolds(cfg, p, Libdir(c, c.host));
    Then(cfg, p, [Do(CopyToSysroot(c, SnapshotParts))], p, [Need(Libdir(c, c.host))], p);
    DoHolds(cfg, p, AddBackends(c, t));
    Then(cfg, p, [Do(CopyToSysroot(c, SnapshotParts))] + [Need(Libdir(c, c.host))], p, [Do(AddBackends(c, t))], p + {Backed(c)});
  }

  lemma StdLinkHolds(cfg: Config, c: Compiler, tc: Compiler, t: Target, build: Build)
    requires c.stage == 0 ==> c == tc
    ensures Holds(cfg, Stamp(cfg, ForStd, c, t, Expected(c, tc, build)), StdLinkBody(cfg, c, tc, t, build),
                  {Linked(ForStd, c, tc, t)} + SnapshotBacked(cfg, c))
  {
    var p := Stamp(cfg, ForStd, c, t, Expected(c, tc, build));
    var q := LibdirReady(tc, c.host) + {Linked(ForStd, c, tc, t)};
    var link := [Need(Libdir(tc, t))] + [Need(Libdir(tc, c.host))] + [Do(LinkStamped(ForStd, c, tc, t, Expected(c, tc, build)))];
    LinkHolds(cfg, ForStd, c, tc, t, Expected(c, tc, build));
    if c.stage == 0 && cfg.snapshotIsBeta {
      BackendsOfSnapshotHold(cfg, q, c, t);
      Then(cfg, p, link, q, [Do(CopyToSysroot(c, SnapshotParts))] + [Need(Libdir(c, c.host))] + [Do(AddBackends(c, t))], q + {Backed(c)});
    } else {
      NothingHolds(cfg, q);
      Then(cfg, p, link, q, [], q);
    }
  }

  lemma RustcLinkHolds(cfg: Config, c: Compiler, tc: Compiler, t: Target, build: Build)
    ensures Holds(cfg, Stamp(cfg, ForRustc, c, t, Expected(c, tc, build)), RustcLinkBody(c, tc, t, build), {Linked(ForRustc, c, tc, t)})
  {
    LinkHolds(cfg, ForRustc, c, tc, t, Expected(c, tc, build));
  }

  // ---------------------------------------------------------------------------
  // Std.

  /** Uplifting settles after one step: the compiler that builds for `use` is `use`. */
  lemma BuildsIsIdempotent(cfg: Config, c: Compiler, t: Target)
    ensures Builds(cfg, Builds(cfg, c, t), t) == Builds(cfg, c, t)
    ensures c.host == cfg.build ==> Builds(cfg, c, t).host == cfg.build && Builds(cfg, c, t).stage <= c.stage
  {
  }

  lemma StdHolds(cfg: Config, s: Step)
    requires s.Std? && WellFormed(cfg, s)
    ensures Holds(cfg, {}, Body(cfg, s), Post(cfg, s))
  {
    var Std(c, t, crates, force) := s;
    var use := Builds(cfg, c, t);
    var objects := ThirdPartyObjects(cfg, c, t) + SelfContainedObjects(c, t);
    var start := [Need(StartupObjects(c, t))] + [Need(Assemble(use))];
    var p0 := StartupFirst(c, t);
    var p := p0 + Post(cfg, Assemble(use));
    AskHolds(cfg, {}, StartupObjects(c, t));
    AskHolds(cfg, p0, Assemble(use));
    Then(cfg, {}, [Need(StartupObjects(c, t))], p0, [Need(Assemble(use))], p);
    if KeepsStd(cfg, c) {
      var q := ObjectsFirst(cfg, c, t);
      ObjectsHold(cfg, {}, c, t);
      AskHolds(cfg, q, StdLink(c, c, t, crates, force));
      Then(cfg, {}, objects, q, [Need(StdLink(c, c, t, crates, force))], Post(cfg, s));
    } else if use != c {
      BuildsIsIdempotent(cfg, c, t);
      var q := p + Post(cfg, Std(use, t, [], false));
      AskHolds(cfg, p, Std(use, t, [], false));
      Then(cfg, {}, start, p, [Need(Std(use, t, [], false))], q);
      var r := q + ObjectsFirst(cfg, c, t);
      ObjectsHold(cfg, q, c, t);
      Then(cfg, {}, start + [Need(Std(use, t, [], false))], q, objects, r);
      AskHolds(cfg, r, StdLink(use, c, t, crates, force));
      Then(cfg, {}, start + [Need(Std(use, t, [], false))] + objects, r, [Need(StdLink(use, c, t, crates, force))], Post(cfg, s));
    } else {
      var r := p + ObjectsFirst(cfg, c, t);
      ObjectsHold(cfg, p, c, t);
      Then(cfg, {}, start, p, objects, r);
      var q := r + {Stamped(ForStd, c, t, BuildOf(s))};
      CargoHolds(cfg, r, c, ForStd, t, BuildOf(s));
      Then(cfg, {}, start + objects, r, BuildWithCargo(cfg, c, ForStd, t, BuildOf(s)), q);
      AskHolds(cfg, q, Assemble(c));
      Then(cfg, {}, start + objects + BuildWithCargo(cfg, c, ForStd, t, BuildOf(s)), q, [Need(Assemble(c))], q);
      AskHolds(cfg, q, StdLink(c, c, t, crates, force));
      Then(cfg, {}, start + objects + BuildWithCargo(cfg, c, ForStd, t, BuildOf(s)) + [Need(Assemble(c))], q,
           [Need(StdLink(c, c, t, crates, force))], Post(cfg, s));
    }
  }

  lemma ObjectsHold(cfg: Config, p: set<Fact>, c: Compiler, t: Target)
    ensures Holds(cfg, p, ThirdPartyObjects(cfg, c, t) + SelfContainedObjects(c, t), p + ObjectsFirst(cfg, c, t))
  {
    var q := p + ThirdPartyFirst(cfg, c, t);
    ThirdPartyHolds(cfg, p, c, t);
    SelfContainedHolds(cfg, q, c, t);
    Then(cfg, p, ThirdPartyObjects(cfg, c, t), q, SelfContainedObjects(c, t), p + ObjectsFirst(cfg, c, t));
  }

  // ---------------------------------------------------------------------------
  // Rustc and the codegen backends.

  lemma RustcHolds(cfg: Config, s: Step)
    requires s.Rustc? && WellFormed(cfg, s)
    ensures Holds(cfg, {}, Body(cfg, s), Post(cfg, s))
  {
    var Rustc(c, t, crates) := s;
    var std := Std(c, t, [], false);
    var p := Post(cfg, std);
    AskHolds(cfg, {}, std);
    if c.stage in cfg.keepStage {
      AskHolds(cfg, p, RustcLink(c, c, t, crates));
      Then(cfg, {}, [Need(std)], p, [Need(RustcLink(c, c, t, crates))], Post(cfg, s));
    } else if Builds(cfg, c, t) != c {
      RustcLiftHolds(cfg, s, p);
      var use := Builds(cfg, c, t);
      Then(cfg, {}, [Need(std)], p, [Need(Assemble(use))] + [Need(Rustc(use, t, []))] + [Need(RustcLink(use, c, t, crates))], Post(cfg, s));
    } else {
      RustcBuildHolds(cfg, s, p, BuildWithCargo(cfg, c, ForRustc, t, BuildOf(s)));
      Then(cfg, {}, [Need(std)], p, RustcBuild(cfg, s, BuildWithCargo(cfg, c, ForRustc, t, BuildOf(s))), Post(cfg, s));
    }
  }

  /** Artifacts are lifted out of another stage. */
  lemma RustcLiftHolds(cfg: Config, s: Step, p: set<Fact>)
    requires s.Rustc? && WellFormed(cfg, s) && s.compiler.stage !in cfg.keepStage && Builds(cfg, s.compiler, s.target) != s.compiler
    requires Post(cfg, Std(s.compiler, s.target, [], false)) <= p
    ensures var c, t, use := s.compiler, s.target, Builds(cfg, s.compiler, s.target);
            Holds(cfg, p, [Need(Assemble(use))] + [Need(Rustc(use, t, []))] + [Need(RustcLink(use, c, t, s.crates))], Post(cfg, s))
  {
    var c, t, use := s.compiler, s.target, Builds(cfg, s.compiler, s.target);
    BuildsIsIdempotent(cfg, c, t);
    var q := p + Post(cfg, Assemble(use));
    var r := q + Post(cfg, Rustc(use, t, []));
    AskHolds(cfg, p, Assemble(use));
    AskHolds(cfg, q, Rustc(use, t, []));
    Then(cfg, p, [Need(Assemble(use))], q, [Need(Rustc(use, t, []))], r);
    AskHolds(cfg, r, RustcLink(use, c, t, s.crates));
    Then(cfg, p, [Need(Assemble(use))] + [Need(Rustc(use, t, []))], r, [Need(RustcLink(use, c, t, s.crates))], Post(cfg, s));
  }

  /** The rest of a body that builds a compiler itself. */
  function RustcBuild(cfg: Config, s: Step, cargo: seq<StepOp>): seq<StepOp>
    requires s.Rustc?
  {
    var c := Compiler(s.compiler.stage, cfg.build);
    [Need(Assemble(s.compiler))] + [Need(Assemble(c))] + [Need(Std(c, cfg.build, [], false))]
    + cargo + [Need(Assemble(c))] + [Need(RustcLink(c, s.compiler, s.target, s.crates))]
  }

  lemma RustcBuildHolds(cfg: Config, s: Step, p: set<Fact>, cargo: seq<StepOp>)
    requires s.Rustc? && WellFormed(cfg, s) && s.compiler.stage !in cfg.keepStage && Builds(cfg, s.compiler, s.target) == s.compiler
    requires Post(cfg, Std(s.compiler, s.target, [], false)) <= p
    requires cargo == BuildWithCargo(cfg, s.compiler, ForRustc, s.target, BuildOf(s))
    ensures Holds(cfg, p, RustcBuild(cfg, s, cargo), Post(cfg, s))
  {
    var c, t := s.compiler, s.target;
    var hostStd := Std(c, cfg.build, [], false);
    var q := p + Post(cfg, Assemble(c));
    var r := q + Post(cfg, hostStd);
    var q' := r + {Stamped(ForRustc, c, t, BuildOf(s))};
    AskHolds(cfg, p, Assemble(c));
    AskAndForget(cfg, q, Assemble(c), q);
    AskHolds(cfg, q, hostStd);
    CargoHolds(cfg, r, c, ForRustc, t, BuildOf(s));
    FourInARow(cfg, p, [Need(Assemble(c))], q, [Need(Assemble(c))], q, [Need(hostStd)], r, cargo, q');
    var ops := [Need(Assemble(c))] + [Need(Assemble(c))] + [Need(hostStd)] + cargo;
    AskAndForget(cfg, q', Assemble(c), q');
    Then(cfg, p, ops, q', [Need(Assemble(c))], q');
    AskHolds(cfg, q', RustcLink(c, c, t, s.crates));
    Then(cfg, p, ops + [Need(Assemble(c))], q', [Need(RustcLink(c, c, t, s.crates))], Post(cfg, s));
  }

  lemma CodegenHolds(cfg: Config, s: Step)
    requires s.CodegenBackend? && WellFormed(cfg, s)
    ensures Holds(cfg, {}, Body(cfg, s), Post(cfg, s))
  {
    var CodegenBackend(c, t, b) := s;
    var use := Builds(cfg, c, t);
    var rustc := Rustc(c, t, []);
    var p := Post(cfg, rustc);
    AskHolds(cfg, {}, rustc);
    var q := p + Post(cfg, Assemble(use));
    AskHolds(cfg, p, Assemble(use));
    if c.stage in cfg.keepStage {
      Then(cfg, {}, [Need(rustc)], p, [], p);
    } else if use != c {
      BuildsIsIdempotent(cfg, c, t);
      AskHolds(cfg, q, CodegenBackend(use, t, b));
      Then(cfg, p, [Need(Assemble(use))], q, [Need(CodegenBackend(use, t, b))], Post(cfg, s));
      Then(cfg, {}, [Need(rustc)], p, [Need(Assemble(use))] + [Need(CodegenBackend(use, t, b))], Post(cfg, s));
    } else {
      CargoHolds(cfg, q, c, ForCodegen(b), t, FULL);
      Then(cfg, p, [Need(Assemble(use))], q, BuildWithCargo(cfg, c, ForCodegen(b), t, FULL), Post(cfg, s));
      Then(cfg, {}, [Need(rustc)], p, [Need(Assemble(use))] + BuildWithCargo(cfg, c, ForCodegen(b), t, FULL), Post(cfg, s));
    }
  }

  // ---------------------------------------------------------------------------
  // Assemble.

  function BackendFacts(cfg: Config, c: Compiler, t: Target, backends: seq<string>): set<Fact> {
    if backends == [] then {}
    else (if backends[0] == "llvm" then {} else Stamp(cfg, ForCodegen(backends[0]), c, t, FULL)) + BackendFacts(cfg, c, t, backends[1..])
  }

  lemma {:induction false} RequestBackendsHold(cfg: Config, p: set<Fact>, c: Compiler, t: Target, backends: seq<string>)
    requires Builds(cfg, c, t) == c
    ensures Holds(cfg, p, RequestBackends(c, t, backends), p + BackendFacts(cfg, c, t, backends))
    decreases |backends|
  {
    if backends != [] {
      var b := backends[0];
      var ops := if b == "llvm" then [] else [Need(CodegenBackend(c, t, b))];
      var q := if b == "llvm" then p else p + Post(cfg, CodegenBackend(c, t, b));
      AskHolds(cfg, p, CodegenBackend(c, t, b));
      RequestBackendsHold(cfg, q, c, t, backends[1..]);
      Then(cfg, p, ops, q, RequestBackends(c, t, backends[1..]), p + BackendFacts(cfg, c, t, backends));
    }
  }

  lemma {:induction false} CopyBackendsHold(cfg: Config, p: set<Fact>, c: Compiler, tc: Compiler, backends: seq<string>)
    requires BackendFacts(cfg, c, tc.host, backends) <= p && Wiped(tc) in p && tc.stage > 0
    ensures Holds(cfg, p, CopyBackends(c, tc, backends), p + BackendsFirst(c, tc, backends))
    decreases |backends|
  {
    if backends != [] {
      var b := backends[0];
      var ops := if b == "llvm" then [] else [Do(ReadStamp(ForCodegen(b), c, tc.host))] + [Do(AddBackends(tc, tc.host))];
      var q := if b == "llvm" then p else p + {StampRead(ForCodegen(b), c, tc.host), Backed(tc)};
      if b == "llvm" {
        NothingHolds(cfg, p);
      } else {
        CopyBackendHolds(cfg, p, c, tc, b);
      }
      CopyBackendsHold(cfg, q, c, tc, backends[1..]);
      Then(cfg, p, ops, q, CopyBackends(c, tc, backends[1..]), p + BackendsFirst(c, tc, backends));
    }
  }

  lemma CopyBackendHolds(cfg: Config, p: set<Fact>, c: Compiler, tc: Compiler, b: string)
    requires Stamp(cfg, ForCodegen(b), c, tc.host, FULL) + {Wiped(tc)} <= p && tc.stage > 0
    ensures Holds(cfg, p, [Do(ReadStamp(ForCodegen(b), c, tc.host))] + [Do(AddBackends(tc, tc.host))],
                  p + {StampRead(ForCodegen(b), c, tc.host), Backed(tc)})
  {
    var q := p + {StampRead(ForCodegen(b), c, tc.host)};
    DoHolds(cfg, p, ReadStamp(ForCodegen(b), c, tc.host));
    DoHolds(cfg, q, AddBackends(tc, tc.host));
    Then(cfg, p, [Do(ReadStamp(ForCodegen(b), c, tc.host))], q, [Do(AddBackends(tc, tc.host))], q + {Backed(tc)});
  }

  /** What is there once the parts are gathered. */
  function Gathered(cfg: Config, bc: Compiler, tc: Compiler): set<Fact> {
    (if cfg.lldEnabled then {Made(Linker, tc.host)} else {}) + {StampRead(ForRustc, bc, tc.host)}
  }

  lemma GatherHolds(cfg: Config, p: set<Fact>, bc: Compiler, tc: Compiler, requests: seq<StepOp>, q: set<Fact>)
    requires Holds(cfg, p, requests, q) && Stamp(cfg, ForRustc, bc, tc.host, FULL) <= q
    ensures Holds(cfg, p, GatherParts(cfg, bc, tc, requests), q + Gathered(cfg, bc, tc))
  {
    var lld := if cfg.lldEnabled then [Need(Lld(tc.host))] else [];
    var r := if cfg.lldEnabled then q + {Made(Linker, tc.host)} else q;
    var read := [Do(ReadStamp(ForRustc, bc, tc.host))];
    AskHolds(cfg, q, Lld(tc.host));
    NothingHolds(cfg, q);
    DoHolds(cfg, r, ReadStamp(ForRustc, bc, tc.host));
    Then(cfg, p, requests, q, lld, r);
    Then(cfg, p, requests + lld, r, read, q + Gathered(cfg, bc, tc));
  }

  lemma LibrariesHold(cfg: Config, p: set<Fact>, bc: Compiler, tc: Compiler)
    ensures Holds(cfg, p, CopyLibraries(bc, tc), p + LibdirReady(tc, tc.host) + {Has(tc, Dylibs)})
  {
    var q := p + {Wiped(tc)};
    var r := q + {Has(tc, Dylibs)};
    AskAndForget(cfg, p, Sysroot(tc), q);
    DoHolds(cfg, q, CopyToSysroot(tc, RustcLibdir));
    Then(cfg, p, [Need(Sysroot(tc))], q, [Do(CopyToSysroot(tc, RustcLibdir))], q);
    AskAndForget(cfg, q, Libdir(bc, tc.host), q);
    DoHolds(cfg, q, CopyToSysroot(tc, Dylibs));
    AskHolds(cfg, r, Libdir(tc, tc.host));
    FourInARow(cfg, p, [Need(Sysroot(tc))] + [Do(CopyToSysroot(tc, RustcLibdir))], q, [Need(Libdir(bc, tc.host))], q,
               [Do(CopyToSysroot(tc, Dylibs))], r, [Need(Libdir(tc, tc.host))], p + LibdirReady(tc, tc.host) + {Has(tc, Dylibs)});
  }

  lemma ToolsHold(cfg: Config, p: set<Fact>, bc: Compiler, tc: Compiler)
    requires tc.stage > 0 && bc == Compiler(tc.stage - 1, cfg.build)
    requires LibdirReady(tc, tc.host) + InstalledFirst(cfg, bc) + {Has(tc, Dylibs)} <= p && (cfg.lldEnabled ==> Made(Linker, tc.host) in p)
    ensures Holds(cfg, p, CopyTools(cfg, bc, tc), p + Pieces(cfg, tc))
  {
    var lld := if cfg.lldEnabled then [Need(LldWrapper(bc, tc.host))] + [Do(CopyToSysroot(tc, LinkerTools))] else [];
    var tools := if LlvmEnabled(cfg) then [Need(Llvm(tc.host))] + [Do(CopyToSysroot(tc, LlvmTools))] else [];
    var lib := if InstallsLlvm(cfg, tc.host) then [Do(CopyToSysroot(tc, LlvmRuntime))] + [Do(InstallLlvm(tc, tc.host))] else [];
    var q := if cfg.lldEnabled then p + {Has(tc, LinkerTools)} else p;
    var r := if LlvmEnabled(cfg) then q + {Has(tc, LlvmTools)} else q;
    if cfg.lldEnabled {
      CopyAfter(cfg, p, LldWrapper(bc, tc.host), tc, LinkerTools);
    }
    CopyAfter(cfg, q, Llvm(tc.host), tc, LlvmTools);
    LibLlvmHolds(cfg, r, tc);
    NothingHolds(cfg, p);
    NothingHolds(cfg, q);
    NothingHolds(cfg, r);
    Then(cfg, p, lld, q, tools, r);
    Then(cfg, p, lld + tools, r, lib, p + Pieces(cfg, tc));
  }

  lemma CopyAfter(cfg: Config, p: set<Fact>, d: Step, tc: Compiler, piece: Piece)
    requires Pre(cfg, d) + {Wiped(tc)} <= p && tc.stage > 0
    requires PieceFirst(cfg, Compiler(tc.stage - 1, cfg.build), tc, piece) <= p + Post(cfg, d)
    ensures Holds(cfg, p, [Need(d)] + [Do(CopyToSysroot(tc, piece))], p + {Has(tc, piece)})
  {
    AskHolds(cfg, p, d);
    DoHolds(cfg, p + Post(cfg, d), CopyToSysroot(tc, piece));
    Then(cfg, p, [Need(d)], p + Post(cfg, d), [Do(CopyToSysroot(tc, piece))], p + {Has(tc, piece)});
  }

  lemma LibLlvmHolds(cfg: Config, p: set<Fact>, tc: Compiler)
    requires LibdirReady(tc, tc.host) <= p
    ensures Holds(cfg, p, [Do(CopyToSysroot(tc, LlvmRuntime))] + [Do(InstallLlvm(tc, tc.host))], p + {Has(tc, LlvmRuntime), LlvmIn(tc)})
  {
    var q := p + {Has(tc, LlvmRuntime)};
    DoHolds(cfg, p, CopyToSysroot(tc, LlvmRuntime));
    DoHolds(cfg, q, InstallLlvm(tc, tc.host));
    Then(cfg, p, [Do(CopyToSysroot(tc, LlvmRuntime))], q, [Do(InstallLlvm(tc, tc.host))], q + {LlvmIn(tc)});
  }

  lemma InstallHolds(cfg: Config, p: set<Fact>, bc: Compiler, tc: Compiler)
    requires tc.stage > 0 && bc == Compiler(tc.stage - 1, cfg.build) && !LeavesEarly(cfg, tc)
    requires Stamp(cfg, ForRustc, bc, tc.host, FULL) + InstalledFirst(cfg, bc) <= p && Linked(ForRustc, bc, bc, tc.host) in p
    ensures Holds(cfg, p, InstallBody(cfg, bc, tc), {Installed(tc)})
  {
    var requests, copies := RequestBackends(bc, tc.host, cfg.backends), CopyBackends(bc, tc, cfg.backends);
    var a := p + BackendFacts(cfg, bc, tc.host, cfg.backends);
    var b := a + Gathered(cfg, bc, tc);
    var c := b + LibdirReady(tc, tc.host) + {Has(tc, Dylibs)};
    var d := c + BackendsFirst(bc, tc, cfg.backends);
    RequestBackendsHold(cfg, p, bc, tc.host, cfg.backends);
    GatherHolds(cfg, p, bc, tc, requests, a);
    LibrariesHold(cfg, b, bc, tc);
    CopyBackendsHold(cfg, c, bc, tc, cfg.backends);
    ToolsHold(cfg, d, bc, tc);
    InstallNeeds(cfg, bc, tc, d);
    InstallShapeHolds(cfg, p, tc, GatherParts(cfg, bc, tc, requests), b, CopyLibraries(bc, tc), c, copies, d,
                      CopyTools(cfg, bc, tc), d + Pieces(cfg, tc));
  }

  lemma InstallNeeds(cfg: Config, bc: Compiler, tc: Compiler, p: set<Fact>)
    requires tc.stage > 0 && bc == Compiler(tc.stage - 1, cfg.build)
    requires {Wiped(tc), Linked(ForRustc, bc, bc, tc.host), StampRead(ForRustc, bc, tc.host)} <= p
    requires Stamp(cfg, ForRustc, bc, tc.host, FULL) <= p && BackendsFirst(bc, tc, cfg.backends) <= p
    ensures Needs(cfg, InstallCompiler(tc)) <= p + Pieces(cfg, tc)
  {
  }

  lemma InstallShapeHolds(cfg: Config, p: set<Fact>, tc: Compiler, a: seq<StepOp>, q: set<Fact>, b: seq<StepOp>, r: set<Fact>,
                          c: seq<StepOp>, r': set<Fact>, d: seq<StepOp>, r'': set<Fact>)
    requires Holds(cfg, p, a, q) && Holds(cfg, q, b, r) && Holds(cfg, r, c, r') && Holds(cfg, r', d, r'')
    requires Needs(cfg, InstallCompiler(tc)) <= r''
    ensures Holds(cfg, p, InstallShape(tc, a, b, c, d), {Installed(tc)})
  {
    var last := [Do(InstallCompiler(tc))];
    DoHolds(cfg, r'', InstallCompiler(tc));
    FourInARow(cfg, p, a, q, b, r, c, r', d, r'');
    Then(cfg, p, a + b + c + d, r'', last, {Installed(tc)});
  }

  lemma AssembleHolds(cfg: Config, s: Step)
    requires s.Assemble? && WellFormed(cfg, s)
    ensures Holds(cfg, {}, Body(cfg, s), Post(cfg, s))
  {
    var tc := s.targetCompiler;
    if tc.stage > 0 {
      var bc := Compiler(tc.stage - 1, cfg.build);
      var rustc := Rustc(bc, tc.host, []);
      var p, q := Post(cfg, Assemble(bc)), Post(cfg, Assemble(bc)) + Post(cfg, rustc);
      AskHolds(cfg, {}, Assemble(bc));
      AskHolds(cfg, p, rustc);
      Then(cfg, {}, [Need(Assemble(bc))], p, [Need(rustc)], q);
      var install := if LeavesEarly(cfg, tc) then [] else InstallBody(cfg, bc, tc);
      if LeavesEarly(cfg, tc) {
        NothingHolds(cfg, q);
      } else {
        InstallHolds(cfg, q, bc, tc);
      }
      Then(cfg, {}, [Need(Assemble(bc))] + [Need(rustc)], q, install, Post(cfg, s));
    }
  }

  // ---------------------------------------------------------------------------
  // All bodies.

  lemma AskAndForget(cfg: Config, p: set<Fact>, d: Step, q: set<Fact>)
    requires Pre(cfg, d) <= p && q <= p + Post(cfg, d)
    ensures Holds(cfg, p, [Need(d)], q)
  {
    AskHolds(cfg, p, d);
  }

  lemma ToolBuildHolds(cfg: Config, c: Compiler, t: Target)
    ensures Holds(cfg, InstalledFirst(cfg, c), Body(cfg, LldWrapperBuild(c, t)), {Wrapped(c, t)})
  {
    ToolOpsHold(cfg, c, t);
    assert Body(cfg, LldWrapperBuild(c, t))
        == [Need(Std(c, t, [], false))] + [Need(Libdir(c, c.host))] + [Need(Sysroot(c))] + [Do(RunTool(c, t))];
  }

  lemma ToolOpsHold(cfg: Config, c: Compiler, t: Target)
    ensures Holds(cfg, InstalledFirst(cfg, c),
                  [Need(Std(c, t, [], false))] + [Need(Libdir(c, c.host))] + [Need(Sysroot(c))] + [Do(RunTool(c, t))], {Wrapped(c, t)})
  {
    var p := InstalledFirst(cfg, c);
    var q := p + {Linked(ForStd, StdSource(cfg, c, t), c, t)};
    var r := q + LibdirReady(c, c.host);
    AskAndForget(cfg, p, Std(c, t, [], false), q);
    AskAndForget(cfg, q, Libdir(c, c.host), r);
    AskAndForget(cfg, r, Sysroot(c), r);
    ToolIsReady(cfg, c, t, r);
    FourInARow(cfg, p, [Need(Std(c, t, [], false))], q, [Need(Libdir(c, c.host))], r, [Need(Sysroot(c))], r, [Do(RunTool(c, t))], {Wrapped(c, t)});
  }

  lemma ToolIsReady(cfg: Config, c: Compiler, t: Target, p: set<Fact>)
    requires InstalledFirst(cfg, c) <= p && LibdirReady(c, c.host) <= p && Linked(ForStd, StdSource(cfg, c, t), c, t) in p
    ensures Holds(cfg, p, [Do(RunTool(c, t))], {Wrapped(c, t)})
  {
    DoAndForget(cfg, p, RunTool(c, t), {Wrapped(c, t)});
  }

  lemma FourInARow(cfg: Config, p: set<Fact>, a: seq<StepOp>, q: set<Fact>, b: seq<StepOp>, r: set<Fact>, c: seq<StepOp>, s: set<Fact>,
                   d: seq<StepOp>, t: set<Fact>)
    requires Holds(cfg, p, a, q) && Holds(cfg, q, b, r) && Holds(cfg, r, c, s) && Holds(cfg, s, d, t)
    ensures Holds(cfg, p, a + b + c + d, t)
  {
    Then(cfg, p, a, q, b, r);
    Then(cfg, p, a + b, r, c, s);
    Then(cfg, p, a + b + c, s, d, t);
  }

  lemma LlvmHolds(cfg: Config, t: Target)
    ensures Holds(cfg, {}, LlvmBody(cfg, t), LlvmFirst(cfg, t))
  {
    var ask: seq<StepOp> := if t == cfg.build then [] else [Need(Llvm(cfg.build))];
    var p := if t == cfg.build then {} else LlvmFirst(cfg, cfg.build);
    AskHolds(cfg, {}, Llvm(cfg.build));
    NothingHolds(cfg, {});
    DoHolds(cfg, p, BuildLlvm(t));
    Then(cfg, {}, ask, p, [Do(BuildLlvm(t))], {LlvmBuilt(t)});
  }

  /** Something is built with LLVM. */
  lemma NativeHolds(cfg: Config, llvm: Target, n: Native, t: Target)
    requires Needs(cfg, BuildNative(n, t)) <= LlvmFirst(cfg, llvm)
    ensures Holds(cfg, {}, [Need(Llvm(llvm))] + [Do(BuildNative(n, t))], {Made(n, t)})
  {
    AskHolds(cfg, {}, Llvm(llvm));
    DoHolds(cfg, LlvmFirst(cfg, llvm), BuildNative(n, t));
    Then(cfg, {}, [Need(Llvm(llvm))], LlvmFirst(cfg, llvm), [Do(BuildNative(n, t))], {Made(n, t)});
  }

  lemma SmallBodiesHold(cfg: Config, s: Step)
    requires WellFormed(cfg, s)
    requires s.Lld? || s.LldWrapper? || s.LldWrapperBuild? || s.Sanitizers? || s.CrtBeginEnd? || s.Libunwind? || s.Llvm?
    ensures Holds(cfg, Pre(cfg, s), Body(cfg, s), Post(cfg, s))
  {
    match s
    case Lld(t) => NativeHolds(cfg, t, Linker, t);
    case LldWrapper(c, t) => AskHolds(cfg, Pre(cfg, s), LldWrapperBuild(c, t));
    case LldWrapperBuild(c, t) => ToolBuildHolds(cfg, c, t);
    case Llvm(t) => LlvmHolds(cfg, t);
    case Sanitizers(t) =>
      NativeHolds(cfg, cfg.build, Runtimes, t);
      NothingHolds(cfg, {});
    case CrtBeginEnd(t) => DoHolds(cfg, {}, BuildNative(CrtObjects, t));
    case Libunwind(t) => DoHolds(cfg, {}, BuildNative(Unwinder, t));
  }

  lemma DistHolds(cfg: Config, s: Step)
    requires s.DistStd? || s.DistRustcDev?
    ensures Holds(cfg, Pre(cfg, s), Body(cfg, s), Post(cfg, s))
  {
    if s.compiler.host == cfg.build {
      if s.DistStd? {
        PackageHolds(cfg, s, ForStd, Std(s.compiler, s.target, [], false));
      } else {
        PackageHolds(cfg, s, ForRustc, Rustc(s.compiler, s.target, []));
      }
    }
  }

  /** Ask for a full build, then read the stamp of the compiler that made it. */
  lemma PackageHolds(cfg: Config, s: Step, mode: Mode, d: Step)
    requires (d.Std? && mode == ForStd) || (d.Rustc? && mode == ForRustc)
    requires (s.DistStd? || s.DistRustcDev?) && d.compiler == s.compiler && d.target == s.target && BuildOf(d) == FULL
    ensures var use := Builds(cfg, s.compiler, s.target);
            Holds(cfg, {}, [Need(d)] + [Need(Assemble(use))] + [Do(ReadStamp(mode, use, s.target))], {StampRead(mode, use, s.target)})
  {
    var use := Builds(cfg, s.compiler, s.target);
    var p := Stamp(cfg, mode, use, s.target, FULL);
    FullBuildIsStamped(cfg, d, mode);
    AskAndForget(cfg, {}, d, p);
    AskAndForget(cfg, p, Assemble(use), p);
    Then(cfg, {}, [Need(d)], p, [Need(Assemble(use))], p);
    DoAndForget(cfg, p, ReadStamp(mode, use, s.target), {StampRead(mode, use, s.target)});
    Then(cfg, {}, [Need(d)] + [Need(Assemble(use))], p, [Do(ReadStamp(mode, use, s.target))], {StampRead(mode, use, s.target)});
  }

  lemma FullBuildIsStamped(cfg: Config, d: Step, mode: Mode)
    requires ((d.Std? && mode == ForStd) || (d.Rustc? && mode == ForRustc)) && BuildOf(d) == FULL
    ensures Stamp(cfg, mode, Builds(cfg, d.compiler, d.target), d.target, FULL) <= Post(cfg, d)
  {
  }

  /** Every well-formed step keeps its contract. */
  lemma EveryBodyHolds(cfg: Config, s: Step)
    requires WellFormed(cfg, s)
    ensures Holds(cfg, Pre(cfg, s), Body(cfg, s), Post(cfg, s))
  {
    match s
    case Sysroot(c) => SysrootHolds(cfg, c);
    case Libdir(c, t) => LibdirHolds(cfg, c, t);
    case StdLink(c, tc, t, _, _) => StdLinkHolds(cfg, c, tc, t, BuildOf(s));
    case RustcLink(c, tc, t, _) => RustcLinkHolds(cfg, c, tc, t, BuildOf(s));
    case StartupObjects(c, t) => FillHolds(cfg, {}, c, t, Startup);
    case Std(_, _, _, _) => StdHolds(cfg, s);
    case Rustc(_, _, _) => RustcHolds(cfg, s);
    case CodegenBackend(_, _, _) => CodegenHolds(cfg, s);
    case Assemble(_) => AssembleHolds(cfg, s);
    case DistStd(_, _) => DistHolds(cfg, s);
    case DistRustcDev(_, _) => DistHolds(cfg, s);
    case _ => SmallBodiesHold(cfg, s);
  }
}
