/** The bootstrap stage graph: the steps that turn a snapshot compiler into later
    stages, with the requests and the effects of each step body in source order.
    Builds without download-rustc and without dry-run. */
module StageGraph {
  import opened Options
  import opened StepEngine

  type Path = seq<string>

  /** A target or host: what was selected is a triple or a specification file; two selections can
      share a triple. */
  datatype Target = Target(triple: string, file: Option<string>, synthetic: bool)

  datatype Compiler = Compiler(stage: nat, host: Target)

  /** What a build was asked for: some crates, or everything if none are named. */
  datatype Build = Build(crates: seq<string>, forced: bool)

  const FULL := Build([], false)

  datatype Mode = ForStd | ForRustc | ForCodegen(backend: string)

  /** What is built without Cargo, besides LLVM. */
  datatype Native = Linker | Runtimes | CrtObjects | Unwinder

  /** What is copied into the libdir of a target. */
  datatype Part = Startup | Sanitizing | Unwinding | SelfContained | SelfContainedCrt | SelfContainedUnwinding

  /** What is copied into a sysroot elsewhere. */
  datatype Piece = SnapshotParts | RustcLibdir | Dylibs | LinkerTools | LlvmTools | LlvmRuntime

  /** `llvmConfig` are the targets with an `llvm-config` of their own; `finishedLlvm` and `dylibLlvm` are
      the triples for which an earlier run left a finished LLVM and a `libLLVM.dylib`. */
  datatype Config = Config(
    build: Target,
    hosts: set<Target>,
    fullBootstrap: bool,
    keepStage: set<nat>,
    keepStageStd: set<nat>,
    backends: seq<string>,
    lldEnabled: bool,
    llvmLinkShared: bool,
    llvmConfig: set<Target>,
    llvmFromCi: bool,
    finishedLlvm: set<string>,
    dylibLlvm: set<string>,
    sanitizers: set<Target>,
    sanitizerRuntimes: set<Target>,
    libunwindInTree: set<Target>,
    snapshotIsBeta: bool,
    libdirRelative: Option<Path>,
    initialLibdir: Path,
    cargoDir: string)

  datatype Step =
    | Assemble(targetCompiler: Compiler)
    | Std(compiler: Compiler, target: Target, crates: seq<string>, forceRecompile: bool)
    | StdLink(compiler: Compiler, targetCompiler: Compiler, target: Target, crates: seq<string>, forceRecompile: bool)
    | Rustc(compiler: Compiler, target: Target, crates: seq<string>)
    | RustcLink(compiler: Compiler, targetCompiler: Compiler, target: Target, crates: seq<string>)
    | CodegenBackend(compiler: Compiler, target: Target, backend: string)
    | StartupObjects(compiler: Compiler, target: Target)
    | Sysroot(compiler: Compiler)
    | Libdir(compiler: Compiler, target: Target)
    | Llvm(target: Target)
    | Lld(target: Target)
    | LldWrapper(compiler: Compiler, target: Target)
    | LldWrapperBuild(compiler: Compiler, target: Target)
    | Sanitizers(target: Target)
    | CrtBeginEnd(target: Target)
    | Libunwind(target: Target)
    | DistStd(compiler: Compiler, target: Target)
    | DistRustcDev(compiler: Compiler, target: Target)

  /** `InstallLlvm` copies libLLVM if it is there by then; `libdir` is the target on whose account.
      `PrepareOut` clears the directory for Cargo's output if the compiler is newer than its marker.
      A stamp lists the artifacts of one build; `LinkStamped` tells which build it takes it to be of. */
  datatype Effect =
    | WipeSysroot(compiler: Compiler)
    | WipeLibdir(compiler: Compiler, target: Target)
    | LinkSources(compiler: Compiler)
    | CopyToSysroot(compiler: Compiler, piece: Piece)
    | AddBackends(compiler: Compiler, target: Target)
    | CopyToLibdir(compiler: Compiler, target: Target, part: Part)
    | InstallLlvm(compiler: Compiler, libdir: Target)
    | BuildLlvm(target: Target)
    | BuildNative(native: Native, target: Target)
    | PrepareOut(compiler: Compiler, mode: Mode, target: Target)
    | RunCargo(compiler: Compiler, mode: Mode, target: Target)
    | WriteStamp(mode: Mode, compiler: Compiler, target: Target, build: Build)
    | ReadStamp(mode: Mode, compiler: Compiler, target: Target)
    | LinkStamped(mode: Mode, compiler: Compiler, targetCompiler: Compiler, target: Target, build: Build)
    | InstallCompiler(compiler: Compiler)
    | RunTool(compiler: Compiler, target: Target)

  type StepOp = Op<Step, Effect>

  /** What a step returns to its callers. */
  datatype Output = Nothing | TheCompiler(compiler: Compiler)

  function OutputOf(s: Step): Output {
    if s.Assemble? then TheCompiler(s.targetCompiler) else Nothing
  }

  // ---------------------------------------------------------------------------
  // Choices.

  predicate Contains(s: string, part: string) {
    exists i | 0 <= i <= |s| - |part| :: part <= s[i..]
  }

  predicate EndsWith(s: string, part: string) {
    |part| <= |s| && s[|s| - |part|..] == part
  }

  /** A stage-2 or later compiler for a host's own target lifts artifacts out of stage 1. */
  predicate ForceUseStage1(cfg: Config, stage: nat, target: Target) {
    !cfg.fullBootstrap && stage >= 2 && (target in cfg.hosts || target == cfg.build)
  }

  /** The compiler that builds artifacts on behalf of (`stage`, `host`) for `target`. */
  function CompilerFor(cfg: Config, stage: nat, host: Target, target: Target): Compiler {
    if ForceUseStage1(cfg, stage, target) then Compiler(1, cfg.build) else Compiler(stage, host)
  }

  function Builds(cfg: Config, c: Compiler, target: Target): Compiler {
    CompilerFor(cfg, c.stage, c.host, target)
  }

  /** `Assemble` leaves before it installs anything. */
  predicate LeavesEarly(cfg: Config, c: Compiler) {
    c.stage >= 3 && !cfg.fullBootstrap
  }

  predicate LlvmEnabled(cfg: Config) {
    "llvm" in cfg.backends
  }

  /** A shared LLVM is copied into sysroots, unless it was provided from outside. */
  predicate InstallsLlvm(cfg: Config, target: Target) {
    cfg.llvmLinkShared && (target !in cfg.llvmConfig || cfg.llvmFromCi)
  }

  /** No LLVM needs to be built for the target. */
  predicate HasLlvm(cfg: Config, target: Target) {
    target in cfg.llvmConfig || target.triple in cfg.finishedLlvm
  }

  /** There is a libLLVM to copy before the run has built any. */
  predicate HasLibLlvm(cfg: Config, target: Target) {
    if Contains(target.triple, "apple-darwin") then target.triple in cfg.dylibLlvm else HasLlvm(cfg, target)
  }

  predicate KeepsStd(cfg: Config, c: Compiler) {
    c.stage in cfg.keepStage || c.stage in cfg.keepStageStd
  }

  // ---------------------------------------------------------------------------
  // Step bodies, in source order.

  function SysrootBody(cfg: Config, c: Compiler): seq<StepOp> {
    [Do(WipeSysroot(c))]
    + (if c.stage == 0 && InstallsLlvm(cfg, c.host) then [Do(InstallLlvm(c, c.host))] else [])
    + [Do(LinkSources(c))]
  }

  function LibdirBody(cfg: Config, c: Compiler, t: Target): seq<StepOp> {
    [Need(Sysroot(c))]
    + [Do(WipeLibdir(c, t))]
    + (if c.stage == 0 then
         [Need(Sysroot(c))] + (if InstallsLlvm(cfg, c.host) then [Do(InstallLlvm(c, t))] else [])
       else [])
  }

  /** Get the target libdir, then put files there. */
  function FillLibdir(c: Compiler, t: Target, part: Part): seq<StepOp> {
    [Need(Libdir(c, t))] + [Do(CopyToLibdir(c, t, part))]
  }

  predicate HasStartupObjects(t: Target) {
    EndsWith(t.triple, "windows-gnu")
  }

  function StartupObjectsBody(c: Compiler, t: Target): seq<StepOp> {
    if HasStartupObjects(t) then FillLibdir(c, t, Startup) else []
  }

  /** The sanitizers are copied from stage 1 on, so that stage 0 does not depend on LLVM. */
  predicate HasSanitizers(cfg: Config, c: Compiler, t: Target) {
    t in cfg.sanitizers && c.stage != 0
  }

  predicate HasUnwinder(cfg: Config, t: Target) {
    || t.triple == "x86_64-fortanix-unknown-sgx"
    || (t in cfg.libunwindInTree && (Contains(t.triple, "linux") || Contains(t.triple, "fuchsia")))
  }

  function ThirdPartyObjects(cfg: Config, c: Compiler, t: Target): seq<StepOp> {
    (if HasSanitizers(cfg, c, t) then [Need(Sanitizers(t))] + FillLibdir(c, t, Sanitizing) else [])
    + (if HasUnwinder(cfg, t) then [Need(Libdir(c, t))] + [Need(Libunwind(t))] + [Do(CopyToLibdir(c, t, Unwinding))] else [])
  }

  predicate IsMusl(t: Target) {
    Contains(t.triple, "musl") && !Contains(t.triple, "unikraft")
  }

  predicate IsS390x(t: Target) {
    "s390x" <= t.triple
  }

  function SelfContainedObjects(c: Compiler, t: Target): seq<StepOp> {
    FillLibdir(c, t, SelfContained)
    + (if IsMusl(t) then
         [Need(CrtBeginEnd(t))] + [Do(CopyToLibdir(c, t, SelfContainedCrt))]
         + (if IsS390x(t) then [] else [Need(Libunwind(t))] + [Do(CopyToLibdir(c, t, SelfContainedUnwinding))])
       else [])
  }

  /** What `Builder::cargo` asks for before Cargo can run. */
  function PrepareCargo(cfg: Config, c: Compiler, mode: Mode, t: Target): seq<StepOp> {
    [Need(Libdir(c, c.host))]
    + [Need(Sysroot(c))]
    + [Do(PrepareOut(c, mode, t))]
    + (if mode != ForStd && LlvmEnabled(cfg) then [Need(Llvm(t))] else [])
  }

  function BuildWithCargo(cfg: Config, c: Compiler, mode: Mode, t: Target, build: Build): seq<StepOp> {
    PrepareCargo(cfg, c, mode, t) + [Do(RunCargo(c, mode, t))] + [Do(WriteStamp(mode, c, t, build))]
  }

  function StdBody(cfg: Config, c: Compiler, t: Target, crates: seq<string>, force: bool): seq<StepOp> {
    StdShape(cfg, c, t, crates, force, ThirdPartyObjects(cfg, c, t) + SelfContainedObjects(c, t),
             BuildWithCargo(cfg, c, ForStd, t, Build(crates, force)))
  }

  /** The body of `Std` around the copying of objects and the call of Cargo. */
  function StdShape(cfg: Config, c: Compiler, t: Target, crates: seq<string>, force: bool, objects: seq<StepOp>, cargo: seq<StepOp>)
    : seq<StepOp>
  {
    var use := Builds(cfg, c, t);
    if KeepsStd(cfg, c) then
      objects + [Need(StdLink(c, c, t, crates, force))]
    else if use != c then
      [Need(StartupObjects(c, t))] + [Need(Assemble(use))]
      + [Need(Std(use, t, [], false))]
      + objects
      + [Need(StdLink(use, c, t, crates, force))]
    else
      [Need(StartupObjects(c, t))] + [Need(Assemble(use))]
      + objects
      + cargo
      + [Need(Assemble(Compiler(c.stage, cfg.build)))]
      + [Need(StdLink(Compiler(c.stage, cfg.build), c, t, crates, force))]
  }

  /** Of which build a link step takes its stamp to be: its own, or the full one if the artifacts are
      lifted out of another stage. */
  function Expected(c: Compiler, tc: Compiler, build: Build): Build {
    if c == tc then build else FULL
  }

  function StdLinkBody(cfg: Config, c: Compiler, tc: Compiler, t: Target, build: Build): seq<StepOp> {
    [Need(Libdir(tc, t))] + [Need(Libdir(tc, c.host))]
    + [Do(LinkStamped(ForStd, c, tc, t, Expected(c, tc, build)))]
    + (if c.stage == 0 && cfg.snapshotIsBeta then
         [Do(CopyToSysroot(c, SnapshotParts))] + [Need(Libdir(c, c.host))] + [Do(AddBackends(c, t))]
       else [])
  }

  function RustcBody(cfg: Config, c: Compiler, t: Target, crates: seq<string>): seq<StepOp> {
    RustcShape(cfg, c, t, crates, BuildWithCargo(cfg, c, ForRustc, t, Build(crates, false)))
  }

  /** The body of `Rustc` around the call of Cargo. */
  function RustcShape(cfg: Config, c: Compiler, t: Target, crates: seq<string>, cargo: seq<StepOp>): seq<StepOp> {
    var use := Builds(cfg, c, t);
    [Need(Std(c, t, [], false))]
    + (if c.stage in cfg.keepStage then
         [Need(RustcLink(c, c, t, crates))]
       else if use != c then
         [Need(Assemble(use))] + [Need(Rustc(use, t, []))] + [Need(RustcLink(use, c, t, crates))]
       else
         [Need(Assemble(use))]
         + [Need(Assemble(Compiler(c.stage, cfg.build)))]
         + [Need(Std(Compiler(c.stage, cfg.build), cfg.build, [], false))]
         + cargo
         + [Need(Assemble(Compiler(c.stage, cfg.build)))]
         + [Need(RustcLink(Compiler(c.stage, cfg.build), c, t, crates))])
  }

  function RustcLinkBody(c: Compiler, tc: Compiler, t: Target, build: Build): seq<StepOp> {
    [Need(Libdir(tc, t))] + [Need(Libdir(tc, c.host))] + [Do(LinkStamped(ForRustc, c, tc, t, Expected(c, tc, build)))]
  }

  function CodegenBackendBody(cfg: Config, c: Compiler, t: Target, backend: string): seq<StepOp> {
    var use := Builds(cfg, c, t);
    [Need(Rustc(c, t, []))]
    + (if c.stage in cfg.keepStage then []
       else if use != c then [Need(Assemble(use))] + [Need(CodegenBackend(use, t, backend))]
       else [Need(Assemble(use))] + BuildWithCargo(cfg, c, ForCodegen(backend), t, FULL))
  }

  function RequestBackends(c: Compiler, t: Target, backends: seq<string>): seq<StepOp> {
    if backends == [] then []
    else (if backends[0] == "llvm" then [] else [Need(CodegenBackend(c, t, backends[0]))])
         + RequestBackends(c, t, backends[1..])
  }

  function CopyBackends(c: Compiler, tc: Compiler, backends: seq<string>): seq<StepOp> {
    if backends == [] then []
    else (if backends[0] == "llvm" then []
          else [Do(ReadStamp(ForCodegen(backends[0]), c, tc.host))] + [Do(AddBackends(tc, tc.host))])
         + CopyBackends(c, tc, backends[1..])
  }

  function AssembleBody(cfg: Config, tc: Compiler): seq<StepOp> {
    if tc.stage == 0 then []
    else
      var bc := Compiler(tc.stage - 1, cfg.build);
      AssembleShape(bc, tc, if LeavesEarly(cfg, tc) then [] else InstallBody(cfg, bc, tc))
  }

  function AssembleShape(bc: Compiler, tc: Compiler, install: seq<StepOp>): seq<StepOp> {
    [Need(Assemble(bc))] + [Need(Rustc(bc, tc.host, []))] + install
  }

  /** The part of `Assemble` that puts a compiler into its sysroot. */
  function InstallBody(cfg: Config, bc: Compiler, tc: Compiler): seq<StepOp> {
    InstallShape(tc, GatherParts(cfg, bc, tc, RequestBackends(bc, tc.host, cfg.backends)),
                 CopyLibraries(bc, tc), CopyBackends(bc, tc, cfg.backends), CopyTools(cfg, bc, tc))
  }

  function InstallShape(tc: Compiler, parts: seq<StepOp>, libraries: seq<StepOp>, backends: seq<StepOp>, tools: seq<StepOp>)
    : seq<StepOp>
  {
    parts + libraries + backends + tools + [Do(InstallCompiler(tc))]
  }

  function GatherParts(cfg: Config, bc: Compiler, tc: Compiler, requests: seq<StepOp>): seq<StepOp> {
    requests
    + (if cfg.lldEnabled then [Need(Lld(tc.host))] else [])
    + [Do(ReadStamp(ForRustc, bc, tc.host))]
  }

  function CopyLibraries(bc: Compiler, tc: Compiler): seq<StepOp> {
    [Need(Sysroot(tc))] + [Do(CopyToSysroot(tc, RustcLibdir))]
    + [Need(Libdir(bc, tc.host))] + [Do(CopyToSysroot(tc, Dylibs))]
    + [Need(Libdir(tc, tc.host))]
  }

  function CopyTools(cfg: Config, bc: Compiler, tc: Compiler): seq<StepOp> {
    (if cfg.lldEnabled then [Need(LldWrapper(bc, tc.host))] + [Do(CopyToSysroot(tc, LinkerTools))] else [])
    + (if LlvmEnabled(cfg) then [Need(Llvm(tc.host))] + [Do(CopyToSysroot(tc, LlvmTools))] else [])
    + (if InstallsLlvm(cfg, tc.host) then [Do(CopyToSysroot(tc, LlvmRuntime))] + [Do(InstallLlvm(tc, tc.host))] else [])
  }

  function LlvmBody(cfg: Config, t: Target): seq<StepOp> {
    if HasLlvm(cfg, t) then []
    else (if t == cfg.build then [] else [Need(Llvm(cfg.build))]) + [Do(BuildLlvm(t))]
  }

  function DistStdBody(cfg: Config, c: Compiler, t: Target): seq<StepOp> {
    if c.host != cfg.build then []
    else
      [Need(Std(c, t, [], false))] + [Need(Assemble(Builds(cfg, c, t)))]
      + [Do(ReadStamp(ForStd, Builds(cfg, c, t), t))]
  }

  function DistRustcDevBody(cfg: Config, c: Compiler, t: Target): seq<StepOp> {
    if c.host != cfg.build then []
    else
      [Need(Rustc(c, t, []))] + [Need(Assemble(Builds(cfg, c, t)))]
      + [Do(ReadStamp(ForRustc, Builds(cfg, c, t), t))]
  }

  function Body(cfg: Config, s: Step): seq<StepOp> {
    match s
    case Assemble(tc) => AssembleBody(cfg, tc)
    case Std(c, t, crates, force) => StdBody(cfg, c, t, crates, force)
    case StdLink(c, tc, t, crates, force) => StdLinkBody(cfg, c, tc, t, Build(crates, force))
    case Rustc(c, t, crates) => RustcBody(cfg, c, t, crates)
    case RustcLink(c, tc, t, crates) => RustcLinkBody(c, tc, t, Build(crates, false))
    case CodegenBackend(c, t, b) => CodegenBackendBody(cfg, c, t, b)
    case StartupObjects(c, t) => StartupObjectsBody(c, t)
    case Sysroot(c) => SysrootBody(cfg, c)
    case Libdir(c, t) => LibdirBody(cfg, c, t)
    case Llvm(t) => LlvmBody(cfg, t)
    case Lld(t) => [Need(Llvm(t))] + [Do(BuildNative(Linker, t))]
    case LldWrapper(c, t) => [Need(LldWrapperBuild(c, t))]
    case LldWrapperBuild(c, t) =>
      [Need(Std(c, t, [], false))] + [Need(Libdir(c, c.host))] + [Need(Sysroot(c))] + [Do(RunTool(c, t))]
    case Sanitizers(t) => if t in cfg.sanitizerRuntimes then [Need(Llvm(cfg.build))] + [Do(BuildNative(Runtimes, t))] else []
    case CrtBeginEnd(t) => [Do(BuildNative(CrtObjects, t))]
    case Libunwind(t) => [Do(BuildNative(Unwinder, t))]
    case DistStd(c, t) => DistStdBody(cfg, c, t)
    case DistRustcDev(c, t) => DistRustcDevBody(cfg, c, t)
  }

  // ---------------------------------------------------------------------------
  // Every request goes down.

  /** Compilers that compile run on the build triple; a stage-0 compiler exists only there. */
  predicate WellFormed(cfg: Config, s: Step) {
    match s
    case Assemble(c) => c.stage == 0 ==> c.host == cfg.build
    case Sysroot(c) => c.stage == 0 ==> c.host == cfg.build
    case Libdir(c, _) => c.stage == 0 ==> c.host == cfg.build
    case StartupObjects(c, _) => c.stage == 0 ==> c.host == cfg.build
    case DistStd(c, _) => c.stage == 0 ==> c.host == cfg.build
    case DistRustcDev(c, _) => c.stage == 0 ==> c.host == cfg.build
    case Std(c, _, _, _) => c.host == cfg.build
    case Rustc(c, _, _) => c.host == cfg.build
    case CodegenBackend(c, _, _) => c.host == cfg.build
    case StdLink(c, tc, _, _, _) => c.host == cfg.build && tc.host == cfg.build && (c.stage == 0 ==> c == tc) && c.stage <= tc.stage
    case RustcLink(c, tc, _, _) => c.host == cfg.build && tc.host == cfg.build && c.stage <= tc.stage
    case LldWrapper(c, _) => c.host == cfg.build
    case LldWrapperBuild(c, _) => c.host == cfg.build
    case _ => true
  }

  /** Stage first, then the kind of step; directory and native steps are below every stage. */
  function Rank(cfg: Config, s: Step): nat {
    match s
    case Sysroot(_) => 0
    case Libdir(_, _) => 1
    case StartupObjects(_, _) => 2
    case StdLink(_, _, _, _, _) => 2
    case RustcLink(_, _, _, _) => 2
    case CrtBeginEnd(_) => 0
    case Libunwind(_) => 0
    case Llvm(t) => if t == cfg.build then 0 else 1
    case Lld(_) => 2
    case Sanitizers(_) => 2
    case Assemble(c) => 10 * c.stage + 3
    case Std(c, _, _, _) => 10 * c.stage + 4
    case Rustc(c, _, _) => 10 * c.stage + 5
    case CodegenBackend(c, _, _) => 10 * c.stage + 6
    case LldWrapperBuild(c, _) => 10 * c.stage + 7
    case LldWrapper(c, _) => 10 * c.stage + 8
    case DistStd(c, _) => 10 * c.stage + 9
    case DistRustcDev(c, _) => 10 * c.stage + 9
  }

  /** Without full bootstrap, a compiler of stage 3 or later would have to build for a target that is
      neither the build target nor a host. */
  predicate Stray(cfg: Config, c: Compiler, t: Target) {
    !cfg.fullBootstrap && c.stage >= 3 && t != cfg.build && t !in cfg.hosts
  }

  predicate Overreaches(cfg: Config, s: Step) {
    match s
    case Assemble(c) => c.stage > 0 && Stray(cfg, Compiler(c.stage - 1, cfg.build), c.host)
    case Std(c, t, _, _) => Stray(cfg, c, t)
    case Rustc(c, t, _) => Stray(cfg, c, t)
    case CodegenBackend(c, t, _) => Stray(cfg, c, t)
    case LldWrapper(c, _) => !cfg.fullBootstrap && c.stage >= 3
    case LldWrapperBuild(c, _) => !cfg.fullBootstrap && c.stage >= 3
    case DistStd(c, t) => c.host == cfg.build && Stray(cfg, c, t)
    case DistRustcDev(c, t) => c.host == cfg.build && Stray(cfg, c, t)
    case _ => false
  }

  /** The snapshot compiler. */
  function Snapshot(cfg: Config): Compiler {
    Compiler(0, cfg.build)
  }

  /** The steps that build something with Cargo, themselves or through the steps they request. */
  predicate UsesCargo(cfg: Config, s: Step) {
    match s
    case Assemble(c) => c.stage > 0
    case DistStd(c, _) => c.host == cfg.build
    case DistRustcDev(c, _) => c.host == cfg.build
    case _ => s.Std? || s.Rustc? || s.CodegenBackend? || s.LldWrapper? || s.LldWrapperBuild?
  }

  /** The target whose libdir in the snapshot's sysroot a directory step or a step for startup objects asks for. */
  function AsksDirectly(s: Step): Option<Target> {
    if s.Libdir? && s.compiler.stage == 0 then Some(s.target)
    else if s.StartupObjects? && s.compiler.stage == 0 && HasStartupObjects(s.target) then Some(s.target)
    else None
  }

  /** A step asks for the snapshot's sysroot, itself or through the steps it requests. */
  predicate UsesSnapshot(cfg: Config, s: Step) {
    match s
    case Sysroot(c) => c.stage == 0
    case StdLink(_, tc, _, _, _) => tc.stage == 0
    case RustcLink(_, tc, _, _) => tc.stage == 0
    case _ => UsesCargo(cfg, s) || AsksDirectly(s).Some?
  }

  /** The targets and hosts that a step names, and the build target. */
  function Names(cfg: Config, s: Step): set<Target> {
    {cfg.build} +
    match s
    case Assemble(c) => {c.host}
    case Std(c, t, _, _) => {c.host, t}
    case StdLink(c, tc, t, _, _) => {c.host, tc.host, t}
    case Rustc(c, t, _) => {c.host, t}
    case RustcLink(c, tc, t, _) => {c.host, tc.host, t}
    case CodegenBackend(c, t, _) => {c.host, t}
    case StartupObjects(c, t) => {c.host, t}
    case Sysroot(c) => {c.host}
    case Libdir(c, t) => {c.host, t}
    case Llvm(t) => {t}
    case Lld(t) => {t}
    case LldWrapper(c, t) => {c.host, t}
    case LldWrapperBuild(c, t) => {c.host, t}
    case Sanitizers(t) => {t}
    case CrtBeginEnd(t) => {t}
    case Libunwind(t) => {t}
    case DistStd(c, t) => {c.host, t}
    case DistRustcDev(c, t) => {c.host, t}
  }

  /** `s` overreaches or uses the snapshot if `d` does, and names what `d` names. */
  predicate Inherits(cfg: Config, s: Step, d: Step) {
    && (Overreaches(cfg, d) ==> Overreaches(cfg, s))
    && (UsesSnapshot(cfg, d) ==> UsesSnapshot(cfg, s))
    && Names(cfg, d) <= Names(cfg, s)
  }

  /** The step that runs Cargo for a mode, a compiler and a target. */
  predicate Compiles(s: Step, mode: Mode, c: Compiler, t: Target) {
    match mode
    case ForStd => s.Std? && s.compiler == c && s.target == t
    case ForRustc => s.Rustc? && s.compiler == c && s.target == t
    case ForCodegen(b) => s == CodegenBackend(c, t, b)
  }

  /** What a step builds. */
  function BuildOf(s: Step): Build {
    if s.Std? || s.StdLink? then Build(s.crates, s.forceRecompile)
    else if s.Rustc? || s.RustcLink? then Build(s.crates, false)
    else FULL
  }

  /** A stage that is kept from an earlier run is not built again. */
  predicate IsKept(cfg: Config, mode: Mode, c: Compiler) {
    if mode == ForStd then KeepsStd(cfg, c) else c.stage in cfg.keepStage
  }

  /** The compiler whose artifacts end up in the sysroot of `c`. */
  function Source(cfg: Config, mode: Mode, c: Compiler, t: Target): Compiler {
    if IsKept(cfg, mode, c) then c else Builds(cfg, c, t)
  }

  /** How steps request others: a full build, never a limited one, and a link step only for themselves and
      from the compiler chosen for them. */
  predicate AsksProperly(cfg: Config, s: Step, d: Step) {
    match d
    case Std(_, _, _, _) => BuildOf(d) == FULL
    case Rustc(_, _, _) => BuildOf(d) == FULL
    case StdLink(c, tc, t, crates, force) => s == Std(tc, t, crates, force) && c == Source(cfg, ForStd, tc, t)
    case RustcLink(c, tc, t, crates) => s == Rustc(tc, t, crates) && c == Source(cfg, ForRustc, tc, t)
    case _ => true
  }

  /** The compiler builds for the target itself. */
  predicate MayBuild(cfg: Config, mode: Mode, c: Compiler, t: Target) {
    Builds(cfg, c, t) == c && !IsKept(cfg, mode, c)
  }

  /** The objects that a step copies into the libdir of a target. */
  predicate Brings(cfg: Config, s: Step, c: Compiler, t: Target, part: Part) {
    match part
    case Startup => s == StartupObjects(c, t) && HasStartupObjects(t)
    case Sanitizing => s.Std? && s.compiler == c && s.target == t && HasSanitizers(cfg, c, t)
    case Unwinding => s.Std? && s.compiler == c && s.target == t && HasUnwinder(cfg, t)
    case SelfContained => s.Std? && s.compiler == c && s.target == t
    case SelfContainedCrt => s.Std? && s.compiler == c && s.target == t && IsMusl(t)
    case SelfContainedUnwinding => s.Std? && s.compiler == c && s.target == t && IsMusl(t) && !IsS390x(t)
  }

  /** Which step an effect can come from. */
  predicate Owns(cfg: Config, s: Step, e: Effect) {
    match e
    case WipeSysroot(c) => s == Sysroot(c)
    case WipeLibdir(c, t) => s == Libdir(c, t)
    case InstallLlvm(c, t) =>
      InstallsLlvm(cfg, c.host) && (c.stage == 0 ==> s == Libdir(c, t) || (s == Sysroot(c) && t == c.host))
    case BuildLlvm(t) => s == Llvm(t) && !HasLlvm(cfg, t)
    case BuildNative(n, t) => s == match n { case Linker => Lld(t) case Runtimes => Sanitizers(t) case CrtObjects => CrtBeginEnd(t) case Unwinder => Libunwind(t) }
    case RunTool(c, t) => s == LldWrapperBuild(c, t)
    case InstallCompiler(c) => s == Assemble(c) && c.stage > 0 && !LeavesEarly(cfg, c)
    case WriteStamp(mode, c, t, build) => Compiles(s, mode, c, t) && MayBuild(cfg, mode, c, t) && BuildOf(s) == build
    case LinkStamped(mode, c, tc, t, build) =>
      && ((mode == ForStd && s.StdLink?) || (mode == ForRustc && s.RustcLink?))
      && s.compiler == c && s.targetCompiler == tc && s.target == t && build == Expected(c, tc, BuildOf(s))
    case ReadStamp(mode, c, t) =>
      || (s.DistStd? && mode == ForStd && s.target == t && Builds(cfg, s.compiler, t) == c)
      || (s.DistRustcDev? && mode == ForRustc && s.target == t && Builds(cfg, s.compiler, t) == c)
      || (s.Assemble? && mode != ForStd && s.targetCompiler.host == t && s.targetCompiler.stage == c.stage + 1)
    case PrepareOut(c, mode, t) => Compiles(s, mode, c, t) && MayBuild(cfg, mode, c, t)
    case RunCargo(c, mode, t) => Compiles(s, mode, c, t) && MayBuild(cfg, mode, c, t)
    case CopyToLibdir(c, t, part) => Brings(cfg, s, c, t, part)
    case LinkSources(c) => s == Sysroot(c)
    case CopyToSysroot(c, piece) =>
      || (s == Assemble(c) && c.stage > 0 && !LeavesEarly(cfg, c) && piece != SnapshotParts)
      || (s.StdLink? && s.compiler == c && c.stage == 0 && cfg.snapshotIsBeta && piece == SnapshotParts)
    case AddBackends(c, t) =>
      || (s == Assemble(c) && c.stage > 0 && !LeavesEarly(cfg, c) && t == c.host)
      || (s.StdLink? && s.compiler == c && s.target == t && c.stage == 0 && cfg.snapshotIsBeta)
  }

  /** An operation may stand in the body of `s`: a request is well-formed, ranks below `s` and only
      overreaches, uses the snapshot or names a target if `s` does; an effect is one that `s` may have. */
  predicate ProperOp(cfg: Config, s: Step, op: StepOp) {
    match op
    case Need(d) =>
      WellFormed(cfg, d) && Rank(cfg, d) < Rank(cfg, s) && Inherits(cfg, s, d) && AsksProperly(cfg, s, d)
    case Do(e) => Owns(cfg, s, e)
  }

  predicate Proper(cfg: Config, s: Step, ops: seq<StepOp>) {
    ops == [] || (ProperOp(cfg, s, ops[0]) && Proper(cfg, s, ops[1..]))
  }

  lemma {:induction false} ProperConcat(cfg: Config, s: Step, a: seq<StepOp>, b: seq<StepOp>)
    ensures Proper(cfg, s, a + b) <==> Proper(cfg, s, a) && Proper(cfg, s, b)
  {
    if a == [] {
      assert a + b == b;
    } else {
      assert (a + b)[1..] == a[1..] + b;
      ProperConcat(cfg, s, a[1..], b);
    }
  }

  /** `Proper` is decided piece by piece. */
  lemma ProperByPieces(cfg: Config, s: Step)
    ensures forall a, b {:trigger Proper(cfg, s, a + b)} :: Proper(cfg, s, a + b) <==> Proper(cfg, s, a) && Proper(cfg, s, b)
    ensures forall op {:trigger Proper(cfg, s, [op])} :: Proper(cfg, s, [op]) <==> ProperOp(cfg, s, op)
  {
    forall a, b
      ensures Proper(cfg, s, a + b) <==> Proper(cfg, s, a) && Proper(cfg, s, b)
    {
      ProperConcat(cfg, s, a, b);
    }
  }

  lemma {:induction false} AllProper(cfg: Config, s: Step, ops: seq<StepOp>)
    requires forall op | op in ops :: ProperOp(cfg, s, op)
    ensures Proper(cfg, s, ops)
  {
    if ops != [] {
      assert ops[0] in ops && forall op | op in ops[1..] :: op in ops;
      AllProper(cfg, s, ops[1..]);
    }
  }

  lemma {:induction false} ProperMember(cfg: Config, s: Step, ops: seq<StepOp>, op: StepOp)
    requires Proper(cfg, s, ops) && op in ops
    ensures ProperOp(cfg, s, op)
  {
    if op != ops[0] {
      ProperMember(cfg, s, ops[1..], op);
    }
  }

  lemma FillProper(cfg: Config, s: Step, c: Compiler, t: Target)
    requires s.Std? && c.host == cfg.build && s.compiler == c && s.target == t
    ensures HasSanitizers(cfg, c, t) ==> Proper(cfg, s, [Need(Sanitizers(t))] + FillLibdir(c, t, Sanitizing))
    ensures HasUnwinder(cfg, t) ==> Proper(cfg, s, [Need(Libdir(c, t))] + [Need(Libunwind(t))] + [Do(CopyToLibdir(c, t, Unwinding))])
  {
    ProperByPieces(cfg, s);
  }

  lemma ThirdPartyProper(cfg: Config, s: Step, c: Compiler, t: Target)
    requires s.Std? && c.host == cfg.build && s.compiler == c && s.target == t
    ensures Proper(cfg, s, ThirdPartyObjects(cfg, c, t))
  {
    FillProper(cfg, s, c, t);
    var a := if HasSanitizers(cfg, c, t) then [Need(Sanitizers(t))] + FillLibdir(c, t, Sanitizing) else [];
    var b := ThirdPartyObjects(cfg, c, t)[|a|..];
    assert ThirdPartyObjects(cfg, c, t) == a + b;
    ProperConcat(cfg, s, a, b);
  }

  lemma SelfContainedProper(cfg: Config, s: Step, c: Compiler, t: Target)
    requires s.Std? && c.host == cfg.build && s.compiler == c && s.target == t
    ensures Proper(cfg, s, SelfContainedObjects(c, t))
  {
    ProperByPieces(cfg, s);
  }

  lemma PrepareProper(cfg: Config, s: Step, c: Compiler, mode: Mode, t: Target)
    requires WellFormed(cfg, s) && Compiles(s, mode, c, t) && MayBuild(cfg, mode, c, t)
    ensures Proper(cfg, s, PrepareCargo(cfg, c, mode, t))
  {
    AllProper(cfg, s, PrepareCargo(cfg, c, mode, t));
  }

  lemma CargoProper(cfg: Config, s: Step, c: Compiler, mode: Mode, t: Target)
    requires WellFormed(cfg, s) && Compiles(s, mode, c, t) && MayBuild(cfg, mode, c, t)
    ensures Proper(cfg, s, BuildWithCargo(cfg, c, mode, t, BuildOf(s)))
  {
    var build: seq<StepOp> := [Do(RunCargo(c, mode, t))] + [Do(WriteStamp(mode, c, t, BuildOf(s)))];
    PrepareProper(cfg, s, c, mode, t);
    AllProper(cfg, s, build);
    ProperConcat(cfg, s, PrepareCargo(cfg, c, mode, t), build);
    assert PrepareCargo(cfg, c, mode, t) + build == BuildWithCargo(cfg, c, mode, t, BuildOf(s));
  }

  lemma StdShapeProper(cfg: Config, s: Step, objects: seq<StepOp>, cargo: seq<StepOp>)
    requires s.Std? && WellFormed(cfg, s)
    requires Proper(cfg, s, objects)
    requires MayBuild(cfg, ForStd, s.compiler, s.target) ==> Proper(cfg, s, cargo)
    ensures Proper(cfg, s, StdShape(cfg, s.compiler, s.target, s.crates, s.forceRecompile, objects, cargo))
  {
    var c, t := s.compiler, s.target;
    var use := Builds(cfg, c, t);
    var start := [Need(StartupObjects(c, t))] + [Need(Assemble(use))];
    if KeepsStd(cfg, c) {
      LinkedProper(cfg, s, objects, [Need(StdLink(c, c, t, s.crates, s.forceRecompile))]);
    } else if use != c {
      AllProper(cfg, s, start + [Need(Std(use, t, [], false))]);
      ProperConcat(cfg, s, start + [Need(Std(use, t, [], false))], objects);
      LinkedProper(cfg, s, start + [Need(Std(use, t, [], false))] + objects, [Need(StdLink(use, c, t, s.crates, s.forceRecompile))]);
    } else {
      AllProper(cfg, s, start);
      ProperConcat(cfg, s, start, objects);
      ProperConcat(cfg, s, start + objects, cargo);
      LinkedProper(cfg, s, start + objects + cargo, [Need(Assemble(Compiler(c.stage, cfg.build)))]);
      LinkedProper(cfg, s, start + objects + cargo + [Need(Assemble(Compiler(c.stage, cfg.build)))],
                   [Need(StdLink(Compiler(c.stage, cfg.build), c, t, s.crates, s.forceRecompile))]);
    }
  }

  /** Some operations and one more. */
  lemma LinkedProper(cfg: Config, s: Step, ops: seq<StepOp>, last: seq<StepOp>)
    requires Proper(cfg, s, ops) && |last| == 1 && ProperOp(cfg, s, last[0])
    ensures Proper(cfg, s, ops + last)
  {
    assert last[1..] == [];
    ProperConcat(cfg, s, ops, last);
  }

  lemma StdProper(cfg: Config, s: Step)
    requires s.Std? && WellFormed(cfg, s)
    ensures Proper(cfg, s, Body(cfg, s))
  {
    var c, t := s.compiler, s.target;
    ThirdPartyProper(cfg, s, c, t);
    SelfContainedProper(cfg, s, c, t);
    if MayBuild(cfg, ForStd, c, t) {
      CargoProper(cfg, s, c, ForStd, t);
    }
    ProperConcat(cfg, s, ThirdPartyObjects(cfg, c, t), SelfContainedObjects(c, t));
    StdShapeProper(cfg, s, ThirdPartyObjects(cfg, c, t) + SelfContainedObjects(c, t), BuildWithCargo(cfg, c, ForStd, t, BuildOf(s)));
  }

  lemma RustcProper(cfg: Config, s: Step)
    requires s.Rustc? && WellFormed(cfg, s)
    ensures Proper(cfg, s, Body(cfg, s))
  {
    if MayBuild(cfg, ForRustc, s.compiler, s.target) {
      CargoProper(cfg, s, s.compiler, ForRustc, s.target);
    }
    RustcShapeProper(cfg, s, BuildWithCargo(cfg, s.compiler, ForRustc, s.target, BuildOf(s)));
  }

  lemma RustcShapeProper(cfg: Config, s: Step, cargo: seq<StepOp>)
    requires s.Rustc? && WellFormed(cfg, s)
    requires MayBuild(cfg, ForRustc, s.compiler, s.target) ==> Proper(cfg, s, cargo)
    ensures Proper(cfg, s, RustcShape(cfg, s.compiler, s.target, s.crates, cargo))
  {
    ProperByPieces(cfg, s);
  }

  lemma CodegenProper(cfg: Config, s: Step)
    requires s.CodegenBackend? && WellFormed(cfg, s)
    ensures Proper(cfg, s, Body(cfg, s))
  {
    if MayBuild(cfg, ForCodegen(s.backend), s.compiler, s.target) {
      CargoProper(cfg, s, s.compiler, ForCodegen(s.backend), s.target);
    }
    ProperByPieces(cfg, s);
  }

  lemma {:induction false} BackendsProper(cfg: Config, s: Step, c: Compiler, tc: Compiler, backends: seq<string>)
    requires s == Assemble(tc) && tc.stage > 0 && c == Compiler(tc.stage - 1, cfg.build) && !LeavesEarly(cfg, tc)
    ensures Proper(cfg, s, RequestBackends(c, tc.host, backends)) && Proper(cfg, s, CopyBackends(c, tc, backends))
  {
    if backends != [] {
      BackendsProper(cfg, s, c, tc, backends[1..]);
      ProperByPieces(cfg, s);
    }
  }

  lemma GatherProper(cfg: Config, s: Step, bc: Compiler, tc: Compiler, requests: seq<StepOp>)
    requires s == Assemble(tc) && tc.stage > 0 && bc == Compiler(tc.stage - 1, cfg.build)
    requires Proper(cfg, s, requests)
    ensures Proper(cfg, s, GatherParts(cfg, bc, tc, requests))
  {
    var lld: seq<StepOp> := if cfg.lldEnabled then [Need(Lld(tc.host))] else [];
    AllProper(cfg, s, lld);
    ProperConcat(cfg, s, requests, lld);
    LinkedProper(cfg, s, requests + lld, [Do(ReadStamp(ForRustc, bc, tc.host))]);
  }

  lemma CopiesProper(cfg: Config, s: Step, bc: Compiler, tc: Compiler)
    requires s == Assemble(tc) && tc.stage > 0 && bc == Compiler(tc.stage - 1, cfg.build) && !LeavesEarly(cfg, tc)
    ensures Proper(cfg, s, CopyLibraries(bc, tc))
  {
    AllProper(cfg, s, CopyLibraries(bc, tc));
  }

  lemma ToolsProper(cfg: Config, s: Step, bc: Compiler, tc: Compiler)
    requires s == Assemble(tc) && tc.stage > 0 && bc == Compiler(tc.stage - 1, cfg.build) && !LeavesEarly(cfg, tc)
    ensures Proper(cfg, s, CopyTools(cfg, bc, tc))
  {
    var lld: seq<StepOp> := if cfg.lldEnabled then [Need(LldWrapper(bc, tc.host))] + [Do(CopyToSysroot(tc, LinkerTools))] else [];
    var tools: seq<StepOp> := if LlvmEnabled(cfg) then [Need(Llvm(tc.host))] + [Do(CopyToSysroot(tc, LlvmTools))] else [];
    var lib: seq<StepOp> := if InstallsLlvm(cfg, tc.host) then [Do(CopyToSysroot(tc, LlvmRuntime))] + [Do(InstallLlvm(tc, tc.host))] else [];
    AllProper(cfg, s, lld);
    AllProper(cfg, s, tools);
    AllProper(cfg, s, lib);
    ProperConcat(cfg, s, lld, tools);
    ProperConcat(cfg, s, lld + tools, lib);
  }

  lemma AssembleShapeProper(cfg: Config, s: Step, bc: Compiler, tc: Compiler, install: seq<StepOp>)
    requires s == Assemble(tc) && tc.stage > 0 && bc == Compiler(tc.stage - 1, cfg.build)
    requires Proper(cfg, s, install)
    ensures Proper(cfg, s, AssembleShape(bc, tc, install))
  {
    AllProper(cfg, s, [Need(Assemble(bc))] + [Need(Rustc(bc, tc.host, []))]);
    ProperConcat(cfg, s, [Need(Assemble(bc))] + [Need(Rustc(bc, tc.host, []))], install);
  }

  lemma InstallShapeProper(cfg: Config, tc: Compiler, a: seq<StepOp>, b: seq<StepOp>, c: seq<StepOp>, d: seq<StepOp>)
    requires tc.stage > 0 && !LeavesEarly(cfg, tc)
    requires Proper(cfg, Assemble(tc), a) && Proper(cfg, Assemble(tc), b)
    requires Proper(cfg, Assemble(tc), c) && Proper(cfg, Assemble(tc), d)
    ensures Proper(cfg, Assemble(tc), InstallShape(tc, a, b, c, d))
  {
    var s := Assemble(tc);
    ProperConcat(cfg, s, a, b);
    ProperConcat(cfg, s, a + b, c);
    ProperConcat(cfg, s, a + b + c, d);
    LinkedProper(cfg, s, a + b + c + d, [Do(InstallCompiler(tc))]);
  }

  lemma InstallProper(cfg: Config, bc: Compiler, tc: Compiler)
    requires tc.stage > 0 && bc == Compiler(tc.stage - 1, cfg.build) && !LeavesEarly(cfg, tc)
    ensures Proper(cfg, Assemble(tc), InstallBody(cfg, bc, tc))
  {
    var s := Assemble(tc);
    var requests := RequestBackends(bc, tc.host, cfg.backends);
    BackendsProper(cfg, s, bc, tc, cfg.backends);
    GatherProper(cfg, s, bc, tc, requests);
    CopiesProper(cfg, s, bc, tc);
    ToolsProper(cfg, s, bc, tc);
    InstallShapeProper(cfg, tc, GatherParts(cfg, bc, tc, requests), CopyLibraries(bc, tc), CopyBackends(bc, tc, cfg.backends),
                       CopyTools(cfg, bc, tc));
  }

  lemma AssembleProper(cfg: Config, s: Step)
    requires s.Assemble? && WellFormed(cfg, s)
    ensures Proper(cfg, s, Body(cfg, s))
  {
    var tc := s.targetCompiler;
    if tc.stage > 0 {
      var bc := Compiler(tc.stage - 1, cfg.build);
      if LeavesEarly(cfg, tc) {
        AssembleShapeProper(cfg, s, bc, tc, []);
      } else {
        InstallProper(cfg, bc, tc);
        AssembleShapeProper(cfg, s, bc, tc, InstallBody(cfg, bc, tc));
      }
    }
  }

  /** Every body is proper; in particular every request has a smaller rank. */
  lemma BodiesAreProper(cfg: Config, s: Step)
    requires WellFormed(cfg, s)
    ensures Proper(cfg, s, Body(cfg, s))
  {
    match s
    case Assemble(_) => AssembleProper(cfg, s);
    case Std(_, _, _, _) => StdProper(cfg, s);
    case Rustc(_, _, _) => RustcProper(cfg, s);
    case CodegenBackend(_, _, _) => CodegenProper(cfg, s);
    case StdLink(_, _, _, _, _) => LinksAreProper(cfg, s);
    case RustcLink(_, _, _, _) => LinksAreProper(cfg, s);
    case Sysroot(_) => DirectoriesAreProper(cfg, s);
    case Libdir(_, _) => DirectoriesAreProper(cfg, s);
    case StartupObjects(_, _) => DirectoriesAreProper(cfg, s);
    case LldWrapper(_, _) => LldWrappersAreProper(cfg, s);
    case LldWrapperBuild(_, _) => LldWrappersAreProper(cfg, s);
    case DistStd(_, _) => DistIsProper(cfg, s);
    case DistRustcDev(_, _) => DistIsProper(cfg, s);
    case _ => SmallBodiesAreProper(cfg, s);
  }

  lemma LinksAreProper(cfg: Config, s: Step)
    requires WellFormed(cfg, s)
    requires s.StdLink? || s.RustcLink?
    ensures Proper(cfg, s, Body(cfg, s))
  {
    match s
    case StdLink(c, tc, t, _, _) => AllProper(cfg, s, StdLinkBody(cfg, c, tc, t, BuildOf(s)));
    case RustcLink(c, tc, t, _) => AllProper(cfg, s, RustcLinkBody(c, tc, t, BuildOf(s)));
  }

  lemma DirectoriesAreProper(cfg: Config, s: Step)
    requires WellFormed(cfg, s)
    requires s.Sysroot? || s.Libdir? || s.StartupObjects?
    ensures Proper(cfg, s, Body(cfg, s))
  {
    match s
    case Sysroot(c) => AllProper(cfg, s, SysrootBody(cfg, c));
    case Libdir(c, t) => AllProper(cfg, s, LibdirBody(cfg, c, t));
    case StartupObjects(c, t) => AllProper(cfg, s, StartupObjectsBody(c, t));
  }

  lemma SmallBodiesAreProper(cfg: Config, s: Step)
    requires WellFormed(cfg, s)
    requires s.Llvm? || s.Lld? || s.Sanitizers? || s.CrtBeginEnd? || s.Libunwind?
    ensures Proper(cfg, s, Body(cfg, s))
  {
    AllProper(cfg, s, Body(cfg, s));
  }

  lemma LldWrappersAreProper(cfg: Config, s: Step)
    requires WellFormed(cfg, s)
    requires s.LldWrapper? || s.LldWrapperBuild?
    ensures Proper(cfg, s, Body(cfg, s))
  {
    AllProper(cfg, s, Body(cfg, s));
  }

  lemma DistIsProper(cfg: Config, s: Step)
    requires s.DistStd? || s.DistRustcDev?
    ensures Proper(cfg, s, Body(cfg, s))
  {
    AllProper(cfg, s, Body(cfg, s));
  }

  // ---------------------------------------------------------------------------
  // The steps that a list of roots can reach, and the rules of their run.

  ghost function Reach(cfg: Config, s: Step): (u: set<Step>)
    requires WellFormed(cfg, s)
    ensures s in u
    decreases Rank(cfg, s), 1, 0
  {
    BodiesAreProper(cfg, s);
    {s} + ReachOps(cfg, s, Body(cfg, s))
  }

  ghost function ReachOps(cfg: Config, s: Step, ops: seq<StepOp>): set<Step>
    requires Proper(cfg, s, ops)
    decreases Rank(cfg, s), 0, |ops|
  {
    if ops == [] then {}
    else
      (if ops[0].Need? then Reach(cfg, ops[0].step) else {}) + ReachOps(cfg, s, ops[1..])
  }

  ghost predicate ClosedSet(cfg: Config, u: set<Step>) {
    forall s | s in u :: WellFormed(cfg, s) && OpsIn(u, Body(cfg, s))
  }

  lemma {:induction false} ReachIsClosed(cfg: Config, s: Step)
    requires WellFormed(cfg, s)
    ensures ClosedSet(cfg, Reach(cfg, s))
    decreases Rank(cfg, s), 1, 0
  {
    BodiesAreProper(cfg, s);
    ReachOpsIsClosed(cfg, s, Body(cfg, s));
    var u := Reach(cfg, s);
    var v := ReachOps(cfg, s, Body(cfg, s));
    forall x | x in u
      ensures WellFormed(cfg, x) && OpsIn(u, Body(cfg, x))
    {
      assert x == s || (x in v && OpsIn(v, Body(cfg, x)));
    }
  }

  lemma {:induction false} ReachOpsIsClosed(cfg: Config, s: Step, ops: seq<StepOp>)
    requires Proper(cfg, s, ops)
    ensures ClosedSet(cfg, ReachOps(cfg, s, ops)) && OpsIn(ReachOps(cfg, s, ops), ops)
    decreases Rank(cfg, s), 0, |ops|
  {
    if ops != [] {
      var rest := ops[1..];
      ReachOpsIsClosed(cfg, s, rest);
      var v := ReachOps(cfg, s, rest);
      if ops[0].Need? {
        ReachIsClosed(cfg, ops[0].step);
        ClosedUnion(cfg, Reach(cfg, ops[0].step), v);
      }
      var u := ReachOps(cfg, s, ops);
      assert ops[0].Need? ==> u == Reach(cfg, ops[0].step) + v;
      assert ops[0].Do? ==> u == v;
      forall i | 0 <= i < |ops| && ops[i].Need?
        ensures ops[i].step in u
      {
        if i > 0 {
          assert rest[i - 1] == ops[i];
        }
      }
    }
  }

  lemma ClosedUnion(cfg: Config, a: set<Step>, b: set<Step>)
    requires ClosedSet(cfg, a) && ClosedSet(cfg, b)
    ensures ClosedSet(cfg, a + b)
  {
    forall s | s in a + b
      ensures WellFormed(cfg, s) && OpsIn(a + b, Body(cfg, s))
    {
      assert (s in a && OpsIn(a, Body(cfg, s))) || (s in b && OpsIn(b, Body(cfg, s)));
    }
  }

  ghost function ReachAll(cfg: Config, roots: seq<Step>): set<Step>
    requires forall s | s in roots :: WellFormed(cfg, s)
  {
    if roots == [] then {} else Reach(cfg, roots[0]) + ReachAll(cfg, roots[1..])
  }

  lemma {:induction false} ReachAllIsClosed(cfg: Config, roots: seq<Step>)
    requires forall s | s in roots :: WellFormed(cfg, s)
    ensures ClosedSet(cfg, ReachAll(cfg, roots)) && Elems(roots) <= ReachAll(cfg, roots)
  {
    if roots != [] {
      ReachIsClosed(cfg, roots[0]);
      ReachAllIsClosed(cfg, roots[1..]);
      ClosedUnion(cfg, Reach(cfg, roots[0]), ReachAll(cfg, roots[1..]));
      forall s | s in Elems(roots)
        ensures s in ReachAll(cfg, roots)
      {
        if s != roots[0] {
          assert s in Elems(roots[1..]);
        }
      }
    }
  }

  /** The rules of a rustbuild run for `roots`. */
  ghost function StageRules(cfg: Config, roots: seq<Step>, clock: nat -> nat): Rules<Step, Output, Effect>
    requires forall s | s in roots :: WellFormed(cfg, s)
  {
    Rules(ReachAll(cfg, roots), s => Body(cfg, s), (s, vals) => OutputOf(s), clock)
  }

  lemma StageRulesAreClosed(cfg: Config, roots: seq<Step>, clock: nat -> nat)
    requires forall s | s in roots :: WellFormed(cfg, s)
    ensures Closed(StageRules(cfg, roots, clock))
    ensures Elems(roots) <= StageRules(cfg, roots, clock).universe
    ensures ClosedSet(cfg, StageRules(cfg, roots, clock).universe)
  {
    ReachAllIsClosed(cfg, roots);
    var r := StageRules(cfg, roots, clock);
    forall s | s in r.universe
      ensures OpsIn(r.universe, r.body(s))
    {
      assert r.body(s) == Body(cfg, s);
    }
  }
}
