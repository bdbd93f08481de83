/** Where rustbuild keeps things below its output directory. Paths are lists of
    components; a directory contains what its path is a prefix of. */
module Layout {
  import opened StageGraph

  const DIGITS := "0123456789"

  function Decimal(n: nat): string {
    if n < 10 then [DIGITS[n]] else Decimal(n / 10) + [DIGITS[n % 10]]
  }

  lemma DigitsDiffer(i: nat, j: nat)
    requires i < 10 && j < 10 && DIGITS[i] == DIGITS[j]
    ensures i == j
  {
  }

  lemma {:induction false} DecimalInjective(m: nat, n: nat)
    requires Decimal(m) == Decimal(n)
    ensures m == n
    decreases m
  {
    var a, b := Decimal(m), Decimal(n);
    assert a[|a| - 1] == DIGITS[m % 10] && b[|b| - 1] == DIGITS[n % 10];
    DigitsDiffer(m % 10, n % 10);
    assert |Decimal(m / 10)| >= 1 && |Decimal(n / 10)| >= 1;
    if m >= 10 && n >= 10 {
      assert a[..|a| - 1] == Decimal(m / 10) && b[..|b| - 1] == Decimal(n / 10);
      DecimalInjective(m / 10, n / 10);
    }
  }

  lemma {:induction false} DecimalIsDigits(n: nat)
    ensures Decimal(n) != [] && forall i | 0 <= i < |Decimal(n)| :: Decimal(n)[i] in DIGITS
    decreases n
  {
    if n >= 10 {
      DecimalIsDigits(n / 10);
    }
  }

  /** The directory of a compiler's sysroot. */
  function StageDir(stage: nat): string {
    if stage == 0 then "stage0-sysroot" else "stage" + Decimal(stage)
  }

  function SysrootPath(c: Compiler): Path {
    [c.host.triple, StageDir(c.stage)]
  }

  function LibRelative(cfg: Config, stage: nat): Path {
    if cfg.libdirRelative.Some? && stage >= 1 then cfg.libdirRelative.value
    else if stage == 0 then cfg.initialLibdir
    else ["lib"]
  }

  function LibdirPath(cfg: Config, c: Compiler, t: Target): Path {
    SysrootPath(c) + LibRelative(cfg, c.stage) + ["rustlib", t.triple, "lib"]
  }

  /** Where `maybe_install_llvm_target` puts libLLVM. */
  function LlvmPath(c: Compiler): Path {
    SysrootPath(c) + ["lib", "rustlib", c.host.triple, "lib"]
  }

  function Suffix(mode: Mode): string {
    match mode
    case ForStd => "-std"
    case ForRustc => "-rustc"
    case ForCodegen(_) => "-codegen"
  }

  function StampName(mode: Mode): string {
    match mode
    case ForStd => ".libstd.stamp"
    case ForRustc => ".librustc.stamp"
    case ForCodegen(b) => ".librustc_codegen_" + b + ".stamp"
  }

  /** The directory for the output of Cargo. */
  function OutDir(c: Compiler, mode: Mode): Path {
    [c.host.triple, "stage" + Decimal(c.stage) + Suffix(mode)]
  }

  function StampPath(cfg: Config, mode: Mode, c: Compiler, t: Target): Path {
    [c.host.triple, "stage" + Decimal(c.stage) + Suffix(mode), t.triple, cfg.cargoDir, StampName(mode)]
  }

  /** Some names. */
  lemma NamesOfStages()
    ensures StageDir(0) == "stage0-sysroot" && StageDir(1) == "stage1" && StageDir(2) == "stage2" && StageDir(12) == "stage12"
  {
    assert Decimal(1) == "1" && Decimal(2) == "2" && Decimal(12) == "12";
  }

  lemma NamesOfOutputs(h: Target)
    ensures OutDir(Compiler(0, h), ForStd) == [h.triple, "stage0-std"]
    ensures OutDir(Compiler(1, h), ForRustc) == [h.triple, "stage1-rustc"]
    ensures OutDir(Compiler(1, h), ForCodegen("cranelift")) == [h.triple, "stage1-codegen"]
  {
    assert Decimal(0) == "0" && Decimal(1) == "1";
    assert "stage" + "0" + "-std" == "stage0-std" && "stage" + "1" + "-rustc" == "stage1-rustc" && "stage" + "1" + "-codegen" == "stage1-codegen";
  }

  lemma StampsByName(cfg: Config, mode: Mode, c: Compiler, t: Target)
    ensures StampPath(cfg, mode, c, t) == OutDir(c, mode) + [t.triple, cfg.cargoDir, StampName(mode)]
    ensures StampName(ForStd) == ".libstd.stamp" && StampName(ForRustc) == ".librustc.stamp"
    ensures StampName(ForCodegen("cranelift")) == ".librustc_codegen_cranelift.stamp"
  {
  }

  /** Target libdirs: a configured libdir counts from stage 1 on, and the snapshot keeps its own. */
  lemma LibdirsByName(cfg: Config, h: Target, t: Target)
    ensures LibdirPath(cfg, Compiler(0, h), t) == [h.triple, "stage0-sysroot"] + cfg.initialLibdir + ["rustlib", t.triple, "lib"]
    ensures var relative := if cfg.libdirRelative.Some? then cfg.libdirRelative.value else ["lib"];
            LibdirPath(cfg, Compiler(1, h), t) == [h.triple, "stage1"] + relative + ["rustlib", t.triple, "lib"]
    ensures LlvmPath(Compiler(0, h)) == [h.triple, "stage0-sysroot", "lib", "rustlib", h.triple, "lib"]
  {
    NamesOfStages();
  }

  // ---------------------------------------------------------------------------
  // Sysroots have directories of their own.

  lemma NumberedStageDir(n: nat)
    requires n > 0
    ensures StageDir(n)[5..] == Decimal(n) && StageDir(n) != StageDir(0)
  {
    DecimalIsDigits(n);
    var x := StageDir(n);
    assert x[5..] == Decimal(n);
    assert |x| > 6 ==> x[6] == Decimal(n)[1] && x[6] in DIGITS;
    assert StageDir(0)[6] == '-' && '-' !in DIGITS;
  }

  lemma StageDirsDiffer(m: nat, n: nat)
    requires StageDir(m) == StageDir(n)
    ensures m == n
  {
    if m > 0 {
      NumberedStageDir(m);
    }
    if n > 0 {
      NumberedStageDir(n);
    }
    if m > 0 && n > 0 {
      DecimalInjective(m, n);
    }
  }

  /** A sysroot lies in another only if it is the same directory, which takes the same stage and the
      same host triple. */
  lemma SysrootsDiffer(c: Compiler, d: Compiler, rest: Path)
    requires SysrootPath(c) <= SysrootPath(d) + rest
    ensures c.stage == d.stage && c.host.triple == d.host.triple && SysrootPath(c) == SysrootPath(d)
  {
    var p := SysrootPath(d) + rest;
    assert SysrootPath(c)[0] == p[0] == d.host.triple && SysrootPath(c)[1] == p[1] == StageDir(d.stage);
    StageDirsDiffer(c.stage, d.stage);
  }

  /** A sysroot never contains a Cargo output directory. */
  lemma StampsAreOutside(cfg: Config, c: Compiler, mode: Mode, d: Compiler, t: Target)
    ensures !(SysrootPath(c) <= StampPath(cfg, mode, d, t))
  {
    var x, y := StageDir(c.stage), "stage" + Decimal(d.stage) + Suffix(mode);
    DecimalIsDigits(c.stage);
    var last := x[|x| - 1];
    assert c.stage > 0 ==> last == Decimal(c.stage)[|Decimal(c.stage)| - 1] && last in DIGITS;
    assert c.stage == 0 ==> last == 't';
    assert y[|y| - 1] == Suffix(mode)[|Suffix(mode)| - 1] && y[|y| - 1] in ['d', 'c', 'n'];
    assert x != y;
    assert SysrootPath(c)[1] == x && StampPath(cfg, mode, d, t)[1] == y;
  }

  /** The libdir of a target lies in another only if it is the same directory, which takes the same
      triple; it contains the place of LLVM only if the libdir is `lib` and the triple that of the host. */
  lemma LibdirsDiffer(cfg: Config, c: Compiler, t: Target, d: Compiler, u: Target)
    requires SysrootPath(c) == SysrootPath(d) && c.stage == d.stage
    ensures LibdirPath(cfg, c, t) <= LibdirPath(cfg, d, u) ==> t.triple == u.triple && LibdirPath(cfg, c, t) == LibdirPath(cfg, d, u)
    ensures LibdirPath(cfg, c, t) <= LlvmPath(d) <==> LibRelative(cfg, c.stage) == ["lib"] && t.triple == d.host.triple
  {
    var r := LibRelative(cfg, c.stage);
    var p, q, l := LibdirPath(cfg, c, t), LibdirPath(cfg, d, u), LlvmPath(d);
    assert p[2..] == r + ["rustlib", t.triple, "lib"];
    assert p[2 + |r| + 1] == t.triple && q[2 + |r| + 1] == u.triple;
    if p <= l {
      assert |r| <= 1;
      assert p[2 + |r|] == "rustlib" && p[2 + |r| + 1] == t.triple && p[2 + |r| + 2] == "lib";
      assert l[2] == "lib" && l[3] == "rustlib" && l[4] == d.host.triple && l[5] == "lib";
      assert p[2] == l[2] == "lib" && "lib" != "rustlib";
      assert r == ["lib"];
    }
  }

  // ---------------------------------------------------------------------------
  // Stamps have files of their own.

  /** Digits end where a dash begins. */
  lemma DigitsThenDash(x: string, a: string, y: string, b: string)
    requires x + a == y + b && a != [] && b != [] && a[0] == '-' && b[0] == '-'
    requires '-' !in x && '-' !in y
    ensures x == y && a == b
  {
    var k := if |x| < |y| then |x| else |y|;
    assert (x + a)[k] == (y + b)[k];
    assert |x| == |y|;
    assert (x + a)[..|x|] == x && (y + b)[..|y|] == y;
    assert (x + a)[|x|..] == a && (y + b)[|y|..] == b;
  }

  lemma NoDash(n: nat)
    ensures '-' !in Decimal(n)
  {
    DecimalIsDigits(n);
    assert '-' !in DIGITS;
  }

  lemma SameStageName(m: nat, n: nat, a: string, b: string)
    requires "stage" + Decimal(m) + a == "stage" + Decimal(n) + b
    requires a != [] && b != [] && a[0] == '-' && b[0] == '-'
    ensures m == n && a == b
  {
    var p, q := "stage" + Decimal(m) + a, "stage" + Decimal(n) + b;
    assert p[5..] == Decimal(m) + a && q[5..] == Decimal(n) + b;
    NoDash(m);
    NoDash(n);
    DigitsThenDash(Decimal(m), a, Decimal(n), b);
    DecimalInjective(m, n);
  }

  /** Two directories for Cargo's output are the same only for the same stage and host triple, and only if
      both or neither are for libraries. */
  lemma OutDirsDiffer(c: Compiler, mode: Mode, c': Compiler, mode': Mode)
    requires OutDir(c, mode) == OutDir(c', mode')
    ensures c.stage == c'.stage && c.host.triple == c'.host.triple && (mode == ForStd <==> mode' == ForStd)
  {
    assert OutDir(c, mode)[0] == OutDir(c', mode')[0] && OutDir(c, mode)[1] == OutDir(c', mode')[1];
    SameStageName(c.stage, c'.stage, Suffix(mode), Suffix(mode'));
    assert Suffix(mode)[1] == Suffix(mode')[1];
  }

  /** Two stamps share a file only if they are for the same mode, stage, host triple and target triple. */
  lemma StampsDiffer(cfg: Config, mode: Mode, c: Compiler, t: Target, mode': Mode, c': Compiler, t': Target)
    requires StampPath(cfg, mode, c, t) == StampPath(cfg, mode', c', t')
    ensures mode == mode' && c.stage == c'.stage && c.host.triple == c'.host.triple && t.triple == t'.triple
  {
    var p, q := StampPath(cfg, mode, c, t), StampPath(cfg, mode', c', t');
    assert p[0] == q[0] && p[1] == q[1] && p[2] == q[2] && p[4] == q[4];
    SameStageName(c.stage, c'.stage, Suffix(mode), Suffix(mode'));
    assert Suffix(mode)[1] == Suffix(mode')[1];
    if mode.ForCodegen? {
      assert mode'.ForCodegen?;
      SameBackend(mode.backend, mode'.backend);
    }
  }

  lemma SameBackend(a: string, b: string)
    requires StampName(ForCodegen(a)) == StampName(ForCodegen(b))
    ensures a == b
  {
    var x, y := StampName(ForCodegen(a)), StampName(ForCodegen(b));
    assert |x| == |a| + 24 && |y| == |b| + 24;
    assert x[18..18 + |a|] == a && y[18..18 + |b|] == b;
  }
}
