/** Stamp files: the list of artifacts that a Cargo run produced, written by `run_cargo`
    and read back by `read_stamp_file`. */
module StampCodec {
  import opened Sequences
  import opened Options
  import opened Sorting

  type Bytes = seq<bv8>

  datatype DependencyType = Host | Target | TargetSelfContained

  datatype Dep = Dep(path: Bytes, kind: DependencyType)

  /** `MissingStamp` ends the program with a hint; the others are panics. */
  datatype Result<+T> = Ok(value: T) | MissingStamp | Unreachable | NotUtf8

  function Tag(kind: DependencyType): bv8 {
    match kind
    case Host => 104
    case Target => 116
    case TargetSelfContained => 115
  }

  /** A path that a file system can hold. */
  predicate NulFree(path: Bytes) {
    0 !in path
  }

  predicate Continues(b: bv8) {
    0x80 <= b < 0xC0
  }

  /** The length of the first character of UTF-8 text, or 0 if it is malformed. */
  function FirstLength(b: Bytes): (n: nat)
    requires b != []
    ensures n <= |b|
  {
    var c := b[0];
    if c < 0x80 then 1
    else if 0xC2 <= c < 0xE0 then if |b| >= 2 && Continues(b[1]) then 2 else 0
    else if 0xE0 <= c < 0xF0 then
      if |b| >= 3 && Continues(b[1]) && Continues(b[2]) && (c == 0xE0 ==> b[1] >= 0xA0) && (c == 0xED ==> b[1] < 0xA0) then 3 else 0
    else if 0xF0 <= c < 0xF5 then
      if |b| >= 4 && Continues(b[1]) && Continues(b[2]) && Continues(b[3]) && (c == 0xF0 ==> b[1] >= 0x90) && (c == 0xF4 ==> b[1] < 0x90)
      then 4 else 0
    else 0
  }

  /** The bits of a character that its first byte and the bytes after it carry. */
  function Scalar(b: Bytes, n: nat): bv32
    requires 1 <= n <= 4 && n <= |b|
  {
    if n == 1 then (b[0] & 0x7F) as bv32
    else if n == 2 then ((b[0] & 0x1F) as bv32 << 6) | Low(b[1])
    else if n == 3 then ((b[0] & 0x0F) as bv32 << 12) | (Low(b[1]) << 6) | Low(b[2])
    else ((b[0] & 0x07) as bv32 << 18) | (Low(b[1]) << 12) | (Low(b[2]) << 6) | Low(b[3])
  }

  function Low(b: bv8): bv32 {
    (b & 0x3F) as bv32
  }

  predicate Follows(b: Bytes, i: nat) {
    i < |b| && b[i] & 0xC0 == 0x80
  }

  /** The first bytes are the form, as section 3 of RFC 3629 has it, of a character that needs that many. */
  predicate IsShortest(b: Bytes, n: nat) {
    && 1 <= n <= 4 && n <= |b|
    && match n {
         case 1 => b[0] & 0x80 == 0
         case 2 => b[0] & 0xE0 == 0xC0 && Follows(b, 1) && 0x80 <= Scalar(b, 2)
         case 3 => b[0] & 0xF0 == 0xE0 && Follows(b, 1) && Follows(b, 2) && 0x800 <= Scalar(b, 3) && !(0xD800 <= Scalar(b, 3) <= 0xDFFF)
         case _ => b[0] & 0xF8 == 0xF0 && Follows(b, 1) && Follows(b, 2) && Follows(b, 3) && 0x10000 <= Scalar(b, 4) <= 0x10FFFF
       }
  }

  lemma FirstLengthIff(b: Bytes, n: nat)
    requires b != [] && n > 0
    ensures FirstLength(b) == n <==> IsShortest(b, n)
  {
  }

  predicate IsUtf8(b: Bytes) {
    b == [] || (FirstLength(b) > 0 && IsUtf8(b[FirstLength(b)..]))
  }

  /** The lists that can be written: the paths are text without NUL. */
  ghost predicate Writable(deps: seq<Dep>) {
    forall i | 0 <= i < |deps| :: NulFree(deps[i].path) && IsUtf8(deps[i].path)
  }

  predicate AllUtf8(deps: seq<Dep>) {
    forall i | 0 <= i < |deps| :: IsUtf8(deps[i].path)
  }

  function EncodeDep(d: Dep): Bytes {
    [Tag(d.kind)] + d.path + [0]
  }

  function Encode(deps: seq<Dep>): Bytes {
    if deps == [] then [] else EncodeDep(deps[0]) + Encode(deps[1..])
  }

  /** The parts between NUL bytes, as `split` gives them: always at least one. */
  function Split(b: Bytes): (parts: seq<Bytes>)
    ensures |parts| >= 1
    ensures forall i | 0 <= i < |parts| :: NulFree(parts[i])
  {
    if b == [] then [[]]
    else
      var rest := Split(b[1..]);
      if b[0] == 0 then [[]] + rest else [[b[0]] + rest[0]] + rest[1..]
  }

  function DecodePart(part: Bytes): Result<Dep>
    requires part != []
  {
    if part[0] != 104 && part[0] != 115 && part[0] != 116 then Unreachable
    else if !IsUtf8(part[1..]) then NotUtf8
    else Ok(Dep(part[1..], if part[0] == 104 then Host else if part[0] == 115 then TargetSelfContained else Target))
  }

  /** The first part that cannot be read decides the failure. */
  function DecodeParts(parts: seq<Bytes>): Result<seq<Dep>> {
    if parts == [] then Ok([])
    else if parts[0] == [] then DecodeParts(parts[1..])
    else
      match DecodePart(parts[0])
      case Ok(d) => Prepend([d], DecodeParts(parts[1..]))
      case Unreachable => Unreachable
      case NotUtf8 => NotUtf8
      case MissingStamp => MissingStamp
  }

  function Prepend(deps: seq<Dep>, rest: Result<seq<Dep>>): Result<seq<Dep>> {
    if rest.Ok? then Ok(deps + rest.value) else rest
  }

  function Decode(b: Bytes): Result<seq<Dep>> {
    DecodeParts(Split(b))
  }

  // ---------------------------------------------------------------------------
  // The code.

  /** The last part of `run_cargo`: sort the list and write it. A path that is not text is a panic,
      and then nothing is written. */
  method WriteStamp(deps: seq<Dep>, le: (Dep, Dep) -> bool) returns (written: seq<Dep>, contents: Result<Bytes>)
    requires TotalOrder(le)
    ensures IsSortOf(le, deps, written)
    ensures contents == if AllUtf8(deps) then Ok(Encode(written)) else NotUtf8
  {
    SortSorts(le, deps);
    written := Sort(le, deps);
    SameText(deps, written);
    var out: Bytes := [];
    for i := 0 to |written|
      invariant out == Encode(written[..i])
      invariant forall k | 0 <= k < i :: IsUtf8(written[k].path)
    {
      if !IsUtf8(written[i].path) {
        return written, NotUtf8;
      }
      EncodeGrows(written, i);
      out := out + [Tag(written[i].kind)];
      out := out + written[i].path;
      out := out + [0];
    }
    assert written[..|written|] == written;
    contents := Ok(out);
  }

  lemma SameText(a: seq<Dep>, b: seq<Dep>)
    requires multiset(a) == multiset(b)
    ensures AllUtf8(a) <==> AllUtf8(b)
  {
    assert forall i | 0 <= i < |a| :: a[i] in multiset(b);
    assert forall i | 0 <= i < |b| :: b[i] in multiset(a);
  }

  lemma EncodeGrows(deps: seq<Dep>, i: nat)
    requires i < |deps|
    ensures Encode(deps[..i + 1]) == Encode(deps[..i]) + [Tag(deps[i].kind)] + deps[i].path + [0]
  {
    EncodeConcat(deps[..i], [deps[i]]);
    assert deps[..i + 1] == deps[..i] + [deps[i]];
    assert [deps[i]][1..] == [];
    assert Encode([deps[i]]) == EncodeDep(deps[i]);
  }

  /** Split the contents at NUL bytes, skip empty parts, and read each other part. */
  method ReadStampFile(file: Option<Bytes>) returns (r: Result<seq<Dep>>)
    ensures r == if file.None? then MissingStamp else Decode(file.value)
  {
    if file.None? {
      return MissingStamp;
    }
    var parts := Split(file.value);
    var deps: seq<Dep> := [];
    assert parts[0..] == parts;
    assert DecodeParts(parts).Ok? ==> deps + DecodeParts(parts).value == DecodeParts(parts).value;
    for i := 0 to |parts|
      invariant Decode(file.value) == Prepend(deps, DecodeParts(parts[i..]))
    {
      assert parts[i..][0] == parts[i] && parts[i..][1..] == parts[i + 1..];
      if parts[i] == [] {
        continue;
      }
      match DecodePart(parts[i]) {
        case Ok(d) =>
          ghost var rest := DecodeParts(parts[i + 1..]);
          assert rest.Ok? ==> deps + ([d] + rest.value) == (deps + [d]) + rest.value;
          deps := deps + [d];
        case Unreachable => return Unreachable;
        case NotUtf8 => return NotUtf8;
        case MissingStamp => return MissingStamp;
      }
    }
    assert parts[|parts|..] == [];
    assert deps + [] == deps;
    r := Ok(deps);
  }

  lemma {:induction false} EncodeConcat(a: seq<Dep>, b: seq<Dep>)
    ensures Encode(a + b) == Encode(a) + Encode(b)
    decreases |a|
  {
    if a == [] {
      assert a + b == b;
    } else {
      assert (a + b)[1..] == a[1..] + b;
      EncodeConcat(a[1..], b);
      Assoc(EncodeDep(a[0]), Encode(a[1..]), Encode(b));
    }
  }

  // ---------------------------------------------------------------------------
  // Round trip.

  lemma {:induction false} SplitAtNul(part: Bytes, rest: Bytes)
    requires NulFree(part)
    ensures Split(part + [0] + rest) == [part] + Split(rest)
    decreases |part|
  {
    var b := part + [0] + rest;
    if part == [] {
      assert b[1..] == rest;
    } else {
      assert part[0] in part && b[0] == part[0] && b[0] != 0;
      assert b[1..] == part[1..] + [0] + rest;
      SplitAtNul(part[1..], rest);
      assert [part[0]] + part[1..] == part;
    }
  }

  lemma DecodeTagged(d: Dep)
    requires IsUtf8(d.path)
    ensures DecodePart([Tag(d.kind)] + d.path) == Ok(d)
  {
    assert ([Tag(d.kind)] + d.path)[1..] == d.path;
  }

  lemma DecodeFirst(d: Dep, rest: Bytes)
    requires NulFree(d.path) && IsUtf8(d.path)
    ensures Decode(EncodeDep(d) + rest) == Prepend([d], Decode(rest))
  {
    var part := [Tag(d.kind)] + d.path;
    assert NulFree(part);
    SplitAtNul(part, rest);
    assert EncodeDep(d) + rest == part + [0] + rest;
    assert ([part] + Split(rest))[1..] == Split(rest);
    DecodeTagged(d);
  }

  /** Reading a written stamp gives back the list, also with empty paths and for the empty list. */
  lemma {:induction false} DecodeEncode(deps: seq<Dep>)
    requires Writable(deps)
    ensures Decode(Encode(deps)) == Ok(deps)
  {
    if deps == [] {
      assert Split([])[1..] == [];
    } else {
      assert forall i | 0 <= i < |deps[1..]| :: deps[1..][i] == deps[i + 1];
      DecodeEncode(deps[1..]);
      DecodeFirst(deps[0], Encode(deps[1..]));
      assert [deps[0]] + deps[1..] == deps;
    }
  }

  /** So two different lists never share a stamp. */
  lemma EncodeIsInjective(a: seq<Dep>, b: seq<Dep>)
    requires Writable(a) && Writable(b) && Encode(a) == Encode(b)
    ensures a == b
  {
    DecodeEncode(a);
    DecodeEncode(b);
  }

  /** The letters of the format, in ASCII: `h` for host, `t` for target, `s` for self-contained artifacts. */
  lemma LettersOfTheFormat(path: Bytes)
    requires NulFree(path) && IsUtf8(path)
    ensures Encode([Dep(path, Host)]) == [0x68] + path + [0] && Decode([0x68] + path + [0]) == Ok([Dep(path, Host)])
    ensures Encode([Dep(path, Target)]) == [0x74] + path + [0] && Decode([0x74] + path + [0]) == Ok([Dep(path, Target)])
    ensures Encode([Dep(path, TargetSelfContained)]) == [0x73] + path + [0]
    ensures Decode([0x73] + path + [0]) == Ok([Dep(path, TargetSelfContained)])
  {
    LetterOf(path, Host);
    LetterOf(path, Target);
    LetterOf(path, TargetSelfContained);
  }

  /** A part with any other letter is refused, whatever comes after. */
  lemma OtherLettersAreRefused(b: bv8, path: Bytes, rest: Bytes)
    requires b != 0 && b != 0x68 && b != 0x73 && b != 0x74 && NulFree(path)
    ensures Decode([b] + path + [0] + rest) == Unreachable
  {
    assert NulFree([b] + path);
    SplitAtNul([b] + path, rest);
  }

  lemma LetterOf(path: Bytes, kind: DependencyType)
    requires NulFree(path) && IsUtf8(path)
    ensures Encode([Dep(path, kind)]) == [Tag(kind)] + path + [0]
    ensures Decode([Tag(kind)] + path + [0]) == Ok([Dep(path, kind)])
  {
    var deps := [Dep(path, kind)];
    assert deps[1..] == [];
    DecodeEncode(deps);
  }

  /** Which contents a stamp can have: those that end with a NUL and whose parts start with a tag. */
  predicate WellFormed(b: Bytes) {
    var parts := Split(b);
    parts[|parts| - 1] == [] && forall i | 0 <= i < |parts| - 1 :: parts[i] != [] && DecodePart(parts[i]).Ok?
  }

  ghost function Join(parts: seq<Bytes>): Bytes {
    if parts == [] then [] else parts[0] + [0] + Join(parts[1..])
  }

  /** Splitting loses nothing. */
  lemma {:induction false} JoinSplit(b: Bytes)
    ensures var parts := Split(b);
            b == Join(parts[..|parts| - 1]) + parts[|parts| - 1]
  {
    if b != [] {
      var rest := Split(b[1..]);
      var parts := Split(b);
      JoinSplit(b[1..]);
      assert b == [b[0]] + b[1..];
      if b[0] == 0 {
        assert parts[..|parts| - 1] == [[]] + rest[..|rest| - 1];
        assert ([[]] + rest[..|rest| - 1])[1..] == rest[..|rest| - 1];
      } else if |rest| > 1 {
        assert parts[..|parts| - 1] == [[b[0]] + rest[0]] + rest[1..|rest| - 1];
        assert parts[..|parts| - 1][1..] == rest[..|rest| - 1][1..];
      }
    }
  }

  /** The other direction: contents that could have been written are exactly what writing gives. */
  lemma EncodeDecode(b: Bytes)
    requires WellFormed(b)
    ensures Decode(b).Ok? && Encode(Decode(b).value) == b
  {
    var parts := Split(b);
    var n := |parts| - 1;
    JoinSplit(b);
    assert parts == parts[..n] + [[]];
    EncodeDecodeParts(parts[..n]);
  }

  lemma {:induction false} EncodeDecodeParts(parts: seq<Bytes>)
    requires forall i | 0 <= i < |parts| :: parts[i] != [] && DecodePart(parts[i]).Ok?
    ensures DecodeParts(parts + [[]]).Ok? && Encode(DecodeParts(parts + [[]]).value) == Join(parts)
  {
    var all := parts + [[]];
    if parts == [] {
      assert all == [[]] && all[1..] == [];
    } else {
      assert all[1..] == parts[1..] + [[]];
      EncodeDecodeParts(parts[1..]);
      var d := DecodePart(parts[0]).value;
      var rest := DecodeParts(all[1..]).value;
      assert DecodeParts(all).value == [d] + rest;
      assert ([d] + rest)[1..] == rest;
      assert parts[0] == [parts[0][0]] + parts[0][1..];
      assert EncodeDep(d) == parts[0] + [0];
    }
  }
}
