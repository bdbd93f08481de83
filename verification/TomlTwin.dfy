/** bootstrap.py reads the configuration with a line scanner instead of a TOML parser. When does the
    value it finds agree with the merged configuration of config.rs? */
module TomlTwin {
  import opened Options
  import opened ConfigMerge

  /** A line: a section header, a key with its value, or anything else. A key may be indented. */
  datatype Line = Header(section: string) | KeyValue(key: string, value: string, indented: bool) | Other

  // ---------------------------------------------------------------------------
  // The scanner.

  /** The section in force after `lines`, if `cur` was in force before. */
  function SectionAfter(lines: seq<Line>, cur: Option<string>): Option<string> {
    if lines == [] then cur
    else SectionAfter(lines[1..], if lines[0].Header? then Some(lines[0].section) else cur)
  }

  predicate Matches(line: Line, cur: Option<string>, key: string, section: Option<string>) {
    line.KeyValue? && !line.indented && line.key == key && (section.None? || section == cur)
  }

  /** The first matching line wins. */
  function Scan(lines: seq<Line>, cur: Option<string>, key: string, section: Option<string>): Option<string> {
    if lines == [] then None
    else
      var cur' := if lines[0].Header? then Some(lines[0].section) else cur;
      if Matches(lines[0], cur', key, section) then Some(lines[0].value) else Scan(lines[1..], cur', key, section)
  }

  /** The last header above place `i` names the section. */
  ghost predicate LastHeader(lines: seq<Line>, i: nat, section: string)
    requires i <= |lines|
  {
    exists h: nat :: h < i && lines[h] == Header(section) && forall k | h < k < i :: !lines[k].Header?
  }

  /** The key stands at place `i`, not indented, and in the section if one is given. */
  ghost predicate Hit(lines: seq<Line>, i: nat, key: string, section: Option<string>) {
    && i < |lines| && lines[i].KeyValue? && !lines[i].indented && lines[i].key == key
    && (section.Some? ==> LastHeader(lines, i, section.value))
  }

  ghost predicate FirstHit(lines: seq<Line>, i: nat, key: string, section: Option<string>) {
    Hit(lines, i, key, section) && forall k: nat | k < i :: !Hit(lines, k, key, section)
  }

  lemma {:induction false} SectionGrows(lines: seq<Line>, cur: Option<string>, line: Line)
    ensures SectionAfter(lines + [line], cur) == if line.Header? then Some(line.section) else SectionAfter(lines, cur)
    decreases |lines|
  {
    if lines == [] {
      assert (lines + [line])[1..] == [];
    } else {
      assert (lines + [line])[1..] == lines[1..] + [line];
      SectionGrows(lines[1..], if lines[0].Header? then Some(lines[0].section) else cur, line);
    }
  }

  /** The section in force is that of the last header. */
  lemma {:induction false} SectionIsLastHeader(lines: seq<Line>, i: nat, section: string)
    requires i <= |lines|
    ensures SectionAfter(lines[..i], None) == Some(section) <==> LastHeader(lines, i, section)
    decreases i
  {
    if i > 0 {
      assert lines[..i] == lines[..i - 1] + [lines[i - 1]];
      SectionGrows(lines[..i - 1], None, lines[i - 1]);
      SectionIsLastHeader(lines, i - 1, section);
      if LastHeader(lines, i - 1, section) && !lines[i - 1].Header? {
        var h: nat :| h < i - 1 && lines[h] == Header(section) && forall k | h < k < i - 1 :: !lines[k].Header?;
        assert forall k | h < k < i :: !lines[k].Header?;
      }
      if lines[i - 1] == Header(section) {
        assert LastHeader(lines, i, section);
      }
    }
  }

  lemma HitIff(lines: seq<Line>, i: nat, key: string, section: Option<string>)
    requires i < |lines|
    ensures Hit(lines, i, key, section) <==> Matches(lines[i], SectionAfter(lines[..i], None), key, section)
  {
    if section.Some? {
      SectionIsLastHeader(lines, i, section.value);
    }
  }

  lemma {:induction false} ScanConcat(a: seq<Line>, b: seq<Line>, cur: Option<string>, key: string, section: Option<string>)
    ensures Scan(a + b, cur, key, section) == First(Scan(a, cur, key, section), Scan(b, SectionAfter(a, cur), key, section))
    decreases |a|
  {
    if a == [] {
      assert a + b == b;
    } else {
      assert (a + b)[1..] == a[1..] + b;
      ScanConcat(a[1..], b, if a[0].Header? then Some(a[0].section) else cur, key, section);
    }
  }

  lemma {:induction false} ScanIsFirstHit(lines: seq<Line>, key: string, section: Option<string>)
    ensures match Scan(lines, None, key, section)
            case None => forall i: nat :: !Hit(lines, i, key, section)
            case Some(v) => exists i: nat :: FirstHit(lines, i, key, section) && lines[i].value == v
    decreases |lines|
  {
    if lines != [] {
      var n := |lines| - 1;
      var a := lines[..n];
      assert lines == a + [lines[n]] && [lines[n]][1..] == [];
      ScanConcat(a, [lines[n]], None, key, section);
      ScanIsFirstHit(a, key, section);
      forall k: nat | k < n
        ensures Hit(a, k, key, section) <==> Hit(lines, k, key, section)
      {
        assert a[..k] == lines[..k];
        HitIff(a, k, key, section);
        HitIff(lines, k, key, section);
      }
      HitIff(lines, n, key, section);
      match Scan(a, None, key, section)
      case None =>
      case Some(v) =>
        var i: nat :| FirstHit(a, i, key, section) && a[i].value == v;
        assert FirstHit(lines, i, key, section);
    }
  }

  /** The scanner gives the value of the first hit, and nothing if there is none. Without a section, every
      key above or below any header counts. */
  method GetTomlStatic(lines: seq<Line>, key: string, section: Option<string>) returns (r: Option<string>)
    ensures r == Scan(lines, None, key, section)
    ensures r.None? ==> forall i: nat :: !Hit(lines, i, key, section)
    ensures r.Some? ==> exists i: nat :: FirstHit(lines, i, key, section) && lines[i].value == r.value
  {
    ScanIsFirstHit(lines, key, section);
    var cur: Option<string> := None;
    assert lines[0..] == lines;
    for i := 0 to |lines|
      invariant Scan(lines, None, key, section) == Scan(lines[i..], cur, key, section)
    {
      assert lines[i..][0] == lines[i] && lines[i..][1..] == lines[i + 1..];
      if lines[i].Header? {
        cur := Some(lines[i].section);
      }
      if lines[i].KeyValue? && !lines[i].indented && lines[i].key == key {
        if section.None? || section == cur {
          return Some(lines[i].value);
        }
      }
    }
    return None;
  }

  // ---------------------------------------------------------------------------
  // The parser: tables by section, a later line replacing an earlier one.

  function AddTo(tables: map<string, Table>, section: Option<string>, line: Line): map<string, Table> {
    if line.KeyValue? && section.Some? then
      var table := if section.value in tables then tables[section.value] else map[];
      tables[section.value := table[line.key := line.value]]
    else tables
  }

  function Parse(lines: seq<Line>): map<string, Table>
    decreases |lines|
  {
    if lines == [] then map[]
    else
      var n := |lines| - 1;
      AddTo(Parse(lines[..n]), SectionAfter(lines[..n], None), lines[n])
  }

  /** What the file sets above its first header. */
  function TopValue(lines: seq<Line>, key: string): Option<string>
    decreases |lines|
  {
    if lines == [] then None
    else
      var n := |lines| - 1;
      if lines[n].KeyValue? && lines[n].key == key && SectionAfter(lines[..n], None).None? then Some(lines[n].value)
      else TopValue(lines[..n], key)
  }

  const PROFILE := "profile"

  /** The parsed configuration of a file. */
  function ToToml(lines: seq<Line>): Toml {
    Toml(None, Parse(lines), false, TopValue(lines, PROFILE))
  }

  /** The place `i` sets `key` in `section`. */
  predicate Sets(lines: seq<Line>, i: nat, section: string, key: string)
    requires i < |lines|
  {
    lines[i].KeyValue? && lines[i].key == key && SectionAfter(lines[..i], None) == Some(section)
  }

  ghost predicate NoRepeats(lines: seq<Line>) {
    forall i: nat, j: nat, s, k | i < j < |lines| && Sets(lines, i, s, k) :: !Sets(lines, j, s, k)
  }

  /** The file sets the key on an indented line, which the scanner does not recognise. */
  ghost predicate Hides(lines: seq<Line>, section: string, key: string) {
    exists i: nat :: i < |lines| && Sets(lines, i, section, key) && lines[i].indented
  }

  // ---------------------------------------------------------------------------
  // One file.

  lemma ScanOne(line: Line, cur: Option<string>, key: string, section: string)
    ensures Scan([line], cur, key, Some(section))
            == (if line.KeyValue? && !line.indented && line.key == key && cur == Some(section) then Some(line.value) else None)
  {
    assert [line][1..] == [];
  }

  lemma {:induction false} PrefixNoRepeats(lines: seq<Line>, n: nat)
    requires NoRepeats(lines) && n <= |lines|
    ensures NoRepeats(lines[..n])
  {
    var a := lines[..n];
    forall i: nat, j: nat, s, k | i < j < |a| && Sets(a, i, s, k)
      ensures !Sets(a, j, s, k)
    {
      assert a[..i] == lines[..i] && a[..j] == lines[..j];
      assert a[i] == lines[i] && a[j] == lines[j];
      assert Sets(lines, i, s, k) && !Sets(lines, j, s, k);
    }
  }

  /** A key that the parser finds has a place that sets it. */
  lemma {:induction false} ParsedKeyHasAPlace(lines: seq<Line>, key: string, section: string) returns (i: nat)
    requires Get(ToToml(lines), section, key).Some?
    ensures i < |lines| && Sets(lines, i, section, key)
    decreases |lines|
  {
    var n := |lines| - 1;
    var a := lines[..n];
    if Sets(lines, n, section, key) {
      i := n;
    } else {
      i := ParsedKeyHasAPlace(a, key, section);
      assert a[..i] == lines[..i];
    }
  }

  lemma HidesGrows(lines: seq<Line>, key: string, section: string)
    requires lines != []
    ensures var n := |lines| - 1;
            Hides(lines, section, key) <==> Hides(lines[..n], section, key) || (Sets(lines, n, section, key) && lines[n].indented)
  {
    var n := |lines| - 1;
    var a := lines[..n];
    if i: nat :| i < n && Sets(lines, i, section, key) && lines[i].indented {
      assert a[..i] == lines[..i];
      assert Sets(a, i, section, key) && a[i].indented;
    }
    if i: nat :| i < n && Sets(a, i, section, key) && a[i].indented {
      assert a[..i] == lines[..i];
      assert Sets(lines, i, section, key) && lines[i].indented;
    }
  }

  /** In a file without repeated keys, the scanner finds what the parser finds, except that it sees
      nothing of a key that is indented. */
  lemma {:induction false} ScanAgreesWithParse(lines: seq<Line>, key: string, section: string)
    requires NoRepeats(lines)
    ensures Scan(lines, None, key, Some(section)) == (if Hides(lines, section, key) then None else Get(ToToml(lines), section, key))
    ensures Hides(lines, section, key) ==> Get(ToToml(lines), section, key).Some?
    decreases |lines|
  {
    if lines != [] {
      var n := |lines| - 1;
      var a, line := lines[..n], lines[n];
      assert lines == a + [line];
      PrefixNoRepeats(lines, n);
      ScanAgreesWithParse(a, key, section);
      ScanConcat(a, [line], None, key, Some(section));
      ScanOne(line, SectionAfter(a, None), key, section);
      HidesGrows(lines, key, section);
      if Sets(lines, n, section, key) && Get(ToToml(a), section, key).Some? {
        var i := ParsedKeyHasAPlace(a, key, section);
        assert a[..i] == lines[..i];
        assert Sets(lines, i, section, key);
      }
    }
  }

  // ---------------------------------------------------------------------------
  // Which profile a file names.

  /** Place `i` sets the key above the first header. */
  ghost predicate TopSets(lines: seq<Line>, i: nat, key: string) {
    i < |lines| && lines[i].KeyValue? && lines[i].key == key && forall k | 0 <= k < i :: !lines[k].Header?
  }

  ghost predicate NoTopRepeats(lines: seq<Line>, key: string) {
    forall i: nat, j: nat | TopSets(lines, i, key) && TopSets(lines, j, key) :: i == j
  }

  /** bootstrap.py is wrong about the profile: it is not named on a line of its own above the first header,
      and either it is named there on an indented line, while the first unindented line of that key, in
      some section, does not say the same; or it is not named, while there is such a line. */
  ghost predicate ProfileMisread(lines: seq<Line>) {
    && (forall i: nat | TopSets(lines, i, PROFILE) :: lines[i].indented)
    && if exists i: nat :: TopSets(lines, i, PROFILE)
       then !exists i: nat, j: nat :: TopSets(lines, i, PROFILE) && FirstHit(lines, j, PROFILE, None) && lines[i].value == lines[j].value
       else exists j: nat :: Hit(lines, j, PROFILE, None)
  }

  lemma {:induction false} NoSectionYet(lines: seq<Line>, i: nat)
    requires i <= |lines|
    ensures SectionAfter(lines[..i], None).None? <==> forall k | 0 <= k < i :: !lines[k].Header?
    decreases i
  {
    if i > 0 {
      assert lines[..i] == lines[..i - 1] + [lines[i - 1]];
      SectionGrows(lines[..i - 1], None, lines[i - 1]);
      NoSectionYet(lines, i - 1);
    }
  }

  lemma {:induction false} TopValueIff(lines: seq<Line>, key: string)
    requires NoTopRepeats(lines, key)
    ensures match TopValue(lines, key)
            case None => forall i: nat :: !TopSets(lines, i, key)
            case Some(v) => exists i: nat :: TopSets(lines, i, key) && lines[i].value == v
    decreases |lines|
  {
    if lines != [] {
      var n := |lines| - 1;
      var a := lines[..n];
      assert forall i: nat :: TopSets(a, i, key) <==> TopSets(lines, i, key) && i < n;
      NoSectionYet(lines, n);
      TopValueIff(a, key);
    }
  }

  /** The profile that bootstrap.py includes is the one that config.rs merges exactly when it is not
      misread, for all files that do not repeat it. */
  lemma ProfilesAgreeIff(lines: seq<Line>)
    requires NoTopRepeats(lines, PROFILE)
    ensures Scan(lines, None, PROFILE, None) == ToToml(lines).profile <==> !ProfileMisread(lines)
  {
    if i: nat :| TopSets(lines, i, PROFILE) && !lines[i].indented {
      PlainProfile(lines, i);
    } else {
      HiddenProfile(lines);
    }
  }

  /** Named on a line of its own above the first header. */
  lemma PlainProfile(lines: seq<Line>, i: nat)
    requires NoTopRepeats(lines, PROFILE) && TopSets(lines, i, PROFILE) && !lines[i].indented
    ensures Scan(lines, None, PROFILE, None) == ToToml(lines).profile == Some(lines[i].value)
  {
    ScanIsFirstHit(lines, PROFILE, None);
    TopValueIff(lines, PROFILE);
    TopHitIsFirst(lines, i);
  }

  lemma HiddenProfile(lines: seq<Line>)
    requires NoTopRepeats(lines, PROFILE) && forall i: nat | TopSets(lines, i, PROFILE) :: lines[i].indented
    ensures Scan(lines, None, PROFILE, None) == ToToml(lines).profile <==> !ProfileMisread(lines)
  {
    ScanIsFirstHit(lines, PROFILE, None);
    TopValueIff(lines, PROFILE);
  }

  lemma TopHitIsFirst(lines: seq<Line>, i: nat)
    requires NoTopRepeats(lines, PROFILE) && TopSets(lines, i, PROFILE) && !lines[i].indented
    ensures FirstHit(lines, i, PROFILE, None)
  {
    forall k: nat | k < i
      ensures !Hit(lines, k, PROFILE, None)
    {
      if Hit(lines, k, PROFILE, None) {
        assert TopSets(lines, k, PROFILE);
      }
    }
  }

  // ---------------------------------------------------------------------------
  // The user's file followed by the profile.

  /** The lines above the first header. */
  function Preamble(lines: seq<Line>): seq<Line> {
    if lines == [] || lines[0].Header? then [] else [lines[0]] + Preamble(lines[1..])
  }

  function FirstValue(lines: seq<Line>, key: string): Option<string> {
    if lines == [] then None
    else if lines[0].KeyValue? && !lines[0].indented && lines[0].key == key then Some(lines[0].value)
    else FirstValue(lines[1..], key)
  }

  /** The section in force before a file only matters for its preamble. */
  lemma {:induction false} ScanFromSection(lines: seq<Line>, cur: Option<string>, key: string, section: string)
    ensures Scan(lines, cur, key, Some(section))
            == First(if cur == Some(section) then FirstValue(Preamble(lines), key) else None, Scan(lines, None, key, Some(section)))
    ensures Scan(Preamble(lines), None, key, Some(section)) == None
  {
    if lines != [] && !lines[0].Header? {
      ScanFromSection(lines[1..], cur, key, section);
      assert Preamble(lines)[1..] == Preamble(lines[1..]);
    }
  }

  /** What bootstrap.py sees for a key: the user's file, then the profile appended to it. */
  function PythonValue(user: seq<Line>, profile: seq<Line>, key: string, section: string): Option<string> {
    Scan(user + profile, None, key, Some(section))
  }

  /** What config.rs sees: the profile merged under the user's file. */
  ghost function RustValue(user: seq<Line>, profile: seq<Line>, key: string, section: string): Option<string> {
    var m := Merge(ToToml(user), ToToml(profile), IgnoreDuplicate);
    if m.Ok? then Get(m.value, section, key) else None
  }

  /** A key above the first header of the profile is read as if it stood in the last section of the
      user's file. */
  function Strayed(user: seq<Line>, profile: seq<Line>, key: string, section: string): Option<string> {
    if SectionAfter(user, None) == Some(section) then FirstValue(Preamble(profile), key) else None
  }

  /** How bootstrap.py can go wrong about a key that it does not find in the user's file: it takes a
      stray key for it, or it passes over an indented line, of the user's file and then settles for
      what the profile has, or of the profile and then finds nothing. */
  ghost predicate Misread(user: seq<Line>, profile: seq<Line>, key: string, section: string) {
    && Scan(user, None, key, Some(section)).None?
    && var stray := Strayed(user, profile, key, section);
       if stray.Some? then
         stray != (if Hides(user, section, key) then Get(ToToml(user), section, key) else Get(ToToml(profile), section, key))
       else if Hides(user, section, key) then
         Hides(profile, section, key) || Get(ToToml(profile), section, key) != Get(ToToml(user), section, key)
       else
         Hides(profile, section, key)
  }

  /** The two readers agree exactly when the key is not misread, for all files that repeat no key. */
  lemma ReadersAgreeIff(user: seq<Line>, profile: seq<Line>, key: string, section: string)
    requires NoRepeats(user) && NoRepeats(profile)
    ensures PythonValue(user, profile, key, section) == RustValue(user, profile, key, section)
            <==> !Misread(user, profile, key, section)
  {
    ScanConcat(user, profile, None, key, Some(section));
    ScanFromSection(profile, SectionAfter(user, None), key, section);
    ScanAgreesWithParse(user, key, section);
    ScanAgreesWithParse(profile, key, section);
    LenientMergeSucceeds(ToToml(user), ToToml(profile), IgnoreDuplicate);
    MergedField(ToToml(user), ToToml(profile), IgnoreDuplicate, section, key);
  }

  /** In particular they agree on every key that neither file indents if the profile starts with a header. */
  lemma ReadersAgree(user: seq<Line>, profile: seq<Line>, key: string, section: string)
    requires NoRepeats(user) && NoRepeats(profile) && !Hides(user, section, key) && !Hides(profile, section, key)
    requires forall i | 0 <= i < |Preamble(profile)| :: !Preamble(profile)[i].KeyValue?
    ensures PythonValue(user, profile, key, section) == RustValue(user, profile, key, section)
  {
    ReadersAgreeIff(user, profile, key, section);
    NoKeyNoValue(Preamble(profile), key);
  }

  lemma {:induction false} NoKeyNoValue(lines: seq<Line>, key: string)
    requires forall i | 0 <= i < |lines| :: !lines[i].KeyValue?
    ensures FirstValue(lines, key) == None
  {
    if lines != [] {
      assert forall i | 0 <= i < |lines[1..]| :: lines[1..][i] == lines[i + 1];
      NoKeyNoValue(lines[1..], key);
    }
  }

  /** The lines of the profile that a name stands for, if any is named. */
  function Included(name: Option<string>, defaults: string -> seq<Line>): seq<Line> {
    if name.Some? then defaults(name.value) else []
  }

  /** From the user's file alone: if its profile is not misread, the two readers include the same defaults,
      and agree on a key exactly when that is not misread either. */
  lemma WholeFilesAgreeIff(user: seq<Line>, defaults: string -> seq<Line>, key: string, section: string)
    requires NoRepeats(user) && NoTopRepeats(user, PROFILE) && !ProfileMisread(user)
    requires forall name :: NoRepeats(defaults(name))
    ensures var included := Included(ToToml(user).profile, defaults);
            PythonValue(user, Included(Scan(user, None, PROFILE, None), defaults), key, section) == RustValue(user, included, key, section)
            <==> !Misread(user, included, key, section)
  {
    ProfilesAgreeIff(user);
    ReadersAgreeIff(user, Included(ToToml(user).profile, defaults), key, section);
  }

  /** Both ways of going wrong happen: a profile with a key above its first header, and an indented key. */
  lemma ReadersCanDisagree()
    ensures PythonValue([Header("rust")], [KeyValue("lto", "off", false)], "lto", "rust")
            != RustValue([Header("rust")], [KeyValue("lto", "off", false)], "lto", "rust")
    ensures PythonValue([Header("rust"), KeyValue("lto", "off", true)], [], "lto", "rust")
            != RustValue([Header("rust"), KeyValue("lto", "off", true)], [], "lto", "rust")
  {
    var user, profile := [Header("rust")], [KeyValue("lto", "off", false)];
    assert user + profile == [Header("rust"), KeyValue("lto", "off", false)];
    assert [Header("rust"), KeyValue("lto", "off", false)][1..] == profile && profile[1..] == [];
    assert Scan(profile, Some("rust"), "lto", Some("rust")) == Some("off");
    assert PythonValue(user, profile, "lto", "rust") == Some("off");
    assert Parse(profile[..0]) == map[] && Parse(user[..0]) == map[];
    assert Parse(profile) == map[] && Parse(user) == map[];
    MergedField(ToToml(user), ToToml(profile), IgnoreDuplicate, "rust", "lto");

    var bad := [Header("rust"), KeyValue("lto", "off", true)];
    assert bad + [] == bad;
    assert bad[1..] == [KeyValue("lto", "off", true)] && bad[1..][1..] == [];
    assert Scan(bad[1..], Some("rust"), "lto", Some("rust")) == None;
    assert PythonValue(bad, [], "lto", "rust") == None;
    assert bad[..1] == user && user[1..] == [];
    assert SectionAfter(user, None) == Some("rust");
    assert Get(ToToml(bad), "rust", "lto") == Some("off");
    MergedField(ToToml(bad), ToToml([]), IgnoreDuplicate, "rust", "lto");
  }
}
