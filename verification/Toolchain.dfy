/** Downloading a toolchain so that a crash never leaves a broken one that looks complete. */
module Toolchain {

  type Key = string
  type Component = string
  type Member = string

  /** A tarball: its members, and whether its checksum is the expected one. */
  datatype Tarball = Tarball(members: seq<Member>, genuine: bool)

  /** What a component has left in the toolchain directory: which members of which tarball. */
  datatype Part = Part(key: Key, tarball: Tarball, present: set<nat>)

  /** A stamp that was being written when the machine stopped matches no key. */
  datatype Stamp = Absent | Torn | For(key: Key)

  datatype Root = Root(parts: map<Component, Part>, stamp: Stamp)

  ghost predicate HasFile(r: Root, c: Component, i: nat) {
    c in r.parts && i in r.parts[c].present && i < |r.parts[c].tarball.members|
  }

  ghost predicate IsRustc(r: Root, c: Component, i: nat) {
    HasFile(r, c, i) && r.parts[c].tarball.members[i] == "bin/rustc"
  }

  predicate HoldsRustc(p: Part) {
    exists i | 0 <= i < |p.tarball.members| :: i in p.present && p.tarball.members[i] == "bin/rustc"
  }

  predicate RustcExists(r: Root) {
    exists c | c in r.parts :: HoldsRustc(r.parts[c])
  }

  lemma RustcHasAPlace(r: Root)
    ensures RustcExists(r) <==> exists c, i: nat :: IsRustc(r, c, i)
  {
    if RustcExists(r) {
      var c :| c in r.parts && HoldsRustc(r.parts[c]);
      var i :| 0 <= i < |r.parts[c].tarball.members| && i in r.parts[c].present && r.parts[c].tarball.members[i] == "bin/rustc";
      assert IsRustc(r, c, i);
    }
    if c, i: nat :| IsRustc(r, c, i) {
      assert HoldsRustc(r.parts[c]);
    }
  }

  /** The component was unpacked for `key`, every member of it, and from a genuine tarball if that is checked. */
  ghost predicate Unpacked(r: Root, c: Component, key: Key, verified: bool) {
    && c in r.parts && r.parts[c].key == key
    && (forall i: nat | i < |r.parts[c].tarball.members| :: i in r.parts[c].present)
    && (verified ==> r.parts[c].tarball.genuine)
  }

  ghost predicate Complete(r: Root, components: seq<Component>, key: Key, verified: bool) {
    forall k | 0 <= k < |components| :: Unpacked(r, components[k], key, verified)
  }

  /** Whoever finds rustc and a stamp for `key` finds the whole toolchain of that key. */
  ghost predicate SafeFor(r: Root, components: seq<Component>, verified: bool, key: Key) {
    RustcExists(r) && r.stamp == For(key) ==> Complete(r, components, key, verified)
  }

  ghost predicate Safe(r: Root, components: seq<Component>, verified: bool) {
    forall key :: SafeFor(r, components, verified, key)
  }

  /** Some files of `r`, and its stamp or none: what is left while `r` is being cleared. */
  ghost predicate Remains(part: Root, r: Root) {
    && part.parts.Keys == r.parts.Keys
    && (forall c | c in r.parts ::
          part.parts[c].key == r.parts[c].key && part.parts[c].tarball == r.parts[c].tarball
          && part.parts[c].present <= r.parts[c].present)
    && (part.stamp == r.stamp || part.stamp == Absent)
  }

  /** The files in the directory, the stamp aside. */
  function Files(r: Root): set<(Component, nat)> {
    set c, i: nat | c in r.parts && i in r.parts[c].present :: (c, i)
  }

  /** How many operations it takes to remove the directory. */
  function ClearCost(r: Root): nat {
    |Files(r)| + (if r.stamp == Absent then 0 else 1) + 1
  }

  type Cache = map<(Key, Component), Tarball>

  function Lose(r: Root, d: Component, j: nat): Root
    requires d in r.parts
  {
    r.(parts := r.parts[d := r.parts[d].(present := r.parts[d].present - {j})])
  }

  /** How many operations it takes to unpack what is cached of the components. */
  ghost function UnpackCost(cache: Cache, key: Key, components: seq<Component>): nat {
    if components == [] then 0
    else
      var c := components[|components| - 1];
      UnpackCost(cache, key, components[..|components| - 1]) + if (key, c) in cache then |cache[(key, c)].members| else 0
  }

  lemma {:induction false} UnpackCostGrows(cache: Cache, key: Key, components: seq<Component>, i: nat)
    requires i <= |components|
    ensures UnpackCost(cache, key, components[..i]) <= UnpackCost(cache, key, components)
    decreases |components|
  {
    if i < |components| {
      UnpackCostGrows(cache, key, components[..|components| - 1], i);
      assert components[..|components| - 1][..i] == components[..i];
    } else {
      assert components[..i] == components;
    }
  }

  datatype Outcome = Finished | Crashed | ChecksumMissing | DownloadFailed | VerificationFailed

  /** One toolchain directory and the download cache. `verified` is the mode: distribution servers
      publish checksums, listed for some tarballs, CI builds do not. The machine may stop between any
      two operations: `budget` is the number of operations it will still carry out. */
  class Download {
    const components: seq<Component>
    const verified: bool
    const listed: set<(Key, Component)>
    var root: Root
    var cache: Cache

    /** Everything ever unpacked. */
    ghost var unpacked: seq<Tarball>

    constructor (extra: seq<Component>, verified: bool, listed: set<(Key, Component)>, root: Root, cache: Cache)
      ensures OnlyGenuine() && components == ["rust-std", "rustc"] + extra && this.verified == verified
      ensures this.listed == listed && this.root == root && this.cache == cache
    {
      components, this.verified, this.listed := ["rust-std", "rustc"] + extra, verified, listed;
      this.root, this.cache, unpacked := root, cache, [];
    }

    /** Where checksums are published, nothing is unpacked that fails verification. */
    ghost predicate OnlyGenuine()
      reads this
    {
      verified ==> forall t | t in unpacked :: t.genuine
    }

    /** The component can be installed without the network: its tarball is in the cache and, where that is
        checked, has a checksum and is the one published. */
    ghost predicate InCache(key: Key, c: Component)
      reads this
    {
      (key, c) in cache && (verified ==> (key, c) in listed && cache[(key, c)].genuine)
    }

    ghost predicate AllInCache(key: Key)
      reads this
    {
      forall c | c in components :: InCache(key, c)
    }

    /** Remove the directory: its files and its stamp go one by one, in any order. */
    method Clear(budget: nat) returns (o: Outcome, left: nat)
      modifies this`root
      ensures (o == Finished && root == Root(map[], Absent)) || (o == Crashed && Remains(root, old(root)))
      ensures o == Finished <==> budget >= ClearCost(old(root))
      ensures o == Finished ==> left == budget - ClearCost(old(root))
    {
      left := budget;
      var files := Files(root);
      while files != {} || root.stamp != Absent
        invariant Remains(root, old(root))
        invariant forall c, i | (c, i) in files :: c in root.parts
        invariant budget - left + |files| + (if root.stamp == Absent then 0 else 1) + 1 == ClearCost(old(root))
        decreases |files|, root.stamp != Absent
      {
        if left == 0 {
          return Crashed, 0;
        }
        left := left - 1;
        var stampFirst: bool := *;
        if files == {} || (stampFirst && root.stamp != Absent) {
          root := root.(stamp := Absent);
        } else {
          var file :| file in files;
          files := files - {file};
          root := Lose(root, file.0, file.1);
        }
      }
      if left == 0 {
        return Crashed, 0;
      }
      left := left - 1;
      root := Root(map[], Absent);
      o := Finished;
    }

    /** Unpack a tarball member by member. */
    method Unpack(key: Key, c: Component, t: Tarball, budget: nat) returns (o: Outcome, left: nat)
      requires OnlyGenuine() && root.stamp == Absent && (verified ==> t.genuine)
      modifies this`root, this`unpacked
      ensures OnlyGenuine() && root.stamp == Absent
      ensures o == if budget >= |t.members| then Finished else Crashed
      ensures o == Finished ==> Unpacked(root, c, key, verified) && root.parts[c].tarball == t && left == budget - |t.members|
      ensures forall d | d in old(root.parts) && d != c :: d in root.parts && root.parts[d] == old(root.parts[d])
    {
      left := budget;
      unpacked := unpacked + [t];
      var present: set<nat> := {};
      root := root.(parts := root.parts[c := Part(key, t, present)]);
      for i := 0 to |t.members|
        invariant OnlyGenuine() && root.stamp == Absent
        invariant c in root.parts && root.parts[c] == Part(key, t, present)
        invariant left == budget - i
        invariant forall k: nat | k < i :: k in present
        invariant forall d | d in old(root.parts) && d != c :: d in root.parts && root.parts[d] == old(root.parts[d])
      {
        if left == 0 {
          return Crashed, 0;
        }
        left := left - 1;
        present := present + {i};
        root := root.(parts := root.parts[c := Part(key, t, present)]);
      }
      o := Finished;
    }

    /** Download to a temporary file and rename it into the cache: the cache only ever holds whole downloads. */
    method Fetch(key: Key, c: Component, budget: nat) returns (o: Outcome, left: nat)
      modifies this`cache
      ensures o == Finished ==> (key, c) in cache && cache == old(cache)[(key, c) := cache[(key, c)]]
      ensures o != Finished ==> cache == old(cache)
      ensures o == Finished || o == Crashed || o == DownloadFailed
    {
      if budget < 2 {
        return Crashed, 0;
      }
      left := budget - 2;
      var curlSucceeds: bool := *;
      if !curlSucceeds {
        return DownloadFailed, left;
      }
      var served: Tarball := *;
      cache := cache[(key, c) := served];
      o := Finished;
    }

    /** One component: from the cache if it is there and, where that is checked, genuine. */
    method DownloadComponent(key: Key, c: Component, budget: nat) returns (o: Outcome, left: nat)
      requires OnlyGenuine() && root.stamp == Absent
      modifies this
      ensures OnlyGenuine() && root.stamp == Absent
      ensures o == Finished ==> Unpacked(root, c, key, verified) && (key, c) in cache && root.parts[c].tarball == cache[(key, c)]
      ensures forall d | d in old(root.parts) && d != c :: d in root.parts && root.parts[d] == old(root.parts[d])
      ensures forall k | k in old(cache) && k != (key, c) :: k in cache && cache[k] == old(cache[k])
      ensures o == ChecksumMissing <==> verified && (key, c) !in listed
      ensures o == VerificationFailed ==> verified && (key, c) in cache && !cache[(key, c)].genuine
      ensures o == DownloadFailed ==> (key, c) !in cache
      ensures o == ChecksumMissing || old(InCache(key, c)) ==> cache == old(cache)
      ensures old(InCache(key, c)) ==>
                var cost := |cache[(key, c)].members|;
                o == (if budget >= cost then Finished else Crashed) && (o == Finished ==> left == budget - cost)
    {
      left := budget;
      if verified && (key, c) !in listed {
        return ChecksumMissing, left;
      }
      if (key, c) in cache {
        var t := cache[(key, c)];
        if !verified || t.genuine {
          o, left := Unpack(key, c, t, left);
          return;
        }
        // what was cached is not what was published
        if left == 0 {
          return Crashed, 0;
        }
        left := left - 1;
        cache := cache - {(key, c)};
      }
      o, left := Fetch(key, c, left);
      if o != Finished {
        return;
      }
      var t := cache[(key, c)];
      if verified && !t.genuine {
        return VerificationFailed, left;
      }
      o, left := Unpack(key, c, t, left);
    }

    /** Every component in turn, until one fails. */
    method DownloadAll(key: Key, budget: nat) returns (o: Outcome, left: nat)
      requires OnlyGenuine() && root.stamp == Absent
      modifies this
      ensures OnlyGenuine() && root.stamp == Absent
      ensures o == Finished ==> Complete(root, components, key, verified)
      ensures old(AllInCache(key)) ==>
                var cost := UnpackCost(cache, key, components);
                cache == old(cache) && (budget >= cost ==> o == Finished && left == budget - cost)
    {
      o, left := Finished, budget;
      for i := 0 to |components|
        invariant OnlyGenuine() && root.stamp == Absent && o == Finished
        invariant forall k | 0 <= k < i :: Unpacked(root, components[k], key, verified)
        invariant old(AllInCache(key)) ==> cache == old(cache) && left == budget - UnpackCost(cache, key, components[..i])
      {
        assert components[i] in components;
        UnpackCostGrows(cache, key, components, i + 1);
        assert components[..i + 1][..i] == components[..i];
        o, left := DownloadComponent(key, components[i], left);
        if o != Finished {
          return;
        }
      }
      assert components[..|components|] == components;
    }

    /** The stamp is created, then filled. */
    method WriteStamp(key: Key, budget: nat) returns (o: Outcome)
      requires root.stamp == Absent
      modifies this`root
      ensures o == if budget >= 2 then Finished else Crashed
      ensures root == old(root).(stamp := if budget >= 2 then For(key) else if budget == 1 then Torn else Absent)
    {
      if budget == 0 {
        return Crashed;
      }
      root := root.(stamp := Torn);
      if budget == 1 {
        return Crashed;
      }
      root := root.(stamp := For(key));
      o := Finished;
    }

    /** Nothing happens if rustc is there and the stamp is right. Otherwise clear the directory, unpack
        every component, and write the stamp last. Wherever it stops, the directory stays safe for the
        key being installed, and for every key it was safe for unless it stopped while it was clearing
        a directory that was exposed. */
    method DownloadToolchain(key: Key, budget: nat) returns (o: Outcome)
      requires OnlyGenuine()
      modifies this
      ensures OnlyGenuine()
      ensures o == Finished ==> root.stamp == For(key)
      ensures RustcExists(old(root)) && old(root).stamp == For(key) ==> o == Finished && root == old(root) && cache == old(cache)
      ensures old(AllInCache(key)) ==>
                && cache == old(cache)
                && (budget >= ClearCost(old(root)) + UnpackCost(cache, key, components) + 2 ==> o == Finished)
      ensures o == Finished && SafeFor(old(root), components, verified, key) ==> Complete(root, components, key, verified)
      ensures forall k | SafeFor(old(root), components, verified, k) ::
                SafeFor(root, components, verified, k)
                || (o == Crashed && k != key && Exposed(old(root), components) && Remains(root, old(root)))
    {
      if RustcExists(root) && root.stamp == For(key) {
        return Finished;
      }
      ghost var before := root;
      var left;
      o, left := Clear(budget);
      if o != Finished {
        ClearingIsSafeForItsKey(before, root, key);
        forall k | !Exposed(before, components) && SafeFor(before, components, verified, k)
          ensures SafeFor(root, components, verified, k)
        {
          UnexposedStaysSafe(before, components, verified, root, k);
        }
        return;
      }
      o, left := DownloadAll(key, left);
      if o != Finished {
        return;
      }
      ghost var done := root;
      o := WriteStamp(key, left);
      StampChangesNothing(done, root, components, key, verified);
    }
  }

  lemma StampChangesNothing(r: Root, s: Root, components: seq<Component>, key: Key, verified: bool)
    requires Complete(r, components, key, verified) && s.parts == r.parts
    ensures Complete(s, components, key, verified)
  {
    forall k | 0 <= k < |components|
      ensures Unpacked(s, components[k], key, verified)
    {
      assert Unpacked(r, components[k], key, verified);
    }
  }

  // ---------------------------------------------------------------------------
  // Stopping while the directory is being cleared.

  /** The directory names a key, has rustc, and has another file of some component. */
  ghost predicate Exposed(r: Root, components: seq<Component>) {
    && r.stamp.For?
    && exists c, i: nat, d, j: nat :: IsRustc(r, c, i) && HasFile(r, d, j) && d in components && (c, i) != (d, j)
  }

  lemma LosingOneFile(r: Root, components: seq<Component>, verified: bool, c: Component, i: nat, d: Component, j: nat)
    requires r.stamp.For? && IsRustc(r, c, i) && HasFile(r, d, j) && d in components && (c, i) != (d, j)
    ensures Remains(Lose(r, d, j), r) && !Safe(Lose(r, d, j), components, verified)
  {
    var s := Lose(r, d, j);
    assert IsRustc(s, c, i);
    RustcHasAPlace(s);
    var k :| 0 <= k < |components| && components[k] == d;
    assert !Unpacked(s, components[k], r.stamp.key, verified) by {
      assert j < |s.parts[d].tarball.members| && j !in s.parts[d].present;
    }
    assert !Complete(s, components, r.stamp.key, verified);
    assert !SafeFor(s, components, verified, r.stamp.key);
  }

  /** If nothing but one rustc file remains to lose, losing files cannot hurt. */
  lemma UnexposedStaysSafe(r: Root, components: seq<Component>, verified: bool, s: Root, key: Key)
    requires SafeFor(r, components, verified, key) && !Exposed(r, components) && Remains(s, r)
    ensures SafeFor(s, components, verified, key)
  {
    RustcHasAPlace(r);
    RustcHasAPlace(s);
    if RustcExists(s) && s.stamp == For(key) {
      var c, i: nat :| IsRustc(s, c, i);
      assert IsRustc(r, c, i);
      forall k | 0 <= k < |components|
        ensures Unpacked(s, components[k], key, verified)
      {
        var d := components[k];
        assert Unpacked(r, d, key, verified);
        forall j: nat | j < |s.parts[d].tarball.members|
          ensures j in s.parts[d].present
        {
          assert HasFile(r, d, j);
          assert (c, i) == (d, j);
        }
      }
    }
  }

  /** A stop while the directory is being cleared is harmless for every key exactly when the directory
      was not exposed: when it had no rustc, no stamp, or nothing else to lose. */
  lemma ClearingIsSafeIff(r: Root, components: seq<Component>, verified: bool)
    requires Safe(r, components, verified)
    ensures (forall s :: Remains(s, r) ==> Safe(s, components, verified)) <==> !Exposed(r, components)
  {
    if Exposed(r, components) {
      var c, i: nat, d, j: nat :| IsRustc(r, c, i) && HasFile(r, d, j) && d in components && (c, i) != (d, j);
      LosingOneFile(r, components, verified, c, i, d, j);
    } else {
      forall s, key | Remains(s, r)
        ensures SafeFor(s, components, verified, key)
      {
        assert SafeFor(r, components, verified, key);
        UnexposedStaysSafe(r, components, verified, s, key);
      }
    }
  }

  /** For the key that is being installed it is always harmless: clearing only starts when rustc is
      missing or the stamp is not for that key, and removing files does not change that. */
  lemma ClearingIsSafeForItsKey(r: Root, s: Root, key: Key)
    requires !(RustcExists(r) && r.stamp == For(key))
    requires Remains(s, r)
    ensures !(RustcExists(s) && s.stamp == For(key))
  {
    RustcHasAPlace(r);
    RustcHasAPlace(s);
    if c, i: nat :| IsRustc(s, c, i) {
      assert IsRustc(r, c, i);
    }
  }
}
