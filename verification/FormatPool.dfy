/** The thread of `x fmt` that batches paths and keeps a bounded number of rustfmt processes running. */
module FormatPool {
  import opened Options

  type Path = string

  const BATCH := 8

  datatype Status = AllSucceeded | SomeFailed

  ghost function Flatten(batches: seq<seq<Path>>): seq<Path> {
    if batches == [] then [] else Flatten(batches[..|batches| - 1]) + batches[|batches| - 1]
  }

  lemma FlattenGrows(batches: seq<seq<Path>>, batch: seq<Path>)
    ensures Flatten(batches + [batch]) == Flatten(batches) + batch
  {
    assert (batches + [batch])[..|batches|] == batches;
  }

  ghost function UpTo(n: nat): set<nat> {
    if n == 0 then {} else UpTo(n - 1) + {n - 1}
  }

  lemma {:induction false} UpToMembers(n: nat, i: nat)
    ensures i in UpTo(n) <==> i < n
  {
    if n > 0 {
      UpToMembers(n - 1, i);
    }
  }

  function Max(a: nat, b: nat): nat {
    if a < b then b else a
  }

  /** The processes spawned so far are those that were completed and those still in the deque, each once. */
  ghost predicate Accounted(spawned: nat, completed: seq<nat>, children: seq<nat>) {
    && multiset(completed) + multiset(children) == multiset(UpTo(spawned))
  }

  lemma SpawnOne(spawned: nat, completed: seq<nat>, children: seq<nat>)
    requires Accounted(spawned, completed, children)
    ensures Accounted(spawned + 1, completed, children + [spawned])
  {
    UpToMembers(spawned, spawned);
    assert UpTo(spawned + 1) == UpTo(spawned) + {spawned};
    assert multiset(UpTo(spawned) + {spawned}) == multiset(UpTo(spawned)) + multiset{spawned};
    assert multiset(children + [spawned]) == multiset(children) + multiset{spawned};
    assert multiset(completed) + (multiset(children) + multiset{spawned}) == (multiset(completed) + multiset(children)) + multiset{spawned};
  }

  /** Completing the child at `i`: the deque puts its last element in the gap. */
  function SwapRemoveBack(children: seq<nat>, i: nat): seq<nat>
    requires i < |children|
  {
    children[i := children[|children| - 1]][..|children| - 1]
  }

  /** Only the child at `i` is gone, and the last one has taken its place. */
  lemma SwapRemoveBackAt(children: seq<nat>, i: nat, k: nat)
    requires i < |children| && k < |children| - 1
    ensures |SwapRemoveBack(children, i)| == |children| - 1
    ensures SwapRemoveBack(children, i)[k] == if k == i then children[|children| - 1] else children[k]
  {
  }

  lemma CompleteOne(spawned: nat, completed: seq<nat>, children: seq<nat>, i: nat, rest: seq<nat>)
    requires Accounted(spawned, completed, children) && i < |children|
    requires multiset(rest) + multiset{children[i]} == multiset(children)
    ensures Accounted(spawned, completed + [children[i]], rest)
  {
    assert multiset(completed + [children[i]]) == multiset(completed) + multiset{children[i]};
    assert (multiset(completed) + multiset{children[i]}) + multiset(rest) == multiset(completed) + (multiset(rest) + multiset{children[i]});
  }

  lemma Exchange(a: seq<nat>, x: nat, b: seq<nat>, y: nat)
    ensures multiset(a + [y] + b) + multiset{x} == multiset(a + [x] + b + [y])
  {
    assert multiset(a + [y] + b) == multiset(a) + multiset{y} + multiset(b);
    assert multiset(a + [x] + b + [y]) == multiset(a) + multiset{x} + multiset(b) + multiset{y};
  }

  lemma SwapRemovesOne(children: seq<nat>, i: nat)
    requires i < |children|
    ensures multiset(SwapRemoveBack(children, i)) + multiset{children[i]} == multiset(children)
  {
    var n := |children| - 1;
    var swapped := children[i := children[n]];
    var front := swapped[..n];
    if i == n {
      assert children == front + [children[n]];
    } else {
      var a, b := children[..i], children[i + 1..n];
      assert children == a + [children[i]] + b + [children[n]];
      assert front == a + [children[n]] + b;
      Exchange(a, children[i], b, children[n]);
    }
  }

  /** Wait for a child; `exits` tells how each process ends. A failure ends the program. */
  predicate Succeeds(exits: nat -> bool, child: nat) {
    exits(child)
  }

  /** The child at `i` has ended, and none behind it has. */
  ghost predicate LastEnded(children: seq<nat>, ended: set<nat>, i: nat) {
    i < |children| && children[i] in ended && forall k | i < k < |children| :: children[k] !in ended
  }

  /** Poll the children from the back until one has ended. */
  method PollOne(children: seq<nat>, ended: set<nat>) returns (found: bool, i: nat)
    ensures found ==> LastEnded(children, ended, i)
    ensures !found ==> forall k | 0 <= k < |children| :: children[k] !in ended
  {
    i := |children|;
    while i > 0
      invariant i <= |children|
      invariant forall k | i <= k < |children| :: children[k] !in ended
    {
      i := i - 1;
      if children[i] in ended {
        return true, i;
      }
    }
    return false, 0;
  }

  /** All completed children are known and succeeded. */
  ghost predicate Clean(spawned: nat, completed: seq<nat>, children: seq<nat>, exits: nat -> bool) {
    Accounted(spawned, completed, children) && forall c | c in completed :: c < spawned && Succeeds(exits, c)
  }

  ghost predicate SomeChildFails(spawned: nat, exits: nat -> bool) {
    exists k: nat :: k < spawned && !Succeeds(exits, k)
  }

  /** What polling leaves: all children but the last that has ended, if any has. */
  ghost predicate Polled(children: seq<nat>, ended: set<nat>, left: seq<nat>) {
    || (left == children && forall k | 0 <= k < |children| :: children[k] !in ended)
    || (exists i: nat :: LastEnded(children, ended, i) && left == SwapRemoveBack(children, i))
  }

  /** Take out one child that has ended, if polling finds one; then, if the pool is still full, await the
      front of the deque. `ended` are the children that have ended by now. */
  method MakeRoom(spawned: nat, completed: seq<nat>, children: seq<nat>, ended: set<nat>, maxProcesses: nat, exits: nat -> bool)
    returns (status: Status, completed': seq<nat>, children': seq<nat>, waited: bool)
    requires Clean(spawned, completed, children, exits)
    requires 0 < maxProcesses && |children| <= maxProcesses
    ensures status == AllSucceeded ==> Clean(spawned, completed', children', exits) && |children'| < maxProcesses
    ensures status == AllSucceeded ==>
              exists left :: && Polled(children, ended, left) && (waited <==> |left| == maxProcesses)
                             && children' == if waited then left[1..] else left
    ensures status == SomeFailed ==> SomeChildFails(spawned, exits)
  {
    status, completed', children', waited := AllSucceeded, completed, children, false;
    var found, i := PollOne(children, ended);
    if found {
      var ok;
      ok, completed' := Await(spawned, completed, children, i, SwapRemoveBack(children, i), exits);
      if !ok {
        return SomeFailed, completed', children', waited;
      }
      children' := SwapRemoveBack(children, i);
    }
    ghost var left := children';
    assert Polled(children, ended, left);
    if |children'| >= maxProcesses {
      // the pool is full: the front of the deque goes first
      waited := true;
      assert children' == [children'[0]] + children'[1..];
      var ok;
      ok, completed' := Await(spawned, completed', children', 0, children'[1..], exits);
      if !ok {
        return SomeFailed, completed', children', waited;
      }
      children' := children'[1..];
    }
  }

  /** Complete the child at `i`, where `rest` are the others. */
  method Await(spawned: nat, completed: seq<nat>, children: seq<nat>, i: nat, rest: seq<nat>, exits: nat -> bool)
    returns (ok: bool, completed': seq<nat>)
    requires Clean(spawned, completed, children, exits)
    requires i < |children|
    requires rest == SwapRemoveBack(children, i) || (i == 0 && rest == children[1..])
    ensures ok ==> completed' == completed + [children[i]] && Clean(spawned, completed', rest, exits)
    ensures !ok ==> SomeChildFails(spawned, exits)
  {
    ChildIsSpawned(spawned, completed, children, children[i]);
    ok, completed' := exits(children[i]), completed;
    if ok {
      SwapRemovesOne(children, i);
      assert i == 0 ==> children == [children[0]] + children[1..];
      CompleteOne(spawned, completed, children, i, rest);
      completed' := completed + [children[i]];
    } else {
      assert !Succeeds(exits, children[i]);
    }
  }

  /** Await all remaining children. */
  method Drain(spawned: nat, completed: seq<nat>, children: seq<nat>, exits: nat -> bool) returns (ok: bool, completed': seq<nat>)
    requires Clean(spawned, completed, children, exits)
    ensures ok ==> Clean(spawned, completed', [], exits)
    ensures !ok ==> SomeChildFails(spawned, exits)
  {
    completed' := completed;
    for i := 0 to |children|
      invariant Clean(spawned, completed', children[i..], exits)
    {
      assert children[i..][0] == children[i] && children[i..][1..] == children[i + 1..];
      ok, completed' := Await(spawned, completed', children[i..], 0, children[i + 1..], exits);
      if !ok {
        return;
      }
    }
    assert children[|children|..] == [];
    ok := true;
  }

  /** What the thread did: the batches it spawned, the order in which it completed them, the largest number
      of processes that were alive at once, and how many were whenever it waited although more paths might
      come. */
  datatype Report = Report(status: Status, batches: seq<seq<Path>>, completed: seq<nat>, maxLive: nat, waits: seq<nat>)

  /** Receive paths until the channel closes. `arrivals` is every path sent, in order of arrival;
      how many are there when the thread looks, and which children have ended, is left open. */
  method BatchPaths(arrivals: seq<Path>, maxProcesses: nat, exits: nat -> bool) returns (r: Report)
    requires 0 < maxProcesses
    ensures r.maxLive <= maxProcesses && forall n | n in r.waits :: n == maxProcesses
    ensures exists waiting :: Batched(arrivals, r.batches, waiting) && (r.status == AllSucceeded ==> waiting == [])
    ensures r.status == AllSucceeded ==> multiset(r.completed) == multiset(UpTo(|r.batches|))
    ensures r.status == AllSucceeded ==> forall k | 0 <= k < |r.batches| :: Succeeds(exits, k)
    ensures r.status == SomeFailed ==> SomeChildFails(|r.batches|, exits)
  {
    var rest := arrivals;
    var batches: seq<seq<Path>> := [];
    var children: seq<nat> := [];
    var completed: seq<nat> := [];
    var maxLive: nat := 0;
    var waits: seq<nat> := [];
    while rest != []
      invariant Batched(arrivals, batches, rest)
      invariant |children| < maxProcesses && maxLive <= maxProcesses && forall n | n in waits :: n == maxProcesses
      invariant Clean(|batches|, completed, children, exits)
      decreases |rest|
    {
      // one path was received; a few more may be waiting in the channel
      var extra: nat :| extra <= BATCH - 1 && extra < |rest|;
      BatchTaken(arrivals, batches, rest, extra);
      SpawnOne(|batches|, completed, children);
      children := children + [|batches|];
      batches := batches + [rest[1..extra + 1] + [rest[0]]];
      rest := rest[extra + 1..];
      maxLive := Max(maxLive, |children|);
      var ended: set<nat> := *;
      var status, waited;
      status, completed, children, waited := MakeRoom(|batches|, completed, children, ended, maxProcesses, exits);
      if status != AllSucceeded {
        return Report(status, batches, completed, maxLive, waits);
      }
      waits := if waited then waits + [|children| + 1] else waits;
    }
    var ok;
    ok, completed := Drain(|batches|, completed, children, exits);
    if !ok {
      return Report(SomeFailed, batches, completed, maxLive, waits);
    }
    AllCompleted(|batches|, completed, exits);
    r := Report(AllSucceeded, batches, completed, maxLive, waits);
  }

  lemma AllCompleted(spawned: nat, completed: seq<nat>, exits: nat -> bool)
    requires Clean(spawned, completed, [], exits)
    ensures multiset(completed) == multiset(UpTo(spawned))
    ensures forall k | 0 <= k < spawned :: Succeeds(exits, k)
  {
    var none: seq<nat> := [];
    assert multiset(completed) + multiset(none) == multiset(completed);
    forall k | 0 <= k < spawned
      ensures Succeeds(exits, k)
    {
      UpToMembers(spawned, k);
      assert k in multiset(completed);
    }
  }

  lemma ChildIsSpawned(spawned: nat, completed: seq<nat>, children: seq<nat>, c: nat)
    requires Accounted(spawned, completed, children) && c in children
    ensures c < spawned
  {
    assert c in multiset(completed) + multiset(children);
    UpToMembers(spawned, c);
  }

  /** The paths of all batches in the order in which they were received: the one that was waited for comes
      last in its batch. */
  ghost function Received(batches: seq<seq<Path>>): seq<Path> {
    if batches == [] then []
    else
      var batch := batches[|batches| - 1];
      Received(batches[..|batches| - 1]) + (if batch == [] then [] else [batch[|batch| - 1]] + batch[..|batch| - 1])
  }

  /** Every path received so far is in exactly one batch, the batches follow the order of arrival, none is
      empty or has more than 8 paths, and the other paths are still waiting. */
  ghost predicate Batched(arrivals: seq<Path>, batches: seq<seq<Path>>, waiting: seq<Path>) {
    && multiset(Flatten(batches)) + multiset(waiting) == multiset(arrivals)
    && Received(batches) + waiting == arrivals
    && (forall k | 0 <= k < |batches| :: 1 <= |batches[k]| <= 8)
  }

  lemma BatchTaken(arrivals: seq<Path>, batches: seq<seq<Path>>, waiting: seq<Path>, extra: nat)
    requires Batched(arrivals, batches, waiting) && extra < |waiting| && extra < BATCH
    ensures Batched(arrivals, batches + [waiting[1..extra + 1] + [waiting[0]]], waiting[extra + 1..])
  {
    var x, a, b := waiting[0], waiting[1..extra + 1], waiting[extra + 1..];
    assert waiting == [x] + a + b;
    PartTaken(arrivals, batches, x, a, b);
  }

  lemma ReceivedGrows(batches: seq<seq<Path>>, x: Path, a: seq<Path>)
    ensures Received(batches + [a + [x]]) == Received(batches) + ([x] + a)
  {
    assert (batches + [a + [x]])[..|batches|] == batches && (a + [x])[..|a|] == a;
  }

  lemma PartTaken(arrivals: seq<Path>, batches: seq<seq<Path>>, x: Path, a: seq<Path>, b: seq<Path>)
    requires Batched(arrivals, batches, [x] + a + b) && |a| < BATCH
    ensures Batched(arrivals, batches + [a + [x]], b)
  {
    SameOrder(batches, x, a, b);
    SameContents(batches, x, a, b);
  }

  lemma SameOrder(batches: seq<seq<Path>>, x: Path, a: seq<Path>, b: seq<Path>)
    ensures Received(batches + [a + [x]]) + b == Received(batches) + ([x] + a + b)
  {
    ReceivedGrows(batches, x, a);
  }

  lemma SameContents(batches: seq<seq<Path>>, x: Path, a: seq<Path>, b: seq<Path>)
    ensures multiset(Flatten(batches + [a + [x]])) + multiset(b) == multiset(Flatten(batches)) + multiset([x] + a + b)
  {
    FlattenGrows(batches, a + [x]);
    Rebatch(Flatten(batches), x, a, b);
  }

  lemma Rebatch(f: seq<Path>, x: Path, a: seq<Path>, b: seq<Path>)
    ensures multiset(f + (a + [x])) + multiset(b) == multiset(f) + multiset([x] + a + b)
  {
    assert multiset(f + (a + [x])) == multiset(f) + (multiset(a) + multiset{x});
    assert multiset([x] + a + b) == multiset{x} + multiset(a) + multiset(b);
  }

  /** How many jobs a run uses: the number asked for, or what the machine offers if that is 0. A machine
      never offers 0. */
  function ThreadsFromConfig(asked: nat, parallelism: Option<nat>): nat {
    if asked != 0 then asked else if parallelism.Some? then parallelism.value else 1
  }

  /** `format`: the version stamp is written exactly in formatting mode and after every batch succeeded. */
  method Format(arrivals: seq<Path>, asked: nat, parallelism: Option<nat>, check: bool, exits: nat -> bool)
    returns (r: Report, stampWritten: bool)
    requires parallelism.Some? ==> parallelism.value > 0
    ensures stampWritten <==> r.status == AllSucceeded && !check
    ensures r.status == AllSucceeded ==> Batched(arrivals, r.batches, []) && multiset(r.completed) == multiset(UpTo(|r.batches|))
    ensures r.status == AllSucceeded <==> forall k | 0 <= k < |r.batches| :: Succeeds(exits, k)
    ensures var limit := if asked != 0 then 2 * asked else if parallelism.Some? then 2 * parallelism.value else 2;
            r.maxLive <= limit && forall n | n in r.waits :: n == limit
  {
    r := BatchPaths(arrivals, 2 * ThreadsFromConfig(asked, parallelism), exits);
    stampWritten := r.status == AllSucceeded && !check;
  }
}
