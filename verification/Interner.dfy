/** Interned values: small handles that stand for contents. */
module Interner {
  import opened Sorting

  /** The items, in the order of their handles, and the handle of each. */
  datatype Table<T(==)> = Table(items: seq<T>, set': map<T, nat>)

  /** `items` and `set'` are inverse to each other. */
  ghost predicate Valid<T>(t: Table<T>) {
    && (forall x | x in t.set' :: t.set'[x] < |t.items| && t.items[t.set'[x]] == x)
    && (forall i | 0 <= i < |t.items| :: t.items[i] in t.set' && t.set'[t.items[i]] == i)
  }

  function Interned<T(==)>(t: Table<T>, item: T): (nat, Table<T>) {
    if item in t.set' then (t.set'[item], t)
    else (|t.items|, Table(t.items + [item], t.set'[item := |t.items|]))
  }

  /** One table, shared behind a lock. */
  class TyIntern<T(==)> {
    var items: seq<T>
    var set': map<T, nat>

    constructor ()
      ensures Now() == Table([], map[]) && Valid(Now())
    {
      items, set' := [], map[];
    }

    ghost function Now(): Table<T>
      reads this
    {
      Table(items, set')
    }

    /** Old handles keep their contents; the new handle has the contents that were interned. */
    method Intern(item: T) returns (handle: nat)
      requires Valid(Now())
      modifies this
      ensures Valid(Now())
      ensures (handle, Now()) == Interned(old(Now()), item)
      ensures old(items) <= items && handle < |items| && items[handle] == item
    {
      if item in set' {
        return set'[item];
      }
      handle := |items|;
      set' := set'[item := handle];
      items := items + [item];
    }

    method Get(handle: nat) returns (item: T)
      requires handle < |items|
      ensures item == items[handle]
    {
      item := items[handle];
    }
  }

  // ---------------------------------------------------------------------------
  // Any interleaving of locked calls is a sequence of calls.

  /** The handles returned by a sequence of calls, and the table after them. */
  ghost function InternAll<T>(t: Table<T>, calls: seq<T>): (r: (seq<nat>, Table<T>))
    ensures |r.0| == |calls|
    decreases |calls|
  {
    if calls == [] then ([], t)
    else
      var n := |calls| - 1;
      var (handles, before) := InternAll(t, calls[..n]);
      var (h, after) := Interned(before, calls[n]);
      (handles + [h], after)
  }

  lemma InternKeepsValid<T>(t: Table<T>, item: T)
    requires Valid(t)
    ensures var (h, t') := Interned(t, item);
            Valid(t') && t.items <= t'.items && h < |t'.items| && t'.items[h] == item
  {
  }

  /** After any calls: the table is valid, every handle ever returned still has the contents it was
      returned for, and nothing is in the table that was not there or interned. */
  lemma {:induction false} HandlesKeepTheirContents<T(!new)>(t: Table<T>, calls: seq<T>)
    requires Valid(t)
    ensures var (handles, end) := InternAll(t, calls);
            && Valid(end) && t.items <= end.items
            && (forall i | 0 <= i < |calls| :: handles[i] < |end.items| && end.items[handles[i]] == calls[i])
            && (forall x | x in end.items :: x in t.items || x in calls)
    decreases |calls|
  {
    if calls != [] {
      var n := |calls| - 1;
      HandlesKeepTheirContents(t, calls[..n]);
      var (before, mid) := InternAll(t, calls[..n]);
      InternKeepsValid(mid, calls[n]);
      var (handles, end) := InternAll(t, calls);
      forall i | 0 <= i < |calls|
        ensures handles[i] < |end.items| && end.items[handles[i]] == calls[i]
      {
        if i < n {
          assert handles[i] == before[i] && calls[..n][i] == calls[i];
        }
      }
      assert forall x | x in calls[..n] :: x in calls;
    }
  }

  /** Handles are equal exactly when the contents they were returned for are equal, whatever happened
      between the two calls. */
  lemma HandlesAgreeWithContents<T(!new)>(t: Table<T>, calls: seq<T>, i: nat, j: nat)
    requires Valid(t) && i < |calls| && j < |calls|
    ensures InternAll(t, calls).0[i] == InternAll(t, calls).0[j] <==> calls[i] == calls[j]
  {
    HandlesKeepTheirContents(t, calls);
  }

  /** The order on handles is the order of their contents. */
  ghost predicate HandleLe<T>(t: Table<T>, le: (T, T) -> bool, a: nat, b: nat)
    requires a < |t.items| && b < |t.items|
  {
    le(t.items[a], t.items[b])
  }

  /** Equality of handles is by index, order and hash are by contents, and they are consistent: two
      handles are equal exactly when neither comes before the other, equal handles hash alike, and the
      order never changes as the table grows. */
  lemma OrderAndHashAgreeWithIndex<T(!new)>(t: Table<T>, le: (T, T) -> bool, hash: T -> int, item: T, a: nat, b: nat)
    requires Valid(t) && TotalOrder(le)
    requires a < |t.items| && b < |t.items|
    ensures a == b <==> HandleLe(t, le, a, b) && HandleLe(t, le, b, a)
    ensures a == b ==> hash(t.items[a]) == hash(t.items[b])
    ensures var after := Interned(t, item).1;
            && a < |after.items| && b < |after.items|
            && (HandleLe(after, le, a, b) <==> HandleLe(t, le, a, b))
            && hash(after.items[a]) == hash(t.items[a])
  {
    assert t.items[a] in t.set' && t.items[b] in t.set';
    assert t.set'[t.items[a]] == a && t.set'[t.items[b]] == b;
  }
}
