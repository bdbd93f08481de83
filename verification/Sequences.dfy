/** Regrouping of concatenations. */
module Sequences {

  lemma Assoc<T>(a: seq<T>, b: seq<T>, c: seq<T>)
    ensures a + (b + c) == (a + b) + c
  {
  }

  lemma Regroup<T>(a: seq<T>, b: seq<T>, c: seq<T>, d: seq<T>)
    ensures ((a + b) + c) + d == a + (b + c + d)
    ensures (a + b) + c == a + (b + c)
  {
  }

  lemma Nested<T>(a: seq<T>, b: seq<T>, c: seq<T>, d: seq<T>)
    ensures a + (b + (c + d)) == (a + b) + c + d
  {
  }
}
