/** Selecting elements of a list by their positions, and splitting off the last one. */
module Sequences {

  function Pick<T>(list: seq<T>, indices: seq<nat>): (r: seq<T>)
    requires forall i :: 0 <= i < |indices| ==> indices[i] < |list|
    ensures |r| == |indices| && forall i :: 0 <= i < |r| ==> r[i] == list[indices[i]]
  {
    seq(|indices|, i requires 0 <= i < |indices| => list[indices[i]])
  }

  lemma SplitLast<T>(list: seq<T>)
    requires list != []
    ensures list == list[..|list| - 1] + [list[|list| - 1]]
  {
  }

  lemma PrefixGrows<T>(list: seq<T>, n: nat)
    requires 0 < n <= |list|
    ensures list[..n] == list[..n - 1] + [list[n - 1]]
  {
  }

  lemma SplitLastAfter<T>(front: seq<T>, list: seq<T>)
    requires list != []
    ensures front + list == front + list[..|list| - 1] + [list[|list| - 1]]
  {
  }
}
