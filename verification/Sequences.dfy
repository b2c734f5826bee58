/** Sequences with one element taken out. */
module Sequences {

  function Erase<T>(q: seq<T>, i: nat): (r: seq<T>)
    requires i < |q|
    ensures |r| == |q| - 1
    ensures forall k :: 0 <= k < |r| ==> r[k] == if k < i then q[k] else q[k + 1]
  {
    q[..i] + q[i + 1..]
  }
}
