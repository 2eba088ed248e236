/** Small sequence utilities used by the collections of the in-memory store. */
module Seqs {

  /** The sequence without its element at index `i` (Array.prototype.splice(i, 1)). */
  function RemoveAt<T>(s: seq<T>, i: nat): (r: seq<T>)
    requires i < |s|
    ensures |r| == |s| - 1
    ensures forall j :: 0 <= j < i ==> r[j] == s[j]
    ensures forall j :: i <= j < |r| ==> r[j] == s[j + 1]
  {
    s[..i] + s[i + 1..]
  }

  /** The first `n` elements, or all of them when there are fewer (Array.prototype.slice(0, n)). */
  function Take<T>(s: seq<T>, n: nat): (r: seq<T>)
    ensures |r| <= n && |r| <= |s|
    ensures |r| == n || |r| == |s|
    ensures forall j :: 0 <= j < |r| ==> r[j] == s[j]
  {
    if n < |s| then s[..n] else s
  }
}
