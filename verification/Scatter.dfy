/** Reading and writing listed places of a sequence. */
module Scatter {
  import opened SlotSearch
  import opened SlotFacts

  function Picked<T>(s: seq<T>, idxs: seq<nat>): (r: seq<T>)
    requires Indices(idxs, |s|)
    ensures |r| == |idxs| && forall k :: 0 <= k < |idxs| ==> r[k] == s[idxs[k]]
  {
    seq(|idxs|, k requires 0 <= k < |idxs| && Indices(idxs, |s|) => s[idxs[k]])
  }

  /** Write vals to the listed places, in order. */
  function PutBack<T>(s: seq<T>, idxs: seq<nat>, vals: seq<T>): (r: seq<T>)
    requires |idxs| == |vals| && Indices(idxs, |s|)
    ensures |r| == |s|
  {
    if idxs == [] then s
    else
      var k := |idxs| - 1;
      PutBack(s, idxs[..k], vals[..k])[idxs[k] := vals[k]]
  }

  lemma {:induction false} PutBackAt<T>(s: seq<T>, idxs: seq<nat>, vals: seq<T>)
    requires |idxs| == |vals| && Indices(idxs, |s|) && Distinct(idxs)
    ensures forall k :: 0 <= k < |idxs| ==> PutBack(s, idxs, vals)[idxs[k]] == vals[k]
    ensures forall i :: 0 <= i < |s| && i !in idxs ==> PutBack(s, idxs, vals)[i] == s[i]
    ensures Picked(PutBack(s, idxs, vals), idxs) == vals
  {
    if idxs != [] {
      var k := |idxs| - 1;
      PutBackAt(s, idxs[..k], vals[..k]);
      assert forall j :: 0 <= j < k ==> idxs[..k][j] == idxs[j] && vals[..k][j] == vals[j];
    }
  }

  /** The copy loop, one place after the other. */
  method RestoreCells<T>(s: seq<T>, idxs: seq<nat>, vals: seq<T>) returns (r: seq<T>)
    requires |idxs| == |vals| && Indices(idxs, |s|)
    ensures r == PutBack(s, idxs, vals)
  {
    r := s;
    for k := 0 to |idxs|
      invariant |r| == |s| && r == PutBack(s, idxs[..k], vals[..k])
    {
      r := r[idxs[k] := vals[k]];
      assert idxs[..k + 1][..k] == idxs[..k] && vals[..k + 1][..k] == vals[..k];
    }
    assert idxs[..|idxs|] == idxs && vals[..|idxs|] == vals;
  }
}
