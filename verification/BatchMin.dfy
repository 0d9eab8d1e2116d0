/** The lowest position each sequence has in a batch, counting a token for its first sequence only. */
module BatchMin {
  import opened Wrappers
  import opened KvCells
  import opened Placement

  /** The lowest position among the tokens whose first sequence is q; POS_MAX when there is none. */
  function LeadMin(toks: seq<Tok>, q: nat): (m: int)
    ensures m <= POS_MAX
    ensures forall k :: 0 <= k < |toks| && toks[k].ids != [] && toks[k].ids[0] == q ==> m <= toks[k].pos
    ensures m < POS_MAX ==> exists k :: 0 <= k < |toks| && toks[k].ids != [] && toks[k].ids[0] == q && toks[k].pos == m
  {
    if toks == [] then POS_MAX
    else
      var t := toks[|toks| - 1];
      var rest := LeadMin(toks[..|toks| - 1], q);
      if t.ids != [] && t.ids[0] == q then Min(rest, t.pos) else rest
  }

  /** The lowest position of each sequence, over the first sequence of each token. */
  method LowestPositions(maxSeq: nat, toks: seq<Tok>) returns (posMin: seq<int>)
    requires forall k :: 0 <= k < |toks| ==> toks[k].ids != [] && toks[k].ids[0] < maxSeq
    ensures |posMin| == maxSeq
    ensures forall q :: 0 <= q < maxSeq ==> posMin[q] == LeadMin(toks, q)
  {
    posMin := seq(maxSeq, i => POS_MAX);
    for i := 0 to |toks|
      invariant |posMin| == maxSeq
      invariant forall q :: 0 <= q < maxSeq ==> posMin[q] == LeadMin(toks[..i], q)
    {
      assert toks[..i + 1][..i] == toks[..i];
      var q := toks[i].ids[0];
      posMin := posMin[q := Min(posMin[q], toks[i].pos)];
    }
    assert toks[..|toks|] == toks;
  }
}
