/** Output rows: `decode` notes which token each row belongs to and which rows must change places;
    the first getter afterwards moves the data. */
module OutputReorder {
  import opened Wrappers
  import opened Rows
  import opened RowSwaps

  // ---- recording the swaps ----

  ghost predicate AllDistinct(ids: seq<nat>) {
    forall a, b :: 0 <= a < b < |ids| ==> ids[a] != ids[b]
  }

  /** The first i ids are the smallest ones, in ascending order. */
  ghost predicate SortedBelow(ids: seq<nat>, i: nat) {
    forall a, b :: 0 <= a < i && a < b < |ids| ==> ids[a] < ids[b]
  }

  /** Place p of now holds what the recorded swaps bring there. */
  ghost predicate Traced<T>(was: seq<T>, now: seq<T>, swaps: seq<Swap>) {
    |now| == |was| && InOrder(swaps, |was|)
    && forall p: nat {:trigger Brought(was, now, swaps, p)} :: p < |was| ==> Brought(was, now, swaps, p)
  }

  ghost predicate Brought<T>(was: seq<T>, now: seq<T>, swaps: seq<Swap>, p: nat) {
    p < |now| && Origin(swaps, |swaps|, p) < |was| && now[p] == was[Origin(swaps, |swaps|, p)]
  }

  /** Every swap starts further right than the one before. */
  ghost predicate Ascending(swaps: seq<Swap>) {
    forall a, b :: 0 <= a < b < |swaps| ==> swaps[a].i0 < swaps[b].i0
  }

  lemma TraceOne<T>(was: seq<T>, now: seq<T>, swaps: seq<Swap>, s: Swap)
    requires Traced(was, now, swaps) && s.i0 < s.i1 < |was|
    ensures Traced(was, now[s.i0 := now[s.i1]][s.i1 := now[s.i0]], swaps + [s])
  {
    var next, all := now[s.i0 := now[s.i1]][s.i1 := now[s.i0]], swaps + [s];
    forall p: nat {:trigger Brought(was, next, all, p)} | p < |was|
      ensures Brought(was, next, all, p)
    {
      assert Brought(was, now, swaps, Exchange(s, p));
      OriginPrefix(swaps, |swaps|, [s], Exchange(s, p));
      assert all[|swaps|] == s;
    }
  }

  lemma TracedBound(was: seq<nat>, now: seq<nat>, swaps: seq<Swap>, bound: nat)
    requires Traced(was, now, swaps) && forall p :: 0 <= p < |was| ==> was[p] < bound
    ensures forall p :: 0 <= p < |now| ==> now[p] < bound
  {
    forall p: nat | p < |now|
      ensures now[p] < bound
    {
      assert Brought(was, now, swaps, p);
    }
  }

  /** The selection sort of the output ids, recording its swaps. */
  method SortIds(ids: array<nat>) returns (swaps: seq<Swap>)
    requires AllDistinct(ids[..]) && ids.Length > 0
    modifies ids
    ensures Traced(old(ids[..]), ids[..], swaps) && Ascending(swaps)
    ensures SortedBelow(ids[..], ids.Length)
  {
    swaps := [];
    for i := 0 to ids.Length - 1
      invariant AllDistinct(ids[..]) && SortedBelow(ids[..], i)
      invariant Traced(old(ids[..]), ids[..], swaps)
      invariant Ascending(swaps) && forall a :: 0 <= a < |swaps| ==> swaps[a].i0 < i
    {
      var jMin := i;
      for j := i + 1 to ids.Length
        invariant i <= jMin < ids.Length
        invariant forall b :: i <= b < j ==> ids[jMin] <= ids[b]
      {
        if ids[j] < ids[jMin] {
          jMin := j;
        }
      }
      if jMin != i {
        TraceOne(old(ids[..]), ids[..], swaps, Swap(i, jMin));
        ids[i], ids[jMin] := ids[jMin], ids[i];
        swaps := swaps + [Swap(i, jMin)];
      }
    }
  }

  // ---- the token-to-row table ----

  /** Entry ids[p] says p for the first k ids; every other entry says that there is no row. */
  ghost predicate Tabled(table: seq<int>, ids: seq<nat>, k: nat)
    requires k <= |ids|
  {
    (forall p :: 0 <= p < k ==> ids[p] < |table| && table[ids[p]] == p)
    && forall t :: 0 <= t < |table| && table[t] != -1 ==> 0 <= table[t] < k && ids[table[t]] == t
  }

  method AssignRows(table: array<int>, ids: array<nat>) returns (inOrder: bool)
    requires table as object != ids as object
    requires AllDistinct(ids[..]) && forall p :: 0 <= p < ids.Length ==> ids[p] < table.Length
    requires forall t :: 0 <= t < table.Length ==> table[t] == -1
    modifies table
    ensures Tabled(table[..], ids[..], ids.Length)
    ensures inOrder == forall p :: 0 <= p < ids.Length ==> ids[p] == p
  {
    inOrder := true;
    for i := 0 to ids.Length
      invariant Tabled(table[..], ids[..], i)
      invariant inOrder == forall p :: 0 <= p < i ==> ids[p] == p
    {
      table[ids[i]] := i;
      if ids[i] != i {
        inOrder := false;
      }
    }
  }

  method Forget(table: array<int>)
    modifies table
    ensures forall t :: 0 <= t < table.Length ==> table[t] == -1
  {
    for t := 0 to table.Length
      invariant forall i :: 0 <= i < t ==> table[i] == -1
    {
      table[t] := -1;
    }
  }

  /** Row p of a buffer of w-wide rows. */
  ghost function RowOf<T>(buf: seq<T>, w: nat, p: nat): seq<T> {
    if Row(w, p) + w <= |buf| then buf[Row(w, p)..Row(w, p) + w] else []
  }

  lemma RowOfAt<T>(buf: seq<T>, w: nat, p: nat, d: nat)
    requires d < w && Row(w, p) + w <= |buf|
    ensures |RowOf(buf, w, p)| == w && RowOf(buf, w, p)[d] == buf[Place(w, p, d)]
  {
  }

  lemma RowFollows<T>(before: seq<T>, after: seq<T>, w: nat, n: nat, swaps: seq<Swap>, i: nat)
    requires InOrder(swaps, n) && i < n && Row(w, n) <= |before| && Moved(before, after, w, n, swaps, |swaps|)
    ensures RowOf(after, w, i) == RowOf(before, w, Origin(swaps, |swaps|, i))
  {
    var from := Origin(swaps, |swaps|, i);
    OriginInRange(swaps, |swaps|, n, i);
    RowsApart(w, i, n);
    RowsApart(w, from, n);
    var x, y := RowOf(after, w, i), RowOf(before, w, from);
    forall d: int | 0 <= d < w
      ensures |x| == |y| == w && x[d] == y[d]
    {
      assert Came(before, after, w, swaps, |swaps|, i, d);
      RowOfAt(after, w, i, d);
      RowOfAt(before, w, from, d);
    }
    assert |x| == |y|;
  }

  lemma SameTokens(was: seq<nat>, now: seq<nat>, n: nat, swaps: seq<Swap>)
    requires InOrder(swaps, n) && |was| == |now| == n
    requires forall p: nat :: p < n ==>
               Origin(swaps, |swaps|, p) < n && now[p] == was[Origin(swaps, |swaps|, p)]
    ensures forall t :: t in was <==> t in now
  {
    forall p: nat | p < n
      ensures was[p] in now
    {
      OriginOfDestination(swaps, |swaps|, n, p);
      assert now[Destination(swaps, |swaps|, p)] == was[p];
    }
  }

  class Outputs<T> {
    const vocab: nat
    const nEmbd: nat
    const nEmbdOut: nat
    const outputIds: array<int>
    /** One buffer: the logits first, then the embeddings, then whatever else is put out. */
    const buf: array<T>
    const logitsSize: nat
    const embdSize: nat
    var nOutputs: nat
    var swaps: seq<Swap>
    /** The token whose data each row of the buffers holds at the moment. */
    ghost var tokens: seq<nat>

    ghost predicate Apart() {
      outputIds as object != buf as object && logitsSize + embdSize <= buf.Length
    }

    ghost function Logits(): seq<T>
      requires Apart()
      reads buf
    {
      buf[..logitsSize]
    }

    /** The embeddings and what lies behind them. */
    ghost function FromEmbeddings(): seq<T>
      requires Apart()
      reads buf
    {
      buf[logitsSize..]
    }

    ghost predicate Valid()
      reads this, outputIds
    {
      Apart() && |tokens| == nOutputs && AllDistinct(tokens) && InOrder(swaps, nOutputs)
      && (logitsSize > 0 ==> Row(vocab, nOutputs) <= logitsSize)
      && (embdSize > 0 ==> Row(nEmbdOut, nOutputs) <= embdSize)
      && (forall p: nat {:trigger Points(p)} :: p < nOutputs ==> Points(p))
      && (forall t: nat {:trigger Answered(t)} :: t < outputIds.Length ==> Answered(t))
      && forall p: nat, q: nat {:trigger Due(p), Due(q)} :: p < q < nOutputs ==> Due(p) < Due(q)
    }

    /** The token that place p belongs to once the swaps are done. */
    ghost function Due(p: nat): nat
      reads this
    {
      if Origin(swaps, |swaps|, p) < |tokens| then tokens[Origin(swaps, |swaps|, p)] else 0
    }

    /** The table names either no row for token t or the one that will be its own. */
    ghost predicate Answered(t: nat)
      requires t < outputIds.Length
      reads this, outputIds
    {
      outputIds[t] == -1
      || (0 <= outputIds[t] < nOutputs && Origin(swaps, |swaps|, outputIds[t]) < |tokens|
          && tokens[Origin(swaps, |swaps|, outputIds[t])] == t)
    }

    /** The swapped rows of embeddings lie in the buffer, though perhaps not among the embeddings. */
    ghost predicate RowsFit()
      reads this
    {
      embdSize > 0 ==> logitsSize + Row(nEmbd, Reach(swaps)) <= buf.Length
    }

    /** Once the swaps are done, place p belongs to the token the table gives it to. */
    ghost predicate Points(p: nat)
      reads this, outputIds
    {
      var from := Origin(swaps, |swaps|, p);
      from < |tokens| && tokens[from] < outputIds.Length && outputIds[tokens[from]] == p
    }

    /** Nothing is known about any token, and no swap is pending. */
    method Reserve()
      requires Apart()
      modifies this, outputIds
      ensures Valid() && tokens == [] && swaps == []
      ensures forall t :: 0 <= t < outputIds.Length ==> outputIds[t] == -1
    {
      swaps, nOutputs, tokens := [], 0, [];
      Forget(outputIds);
    }

    /** The end of `decode`: row p of the buffers holds what token ids[p] put out. */
    method MapOutputs(ids: array<nat>)
      requires Apart()
      requires ids as object !in {outputIds as object, buf as object, this as object}
      requires swaps == [] && forall t :: 0 <= t < outputIds.Length ==> outputIds[t] == -1
      requires AllDistinct(ids[..]) && forall p :: 0 <= p < ids.Length ==> ids[p] < outputIds.Length
      requires logitsSize > 0 ==> Row(vocab, ids.Length) <= logitsSize
      requires embdSize > 0 ==> Row(nEmbdOut, ids.Length) <= embdSize
      modifies this, outputIds, ids
      ensures Valid() && nOutputs == ids.Length && tokens == old(ids[..]) && Ascending(swaps)
      // the rows will stand in the order of the tokens in the batch
      ensures SortedBelow(ids[..], ids.Length) && Tabled(outputIds[..], ids[..], ids.Length)
      ensures Traced(old(ids[..]), ids[..], swaps)
    {
      nOutputs, tokens := ids.Length, ids[..];
      if nOutputs > 0 {
        var inOrder := AssignRows(outputIds, ids);
        if !inOrder && nOutputs > 1 {
          SortRows(ids);
        }
      }
      TableIsValid(ids[..]);
    }

    /** The ids in the order of the batch, and the table made anew. */
    method SortRows(ids: array<nat>)
      requires ids as object != outputIds as object && ids.Length > 0
      requires AllDistinct(ids[..]) && forall p :: 0 <= p < ids.Length ==> ids[p] < outputIds.Length
      modifies this`swaps, outputIds, ids
      ensures Ascending(swaps) && Traced(old(ids[..]), ids[..], swaps)
      ensures SortedBelow(ids[..], ids.Length) && Tabled(outputIds[..], ids[..], ids.Length)
    {
      ghost var was := ids[..];
      swaps := SortIds(ids);
      Forget(outputIds);
      TracedBound(was, ids[..], swaps, outputIds.Length);
      var _ := AssignRows(outputIds, ids);
    }

    lemma TableIsValid(ids: seq<nat>)
      requires |tokens| == nOutputs && Traced(tokens, ids, swaps) && Tabled(outputIds[..], ids, |ids|)
      ensures forall p: nat {:trigger Points(p)} :: p < nOutputs ==> Points(p)
      ensures forall t: nat {:trigger Answered(t)} :: t < outputIds.Length ==> Answered(t)
      ensures forall p: nat {:trigger Due(p)} :: p < nOutputs ==> Due(p) == ids[p]
    {
      forall p: nat {:trigger Points(p)} | p < nOutputs
        ensures Points(p)
      {
        assert Brought(tokens, ids, swaps, p);
      }
      forall p: nat {:trigger Due(p)} | p < nOutputs
        ensures Due(p) == ids[p]
      {
        assert Brought(tokens, ids, swaps, p);
      }
      forall t: nat {:trigger Answered(t)} | t < outputIds.Length
        ensures Answered(t)
      {
        if outputIds[t] != -1 {
          assert outputIds[..][t] == outputIds[t];
          assert Brought(tokens, ids, swaps, outputIds[t]);
        }
      }
    }

    // ---- moving the data ----

    method SwapLogits(s: Swap)
      requires Apart() && s.i0 < s.i1 < nOutputs && Row(vocab, nOutputs) <= logitsSize
      modifies buf
      ensures Crossed(old(Logits()), Logits(), vocab, nOutputs, s, vocab) && FromEmbeddings() == old(FromEmbeddings())
    {
      ghost var was := buf[0..];
      SwapRows(buf, 0, vocab, nOutputs, s);
      CrossedBefore(was, buf[0..], vocab, nOutputs, s, logitsSize);
      assert was == old(buf[..]) && buf[0..] == buf[..];
    }

    /** `output_reorder`: apply the pending swaps to every part of the buffer, and forget them. */
    method OutputReorder()
      requires Valid() && RowsFit()
      modifies this`swaps, this`tokens, buf
      ensures Valid() && swaps == []
      ensures |tokens| == |old(tokens)| && forall p: nat :: p < nOutputs ==>
                Origin(old(swaps), |old(swaps)|, p) < nOutputs
                && tokens[p] == old(tokens)[Origin(old(swaps), |old(swaps)|, p)]
      ensures logitsSize > 0 ==> Moved(old(Logits()), Logits(), vocab, nOutputs, old(swaps), |old(swaps)|)
      ensures if embdSize > 0
              then Moved(old(FromEmbeddings()), FromEmbeddings(), nEmbd, Reach(old(swaps)), old(swaps), |old(swaps)|)
              else FromEmbeddings() == old(FromEmbeddings())
    {
      ghost var reach, l0, e0 := Reach(swaps), Logits(), FromEmbeddings();
      ReachBounds(swaps, nOutputs);
      if logitsSize > 0 { MovedByNone(l0, vocab, nOutputs, swaps); }
      if embdSize > 0 { MovedByNone(e0, nEmbd, reach, swaps); }
      for s := 0 to |swaps|
        invariant Valid() && swaps == old(swaps) && tokens == old(tokens)
        invariant logitsSize > 0 ==> Moved(l0, Logits(), vocab, nOutputs, swaps, s)
        invariant if embdSize > 0 then Moved(e0, FromEmbeddings(), nEmbd, reach, swaps, s) else FromEmbeddings() == e0
      {
        if logitsSize > 0 {
          ghost var mid := Logits();
          SwapLogits(swaps[s]);
          MoveOne(l0, mid, Logits(), vocab, nOutputs, swaps, s);
        }
        if embdSize > 0 {
          ghost var mid := FromEmbeddings();
          SwapRows(buf, logitsSize, nEmbd, reach, swaps[s]);
          MoveOne(e0, mid, FromEmbeddings(), nEmbd, reach, swaps, s);
        }
      }
      Settle();
    }

    /** The swaps are done: the rows are where the table says. */
    method Settle()
      requires Valid()
      modifies this`swaps, this`tokens
      ensures Valid() && swaps == []
      ensures |tokens| == |old(tokens)| && forall p: nat :: p < nOutputs ==>
                Origin(old(swaps), |old(swaps)|, p) < nOutputs
                && tokens[p] == old(tokens)[Origin(old(swaps), |old(swaps)|, p)]
    {
      ghost var was, done, n := tokens, swaps, nOutputs;
      ghost var next := seq(n, p requires 0 <= p < n => Carried(was, done, n, p));
      forall p: nat | p < nOutputs
        ensures Origin(done, |done|, p) < n && next[p] == was[Origin(done, |done|, p)] == Due(p) && Points(p)
      {
        OriginInRange(done, |done|, nOutputs, p);
      }
      forall p: nat, q: nat | p < q < nOutputs
        ensures next[p] != next[q]
      {
        OriginInjective(done, |done|, p, q);
      }
      forall t: nat | t < outputIds.Length && outputIds[t] != -1
        ensures 0 <= outputIds[t] < n && next[outputIds[t]] == t
      {
        assert Answered(t);
      }
      tokens, swaps := next, [];
    }

    // ---- the getters ----

    /** `output_resolve_row`: negative numbers count rows from the end; None stands for the error. */
    method ResolveRow(i: int) returns (r: Option<nat>)
      requires Valid() && swaps == []
      ensures r.Some? <==> (i < 0 <= nOutputs + i) || (i >= 0 && i in tokens)
      ensures r.Some? ==> r.value < nOutputs && if i < 0 then r.value == nOutputs + i else tokens[r.value] == i
    {
      var j;
      if i < 0 {
        j := nOutputs + i;
      } else if i >= outputIds.Length {
        j := -1;
      } else {
        j := outputIds[i];
        assert Answered(i);
      }
      if i >= 0 && i in tokens {
        var p: nat :| p < |tokens| && tokens[p] == i;
        assert Points(p);
      }
      if j < 0 || j >= nOutputs {
        return None;
      }
      return Some(j);
    }

    /** `get_logits_ith`: where the logits of token i stand, as an offset. */
    method GetLogitsIth(i: int) returns (r: Option<nat>)
      requires Valid() && RowsFit()
      modifies this`swaps, this`tokens, buf
      ensures Valid() && swaps == [] && SortedBelow(tokens, nOutputs)
      ensures r.Some? <==> logitsSize > 0 && ((i < 0 <= nOutputs + i) || (i >= 0 && i in old(tokens)))
      ensures r.Some? ==> exists j: nat, p: nat ::
                j < nOutputs && p < nOutputs && r.value == Row(vocab, j)
                && tokens[j] == old(tokens)[p] && (if i < 0 then j == nOutputs + i else tokens[j] == i)
                && RowOf(Logits(), vocab, j) == old(RowOf(Logits(), vocab, p))
    {
      OutputReorder();
      assert forall p: nat :: p < nOutputs ==> Due(p) == tokens[p];
      SameTokens(old(tokens), tokens, nOutputs, old(swaps));
      if logitsSize == 0 {
        return None;
      }
      var row := ResolveRow(i);
      if row == None {
        return None;
      }
      ghost var p := Origin(old(swaps), |old(swaps)|, row.value);
      RowFollows(old(Logits()), Logits(), vocab, nOutputs, old(swaps), row.value);
      assert RowOf(Logits(), vocab, row.value) == old(RowOf(Logits(), vocab, p));
      return Some(Row(vocab, row.value));
    }

    /** `get_embeddings_ith`: the offset is that of an nEmbdOut-wide row, which is the token's own as
        long as the swapped rows have that width. */
    method GetEmbeddingsIth(i: int) returns (r: Option<nat>)
      requires Valid() && RowsFit()
      modifies this`swaps, this`tokens, buf
      ensures Valid() && swaps == [] && SortedBelow(tokens, nOutputs)
      ensures r.Some? <==> embdSize > 0 && ((i < 0 <= nOutputs + i) || (i >= 0 && i in old(tokens)))
      ensures r.Some? ==> exists j: nat, p: nat ::
                j < nOutputs && p < nOutputs && r.value == logitsSize + Row(nEmbdOut, j)
                && tokens[j] == old(tokens)[p] && (if i < 0 then j == nOutputs + i else tokens[j] == i)
                && (nEmbd == nEmbdOut ==>
                      RowOf(FromEmbeddings(), nEmbdOut, j) == old(RowOf(FromEmbeddings(), nEmbdOut, p)))
    {
      OutputReorder();
      assert forall p: nat :: p < nOutputs ==> Due(p) == tokens[p];
      SameTokens(old(tokens), tokens, nOutputs, old(swaps));
      if embdSize == 0 {
        return None;
      }
      var row := ResolveRow(i);
      if row == None {
        return None;
      }
      ghost var p := Origin(old(swaps), |old(swaps)|, row.value);
      if nEmbd == nEmbdOut {
        ReachBounds(old(swaps), nOutputs);
        MovedFurther(old(FromEmbeddings()), FromEmbeddings(), nEmbd, Reach(old(swaps)), nOutputs, old(swaps));
        RowFollows(old(FromEmbeddings()), FromEmbeddings(), nEmbd, nOutputs, old(swaps), row.value);
      }
      assert nEmbd == nEmbdOut ==>
        RowOf(FromEmbeddings(), nEmbdOut, row.value) == old(RowOf(FromEmbeddings(), nEmbdOut, p));
      return Some(logitsSize + Row(nEmbdOut, row.value));
    }
  }

  /** The token that the swaps bring to row p. */
  ghost function Carried(tokens: seq<nat>, swaps: seq<Swap>, n: nat, p: nat): nat
    requires |tokens| == n && InOrder(swaps, n) && p < n
  {
    OriginInRange(swaps, |swaps|, n, p);
    tokens[Origin(swaps, |swaps|, p)]
  }
}
