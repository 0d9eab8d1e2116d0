/** The heads of a cache with several streams across `prepare`: every entry of the recovery stack
    keeps all heads, but the unwinding takes the one at the block's number, not at its stream. */
module PrepareHeads {
  /** One ubatch: block s went to stream strm[s]; the heads as they were before. */
  datatype Entry = Entry(strm: seq<nat>, headsOld: seq<nat>)

  predicate EntryValid(e: Entry, n: nat) {
    |e.headsOld| == n && |e.strm| <= n
    && (forall s :: 0 <= s < |e.strm| ==> e.strm[s] < n)
    && forall s, s' :: 0 <= s < s' < |e.strm| ==> e.strm[s] != e.strm[s']
  }

  ghost predicate StackValid(es: seq<Entry>, n: nat) {
    forall i :: 0 <= i < |es| ==> EntryValid(es[i], n)
  }

  /** A ubatch moves the heads of its own streams only. */
  ghost predicate Moves(e: Entry, after: seq<nat>) {
    |after| == |e.headsOld| && forall x :: 0 <= x < |after| && x !in e.strm ==> after[x] == e.headsOld[x]
  }

  /** The stack recorded while placing a batch, from heads h0 to heads h. */
  ghost predicate Recorded(h0: seq<nat>, es: seq<Entry>, h: seq<nat>) {
    |h| == |h0| && StackValid(es, |h0|)
    && (es == [] ==> h == h0)
    && (es != [] ==> es[0].headsOld == h0 && Moves(es[|es| - 1], h))
    && forall i :: 0 <= i < |es| - 1 ==> Moves(es[i], es[i + 1].headsOld)
  }

  /** Undo the first s blocks of an entry. */
  function Undone(heads: seq<nat>, e: Entry, s: nat): (r: seq<nat>)
    requires EntryValid(e, |heads|) && s <= |e.strm|
    ensures |r| == |heads|
  {
    if s == 0 then heads else Undone(heads, e, s - 1)[e.strm[s - 1] := e.headsOld[s - 1]]
  }

  /** Undo the first n entries, last one first. */
  function Unwound(heads: seq<nat>, es: seq<Entry>, n: nat): (r: seq<nat>)
    requires n <= |es| && StackValid(es, |heads|)
    ensures |r| == |heads|
    decreases n
  {
    if n == 0 then heads else Unwound(Undone(heads, es[n - 1], |es[n - 1].strm|), es, n - 1)
  }

  /** The unwinding loops of `prepare`, as far as the heads go. */
  method Unwind(heads: array<nat>, es: seq<Entry>)
    requires StackValid(es, heads.Length)
    modifies heads
    ensures heads[..] == Unwound(old(heads[..]), es, |es|)
  {
    var n: nat := |es|;
    while n > 0
      invariant n <= |es| && Unwound(heads[..], es, n) == Unwound(old(heads[..]), es, |es|)
    {
      var e := es[n - 1];
      ghost var was := heads[..];
      for s := 0 to |e.strm|
        invariant heads[..] == Undone(was, e, s)
      {
        heads[e.strm[s]] := e.headsOld[s];
      }
      n := n - 1;
    }
  }

  lemma {:induction false} UndoneAt(heads: seq<nat>, e: Entry, s: nat, x: nat)
    requires EntryValid(e, |heads|) && s <= |e.strm| && x < |heads|
    ensures forall k :: 0 <= k < s && e.strm[k] == x ==> Undone(heads, e, s)[x] == e.headsOld[k]
    ensures (forall k :: 0 <= k < s ==> e.strm[k] != x) ==> Undone(heads, e, s)[x] == heads[x]
  {
    if s > 0 {
      UndoneAt(heads, e, s - 1, x);
    }
  }

  /** The first of the entries from i on that has a block for stream x (|es| if there is none). */
  function FirstFor(es: seq<Entry>, i: nat, x: nat): (j: nat)
    requires i <= |es|
    ensures i <= j <= |es| && (j < |es| ==> x in es[j].strm)
    ensures forall k :: i <= k < j ==> x !in es[k].strm
    decreases |es| - i
  {
    if i == |es| || x in es[i].strm then i else FirstFor(es, i + 1, x)
  }

  /** Undoing entries without a block for stream x leaves its head alone. */
  lemma {:induction false} UnwoundElsewhere(heads: seq<nat>, es: seq<Entry>, n: nat, x: nat)
    requires n <= |es| && StackValid(es, |heads|) && x < |heads|
    requires forall k :: 0 <= k < n ==> x !in es[k].strm
    ensures Unwound(heads, es, n)[x] == heads[x]
    decreases n
  {
    if n > 0 {
      UndoneAt(heads, es[n - 1], |es[n - 1].strm|, x);
      UnwoundElsewhere(Undone(heads, es[n - 1], |es[n - 1].strm|), es, n - 1, x);
    }
  }

  /** What a stream's head ends up as: the head number s noted by the first entry with a block for
      it, s being that block's number. */
  lemma {:induction false} UnwoundAt(heads: seq<nat>, es: seq<Entry>, n: nat, x: nat, j: nat, s: nat)
    requires j < n <= |es| && StackValid(es, |heads|) && x < |heads|
    requires s < |es[j].strm| && es[j].strm[s] == x && forall k :: 0 <= k < j ==> x !in es[k].strm
    ensures Unwound(heads, es, n)[x] == es[j].headsOld[s]
    decreases n
  {
    var next := Undone(heads, es[n - 1], |es[n - 1].strm|);
    if j < n - 1 {
      UnwoundAt(next, es, n - 1, x, j, s);
    } else {
      UndoneAt(heads, es[j], |es[j].strm|, x);
      UnwoundElsewhere(next, es, n - 1, x);
    }
  }

  /** Until its first entry a stream's head does not move. */
  lemma {:induction false} NotedUnmoved(h0: seq<nat>, es: seq<Entry>, h: seq<nat>, i: nat, x: nat)
    requires Recorded(h0, es, h) && i <= |es| && x < |h0| && forall k :: 0 <= k < i ==> x !in es[k].strm
    ensures (if i < |es| then es[i].headsOld else h)[x] == h0[x]
  {
    if i > 0 {
      NotedUnmoved(h0, es, h, i - 1, x);
      assert i < |es| ==> Moves(es[i - 1], es[i].headsOld);
    }
  }

  /** The head of stream x is restored. */
  ghost predicate Meets(h0: seq<nat>, es: seq<Entry>, x: nat)
    requires x < |h0| && StackValid(es, |h0|)
  {
    var j := FirstFor(es, 0, x);
    j < |es| ==> forall s :: 0 <= s < |es[j].strm| && es[j].strm[s] == x ==> es[j].headsOld[s] == h0[x]
  }

  /** `prepare` leaves the heads as it found them exactly if, for every stream that got a block, the
      head noted under that block's number happens to equal the stream's own. */
  lemma HeadsRestored(h0: seq<nat>, es: seq<Entry>, h: seq<nat>)
    requires Recorded(h0, es, h)
    ensures Unwound(h, es, |es|) == h0 <==> forall x: nat :: x < |h0| ==> Meets(h0, es, x)
  {
    forall x: nat | x < |h0|
      ensures Unwound(h, es, |es|)[x] == h0[x] <==> Meets(h0, es, x)
    {
      var j := FirstFor(es, 0, x);
      if j == |es| {
        UnwoundElsewhere(h, es, |es|, x);
        NotedUnmoved(h0, es, h, |es|, x);
      } else {
        var s :| 0 <= s < |es[j].strm| && es[j].strm[s] == x;
        UnwoundAt(h, es, |es|, x, j, s);
      }
    }
  }

  /** The first block that stream x gets carries the stream's own number. */
  ghost predicate InPlace(es: seq<Entry>, x: nat) {
    var j := FirstFor(es, 0, x);
    j < |es| ==> forall s :: 0 <= s < |es[j].strm| && es[j].strm[s] == x ==> s == x
  }

  ghost predicate AllDifferent(heads: seq<nat>) {
    forall x, y :: 0 <= x < y < |heads| ==> heads[x] != heads[y]
  }

  lemma InPlaceMeets(h0: seq<nat>, es: seq<Entry>, h: seq<nat>, x: nat)
    requires Recorded(h0, es, h) && x < |h0|
    ensures InPlace(es, x) ==> Meets(h0, es, x)
    ensures FirstFor(es, 0, x) < |es| && AllDifferent(es[FirstFor(es, 0, x)].headsOld) && Meets(h0, es, x)
            ==> InPlace(es, x)
  {
    NotedUnmoved(h0, es, h, FirstFor(es, 0, x), x);
  }

  /** Whatever the heads are, they come back when each stream's first block carries the stream's
      number; as always with one stream. */
  lemma BlocksInPlaceRestore(h0: seq<nat>, es: seq<Entry>, h: seq<nat>)
    requires Recorded(h0, es, h) && forall x: nat :: x < |h0| ==> InPlace(es, x)
    ensures Unwound(h, es, |es|) == h0
  {
    forall x: nat | x < |h0|
      ensures Meets(h0, es, x)
    {
      InPlaceMeets(h0, es, h, x);
    }
    HeadsRestored(h0, es, h);
  }

  /** As long as no two streams have the same head, that is also the only way they come back. */
  lemma BlocksDecide(h0: seq<nat>, es: seq<Entry>, h: seq<nat>)
    requires Recorded(h0, es, h) && forall i :: 0 <= i < |es| ==> AllDifferent(es[i].headsOld)
    ensures Unwound(h, es, |es|) == h0 <==> forall x: nat :: x < |h0| ==> InPlace(es, x)
  {
    HeadsRestored(h0, es, h);
    forall x: nat | x < |h0|
      ensures Meets(h0, es, x) <==> InPlace(es, x)
    {
      InPlaceMeets(h0, es, h, x);
    }
  }

  /** A batch for stream 1 alone leaves that stream with the head of stream 0. */
  lemma SecondStreamLosesItsHead(a: nat, b: nat, c: nat)
    requires a != b
    ensures Recorded([a, b], [Entry([1], [a, b])], [a, c])
    ensures Unwound([a, c], [Entry([1], [a, b])], 1) == [a, a] != [a, b]
  {
    var e := Entry([1], [a, b]);
    assert Undone([a, c], e, 1) == Undone([a, c], e, 0)[1 := a];
    assert Unwound([a, c], [e], 1) == Unwound(Undone([a, c], e, 1), [e], 0);
  }
}
