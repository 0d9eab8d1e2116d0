/** Swapping equally long rows of a flat buffer, and the same swaps seen as a permutation of row
    numbers. */
module RowSwaps {
  import opened Rows

  datatype Swap = Swap(i0: nat, i1: nat)

  ghost predicate InOrder(swaps: seq<Swap>, n: nat) {
    forall s :: 0 <= s < |swaps| ==> swaps[s].i0 < swaps[s].i1 < n
  }

  /** One past the last row that is swapped. */
  function Reach(swaps: seq<Swap>): nat {
    if swaps == [] then 0
    else
      var r, s := Reach(swaps[..|swaps| - 1]), swaps[|swaps| - 1];
      if s.i1 < r then r else s.i1 + 1
  }

  lemma {:induction false} ReachBounds(swaps: seq<Swap>, n: nat)
    requires InOrder(swaps, n)
    ensures Reach(swaps) <= n && InOrder(swaps, Reach(swaps))
    ensures swaps != [] ==> exists s :: 0 <= s < |swaps| && swaps[s].i1 + 1 == Reach(swaps)
  {
    if swaps != [] {
      var init, k := swaps[..|swaps| - 1], |swaps| - 1;
      ReachBounds(init, n);
      assert forall s :: 0 <= s < k ==> swaps[s] == init[s];
      assert swaps[k].i1 < Reach(swaps);
    }
  }

  function Exchange(s: Swap, i: nat): nat {
    if i == s.i0 then s.i1 else if i == s.i1 then s.i0 else i
  }

  /** The row that ends up in place i after the first k swaps. */
  function Origin(swaps: seq<Swap>, k: nat, i: nat): nat
    requires k <= |swaps|
  {
    if k == 0 then i else Origin(swaps, k - 1, Exchange(swaps[k - 1], i))
  }

  lemma {:induction false} OriginInRange(swaps: seq<Swap>, k: nat, n: nat, i: nat)
    requires k <= |swaps| && InOrder(swaps, n)
    ensures i < n <==> Origin(swaps, k, i) < n
  {
    if k > 0 {
      OriginInRange(swaps, k - 1, n, Exchange(swaps[k - 1], i));
    }
  }

  lemma {:induction false} OriginInjective(swaps: seq<Swap>, k: nat, i: nat, j: nat)
    requires k <= |swaps| && i != j
    ensures Origin(swaps, k, i) != Origin(swaps, k, j)
  {
    if k > 0 {
      OriginInjective(swaps, k - 1, Exchange(swaps[k - 1], i), Exchange(swaps[k - 1], j));
    }
  }

  /** Where row i ends up after the first k swaps. */
  function Destination(swaps: seq<Swap>, k: nat, i: nat): nat
    requires k <= |swaps|
  {
    if k == 0 then i else Exchange(swaps[k - 1], Destination(swaps, k - 1, i))
  }

  lemma {:induction false} OriginOfDestination(swaps: seq<Swap>, k: nat, n: nat, i: nat)
    requires k <= |swaps| && InOrder(swaps, n)
    ensures Origin(swaps, k, Destination(swaps, k, i)) == i
    ensures i < n ==> Destination(swaps, k, i) < n
  {
    if k > 0 {
      OriginOfDestination(swaps, k - 1, n, i);
      assert Exchange(swaps[k - 1], Exchange(swaps[k - 1], Destination(swaps, k - 1, i)))
          == Destination(swaps, k - 1, i);
    }
  }

  /** Only the swaps taken matter. */
  lemma {:induction false} OriginPrefix(swaps: seq<Swap>, k: nat, more: seq<Swap>, i: nat)
    requires k <= |swaps|
    ensures Origin(swaps + more, k, i) == Origin(swaps, k, i)
  {
    if k > 0 {
      OriginPrefix(swaps, k - 1, more, Exchange(swaps[k - 1], i));
    }
  }

  /** after is before with its w-wide rows moved as the first k swaps say; whatever lies behind the
      n-th row stays. */
  ghost predicate Moved<T>(before: seq<T>, after: seq<T>, w: nat, n: nat, swaps: seq<Swap>, k: nat)
    requires k <= |swaps|
  {
    |after| == |before|
    && (forall i: nat, d: nat {:trigger Came(before, after, w, swaps, k, i, d)} ::
      i < n && d < w ==> Came(before, after, w, swaps, k, i, d))
    && forall p :: Row(w, n) <= p < |before| ==> after[p] == before[p]
  }

  function Place(w: nat, i: nat, d: nat): nat {
    Row(w, i) + d
  }

  ghost predicate Came<T>(before: seq<T>, after: seq<T>, w: nat, swaps: seq<Swap>, k: nat, i: nat, d: nat)
    requires k <= |swaps|
  {
    var from := Place(w, Origin(swaps, k, i), d);
    Place(w, i, d) < |after| && from < |before| && after[Place(w, i, d)] == before[from]
  }

  lemma PlaceBelow(w: nat, i: nat, d: nat, n: nat)
    requires d < w && i < n
    ensures Place(w, i, d) < Row(w, n)
  {
    RowsApart(w, i, n);
  }

  lemma PlaceInjective(w: nat, i: nat, d: nat, j: nat, e: nat)
    requires d < w && e < w && (i != j || d != e)
    ensures Place(w, i, d) != Place(w, j, e)
  {
    if i < j {
      RowsApart(w, i, j);
    } else if j < i {
      RowsApart(w, j, i);
    }
  }

  /** Every element that is touched lies below size exactly if the last row that is swapped does. */
  lemma InsideMeans(w: nat, n: nat, swaps: seq<Swap>, size: nat)
    requires w > 0 && InOrder(swaps, n)
    ensures Row(w, Reach(swaps)) <= size <==>
            forall s, d: nat :: 0 <= s < |swaps| && d < w
                                ==> Place(w, swaps[s].i0, d) < size && Place(w, swaps[s].i1, d) < size
  {
    ReachBounds(swaps, n);
    if Row(w, Reach(swaps)) <= size {
      forall s, d: nat | 0 <= s < |swaps| && d < w
        ensures Place(w, swaps[s].i0, d) < size && Place(w, swaps[s].i1, d) < size
      {
        PlaceBelow(w, swaps[s].i0, d, Reach(swaps));
        PlaceBelow(w, swaps[s].i1, d, Reach(swaps));
      }
    } else {
      var s :| 0 <= s < |swaps| && swaps[s].i1 + 1 == Reach(swaps);
      assert Place(w, swaps[s].i1, w - 1) == Row(w, Reach(swaps)) - 1;
    }
  }

  lemma MovedByNone<T>(s: seq<T>, w: nat, n: nat, swaps: seq<Swap>)
    requires Row(w, n) <= |s|
    ensures Moved(s, s, w, n, swaps, 0)
  {
    forall i: nat, d: nat {:trigger Came(s, s, w, swaps, 0, i, d)} | i < n && d < w
      ensures Came(s, s, w, swaps, 0, i, d)
    {
      PlaceBelow(w, i, d, n);
    }
  }

  lemma {:induction false} OriginBeyond(swaps: seq<Swap>, k: nat, m: nat, i: nat)
    requires k <= |swaps| && InOrder(swaps, m) && m <= i
    ensures Origin(swaps, k, i) == i
  {
    if k > 0 {
      OriginBeyond(swaps, k - 1, m, i);
    }
  }

  /** Rows behind the last swapped one come from themselves. */
  lemma MovedFurther<T>(before: seq<T>, after: seq<T>, w: nat, m: nat, n: nat, swaps: seq<Swap>)
    requires InOrder(swaps, m) && m <= n && Row(w, n) <= |before| && Moved(before, after, w, m, swaps, |swaps|)
    ensures Moved(before, after, w, n, swaps, |swaps|)
  {
    var k := |swaps|;
    if m < n { RowsApart(w, m, n); }
    forall i: nat, d: nat {:trigger Came(before, after, w, swaps, k, i, d)} | i < n && d < w
      ensures Came(before, after, w, swaps, k, i, d)
    {
      if m <= i {
        OriginBeyond(swaps, k, m, i);
        PlaceBelow(w, i, d, n);
        if m < i { RowsApart(w, m, i); }
      }
    }
  }

  /** The columns below c of two rows have been exchanged. */
  ghost predicate Crossed<T>(before: seq<T>, after: seq<T>, w: nat, n: nat, s: Swap, c: nat) {
    |after| == |before| && Row(w, n) <= |before|
    && (forall i: nat, d: nat {:trigger Held(before, after, w, s, c, i, d)} ::
      i < n && d < w ==> Held(before, after, w, s, c, i, d))
    && forall p :: Row(w, n) <= p < |before| ==> after[p] == before[p]
  }

  ghost predicate Held<T>(before: seq<T>, after: seq<T>, w: nat, s: Swap, c: nat, i: nat, d: nat) {
    var from := Place(w, if d < c then Exchange(s, i) else i, d);
    Place(w, i, d) < |after| && from < |before| && after[Place(w, i, d)] == before[from]
  }

  lemma CrossOne<T>(before: seq<T>, mid: seq<T>, after: seq<T>, w: nat, n: nat, s: Swap, c: nat)
    requires s.i0 < s.i1 < n && c < w && Crossed(before, mid, w, n, s, c)
    requires Place(w, s.i0, c) < |mid| && Place(w, s.i1, c) < |mid|
    requires after == mid[Place(w, s.i0, c) := mid[Place(w, s.i1, c)]][Place(w, s.i1, c) := mid[Place(w, s.i0, c)]]
    ensures Crossed(before, after, w, n, s, c + 1)
  {
    PlaceBelow(w, s.i0, c, n);
    PlaceBelow(w, s.i1, c, n);
    forall i: nat, d: nat {:trigger Held(before, after, w, s, c + 1, i, d)} | i < n && d < w
      ensures Held(before, after, w, s, c + 1, i, d)
    {
      assert Held(before, mid, w, s, c, i, d);
      assert Held(before, mid, w, s, c, s.i0, c) && Held(before, mid, w, s, c, s.i1, c);
      if i != s.i0 || d != c { PlaceInjective(w, i, d, s.i0, c); }
      if i != s.i1 || d != c { PlaceInjective(w, i, d, s.i1, c); }
    }
  }

  lemma CrossedNone<T>(s: seq<T>, w: nat, n: nat, sw: Swap)
    requires Row(w, n) <= |s|
    ensures Crossed(s, s, w, n, sw, 0)
  {
    forall i: nat, d: nat {:trigger Held(s, s, w, sw, 0, i, d)} | i < n && d < w
      ensures Held(s, s, w, sw, 0, i, d)
    {
      PlaceBelow(w, i, d, n);
    }
  }

  lemma MoveOne<T>(first: seq<T>, before: seq<T>, after: seq<T>, w: nat, n: nat, swaps: seq<Swap>, k: nat)
    requires k < |swaps| && InOrder(swaps, n)
    requires Moved(first, before, w, n, swaps, k) && Crossed(before, after, w, n, swaps[k], w)
    ensures Moved(first, after, w, n, swaps, k + 1)
  {
    forall i: nat, d: nat {:trigger Came(first, after, w, swaps, k + 1, i, d)} | i < n && d < w
      ensures Came(first, after, w, swaps, k + 1, i, d)
    {
      assert Held(before, after, w, swaps[k], w, i, d);
      assert Came(first, before, w, swaps, k, Exchange(swaps[k], i), d);
    }
  }

  /** Rows that end before place p leave what lies from p on alone. */
  lemma CrossedBefore<T>(before: seq<T>, after: seq<T>, w: nat, n: nat, s: Swap, p: nat)
    requires Crossed(before, after, w, n, s, w) && s.i0 < s.i1 < n && Row(w, n) <= p <= |before|
    ensures Crossed(before[..p], after[..p], w, n, s, w) && after[p..] == before[p..]
  {
    var x, y := before[..p], after[..p];
    forall i: nat, d: nat {:trigger Held(x, y, w, s, w, i, d)} | i < n && d < w
      ensures Held(x, y, w, s, w, i, d)
    {
      assert Held(before, after, w, s, w, i, d);
      PlaceBelow(w, i, d, n);
      PlaceBelow(w, Exchange(s, i), d, n);
    }
  }

  /** Exchange two w-wide rows, element by element; the first row begins at base. */
  method SwapRows<T>(a: array<T>, base: nat, w: nat, ghost n: nat, s: Swap)
    requires s.i0 < s.i1 < n && base + Row(w, n) <= a.Length
    modifies a
    ensures Crossed(old(a[base..]), a[base..], w, n, s, w) && a[..base] == old(a[..base])
  {
    CrossedNone(a[base..], w, n, s);
    for c := 0 to w
      invariant Crossed(old(a[base..]), a[base..], w, n, s, c) && a[..base] == old(a[..base])
    {
      PlaceBelow(w, s.i0, c, n);
      PlaceBelow(w, s.i1, c, n);
      ghost var mid := a[base..];
      var p, q := base + Place(w, s.i0, c), base + Place(w, s.i1, c);
      a[p], a[q] := a[q], a[p];
      assert a[base..] == mid[p - base := mid[q - base]][q - base := mid[p - base]];
      CrossOne(old(a[base..]), mid, a[base..], w, n, s, c);
    }
  }
}
