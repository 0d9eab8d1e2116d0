/** `decode` writes, and the getters read, one embedding every nOut elements, but `output_reorder`
    swaps rows of nEmbd elements. When that still gives every token its own embedding. */
module EmbeddingStride {
  import opened Rows
  import opened RowSwaps
  import opened OutputReorder

  /** Every token finds its own embedding: rows of width o have moved as the swaps say. */
  ghost predicate EmbeddingsFollow<T>(before: seq<T>, after: seq<T>, o: nat, n: nat, swaps: seq<Swap>) {
    forall i: nat, d: nat {:trigger Came(before, after, o, swaps, |swaps|, i, d)} ::
      i < n && d < o ==> Came(before, after, o, swaps, |swaps|, i, d)
  }

  ghost predicate AllDifferent<T>(s: seq<T>) {
    forall a, b :: 0 <= a < b < |s| ==> s[a] != s[b]
  }

  /** Rows left of the first swap stay, and the row it starts with goes elsewhere for good. */
  lemma {:induction false} FirstRowMoves(swaps: seq<Swap>, k: nat, n: nat)
    requires 0 < k <= |swaps| && InOrder(swaps, n) && Ascending(swaps)
    ensures Origin(swaps, k, swaps[0].i0) == swaps[0].i1
    ensures forall i: nat :: i < swaps[0].i0 ==> Origin(swaps, k, i) == i
  {
    if k > 1 {
      FirstRowMoves(swaps, k - 1, n);
      assert swaps[0].i0 < swaps[k - 1].i0;
    } else {
      assert forall i: nat :: Origin(swaps, 1, i) == Origin(swaps, 0, Exchange(swaps[0], i));
    }
  }

  /** The last row that moves. */
  lemma {:induction false} LastMoved(swaps: seq<Swap>, n: nat, m: nat, a: nat) returns (r: nat)
    requires a < m <= n && Origin(swaps, |swaps|, a) != a
    requires forall i: nat :: m <= i < n ==> Origin(swaps, |swaps|, i) == i
    ensures r < n && Origin(swaps, |swaps|, r) != r
    ensures forall i: nat :: r < i < n ==> Origin(swaps, |swaps|, i) == i
  {
    if Origin(swaps, |swaps|, m - 1) != m - 1 {
      r := m - 1;
    } else {
      r := LastMoved(swaps, n, m - 1, a);
    }
  }

  /** Row and column of a place. */
  lemma {:induction false} Locate(w: nat, n: nat, p: nat) returns (i: nat, d: nat)
    requires p < Row(w, n)
    ensures i < n && d < w && p == Place(w, i, d)
  {
    if p >= Row(w, n - 1) {
      i, d := n - 1, p - Row(w, n - 1);
    } else {
      i, d := Locate(w, n - 1, p);
    }
  }

  lemma {:induction false} WiderIsFurther(w: nat, o: nat, i: nat)
    requires w < o
    ensures Row(w, i) + i <= Row(o, i)
  {
    if i > 0 {
      WiderIsFurther(w, o, i - 1);
    }
  }

  /** A place outside the rows that move keeps its element. */
  lemma Unmoved<T>(before: seq<T>, after: seq<T>, w: nat, n: nat, swaps: seq<Swap>, lo: nat, hi: nat, p: nat)
    requires Moved(before, after, w, n, swaps, |swaps|) && p < |before| && lo <= hi < n
    requires forall i: nat :: i < n && (i < lo || hi < i) ==> Origin(swaps, |swaps|, i) == i
    requires p < Row(w, lo) || Row(w, hi + 1) <= p
    ensures after[p] == before[p]
  {
    if p < Row(w, n) {
      var i, d := Locate(w, n, p);
      if lo <= i <= hi {
        RowsBetween(w, lo, i, hi, d);
      }
      assert Came(before, after, w, swaps, |swaps|, i, d);
    }
  }

  lemma RowsBetween(w: nat, lo: nat, i: nat, hi: nat, d: nat)
    requires lo <= i <= hi && d < w
    ensures Row(w, lo) <= Place(w, i, d) < Row(w, hi + 1)
  {
    if lo < i {
      RowsApart(w, lo, i);
    }
    RowsApart(w, i, hi + 1);
  }

  /** Swaps of w-wide rows done to a buffer that holds them. */
  ghost predicate Swapped<T>(before: seq<T>, after: seq<T>, w: nat, swaps: seq<Swap>) {
    Row(w, Reach(swaps)) <= |before| && Moved(before, after, w, Reach(swaps), swaps, |swaps|)
  }

  /** With swaps pending and different widths, some token gets a foreign element. */
  lemma WrongStrideMixes<T>(before: seq<T>, after: seq<T>, w: nat, o: nat, n: nat, swaps: seq<Swap>)
    requires w > 0 && o > 0 && w != o && Row(o, n) <= |before| && AllDifferent(before)
    requires InOrder(swaps, n) && Ascending(swaps) && swaps != [] && Swapped(before, after, w, swaps)
    ensures !EmbeddingsFollow(before, after, o, n, swaps)
  {
    ReachBounds(swaps, n);
    var k, m, a, b := |swaps|, Reach(swaps), swaps[0].i0, swaps[0].i1;
    FirstRowMoves(swaps, k, m);
    if a == 0 {
      FirstElementMixes(before, after, w, o, n, swaps);
    } else if o < w {
      WiderIsFurther(o, w, a);
      PlaceBelow(o, a, 0, n);
      Unmoved(before, after, w, m, swaps, a, m - 1, Place(o, a, 0));
      PlaceInjective(o, a, 0, b, 0);
      assert !Came(before, after, o, swaps, k, a, 0);
    } else {
      var r := LastMoved(swaps, m, m, a);
      WiderIsFurther(w, o, r + 1);
      PlaceBelow(o, r, o - 1, n);
      Unmoved(before, after, w, m, swaps, 0, r, Place(o, r, o - 1));
      PlaceInjective(o, r, o - 1, Origin(swaps, k, r), o - 1);
      assert !Came(before, after, o, swaps, k, r, o - 1);
    }
  }

  lemma FirstElementMixes<T>(before: seq<T>, after: seq<T>, w: nat, o: nat, n: nat, swaps: seq<Swap>)
    requires w > 0 && o > 0 && w != o && n > 0 && Row(o, n) <= |before| && AllDifferent(before)
    requires swaps != [] && swaps[0].i0 == 0 < swaps[0].i1 && Origin(swaps, |swaps|, 0) == swaps[0].i1
    requires Reach(swaps) > 0 && Swapped(before, after, w, swaps)
    ensures !EmbeddingsFollow(before, after, o, n, swaps)
  {
    var k, b := |swaps|, swaps[0].i1;
    assert Came(before, after, w, swaps, k, 0, 0);
    if w < o { WiderIsFurther(w, o, b); } else { WiderIsFurther(o, w, b); }
    assert Place(w, 0, 0) == Place(o, 0, 0) == 0;
    assert !Came(before, after, o, swaps, k, 0, 0);
  }

  /** Without swaps nothing moves. */
  lemma NoSwapsNoMove<T>(before: seq<T>, after: seq<T>, w: nat)
    requires Swapped(before, after, w, [])
    ensures after == before
  {
  }

  lemma RightStrideFollows<T>(before: seq<T>, after: seq<T>, o: nat, n: nat, swaps: seq<Swap>)
    requires Row(o, n) <= |before| && InOrder(swaps, n) && Swapped(before, after, o, swaps)
    ensures EmbeddingsFollow(before, after, o, n, swaps)
  {
    ReachBounds(swaps, n);
    MovedFurther(before, after, o, Reach(swaps), n, swaps);
  }

  /** Whatever the embeddings are, they follow their tokens exactly if the two widths agree or there
      is nothing to swap. */
  lemma StrideMustAgree<T>(before: seq<T>, after: seq<T>, w: nat, o: nat, n: nat, swaps: seq<Swap>)
    requires w > 0 && o > 0 && Row(o, n) <= |before|
    requires InOrder(swaps, n) && Ascending(swaps) && Swapped(before, after, w, swaps)
    ensures w == o || swaps == [] ==> EmbeddingsFollow(before, after, o, n, swaps)
    ensures AllDifferent(before) && EmbeddingsFollow(before, after, o, n, swaps) ==> w == o || swaps == []
  {
    if w == o {
      RightStrideFollows(before, after, o, n, swaps);
    } else if swaps == [] {
      NoSwapsNoMove(before, after, w);
      MovedByNone(before, o, n, swaps);
    } else if AllDifferent(before) {
      WrongStrideMixes(before, after, w, o, n, swaps);
    }
  }

  // ---- rows that do not fit the embeddings ----

  /** The row whose data row m - 1 had, after k swaps below m: itself as long as no swap touched it. */
  lemma {:induction false} Leaves(swaps: seq<Swap>, k: nat, m: nat) returns (p: nat)
    requires k <= |swaps| && 0 < m && InOrder(swaps, m) && Ascending(swaps)
    ensures Origin(swaps, k, p) == m - 1 && (p == m - 1 || (k > 0 && p <= swaps[k - 1].i0))
    ensures p == m - 1 ==> forall s :: 0 <= s < k ==> swaps[s].i1 != m - 1
  {
    if k == 0 {
      p := m - 1;
    } else {
      p := Leaves(swaps, k - 1, m);
      if p == m - 1 && swaps[k - 1].i1 == m - 1 {
        p := swaps[k - 1].i0;
      }
    }
  }

  /** The embeddings are the first size elements of a larger buffer. What lies behind them is spared
      exactly if the last row that is swapped ends within them. */
  lemma NeighboursSpared<T>(before: seq<T>, after: seq<T>, w: nat, n: nat, size: nat, swaps: seq<Swap>)
    requires w > 0 && size <= |before| && InOrder(swaps, n) && Ascending(swaps) && Swapped(before, after, w, swaps)
    ensures Row(w, Reach(swaps)) <= size ==> after[size..] == before[size..]
    ensures AllDifferent(before) && after[size..] == before[size..] ==> Row(w, Reach(swaps)) <= size
  {
    ReachBounds(swaps, n);
    var k, m := |swaps|, Reach(swaps);
    if size < Row(w, m) {
      var p := Leaves(swaps, k, m);
      var s :| 0 <= s < k && swaps[s].i1 + 1 == m;
      OriginInjective(swaps, k, p, m - 1);
      assert Came(before, after, w, swaps, k, m - 1, w - 1);
      PlaceInjective(w, m - 1, w - 1, Origin(swaps, k, m - 1), w - 1);
      assert after[size..][Row(w, m) - 1 - size] == after[Row(w, m) - 1];
      assert before[size..][Row(w, m) - 1 - size] == before[Row(w, m) - 1];
    }
  }

  lemma {:induction false} WiderNeedsMore(w: nat, o: nat, i: nat)
    requires o <= w
    ensures Row(o, i) <= Row(w, i)
    ensures o < w && i > 0 ==> Row(o, i) < Row(w, i)
  {
    if i > 0 {
      WiderNeedsMore(w, o, i - 1);
    }
  }

  /** Rows no wider than the embeddings always fit; wider ones never do once the last row there is
      room for is swapped. */
  lemma WhenRowsFit(w: nat, o: nat, n: nat, rows: nat, swaps: seq<Swap>)
    requires InOrder(swaps, n) && n <= rows
    ensures w <= o ==> Row(w, Reach(swaps)) <= Row(o, rows)
    ensures w > o && rows > 0 && Reach(swaps) == rows ==> Row(w, Reach(swaps)) > Row(o, rows)
  {
    ReachBounds(swaps, n);
    if w <= o {
      WiderNeedsMore(o, w, Reach(swaps));
      if Reach(swaps) < rows { RowsApart(o, Reach(swaps), rows); }
    } else {
      WiderNeedsMore(w, o, Reach(swaps));
    }
  }

  /** Two outputs in the wrong order, embeddings half as wide as the swapped rows: the neighbour's
      elements land among the embeddings and the other way round. */
  lemma NeighbourMixed()
    ensures var swaps := [Swap(0, 1)];
            Swapped([1, 2, 8, 9], [8, 9, 1, 2], 2, swaps) && Row(1, 2) == 2 < Row(2, Reach(swaps)) == 4
  {
    var before, after, swaps := [1, 2, 8, 9], [8, 9, 1, 2], [Swap(0, 1)];
    assert swaps[..0] == [] && Reach([]) == 0;
    assert Reach(swaps) == 2 && Row(2, 1) == 2 && Row(2, 2) == 4;
    forall i: nat, d: nat {:trigger Came(before, after, 2, swaps, 1, i, d)} | i < 2 && d < 2
      ensures Came(before, after, 2, swaps, 1, i, d)
    {
      assert Origin(swaps, 1, i) == Origin(swaps, 0, Exchange(swaps[0], i)) == 1 - i;
    }
  }
}
