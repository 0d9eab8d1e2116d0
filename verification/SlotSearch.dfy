/** The search for cells that can take a ubatch (`find_slot`), one stream at a time. */
module SlotSearch {
  import opened Wrappers
  import opened KvCells

  /** A cell may be written when it is free, or when its only owner can no longer reach it: the
      position is hidden from that sequence's next token. */
  predicate CanUse(cells: seq<Cell>, swa: Swa, i: nat)
    requires i < |cells|
  {
    || cells[i].Free?
    || (|cells[i].seqs| == 1
        && exists q | q in cells[i].seqs :: swa.hides(cells[i].pos, SeqPosMax(cells, q) + 1))
  }

  /** The cells in the order the ring is walked from h. */
  function Ring(size: nat, h: nat): (r: seq<nat>)
    requires h <= size
    ensures |r| == size
    ensures forall k :: 0 <= k < size ==> r[k] == (if h + k < size then h + k else h + k - size)
  {
    seq(size, (k: nat) => if h + k < size then h + k else if h + k >= size then h + k - size else 0)
  }

  ghost predicate Indices(order: seq<nat>, size: nat) {
    forall k :: 0 <= k < |order| ==> order[k] < size
  }

  /** The usable cells among those listed, in the order listed. */
  function Usable(cells: seq<Cell>, swa: Swa, order: seq<nat>): (r: seq<nat>)
    requires Indices(order, |cells|)
    ensures |r| <= |order|
  {
    if order == [] then []
    else
      var i := order[|order| - 1];
      var rest := Usable(cells, swa, order[..|order| - 1]);
      if CanUse(cells, swa, i) then rest + [i] else rest
  }

  lemma UsableStep(cells: seq<Cell>, swa: Swa, order: seq<nat>, k: nat)
    requires Indices(order, |cells|) && k < |order|
    ensures Usable(cells, swa, order[..k + 1])
         == Usable(cells, swa, order[..k]) + (if CanUse(cells, swa, order[k]) then [order[k]] else [])
  {
    assert order[..k + 1][..k] == order[..k];
  }

  lemma {:induction false} UsablePrefix(cells: seq<Cell>, swa: Swa, order: seq<nat>, k: nat)
    requires Indices(order, |cells|) && k <= |order|
    ensures Usable(cells, swa, order[..k]) <= Usable(cells, swa, order)
    decreases |order| - k
  {
    if k == |order| {
      assert order[..k] == order;
    } else {
      UsableStep(cells, swa, order, k);
      UsablePrefix(cells, swa, order, k + 1);
    }
  }

  /** Where the walk starts: at the head, unless plenty of free cells must lie before it. */
  function StartAt(cells: seq<Cell>, head: nat, n: nat): nat {
    if head > UsedCount(cells) + 2 * n then 0 else head
  }

  /** The scattered slot: the first n usable cells met on the ring. */
  function Slot(cells: seq<Cell>, swa: Swa, head: nat, n: nat): Option<seq<nat>>
    requires head <= |cells|
  {
    var u := Usable(cells, swa, Ring(|cells|, StartAt(cells, head, n)));
    if n <= |u| then Some(u[..n]) else None
  }

  /** The n cells from a on are all usable. */
  ghost predicate IsRun(cells: seq<Cell>, swa: Swa, a: nat, n: nat) {
    && a + n <= |cells|
    && forall i: nat :: a <= i < a + n ==> CanUse(cells, swa, i)
  }

  /** What scattered mode has collected after testing nTested cells from h0 on. */
  ghost predicate Walked(cells: seq<Cell>, swa: Swa, h0: nat, headCur: nat, nTested: nat, idxs: seq<nat>)
    requires h0 <= |cells|
  {
    && nTested <= |cells|
    && (headCur == h0 + nTested || headCur == h0 + nTested - |cells|)
    && idxs == Usable(cells, swa, Ring(|cells|, h0)[..nTested])
  }

  lemma WalkedStep(cells: seq<Cell>, swa: Swa, h0: nat, headCur: nat, nTested: nat, idxs: seq<nat>)
    requires h0 <= |cells| && headCur < |cells| && nTested < |cells|
    requires Walked(cells, swa, h0, headCur, nTested, idxs)
    ensures Walked(cells, swa, h0, headCur + 1, nTested + 1,
                   idxs + if CanUse(cells, swa, headCur) then [headCur] else [])
  {
    UsableStep(cells, swa, Ring(|cells|, h0), nTested);
  }

  lemma WalkedResult(cells: seq<Cell>, swa: Swa, head: nat, n: nat, headCur: nat, nTested: nat, idxs: seq<nat>)
    requires head <= |cells|
    requires Walked(cells, swa, StartAt(cells, head, n), headCur, nTested, idxs)
    ensures |idxs| == n ==> Slot(cells, swa, head, n) == Some(idxs)
    ensures |idxs| < n && nTested == |cells| ==> Slot(cells, swa, head, n) == None
  {
    var ring := Ring(|cells|, StartAt(cells, head, n));
    UsablePrefix(cells, swa, ring, nTested);
    assert idxs == Usable(cells, swa, ring)[..|idxs|];
    if nTested == |cells| {
      assert ring[..nTested] == ring;
    }
  }

  /** No run of n usable cells starts in [lo, hi). */
  ghost predicate NoRun(cells: seq<Cell>, swa: Swa, n: nat, lo: nat, hi: nat) {
    forall b: nat :: lo <= b < hi ==> !IsRun(cells, swa, b, n)
  }

  /** What contiguous mode has ruled out after `wraps` turns of the ring. */
  ghost predicate RuledOut(cells: seq<Cell>, swa: Swa, n: nat, h0: nat, headCur: nat, nTested: nat, wraps: nat) {
    var size := |cells|;
    match wraps
    case 0 => nTested == headCur - h0 && NoRun(cells, swa, n, h0, headCur)
    case 1 => nTested == size - h0 + headCur && NoRun(cells, swa, n, h0, size) && NoRun(cells, swa, n, 0, headCur)
    case _ => headCur == 0 && nTested >= size && NoRun(cells, swa, n, 0, size)
  }

  lemma RuledOutWrap(cells: seq<Cell>, swa: Swa, n: nat, h0: nat, headCur: nat, nTested: nat, wraps: nat)
    requires h0 <= |cells| && 0 < headCur <= |cells| < headCur + n && nTested < |cells|
    requires RuledOut(cells, swa, n, h0, headCur, nTested, wraps)
    ensures RuledOut(cells, swa, n, h0, 0, nTested + |cells| - headCur, if wraps == 0 then 1 else 2)
  {
  }

  lemma RuledOutStep(cells: seq<Cell>, swa: Swa, n: nat, h0: nat, a: nat, nTested: nat, wraps: nat, tested: nat)
    requires h0 <= |cells| && 1 <= tested <= n && a + n <= |cells| && (nTested < |cells| || a == 0)
    requires RuledOut(cells, swa, n, h0, a, nTested, wraps)
    requires !CanUse(cells, swa, a + tested - 1)
    ensures nTested + tested < |cells| ==> RuledOut(cells, swa, n, h0, a + tested, nTested + tested, wraps)
    ensures nTested + tested >= |cells| ==> NoRun(cells, swa, n, 0, |cells|)
  {
    assert NoRun(cells, swa, n, a, a + tested) by {
      forall b: nat | a <= b < a + tested
        ensures !IsRun(cells, swa, b, n)
      {
        assert b <= a + tested - 1 < b + n;
      }
    }
  }

  /** b comes before a on the ring that starts at h. */
  predicate Before(b: nat, a: nat, h: nat) {
    if (h <= b) == (h <= a) then b < a else h <= b
  }

  /** The slot is the cells from a on, in order. */
  ghost predicate Straight(slot: seq<nat>, a: nat) {
    forall k :: 0 <= k < |slot| ==> slot[k] == a + k
  }

  /** Of the runs of n usable cells, the slot is the one met first when walking the ring from h. */
  ghost predicate IsFirstRun(cells: seq<Cell>, swa: Swa, h: nat, slot: seq<nat>, n: nat) {
    |slot| == n > 0 && Straight(slot, slot[0]) && IsRun(cells, swa, slot[0], n)
    && forall b: nat :: Before(b, slot[0], h) ==> !IsRun(cells, swa, b, n)
  }

  lemma FoundIsFirst(cells: seq<Cell>, swa: Swa, n: nat, h0: nat, a: nat, nTested: nat, wraps: nat, slot: seq<nat>)
    requires |slot| == n > 0 && Straight(slot, a) && IsRun(cells, swa, a, n) && h0 <= |cells|
    requires RuledOut(cells, swa, n, h0, a, nTested, wraps) && (nTested < |cells| || a == 0)
    ensures IsFirstRun(cells, swa, h0, slot, n)
  {
  }

  /** One round of the walk: test up to nTest cells from a on. Contiguous mode gives up at the
      first cell it cannot use. */
  method TestCells(cells: seq<Cell>, swa: Swa, a: nat, nTest: nat, cont: bool)
    returns (found: seq<nat>, tested: nat)
    requires 1 <= nTest && a + nTest <= |cells|
    requires !cont ==> nTest == 1
    ensures 1 <= tested <= nTest && |found| <= nTest
    ensures !cont ==> found == (if CanUse(cells, swa, a) then [a] else [])
    ensures cont && |found| == nTest ==> IsRun(cells, swa, a, nTest) && tested == nTest && Straight(found, a)
    ensures cont && |found| < nTest ==> !CanUse(cells, swa, a + tested - 1)
  {
    found, tested := [], 0;
    var i := 0;
    while i < nTest
      invariant 0 <= i <= nTest && tested == i
      invariant cont ==> |found| == i && Straight(found, a)
      invariant cont ==> forall j: nat :: a <= j < a + i ==> CanUse(cells, swa, j)
      invariant !cont ==> found == (if i == 1 && CanUse(cells, swa, a) then [a] else [])
    {
      var idx := a + i;
      tested := tested + 1;
      if CanUse(cells, swa, idx) {
        found := found + [idx];
      } else if cont {
        break;
      }
      i := i + 1;
    }
  }

  /** `find_slot` for one stream. Scattered mode takes the first n usable cells of the ring and
      fails exactly when there are fewer; contiguous mode takes the first usable run of n cells
      and fails exactly when there is none. */
  method FindSlot(cells: seq<Cell>, swa: Swa, head: nat, n: nat, cont: bool)
    returns (r: Option<seq<nat>>)
    requires head <= |cells| && 1 <= n
    ensures !cont ==> r == Slot(cells, swa, head, n)
    ensures cont ==> (r.Some? <==> exists a: nat :: IsRun(cells, swa, a, n))
    ensures cont && r.Some? ==> IsFirstRun(cells, swa, StartAt(cells, head, n), r.value, n)
  {
    var size := |cells|;
    var headCur := head;
    if headCur > UsedCount(cells) + 2 * n {
      headCur := 0;
    }
    ghost var h0 := headCur;

    if n > size {
      return None;
    }

    var idxs: seq<nat> := [];
    var nTested := 0;
    var nTest := if cont then n else 1;
    // contiguous mode: how often the walk has wrapped, and so which starts are ruled out
    ghost var wraps := 0;

    while true
      invariant 0 <= headCur <= size && 0 <= nTested <= 2 * size
      invariant nTested < size || headCur == 0
      invariant !cont ==> nTested < size && |idxs| < n && Walked(cells, swa, h0, headCur, nTested, idxs)
      invariant cont ==> idxs == [] && RuledOut(cells, swa, n, h0, headCur, nTested, wraps)
      decreases 2 * size - nTested, headCur
    {
      if headCur + nTest > size {
        if cont { RuledOutWrap(cells, swa, n, h0, headCur, nTested, wraps); }
        nTested := nTested + (size - headCur);
        headCur := 0;
        wraps := if wraps == 0 then 1 else 2;
        continue;
      }
      ghost var a, t0 := headCur, nTested;
      var found, tested := TestCells(cells, swa, headCur, nTest, cont);
      headCur := headCur + tested;
      nTested := nTested + tested;
      if !cont {
        WalkedStep(cells, swa, h0, a, t0, idxs);
        WalkedResult(cells, swa, head, n, headCur, nTested, idxs + found);
      } else if |found| < n {
        RuledOutStep(cells, swa, n, h0, a, t0, wraps, tested);
      } else {
        FoundIsFirst(cells, swa, n, h0, a, t0, wraps, found);
      }
      idxs := idxs + found;
      if |idxs| == n {
        return Some(idxs);
      }
      if cont {
        idxs := [];
      }
      if nTested >= size {
        return None;
      }
    }
  }
}
