/** What a slot is worth: the search returns distinct usable cells, gives up only when there are
    too few of them, and is plain first fit whenever no free cell lies below the head. */
module SlotFacts {
  import opened KvCells
  import opened SlotSearch

  ghost predicate Distinct(s: seq<nat>) {
    forall i, j :: 0 <= i < j < |s| ==> s[i] != s[j]
  }

  ghost predicate Ascending(s: seq<nat>) {
    forall i, j :: 0 <= i < j < |s| ==> s[i] < s[j]
  }

  ghost function UsableSet(cells: seq<Cell>, swa: Swa): set<nat> {
    set i: nat | i < |cells| && CanUse(cells, swa, i)
  }

  ghost function Elements(s: seq<nat>): set<nat> {
    set i | i in s
  }

  lemma {:induction false} UsableMembers(cells: seq<Cell>, swa: Swa, order: seq<nat>)
    requires Indices(order, |cells|)
    ensures forall i :: i in Usable(cells, swa, order) <==> i in order && CanUse(cells, swa, i)
  {
    if order != [] {
      var init := order[..|order| - 1];
      UsableMembers(cells, swa, init);
      assert order == init + [order[|order| - 1]];
    }
  }

  lemma {:induction false} UsableOrdered(cells: seq<Cell>, swa: Swa, order: seq<nat>)
    requires Indices(order, |cells|)
    ensures Distinct(order) ==> Distinct(Usable(cells, swa, order))
    ensures Ascending(order) ==> Ascending(Usable(cells, swa, order))
  {
    if order != [] {
      var init := order[..|order| - 1];
      UsableOrdered(cells, swa, init);
      UsableMembers(cells, swa, init);
      var r := Usable(cells, swa, init);
      forall k | 0 <= k < |r|
        ensures exists j :: 0 <= j < |order| - 1 && r[k] == order[j]
      {
        assert r[k] in r && r[k] in init;
        var j :| 0 <= j < |init| && init[j] == r[k];
        assert r[k] == order[j];
      }
    }
  }

  lemma RingCovers(size: nat, h: nat)
    requires h <= size
    ensures Distinct(Ring(size, h))
    ensures forall i: nat :: i < size ==> i in Ring(size, h)
  {
    forall i: nat | i < size
      ensures i in Ring(size, h)
    {
      assert Ring(size, h)[if h <= i then i - h else i - h + size] == i;
    }
  }

  lemma {:induction false} UsableConcat(cells: seq<Cell>, swa: Swa, a: seq<nat>, b: seq<nat>)
    requires Indices(a, |cells|) && Indices(b, |cells|)
    ensures Indices(a + b, |cells|)
    ensures Usable(cells, swa, a + b) == Usable(cells, swa, a) + Usable(cells, swa, b)
  {
    if b == [] {
      assert a + b == a;
    } else {
      var init := b[..|b| - 1];
      UsableConcat(cells, swa, a, init);
      assert (a + b)[..|a + b| - 1] == a + init;
    }
  }

  lemma {:induction false} UsableNone(cells: seq<Cell>, swa: Swa, order: seq<nat>)
    requires Indices(order, |cells|)
    requires forall k :: 0 <= k < |order| ==> !CanUse(cells, swa, order[k])
    ensures Usable(cells, swa, order) == []
  {
    if order != [] {
      UsableNone(cells, swa, order[..|order| - 1]);
    }
  }

  lemma {:induction false} DistinctSize(s: seq<nat>)
    requires Distinct(s)
    ensures |Elements(s)| == |s|
  {
    if s != [] {
      var init := s[..|s| - 1];
      DistinctSize(init);
      assert Elements(s) == Elements(init) + {s[|s| - 1]};
    }
  }

  /** `find_slot` hands out n different cells, each of them usable, and fails exactly when fewer
      than n cells of the stream are usable, wherever the head stands. */
  lemma SlotSound(cells: seq<Cell>, swa: Swa, head: nat, n: nat)
    requires head <= |cells|
    ensures Slot(cells, swa, head, n).None? <==> |UsableSet(cells, swa)| < n
    ensures Slot(cells, swa, head, n).Some? ==>
      var s := Slot(cells, swa, head, n).value;
      |s| == n && Distinct(s) && forall k :: 0 <= k < n ==> s[k] < |cells| && CanUse(cells, swa, s[k])
  {
    var h := StartAt(cells, head, n);
    var ring := Ring(|cells|, h);
    var u := Usable(cells, swa, ring);
    UsableMembers(cells, swa, ring);
    UsableOrdered(cells, swa, ring);
    RingCovers(|cells|, h);
    DistinctSize(u);
    assert forall k :: 0 <= k < |u| ==> u[k] in u;
    assert Elements(u) == UsableSet(cells, swa);
  }

  /** No free cell lies below the head. */
  ghost predicate NoneFreeBelow(cells: seq<Cell>, head: nat) {
    forall i :: 0 <= i < head && i < |cells| ==> cells[i].Used?
  }

  /** A headless scan from cell 0: s lists the n lowest free cells, lowest first. */
  ghost predicate IsFirstFit(cells: seq<Cell>, s: seq<nat>, n: nat) {
    && |s| == n && Ascending(s)
    && (forall k :: 0 <= k < n ==> s[k] < |cells| && cells[s[k]].Free?)
    && (forall i: nat, k :: 0 <= k < n && i < s[k] && i < |cells| && cells[i].Free? ==> i in s)
  }

  /** Without a window only free cells are usable. */
  lemma UsableIsFree(cells: seq<Cell>, swa: Swa)
    requires swa.Valid() && !swa.windowed
    ensures forall i: nat :: i < |cells| ==> (CanUse(cells, swa, i) <==> cells[i].Free?)
  {
  }

  /** With no free cell below the head, the cells met before the ring wraps are all that matter. */
  lemma UsableAbove(cells: seq<Cell>, swa: Swa, h: nat)
    requires swa.Valid() && !swa.windowed
    requires h <= |cells| && NoneFreeBelow(cells, h)
    ensures Usable(cells, swa, Ring(|cells|, h)) == Usable(cells, swa, Ring(|cells|, 0)[h..])
    ensures Usable(cells, swa, Ring(|cells|, 0)) == Usable(cells, swa, Ring(|cells|, 0)[h..])
  {
    var above, below := Ring(|cells|, 0)[h..], Ring(|cells|, 0)[..h];
    assert Ring(|cells|, h) == above + below;
    assert Ring(|cells|, 0) == below + above;
    UsableConcat(cells, swa, above, below);
    UsableConcat(cells, swa, below, above);
    UsableIsFree(cells, swa);
    UsableNone(cells, swa, below);
  }

  lemma PrefixIsFirstFit(cells: seq<Cell>, u: seq<nat>, n: nat)
    requires n <= |u| && Ascending(u)
    requires forall i: nat :: i in u <==> i < |cells| && cells[i].Free?
    ensures IsFirstFit(cells, u[..n], n)
  {
    assert forall k :: 0 <= k < |u| ==> u[k] in u;
    forall i: nat, k | 0 <= k < n && i < u[k] && i < |cells| && cells[i].Free?
      ensures i in u[..n]
    {
      assert i in u;
      var j :| 0 <= j < |u| && u[j] == i;
      assert u[..n][j] == i;
    }
  }

  /** With no free cell below the head the ring search is first fit. */
  lemma SlotIsFirstFit(cells: seq<Cell>, swa: Swa, head: nat, n: nat)
    requires swa.Valid() && !swa.windowed
    requires head <= |cells| && NoneFreeBelow(cells, head)
    ensures Slot(cells, swa, head, n).Some? ==> IsFirstFit(cells, Slot(cells, swa, head, n).value, n)
  {
    var all := Ring(|cells|, 0);
    UsableAbove(cells, swa, StartAt(cells, head, n));
    UsableMembers(cells, swa, all);
    UsableOrdered(cells, swa, all);
    UsableIsFree(cells, swa);
    RingCovers(|cells|, 0);
    if n <= |Usable(cells, swa, all)| {
      PrefixIsFirstFit(cells, Usable(cells, swa, all), n);
    }
  }

  /** The usable cells from h on. */
  ghost function UsableFrom(cells: seq<Cell>, swa: Swa, h: nat): set<nat> {
    set i: nat | h <= i < |cells| && CanUse(cells, swa, i)
  }

  /** The first n usable cells met from h on, round the ring, lie all at or above h or all below it. */
  ghost predicate OneSided(cells: seq<Cell>, swa: Swa, h: nat, n: nat) {
    UsableFrom(cells, swa, h) == {} || n <= |UsableFrom(cells, swa, h)|
  }

  /** What is usable along a straight part of the walk. */
  lemma UsablePart(cells: seq<Cell>, swa: Swa, order: seq<nat>, lo: nat, hi: nat)
    requires lo <= hi <= |cells| && |order| == hi - lo
    requires forall k :: 0 <= k < |order| ==> order[k] == lo + k
    ensures Ascending(Usable(cells, swa, order))
    ensures forall i: nat :: i in Usable(cells, swa, order) <==> lo <= i < hi && CanUse(cells, swa, i)
  {
    UsableMembers(cells, swa, order);
    UsableOrdered(cells, swa, order);
    forall i: nat | lo <= i < hi
      ensures i in order
    {
      assert order[i - lo] == i;
    }
  }

  /** The two parts of the walk: what is usable from h on, then what is usable below. */
  lemma WalkInTwoParts(cells: seq<Cell>, swa: Swa, h: nat) returns (a: seq<nat>, b: seq<nat>)
    requires h <= |cells|
    ensures Usable(cells, swa, Ring(|cells|, h)) == a + b && Ascending(a) && Ascending(b)
    ensures Elements(a) == UsableFrom(cells, swa, h) && |a| == |UsableFrom(cells, swa, h)|
    ensures forall i :: i in b ==> i < h
  {
    var above, below := Ring(|cells|, 0)[h..], Ring(|cells|, 0)[..h];
    assert Ring(|cells|, h) == above + below;
    UsableConcat(cells, swa, above, below);
    a, b := Usable(cells, swa, above), Usable(cells, swa, below);
    UsablePart(cells, swa, above, h, |cells|);
    UsablePart(cells, swa, below, 0, h);
    DistinctSize(a);
    assert Elements(a) == UsableFrom(cells, swa, h);
  }

  /** The slot is in ascending order exactly if the search need not come round. */
  lemma SlotAscends(cells: seq<Cell>, swa: Swa, head: nat, n: nat)
    requires head <= |cells|
    ensures Slot(cells, swa, head, n).Some? ==>
      (Ascending(Slot(cells, swa, head, n).value) <==> OneSided(cells, swa, StartAt(cells, head, n), n))
  {
    var h := StartAt(cells, head, n);
    var a, b := WalkInTwoParts(cells, swa, h);
    if Slot(cells, swa, head, n).Some? {
      var s := Slot(cells, swa, head, n).value;
      if n <= |a| {
        assert s == a[..n];
      } else if a == [] {
        assert s == b[..n];
      } else {
        assert s[|a| - 1] == a[|a| - 1] && a[|a| - 1] in Elements(a);
        assert s[|a|] == b[0] && b[0] in b;
      }
    }
  }

  // ---- which cells are usable, and where the search begins ----

  /** A cell may be overwritten exactly if it is free, or if its only owner's future queries, all of
      them, are kept from it by the window. */
  lemma UsableMeans(cells: seq<Cell>, swa: Swa, i: nat)
    requires swa.Valid() && i < |cells|
    ensures CanUse(cells, swa, i) <==>
      cells[i].Free?
      || exists q :: cells[i].seqs == {q} && forall p :: p > SeqPosMax(cells, q) ==> swa.hides(cells[i].pos, p)
  {
    if CanUse(cells, swa, i) && cells[i].Used? {
      var q :| q in cells[i].seqs && swa.hides(cells[i].pos, SeqPosMax(cells, q) + 1);
      OnlyElement(cells[i].seqs, q);
      assert cells[i].Has(q);
    }
  }

  lemma OnlyElement(s: set<nat>, q: nat)
    requires |s| == 1 && q in s
    ensures s == {q}
  {
    assert |s - {q}| == 0;
    assert s == {q} + (s - {q});
  }

  ghost function FreeBelow(cells: seq<Cell>, h: nat): set<nat> {
    set i: nat | i < h && i < |cells| && cells[i].Free?
  }

  ghost function UsedFrom(cells: seq<Cell>, h: nat): set<nat> {
    set i: nat | h <= i < |cells| && cells[i].Used?
  }

  lemma {:induction false} CountsBelow(cells: seq<Cell>, n: nat)
    requires n <= |cells|
    ensures UsedCount(cells[..n]) + |FreeBelow(cells, n)| == n
  {
    if n > 0 {
      CountsBelow(cells, n - 1);
      assert cells[..n][..n - 1] == cells[..n - 1];
      var k := n - 1;
      assert FreeBelow(cells, n) == FreeBelow(cells, k) + if cells[k].Free? then {k} else {};
    } else {
      assert FreeBelow(cells, 0) == {};
    }
  }

  lemma {:induction false} CountsFrom(cells: seq<Cell>, h: nat, n: nat)
    requires h <= n <= |cells|
    ensures UsedCount(cells[..n]) == UsedCount(cells[..h]) + |UsedFrom(cells[..n], h)|
  {
    if n > h {
      CountsFrom(cells, h, n - 1);
      assert cells[..n][..n - 1] == cells[..n - 1];
      var k := n - 1;
      assert UsedFrom(cells[..n], h) == UsedFrom(cells[..k], h) + if cells[k].Used? then {k} else {};
    } else {
      assert UsedFrom(cells[..n], h) == {};
    }
  }

  /** The search goes back to cell 0 exactly if more cells are free below the head than are in use from
      it on, by more than twice the number of tokens; else it begins at the head. */
  lemma StartsBelow(cells: seq<Cell>, head: nat, n: nat)
    requires head <= |cells|
    ensures StartAt(cells, head, n)
         == if |FreeBelow(cells, head)| > |UsedFrom(cells, head)| + 2 * n then 0 else head
  {
    CountsBelow(cells, head);
    CountsFrom(cells, head, |cells|);
    assert cells[..|cells|] == cells;
  }

  /** First fit is unambiguous. */
  lemma {:induction false} FirstFitUnique(cells: seq<Cell>, s: seq<nat>, t: seq<nat>, n: nat)
    requires IsFirstFit(cells, s, n) && IsFirstFit(cells, t, n)
    ensures s == t
  {
    if n > 0 {
      FirstFitPrefix(cells, s, n);
      FirstFitPrefix(cells, t, n);
      FirstFitUnique(cells, s[..n - 1], t[..n - 1], n - 1);
      assert forall k :: 0 <= k < n - 1 ==> s[k] == s[..n - 1][k] == t[..n - 1][k] == t[k];
      FirstFitBound(cells, s, t, n);
      FirstFitBound(cells, t, s, n);
    }
  }

  lemma FirstFitPrefix(cells: seq<Cell>, s: seq<nat>, n: nat)
    requires IsFirstFit(cells, s, n) && n > 0
    ensures IsFirstFit(cells, s[..n - 1], n - 1)
  {
    var p := s[..n - 1];
    forall i: nat, k | 0 <= k < n - 1 && i < p[k] && i < |cells| && cells[i].Free?
      ensures i in p
    {
      assert i < s[k] && i in s;
      var j :| 0 <= j < n && s[j] == i;
      assert p[j] == i;
    }
  }

  lemma FirstFitBound(cells: seq<Cell>, s: seq<nat>, t: seq<nat>, n: nat)
    requires n > 0 && IsFirstFit(cells, s, n) && IsFirstFit(cells, t, n)
    requires forall k :: 0 <= k < n - 1 ==> s[k] == t[k]
    ensures t[n - 1] <= s[n - 1]
  {
  }
}
