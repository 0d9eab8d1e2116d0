/** What the edits do to what the sequences hold: which positions are present afterwards, which cells
    come free, and where the head goes. */
module EditFacts {
  import opened KvCells
  import opened SlotSearch
  import opened SeqEdits
  import opened Placement
  import opened KvStore
  import opened KvCache

  /** Cell i holds position p of sequence q. */
  ghost predicate At(cells: seq<Cell>, i: nat, q: nat, p: int) {
    i < |cells| && cells[i].Has(q) && cells[i].pos == p
  }

  lemma PresentAt(cells: seq<Cell>, q: nat, p: int)
    ensures Present(cells, q, p) <==> exists i: nat :: At(cells, i, q, p)
  {
    if Present(cells, q, p) {
      var i: nat :| i < |cells| && cells[i].Has(q) && cells[i].pos == p;
      assert At(cells, i, q, p);
    }
  }

  /** Removal takes the positions in range from that sequence and from no other. */
  lemma RemovedPresent(cells: seq<Cell>, q: nat, p0: int, p1: int, r: nat, p: int)
    ensures Present(RmCells(cells, q, p0, p1), r, p) <==> Present(cells, r, p) && !(r == q && p0 <= p < p1)
  {
    var after := RmCells(cells, q, p0, p1);
    PresentAt(cells, r, p);
    PresentAt(after, r, p);
    forall i: nat
      ensures At(after, i, r, p) <==> At(cells, i, r, p) && !(r == q && p0 <= p < p1)
    {
      if At(cells, i, r, p) && r != q {
        assert r in cells[i].seqs - {q};
      }
    }
  }

  lemma RemovedAnyPresent(cells: seq<Cell>, p0: int, p1: int, r: nat, p: int)
    ensures Present(RmAnyCells(cells, p0, p1), r, p) <==> Present(cells, r, p) && !(p0 <= p < p1)
  {
    var after := RmAnyCells(cells, p0, p1);
    PresentAt(cells, r, p);
    PresentAt(after, r, p);
    forall i: nat
      ensures At(after, i, r, p) <==> At(cells, i, r, p) && !(p0 <= p < p1)
    {
    }
  }

  /** Keeping one sequence leaves all of it and nothing of the others. */
  lemma KeptPresent(cells: seq<Cell>, q: nat, r: nat, p: int)
    ensures Present(KeepCells(cells, q), r, p) <==> r == q && Present(cells, q, p)
  {
    var after := KeepCells(cells, q);
    PresentAt(cells, r, p);
    PresentAt(after, r, p);
    forall i: nat
      ensures At(after, i, r, p) <==> r == q && At(cells, i, q, p)
    {
    }
  }

  /** Copying adds the source's positions in range to the destination and takes nothing from anybody. */
  lemma CopiedPresent(cells: seq<Cell>, src: nat, dst: nat, p0: int, p1: int, r: nat, p: int)
    ensures Present(CpCells(cells, src, dst, p0, p1), r, p) <==>
      Present(cells, r, p) || (r == dst && p0 <= p < p1 && Present(cells, src, p))
  {
    var after := CpCells(cells, src, dst, p0, p1);
    PresentAt(cells, r, p);
    PresentAt(cells, src, p);
    PresentAt(after, r, p);
    forall i: nat
      ensures At(after, i, r, p) <==>
        At(cells, i, r, p) || (r == dst && p0 <= p < p1 && At(cells, i, src, p))
    {
    }
  }

  /** A shift moves the sequence's positions in range, those below zero being lost; a sequence that
      shares a moved cell moves with it. */
  lemma ShiftedPresent(cells: seq<Cell>, q: nat, p0: int, p1: int, d: int, r: nat, p: int)
    requires CanShift(cells, q, p0, p1, d)
    ensures Present(ShiftCells(cells, q, p0, p1, d), r, p) <==> exists i: nat ::
      (At(cells, i, r, p) && !(cells[i].Has(q) && p0 <= p < p1))
      || (p >= 0 && At(cells, i, r, p - d) && cells[i].Has(q) && p0 <= p - d < p1)
    ensures Present(ShiftCells(cells, q, p0, p1, d), q, p) <==>
      (Present(cells, q, p) && !(p0 <= p < p1)) || (p >= 0 && Present(cells, q, p - d) && p0 <= p - d < p1)
  {
    ShiftedAnyPresent(cells, q, p0, p1, d, r, p);
    ShiftedAnyPresent(cells, q, p0, p1, d, q, p);
    PresentAt(cells, q, p);
    PresentAt(cells, q, p - d);
  }

  lemma ShiftedAnyPresent(cells: seq<Cell>, q: nat, p0: int, p1: int, d: int, r: nat, p: int)
    requires CanShift(cells, q, p0, p1, d)
    ensures Present(ShiftCells(cells, q, p0, p1, d), r, p) <==> exists i: nat ::
      (At(cells, i, r, p) && !(cells[i].Has(q) && p0 <= p < p1))
      || (p >= 0 && At(cells, i, r, p - d) && cells[i].Has(q) && p0 <= p - d < p1)
  {
    var after := ShiftCells(cells, q, p0, p1, d);
    PresentAt(after, r, p);
    forall i: nat
      ensures At(after, i, r, p) <==>
        (At(cells, i, r, p) && !(cells[i].Has(q) && p0 <= p < p1))
        || (p >= 0 && At(cells, i, r, p - d) && cells[i].Has(q) && p0 <= p - d < p1)
    {
    }
  }

  // ---- free cells, and what stays of the others ----

  /** Everything about an occupied cell but its owners. */
  ghost predicate SameBody(a: Cell, b: Cell) {
    a.Used? && b.Used? && a.pos == b.pos && a.shift == b.shift && a.ext == b.ext
  }

  /** A removal frees the cells in range that were the sequence's alone; the other cells stay occupied,
      with their position. */
  lemma RemovedFree(cells: seq<Cell>, q: nat, p0: int, p1: int, i: nat)
    requires i < |cells|
    ensures var c, c' := cells[i], RmCells(cells, q, p0, p1)[i];
      && (c'.Free? <==> c.Free? || (c.In(p0, p1) && c.seqs == {q}))
      && (c'.Used? ==> SameBody(c, c'))
  {
    assert cells[i].Has(q) ==> (cells[i].seqs - {q} == {} <==> cells[i].seqs == {q});
  }

  lemma RemovedAnyFree(cells: seq<Cell>, p0: int, p1: int, i: nat)
    requires i < |cells|
    ensures var c, c' := cells[i], RmAnyCells(cells, p0, p1)[i];
      (c'.Free? <==> c.Free? || c.In(p0, p1)) && (c'.Used? ==> c' == c)
  {
  }

  /** Keeping one sequence frees the cells that others own without it. */
  lemma KeptFree(cells: seq<Cell>, q: nat, i: nat)
    requires i < |cells|
    ensures var c, c' := cells[i], KeepCells(cells, q)[i];
      && (c'.Free? <==> c.Free? || (c.seqs != {} && q !in c.seqs))
      && (c'.Used? ==> SameBody(c, c'))
  {
  }

  lemma CopiedFree(cells: seq<Cell>, src: nat, dst: nat, p0: int, p1: int, i: nat)
    requires i < |cells|
    ensures var c, c' := cells[i], CpCells(cells, src, dst, p0, p1)[i];
      (c'.Free? <==> c.Free?) && (c'.Used? ==> SameBody(c, c'))
  {
  }

  // ---- the position a cell's row was computed for ----

  /** Where the token of a cell stood when its row was written: what it has been moved by since is
      noted beside its position. */
  function Written(c: Cell): int
    requires c.Used?
  {
    c.pos - c.shift
  }

  /** A new cell has been moved by nothing. */
  lemma NewIsWritten(t: Tok, is2d: bool)
    ensures Written(Filled(t, is2d)) == t.pos == Filled(t, is2d).pos
    ensures forall q :: Filled(t, is2d).Has(q) <==> q in t.ids
  {
  }

  /** A shift keeps the note true, and owners and coordinates as they are. */
  lemma ShiftKeepsWritten(cells: seq<Cell>, q: nat, p0: int, p1: int, d: int, i: nat)
    requires i < |cells| && CanShift(cells, q, p0, p1, d)
    ensures var c, c' := cells[i], ShiftCells(cells, q, p0, p1, d)[i];
      && (c'.Free? <==> c.Free? || (c.Has(q) && p0 <= c.pos < p1 && c.pos + d < 0))
      && (c'.Used? ==> Written(c') == Written(c) && c'.seqs == c.seqs && c'.ext == c.ext)
  {
  }

  // ---- bounds and head ----

  /** A negative bound is no bound. */
  lemma OpenBounds(c: Cell, p0: int, p1: int)
    requires c.Used?
    ensures c.In(Lo(p0), Hi(p1)) <==> (p0 < 0 || p0 <= c.pos) && (p1 < 0 || c.pos < p1)
  {
  }

  /** After a removal the head is the lowest cell that was freed below it, or stays. */
  lemma PulledTo(head: nat, before: seq<Cell>, after: seq<Cell>)
    requires |before| == |after|
    ensures var h := PulledHead(head, before, after);
      && h <= head && (h < head ==> h < |before| && Freed(before[h], after[h]))
      && forall i :: 0 <= i < h && i < |before| ==> !Freed(before[i], after[i])
  {
  }

  /** The next windowed search begins right behind the slot that was filled last, so that it meets the
      cell written last after all others. */
  lemma SlotComesLast(cfg: Config, st: State, idxs: seq<nat>, ub: Ubatch)
    requires |idxs| == |ub.toks| > 0 && Indices(idxs, |st.cells|)
    ensures var next := ApplyTo(cfg, st, idxs, ub);
      Ring(|next.cells|, next.head)[|next.cells| - 1] == idxs[|idxs| - 1]
  {
  }
}
