/** The KV cell store: the methods that search, fill and edit the cells of a stream. */
module KvCache {
  import opened Wrappers
  import opened KvCells
  import opened SlotSearch
  import opened SeqEdits
  import opened Placement
  import opened KvStore

  /** A negative lower bound means 0; a negative upper bound means no bound. */
  function Lo(p0: int): int { if p0 < 0 then 0 else p0 }
  function Hi(p1: int): int { if p1 < 0 then POS_MAX else p1 }

  function Blank(n: nat): (r: seq<Cell>)
    ensures |r| == n && forall i :: 0 <= i < n ==> r[i].Free?
  {
    seq(n, i => Free)
  }

  lemma BlankValid(cfg: Config, n: nat)
    ensures OwnersKnown(cfg, Blank(n))
  {
  }

  class Cache {
    const cfg: Config
    var cells: seq<Cell>
    var head: nat

    ghost function St(): State
      reads this
    {
      State(cells, head)
    }

    ghost predicate Valid()
      reads this
    {
      StateValid(cfg, St())
    }

    constructor (cfg: Config, kvSize: nat)
      requires cfg.swa.Valid()
      ensures Valid() && this.cfg == cfg && cells == Blank(kvSize) && head == 0
    {
      this.cfg := cfg;
      cells := Blank(kvSize);
      head := 0;
    }

    method Clear()
      requires Valid()
      modifies this
      ensures Valid() && St() == State(Blank(|old(cells)|), 0)
    {
      cells := Blank(|cells|);
      head := 0;
    }

    /** `find_slot`: scattered mode finds the slot of FindIn; either mode's slot may be written. */
    method FindSlot(ub: Ubatch, cont: bool) returns (r: Option<seq<nat>>)
      requires Valid() && UbatchValid(cfg, ub)
      ensures !cont ==> r == FindIn(cfg, St(), ub)
      ensures r.Some? ==> SlotValid(cells, r.value, ub.toks)
    {
      r := SlotSearch.FindSlot(cells, cfg.swa, head, |ub.toks|, cont);
      if r.Some? {
        FoundSlotValid(cells, cfg.swa, head, ub.toks, cont, r.value);
      }
    }

    method SeqRm(seqId: int, p0: int, p1: int)
      requires Valid() && -1 <= seqId < cfg.maxSeq
      modifies this
      ensures Valid()
      ensures cells == if seqId >= 0 then RmCells(old(cells), seqId, Lo(p0), Hi(p1))
                       else RmAnyCells(old(cells), Lo(p0), Hi(p1))
      ensures head == PulledHead(old(head), old(cells), cells)
    {
      var lo := if p0 < 0 then 0 else p0;
      var hi := if p1 < 0 then POS_MAX else p1;
      ghost var was := cells;
      if seqId >= 0 {
        cells, head := RemoveSeq(cells, head, seqId, lo, hi);
      } else {
        cells, head := RemoveAny(cells, head, lo, hi);
      }
      ShrunkValid(cfg, was, cells);
    }

    method SeqKeep(seqId: nat)
      requires Valid() && seqId < cfg.maxSeq
      modifies this
      ensures Valid()
      ensures cells == KeepCells(old(cells), seqId) && head == PulledHead(old(head), old(cells), cells)
    {
      ghost var was := cells;
      cells, head := KeepSeq(cells, head, seqId);
      ShrunkValid(cfg, was, cells);
    }

    /** Copying only adds an owner. */
    method SeqCp(src: nat, dst: nat, p0: int, p1: int)
      requires Valid() && src < cfg.maxSeq && dst < cfg.maxSeq
      modifies this
      ensures Valid() && head == old(head)
      ensures cells == if src == dst then old(cells) else CpCells(old(cells), src, dst, Lo(p0), Hi(p1))
    {
      if src == dst {
        return;
      }
      var lo := if p0 < 0 then 0 else p0;
      var hi := if p1 < 0 then POS_MAX else p1;
      CopiedValid(cfg, cells, src, dst, lo, hi);
      cells := CopySeq(cells, src, dst, lo, hi);
    }

    method SeqAdd(seqId: nat, p0: int, p1: int, shift: int)
      requires Valid() && seqId < cfg.maxSeq && CanShift(cells, seqId, Lo(p0), Hi(p1), shift)
      modifies this
      ensures Valid()
      ensures St() ==
        if shift == 0 || Lo(p0) == Hi(p1) then old(St())
        else
          var after := ShiftCells(old(cells), seqId, Lo(p0), Hi(p1), shift);
          State(after, var f := FirstFreed(old(cells), after); if f < |after| then f else 0)
    {
      if shift == 0 {
        return;
      }
      var lo := if p0 < 0 then 0 else p0;
      var hi := if p1 < 0 then POS_MAX else p1;
      if lo == hi {
        return;
      }
      ghost var was := cells;
      cells, head := ShiftSeq(cells, seqId, lo, hi, shift);
      ShrunkValid(cfg, was, cells);
    }

    method SeqPosMax(seqId: nat) returns (m: int)
      requires Valid() && seqId < cfg.maxSeq
      ensures m == KvCells.SeqPosMax(cells, seqId)
    {
      m := KvCells.SeqPosMax(cells, seqId);
    }

    /** `apply_ubatch`: place the tokens, purge what lies at or below an overwritten position of its
        sequence, move the head behind the slot. */
    method ApplyUbatch(idxs: seq<nat>, ub: Ubatch)
      requires Valid() && UbatchValid(cfg, ub) && SlotValid(cells, idxs, ub.toks)
      modifies this
      ensures Valid()
      ensures St() == ApplyTo(cfg, old(St()), idxs, ub)
    {
      ghost var was := St();
      var rm := seq(cfg.maxSeq, i => -1);
      PlacedValid(cfg, cells, idxs, ub);
      assert Record(rm, cells, idxs) == EvictedAll(cells, idxs, cfg.maxSeq);
      cells, rm := PlaceTokens(cells, idxs, ub.toks, ub.is2d, rm);
      Purge(rm);
      head := idxs[|idxs| - 1] + 1;
      ApplyValid(cfg, was, idxs, ub);
    }

    /** Drop every sequence's cells from its lowest position up to its greatest overwritten one. */
    method Purge(rm: seq<int>)
      requires Valid() && |rm| == cfg.maxSeq && forall q :: 0 <= q < |rm| ==> -1 <= rm[q] < POS_MAX
      modifies this
      ensures Valid() && cells == Purged(old(cells), rm, cfg.maxSeq)
    {
      ghost var placed := cells;
      PurgedNothing(cells, rm, 0);
      for q := 0 to cfg.maxSeq
        invariant Valid() && cells == Purged(placed, rm, q)
      {
        PurgeStep(placed, rm, q);
        if rm[q] == -1 {
          continue;
        }
        var lo := SeqPosMin(cells, q);
        if lo <= rm[q] {
          assert Lo(lo) == Max(lo, 0) && Hi(rm[q] + 1) == rm[q] + 1;
          SeqRm(q, lo, rm[q] + 1);
        }
      }
    }

    /** The plan's snapshot of the cache. */
    method MemplanCapture() returns (st: State)
      ensures st == St()
    {
      st := State(cells, head);
    }

    /** Unlike the unwinding of `prepare`, a snapshot brings back every cell. */
    method MemplanRestore(st: State)
      requires StateValid(cfg, st)
      modifies this
      ensures Valid() && St() == st
    {
      cells := st.cells;
      head := st.head;
    }
  }
}
