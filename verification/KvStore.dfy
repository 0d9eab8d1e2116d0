/** The observable state of a cache stream (its cells and its search head) and what placing a
    ubatch does to it, as functions; the class in KvCache is proved against these. */
module KvStore {
  import opened Wrappers
  import opened KvCells
  import opened SlotSearch
  import opened SlotFacts
  import opened SeqEdits
  import opened Placement

  /** The number of sequence ids the cache knows, and its sliding-window rule. */
  datatype Config = Config(maxSeq: nat, swa: Swa)

  /** The cells and the head: what a memory plan captures and restores. */
  datatype State = State(cells: seq<Cell>, head: nat)

  /** Cells belong to known sequences only. An occupied cell may belong to nobody: restoring a whole
      cache can leave such cells. */
  ghost predicate OwnersKnown(cfg: Config, cells: seq<Cell>) {
    OwnersBelow(cells, cfg.maxSeq)
  }

  ghost predicate StateValid(cfg: Config, st: State) {
    cfg.swa.Valid() && st.head <= |st.cells| && OwnersKnown(cfg, st.cells)
  }

  /** A ubatch: its tokens and whether their positions are 2-D. */
  datatype Ubatch = Ubatch(toks: seq<Tok>, is2d: bool)

  /** The batch splitter's promises: at least one token, each in at least one known sequence. */
  ghost predicate UbatchValid(cfg: Config, ub: Ubatch) {
    && ub.toks != []
    && forall k :: 0 <= k < |ub.toks| ==> TokValid(cfg, ub.toks[k])
  }

  ghost predicate TokValid(cfg: Config, t: Tok) {
    t.ids != [] && forall q :: q in t.ids ==> q < cfg.maxSeq
  }

  function FindIn(cfg: Config, st: State, ub: Ubatch): Option<seq<nat>>
    requires st.head <= |st.cells|
  {
    Slot(st.cells, cfg.swa, st.head, |ub.toks|)
  }

  /** A slot that apply_ubatch accepts: one overwritable cell per token, no cell twice. */
  ghost predicate SlotValid(cells: seq<Cell>, idxs: seq<nat>, toks: seq<Tok>) {
    |idxs| == |toks| && Indices(idxs, |cells|) && Distinct(idxs) && Overwritable(cells, idxs)
  }

  /** The stream after apply_ubatch. */
  function ApplyTo(cfg: Config, st: State, idxs: seq<nat>, ub: Ubatch): (r: State)
    requires |idxs| == |ub.toks| > 0 && Indices(idxs, |st.cells|)
    ensures |r.cells| == |st.cells| && r.head <= |r.cells|
  {
    State(Applied(st.cells, idxs, ub.toks, ub.is2d, cfg.maxSeq), idxs[|idxs| - 1] + 1)
  }

  /** Whatever the search mode, a slot for these tokens may be written. */
  lemma FoundSlotValid(cells: seq<Cell>, swa: Swa, head: nat, toks: seq<Tok>, cont: bool, r: seq<nat>)
    requires head <= |cells| && 1 <= |toks|
    requires !cont ==> Slot(cells, swa, head, |toks|) == Some(r)
    requires cont ==> |r| == |toks| && IsRun(cells, swa, r[0], |toks|) && forall k :: 0 <= k < |r| ==> r[k] == r[0] + k
    ensures SlotValid(cells, r, toks)
  {
    SlotSound(cells, swa, head, |toks|);
    assert forall k :: 0 <= k < |r| ==> CanUse(cells, swa, r[k]);
  }

  /** Removing, keeping and shifting only ever drop owners. */
  lemma ShrunkValid(cfg: Config, before: seq<Cell>, after: seq<Cell>)
    requires OwnersKnown(cfg, before) && |after| == |before|
    requires forall i :: 0 <= i < |before| && after[i].Used? ==>
      before[i].Used? && after[i].seqs <= before[i].seqs
    ensures OwnersKnown(cfg, after)
  {
    forall i, q: nat | 0 <= i < |after| && after[i].Has(q)
      ensures q < cfg.maxSeq
    {
      assert before[i].Has(q);
    }
  }

  lemma CopiedValid(cfg: Config, cells: seq<Cell>, src: nat, dst: nat, p0: int, p1: int)
    requires OwnersKnown(cfg, cells) && dst < cfg.maxSeq
    ensures OwnersKnown(cfg, CpCells(cells, src, dst, p0, p1))
  {
    var after := CpCells(cells, src, dst, p0, p1);
    forall i, q: nat | 0 <= i < |after| && after[i].Has(q)
      ensures q < cfg.maxSeq
    {
      assert q == dst || cells[i].Has(q);
    }
  }

  lemma PlacedValid(cfg: Config, cells: seq<Cell>, idxs: seq<nat>, ub: Ubatch)
    requires OwnersKnown(cfg, cells) && SlotValid(cells, idxs, ub.toks) && UbatchValid(cfg, ub)
    ensures OwnersKnown(cfg, Placed(cells, idxs, ub.toks, ub.is2d))
  {
    var p := Placed(cells, idxs, ub.toks, ub.is2d);
    PlacedAt(cells, idxs, ub.toks, ub.is2d);
    forall i | 0 <= i < |cells|
      ensures forall q: nat :: p[i].Has(q) ==> q < cfg.maxSeq
    {
      if i in idxs {
        var k :| 0 <= k < |idxs| && idxs[k] == i;
        assert TokValid(cfg, ub.toks[k]);
        assert p[i] == Filled(ub.toks[k], ub.is2d) && ub.toks[k].ids[0] in Ids(ub.toks[k]);
      } else {
        assert p[i] == cells[i];
      }
    }
  }

  lemma PurgedValid(cfg: Config, cells: seq<Cell>, rm: seq<int>, done: nat)
    requires OwnersKnown(cfg, cells)
    ensures OwnersKnown(cfg, Purged(cells, rm, done))
  {
    ShrunkValid(cfg, cells, Purged(cells, rm, done));
  }

  /** apply_ubatch keeps the cache well formed. */
  lemma ApplyValid(cfg: Config, st: State, idxs: seq<nat>, ub: Ubatch)
    requires StateValid(cfg, st) && UbatchValid(cfg, ub) && SlotValid(st.cells, idxs, ub.toks)
    ensures StateValid(cfg, ApplyTo(cfg, st, idxs, ub))
  {
    PlacedValid(cfg, st.cells, idxs, ub);
    PurgedValid(cfg, Placed(st.cells, idxs, ub.toks, ub.is2d), EvictedAll(st.cells, idxs, cfg.maxSeq), cfg.maxSeq);
  }

  /** One round of the purge loop: seq_rm over the range from the sequence's minimum to the highest
      position it lost. */
  lemma PurgeStep(placed: seq<Cell>, rm: seq<int>, q: nat)
    requires q < |rm| && rm[q] >= -1
    ensures var before := Purged(placed, rm, q);
      var lo := SeqPosMin(before, q);
      Purged(placed, rm, q + 1) ==
        if rm[q] != -1 && lo <= rm[q] then RmCells(before, q, Max(lo, 0), rm[q] + 1) else before
  {
    forall i | 0 <= i < |placed| { PurgeCellStep(placed[i], rm, q); }
  }

  lemma PurgeCellStep(c: Cell, rm: seq<int>, q: nat)
    requires q < |rm|
    ensures var b := PurgeCell(c, rm, q);
      PurgeCell(c, rm, q + 1) == if b.Has(q) && b.pos <= rm[q] then Without(b, q) else b
  {
    if c.Used? {
      var k0, k1 := Keepers(c, rm, q), Keepers(c, rm, q + 1);
      if q in c.seqs && c.pos <= rm[q] {
        assert k1 == k0 - {q};
      } else {
        assert k1 == k0;
      }
    }
  }

  lemma PurgedNothing(cells: seq<Cell>, rm: seq<int>, done: nat)
    requires done == 0 || forall q :: 0 <= q < |rm| ==> rm[q] == -1
    ensures Purged(cells, rm, done) == cells
  {
    forall i | 0 <= i < |cells|
      ensures PurgeCell(cells[i], rm, done) == cells[i]
    {
      if cells[i].Used? {
        assert Keepers(cells[i], rm, done) == cells[i].seqs;
      }
    }
  }
}
