/** When the compute of a ubatch fails, `decode` takes its tokens out of the cache again: for the
    first sequence of each token, everything from that sequence's lowest new position on. */
module Rewind {
  import opened KvCells
  import opened SeqEdits
  import opened Placement
  import opened KvStore
  import opened KvCache
  import opened PrepareFacts
  import opened AppendRuns
  import opened BatchMin

  /** The owners a cell keeps once the sequences below `done` are rewound. */
  function Stays(c: Cell, toks: seq<Tok>, done: nat): set<nat>
    requires c.Used?
  {
    set q | q in c.seqs && !(q < done && LeadMin(toks, q) <= c.pos)
  }

  function RewoundCell(c: Cell, toks: seq<Tok>, done: nat): Cell {
    if c.Free? then c
    else
      var keep := Stays(c, toks, done);
      if keep == c.seqs then c else if keep == {} then Free else c.(seqs := keep)
  }

  function Rewound(cells: seq<Cell>, toks: seq<Tok>, done: nat): (r: seq<Cell>)
    ensures |r| == |cells|
  {
    seq(|cells|, i requires 0 <= i < |cells| => RewoundCell(cells[i], toks, done))
  }

  lemma RewoundStep(cells: seq<Cell>, toks: seq<Tok>, q: nat)
    ensures Rewound(cells, toks, q + 1) ==
      if LeadMin(toks, q) == POS_MAX then Rewound(cells, toks, q)
      else RmCells(Rewound(cells, toks, q), q, LeadMin(toks, q), POS_MAX)
  {
    forall i | 0 <= i < |cells|
      ensures var b := RewoundCell(cells[i], toks, q);
        RewoundCell(cells[i], toks, q + 1) == if b.Has(q) && LeadMin(toks, q) <= b.pos then Without(b, q) else b
    {
      var c := cells[i];
      if c.Used? {
        var k0, k1 := Stays(c, toks, q), Stays(c, toks, q + 1);
        assert k1 == if q in c.seqs && LeadMin(toks, q) <= c.pos then k0 - {q} else k0;
      }
    }
  }

  lemma RewoundNothing(cells: seq<Cell>, toks: seq<Tok>)
    ensures Rewound(cells, toks, 0) == cells
  {
    forall i | 0 <= i < |cells| && cells[i].Used?
      ensures Stays(cells[i], toks, 0) == cells[i].seqs
    {
    }
  }

  /** The failure branch of `decode`. */
  method RewindFailed(c: Cache, ub: Ubatch)
    requires c.Valid() && UbatchValid(c.cfg, ub)
    modifies c
    ensures c.Valid() && c.cells == Rewound(old(c.cells), ub.toks, c.cfg.maxSeq)
  {
    forall k | 0 <= k < |ub.toks|
      ensures ub.toks[k].ids != [] && ub.toks[k].ids[0] < c.cfg.maxSeq
    {
      assert TokValid(c.cfg, ub.toks[k]) && ub.toks[k].ids[0] in ub.toks[k].ids;
    }
    var posMin := LowestPositions(c.cfg.maxSeq, ub.toks);
    RewoundNothing(c.cells, ub.toks);
    for q := 0 to c.cfg.maxSeq
      invariant c.Valid() && c.cells == Rewound(old(c.cells), ub.toks, q)
    {
      RewoundStep(old(c.cells), ub.toks, q);
      if posMin[q] == POS_MAX {
        continue;
      }
      assert posMin[q] >= 0;
      c.SeqRm(q, posMin[q], -1);
    }
  }

  /** Every sequence of every token is also the first sequence of a token no later in position. */
  ghost predicate LeadersCover(toks: seq<Tok>) {
    forall k, q :: 0 <= k < |toks| && q in toks[k].ids ==> LeadMin(toks, q) <= toks[k].pos
  }

  lemma RewoundOldCell(cfg: Config, cells: seq<Cell>, ub: Ubatch, i: nat)
    requires UbatchValid(cfg, ub) && AppendsTo(cells, ub.toks) && i < |cells|
    ensures RewoundCell(cells[i], ub.toks, cfg.maxSeq) == cells[i]
  {
    if cells[i].Used? {
      forall q | q in cells[i].seqs
        ensures cells[i].pos < LeadMin(ub.toks, q)
      {
        var m := LeadMin(ub.toks, q);
        if m < POS_MAX {
          assert Fresh(ub.toks, q, m);
          assert cells[i].Has(q);
          assert Present(cells, q, cells[i].pos);
        }
      }
      assert Stays(cells[i], ub.toks, cfg.maxSeq) == cells[i].seqs;
    }
  }

  lemma RewoundNewCell(cfg: Config, ub: Ubatch, k: nat)
    requires UbatchValid(cfg, ub) && k < |ub.toks|
    ensures RewoundCell(Filled(ub.toks[k], ub.is2d), ub.toks, cfg.maxSeq) == Free <==>
      forall q :: q in ub.toks[k].ids ==> LeadMin(ub.toks, q) <= ub.toks[k].pos
  {
    assert TokValid(cfg, ub.toks[k]);
    var c := Filled(ub.toks[k], ub.is2d);
    assert ub.toks[k].ids[0] in c.seqs;
    assert forall q :: q in c.seqs <==> q in ub.toks[k].ids;
    assert forall q :: q in Stays(c, ub.toks, cfg.maxSeq) <==> q in c.seqs && !(LeadMin(ub.toks, q) <= c.pos);
    if forall q :: q in ub.toks[k].ids ==> LeadMin(ub.toks, q) <= ub.toks[k].pos {
      assert Stays(c, ub.toks, cfg.maxSeq) == {};
    } else {
      var q :| q in ub.toks[k].ids && !(LeadMin(ub.toks, q) <= ub.toks[k].pos);
      assert q in Stays(c, ub.toks, cfg.maxSeq);
    }
  }

  lemma RestoredIntoFree(cfg: Config, st: State, idxs: seq<nat>, ub: Ubatch)
    requires StateValid(cfg, st) && UbatchValid(cfg, ub) && SlotValid(st.cells, idxs, ub.toks)
    requires AllFree(st.cells, idxs) && AppendsTo(st.cells, ub.toks)
    ensures Rewound(ApplyTo(cfg, st, idxs, ub).cells, ub.toks, cfg.maxSeq) == st.cells <==> LeadersCover(ub.toks)
  {
    var after := ApplyTo(cfg, st, idxs, ub).cells;
    var back := Rewound(after, ub.toks, cfg.maxSeq);
    AppliedToFree(cfg, st, idxs, ub);
    PlacedAt(st.cells, idxs, ub.toks, ub.is2d);
    forall k | 0 <= k < |idxs|
      ensures back[idxs[k]] == st.cells[idxs[k]] <==>
        forall q :: q in ub.toks[k].ids ==> LeadMin(ub.toks, q) <= ub.toks[k].pos
    {
      RewoundNewCell(cfg, ub, k);
    }
    forall i | 0 <= i < |st.cells| && i !in idxs
      ensures back[i] == st.cells[i]
    {
      RewoundOldCell(cfg, st.cells, ub, i);
    }
    if LeadersCover(ub.toks) {
      assert forall i :: 0 <= i < |st.cells| ==> back[i] == st.cells[i];
    }
  }

  lemma WhatIsLeft(t: Tok, is2d: bool, rm: seq<int>, toks: seq<Tok>, n: nat)
    ensures var c := RewoundCell(PurgeCell(Filled(t, is2d), rm, n), toks, n);
      c.Used? ==> c.pos == t.pos && forall q :: q in c.seqs ==> q in t.ids
  {
  }

  lemma SharesNoPosition(cells: seq<Cell>, toks: seq<Tok>, i: nat, k: nat, q: nat)
    requires AppendsTo(cells, toks) && i < |cells| && k < |toks| && cells[i].Has(q) && q in toks[k].ids
    ensures cells[i].pos != toks[k].pos
  {
    assert Present(cells, q, cells[i].pos) && Fresh(toks, q, toks[k].pos);
  }

  /** What was overwritten does not come back: any cell of the slot is free afterwards or still holds
      the new position. */
  lemma OverwrittenIsGone(cfg: Config, st: State, idxs: seq<nat>, ub: Ubatch, k: nat)
    requires StateValid(cfg, st) && UbatchValid(cfg, ub) && SlotValid(st.cells, idxs, ub.toks)
    requires AppendsTo(st.cells, ub.toks) && k < |idxs| && st.cells[idxs[k]].Used?
    ensures Rewound(ApplyTo(cfg, st, idxs, ub).cells, ub.toks, cfg.maxSeq)[idxs[k]] != st.cells[idxs[k]]
  {
    PlacedAt(st.cells, idxs, ub.toks, ub.is2d);
    WhatIsLeft(ub.toks[k], ub.is2d, EvictedAll(st.cells, idxs, cfg.maxSeq), ub.toks, cfg.maxSeq);
    var c := st.cells[idxs[k]];
    assert |c.seqs| == 1;
    var q :| q in c.seqs;
    if q in ub.toks[k].ids {
      SharesNoPosition(st.cells, ub.toks, idxs[k], k, q);
    }
  }

  /** After a ubatch was appended and then failed, the rewind gives back exactly the cells there were
      before it, if and only if the ubatch's first sequences cover it and its slot was free. */
  lemma RewindRestores(cfg: Config, st: State, idxs: seq<nat>, ub: Ubatch)
    requires StateValid(cfg, st) && UbatchValid(cfg, ub) && SlotValid(st.cells, idxs, ub.toks)
    requires AppendsTo(st.cells, ub.toks)
    ensures Rewound(ApplyTo(cfg, st, idxs, ub).cells, ub.toks, cfg.maxSeq) == st.cells
        <==> LeadersCover(ub.toks) && AllFree(st.cells, idxs)
  {
    if AllFree(st.cells, idxs) {
      RestoredIntoFree(cfg, st, idxs, ub);
    } else {
      var k :| 0 <= k < |idxs| && st.cells[idxs[k]].Used?;
      OverwrittenIsGone(cfg, st, idxs, ub, k);
    }
  }

  /** A batch of single-sequence tokens on a cache without a window: the failed ubatch leaves no
      trace, whatever slot find_slot gave it. */
  lemma SingleSeqRewind(cfg: Config, st: State, ub: Ubatch)
    requires StateValid(cfg, st) && UbatchValid(cfg, ub) && !cfg.swa.windowed
    requires AppendsTo(st.cells, ub.toks) && forall k :: 0 <= k < |ub.toks| ==> |ub.toks[k].ids| == 1
    requires FindIn(cfg, st, ub).Some?
    ensures SlotValid(st.cells, FindIn(cfg, st, ub).value, ub.toks) && ub.toks != []
    ensures Rewound(ApplyTo(cfg, st, FindIn(cfg, st, ub).value, ub).cells, ub.toks, cfg.maxSeq) == st.cells
  {
    SlotIsFree(cfg, st, ub);
    RewindRestores(cfg, st, FindIn(cfg, st, ub).value, ub);
  }

  /** A token shared by two sequences is not taken back from the second one. */
  lemma SharedTokenSurvives(cfg: Config)
    requires cfg.swa.Valid() && cfg.maxSeq >= 2
    ensures var st, ub := State([Free], 0), Ubatch([Tok(0, NO_EXT, [0, 1])], false);
      StateValid(cfg, st) && UbatchValid(cfg, ub) && SlotValid(st.cells, [0], ub.toks)
      && Rewound(ApplyTo(cfg, st, [0], ub).cells, ub.toks, cfg.maxSeq) != st.cells
  {
    var st, ub := State([Free], 0), Ubatch([Tok(0, NO_EXT, [0, 1])], false);
    assert 1 in ub.toks[0].ids && LeadMin(ub.toks, 1) == POS_MAX;
    RewindRestores(cfg, st, [0], ub);
  }
}
