/** Writing a ubatch into the cells chosen for it (`apply_ubatch`): one stream. */
module Placement {
  import opened Wrappers
  import opened KvCells
  import opened SlotSearch
  import opened SlotFacts

  /** One token of a ubatch: its position and the sequences it belongs to. */
  datatype Tok = Tok(pos: Pos, ext: Ext, ids: seq<nat>)

  function Ids(t: Tok): set<nat> {
    set q | q in t.ids
  }

  /** A cell freshly written with token t; the 2-D coordinates are stored only for 2-D batches. */
  function Filled(t: Tok, is2d: bool): Cell {
    Used(t.pos, 0, if is2d then t.ext else NO_EXT, Ids(t))
  }

  function Placed(cells: seq<Cell>, idxs: seq<nat>, toks: seq<Tok>, is2d: bool): (r: seq<Cell>)
    requires |idxs| == |toks| && Indices(idxs, |cells|)
    ensures |r| == |cells|
  {
    if idxs == [] then cells
    else
      var k := |idxs| - 1;
      Placed(cells, idxs[..k], toks[..k], is2d)[idxs[k] := Filled(toks[k], is2d)]
  }

  /** The highest position of sequence q that the listed cells held, or -1. */
  function EvictedMax(cells: seq<Cell>, idxs: seq<nat>, q: nat): (m: int)
    requires Indices(idxs, |cells|)
    ensures m >= -1
    ensures forall k :: 0 <= k < |idxs| && cells[idxs[k]].Has(q) ==> cells[idxs[k]].pos <= m
    ensures m >= 0 ==> exists k :: 0 <= k < |idxs| && cells[idxs[k]].Has(q) && cells[idxs[k]].pos == m
  {
    if idxs == [] then -1
    else
      var c := cells[idxs[|idxs| - 1]];
      var rest := EvictedMax(cells, idxs[..|idxs| - 1], q);
      if c.Has(q) then Max(rest, c.pos) else rest
  }

  function EvictedAll(cells: seq<Cell>, idxs: seq<nat>, maxSeq: nat): (rm: seq<int>)
    requires Indices(idxs, |cells|)
    ensures |rm| == maxSeq
    ensures forall q :: 0 <= q < maxSeq ==> rm[q] == EvictedMax(cells, idxs, q)
  {
    seq(maxSeq, (q: nat) requires Indices(idxs, |cells|) => EvictedMax(cells, idxs, q))
  }

  /** The owners of a cell that survive the purge: those whose evicted positions all lie below it. */
  function Keepers(c: Cell, rm: seq<int>, done: nat): set<nat>
    requires c.Used?
  {
    set q | q in c.seqs && !(q < done && q < |rm| && c.pos <= rm[q])
  }

  /** The purge, carried out for the sequences below `done`. */
  function PurgeCell(c: Cell, rm: seq<int>, done: nat): Cell {
    if c.Free? then c
    else
      var keep := Keepers(c, rm, done);
      if keep == c.seqs then c else if keep == {} then Free else c.(seqs := keep)
  }

  function Purged(cells: seq<Cell>, rm: seq<int>, done: nat): (r: seq<Cell>)
    ensures |r| == |cells|
  {
    seq(|cells|, i requires 0 <= i < |cells| => PurgeCell(cells[i], rm, done))
  }

  /** The stream after a ubatch was written: place its tokens, then drop every position that lies
      at or below one it overwrote, so that what is left of each sequence has no holes. */
  function Applied(cells: seq<Cell>, idxs: seq<nat>, toks: seq<Tok>, is2d: bool, maxSeq: nat): (r: seq<Cell>)
    requires |idxs| == |toks| && Indices(idxs, |cells|)
    ensures |r| == |cells|
  {
    Purged(Placed(cells, idxs, toks, is2d), EvictedAll(cells, idxs, maxSeq), maxSeq)
  }

  /** Only cells with at most one owner may be overwritten. */
  ghost predicate Overwritable(cells: seq<Cell>, idxs: seq<nat>)
    requires Indices(idxs, |cells|)
  {
    forall k :: 0 <= k < |idxs| ==> cells[idxs[k]].Free? || |cells[idxs[k]].seqs| == 1
  }

  lemma {:induction false} PlacedAt(cells: seq<Cell>, idxs: seq<nat>, toks: seq<Tok>, is2d: bool)
    requires |idxs| == |toks| && Indices(idxs, |cells|) && Distinct(idxs)
    ensures forall k :: 0 <= k < |idxs| ==> Placed(cells, idxs, toks, is2d)[idxs[k]] == Filled(toks[k], is2d)
    ensures forall i :: 0 <= i < |cells| && i !in idxs ==> Placed(cells, idxs, toks, is2d)[i] == cells[i]
  {
    if idxs != [] {
      var k := |idxs| - 1;
      PlacedAt(cells, idxs[..k], toks[..k], is2d);
      assert forall j :: 0 <= j < k ==> idxs[..k][j] == idxs[j] && toks[..k][j] == toks[j];
    }
  }

  /** What one round of the placing loop adds to the record and to the cells. */
  lemma PlaceStep(cells: seq<Cell>, idxs: seq<nat>, toks: seq<Tok>, is2d: bool, k: nat)
    requires |idxs| == |toks| && k < |idxs| && Indices(idxs, |cells|) && Distinct(idxs)
    ensures Placed(cells, idxs[..k], toks[..k], is2d)[idxs[k]] == cells[idxs[k]]
    ensures Placed(cells, idxs[..k + 1], toks[..k + 1], is2d)
         == Placed(cells, idxs[..k], toks[..k], is2d)[idxs[k] := Filled(toks[k], is2d)]
  {
    PlacedAt(cells, idxs[..k], toks[..k], is2d);
    assert idxs[..k + 1][..k] == idxs[..k] && toks[..k + 1][..k] == toks[..k];
  }

  /** The record of evicted maxima, updated with what the listed cells held. */
  function Record(rm: seq<int>, cells: seq<Cell>, idxs: seq<nat>): (r: seq<int>)
    requires Indices(idxs, |cells|)
    ensures |r| == |rm|
    ensures forall q :: 0 <= q < |rm| ==> r[q] == Max(rm[q], EvictedMax(cells, idxs, q))
  {
    seq(|rm|, (q: nat) requires q < |rm| && Indices(idxs, |cells|) => Max(rm[q], EvictedMax(cells, idxs, q)))
  }

  lemma RecordStep(rm: seq<int>, cells: seq<Cell>, idxs: seq<nat>, k: nat)
    requires Indices(idxs, |cells|) && k < |idxs|
    ensures cells[idxs[k]].Free? ==> Record(rm, cells, idxs[..k + 1]) == Record(rm, cells, idxs[..k])
    ensures forall q: nat :: q < |rm| && cells[idxs[k]].Used? && cells[idxs[k]].seqs == {q} ==>
      var before := Record(rm, cells, idxs[..k]);
      Record(rm, cells, idxs[..k + 1]) == before[q := Max(before[q], cells[idxs[k]].pos)]
  {
    assert idxs[..k + 1][..k] == idxs[..k];
  }

  ghost predicate OwnersBelow(cells: seq<Cell>, n: nat) {
    forall i, q: nat {:trigger cells[i].Has(q)} :: 0 <= i < |cells| && cells[i].Has(q) ==> q < n
  }

  /** The placing loop of `apply_ubatch` for one stream, with its record of what was evicted. */
  method PlaceTokens(cells: seq<Cell>, idxs: seq<nat>, toks: seq<Tok>, is2d: bool, rm: seq<int>)
    returns (cells': seq<Cell>, rm': seq<int>)
    requires |idxs| == |toks| && Indices(idxs, |cells|) && Distinct(idxs)
    requires Overwritable(cells, idxs)
    requires OwnersBelow(cells, |rm|)
    requires forall q :: 0 <= q < |rm| ==> rm[q] >= -1
    ensures cells' == Placed(cells, idxs, toks, is2d)
    ensures rm' == Record(rm, cells, idxs)
  {
    cells', rm' := cells, rm;
    for ii := 0 to |idxs|
      invariant |cells'| == |cells|
      invariant cells' == Placed(cells, idxs[..ii], toks[..ii], is2d)
      invariant rm' == Record(rm, cells, idxs[..ii])
    {
      var idx := idxs[ii];
      PlaceStep(cells, idxs, toks, is2d, ii);
      RecordStep(rm, cells, idxs, ii);
      if !cells'[idx].Free? {
        var owner :| owner in cells'[idx].seqs;
        Singleton(cells'[idx].seqs, owner);
        assert cells[idx].Has(owner);
        rm' := rm'[owner := Max(rm'[owner], cells'[idx].pos)];
      }
      cells' := cells'[idx := Filled(toks[ii], is2d)];
    }
    assert idxs[..|idxs|] == idxs && toks[..|idxs|] == toks;
  }

  lemma Singleton(s: set<nat>, x: nat)
    requires |s| == 1 && x in s
    ensures s == {x}
  {
    assert |s - {x}| == 0;
  }
}
