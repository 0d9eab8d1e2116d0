/** The attention mask: the incremental form that reuses the row of an earlier token of the same
    sequence, against the plain per-token, per-cell rule. */
module KqMask {
  import opened KvCells
  import opened Rows
  import opened Placement
  import opened BatchMin
  import opened AppendRuns

  /** A masked entry, or the bias added to the attention score. */
  datatype Entry = Drop | Bias(b: int)

  /** `later(e, x, y)` says that a cell's 2-D coordinates e come after the query's (x, y). */
  datatype Args = Args(
    streams: seq<seq<Cell>>, seqToStream: seq<nat>, swa: Swa, nKv: nat,
    causal: bool, is2d: bool, alibi: bool, later: (Ext, int, int) -> bool)
  {
    ghost predicate Valid() {
      && swa.Valid()
      && (forall q :: 0 <= q < |seqToStream| ==> seqToStream[q] < |streams|)
      && (forall x :: 0 <= x < |streams| ==> nKv <= |streams[x]|)
    }

    function CellsOf(q: nat): (r: seq<Cell>)
      requires Valid() && q < |seqToStream|
      ensures nKv <= |r|
    {
      streams[seqToStream[q]]
    }
  }

  ghost predicate ToksValid(a: Args, toks: seq<Tok>) {
    forall k :: 0 <= k < |toks| ==> toks[k].ids != [] && toks[k].ids[0] < |a.seqToStream|
  }

  function Abs(x: int): int { if x < 0 then -x else x }

  /** The plain rule for one query token and one cell. */
  function MaskOf(a: Args, t: Tok, c: Cell): Entry
    requires t.ids != []
  {
    if !c.Has(t.ids[0]) then Drop
    else if a.causal && c.pos > t.pos then Drop
    else if a.causal && a.is2d && c.pos == t.pos && a.later(c.ext, t.ext.x, t.ext.y) then Drop
    else if a.swa.windowed && a.swa.hides(c.pos, t.pos) then Drop
    else Bias(if a.alibi then -Abs(c.pos - t.pos) else 0)
  }

  function PlainRow(a: Args, t: Tok): (r: seq<Entry>)
    requires a.Valid() && t.ids != [] && t.ids[0] < |a.seqToStream|
    ensures |r| == a.nKv
    ensures forall j :: 0 <= j < a.nKv ==> r[j] == MaskOf(a, t, a.CellsOf(t.ids[0])[j])
  {
    seq(a.nKv, j requires 0 <= j < a.nKv && a.Valid() => MaskOf(a, t, a.CellsOf(t.ids[0])[j]))
  }

  /** A cell whose entry may differ between tokens of sequence q: its position is within reach
      (window plus 32) of the sequence's lowest position in the batch. */
  predicate IsNear(a: Args, c: Cell, q: nat, posMin: int) {
    c.Has(q) && c.pos + a.swa.n + 32 >= posMin
  }

  /** The near ones among the first n cells, in order. */
  function Near(a: Args, cells: seq<Cell>, q: nat, posMin: int, n: nat): (r: seq<nat>)
    requires n <= |cells|
    ensures |r| <= n
  {
    if n == 0 then []
    else
      var rest := Near(a, cells, q, posMin, n - 1);
      if IsNear(a, cells[n - 1], q, posMin) then rest + [n - 1] else rest
  }

  lemma {:induction false} NearMembers(a: Args, cells: seq<Cell>, q: nat, posMin: int, n: nat)
    requires n <= |cells|
    ensures forall k :: 0 <= k < |Near(a, cells, q, posMin, n)| ==> Near(a, cells, q, posMin, n)[k] < n
    ensures forall j: nat :: j < n && IsNear(a, cells[j], q, posMin) ==> j in Near(a, cells, q, posMin, n)
  {
    if n > 0 {
      NearMembers(a, cells, q, posMin, n - 1);
    }
  }

  /** Away from the near cells two tokens of the same sequence have the same entry. */
  lemma FarIsSame(a: Args, t: Tok, u: Tok, c: Cell, posMin: int)
    requires a.swa.Valid() && !a.alibi && t.ids != [] && u.ids != [] && t.ids[0] == u.ids[0]
    requires posMin <= t.pos && posMin <= u.pos && !IsNear(a, c, t.ids[0], posMin)
    ensures MaskOf(a, t, c) == MaskOf(a, u, c)
  {
  }

  /** The first n rows hold what the plain rule says. */
  ghost predicate RowsDone(a: Args, toks: seq<Tok>, data: seq<Entry>, n: nat)
    requires a.Valid() && ToksValid(a, toks) && n <= |toks|
  {
    forall i {:trigger RowIs(a, toks[i], data, i)} :: 0 <= i < n ==> RowIs(a, toks[i], data, i)
  }

  ghost predicate RowIs(a: Args, t: Tok, data: seq<Entry>, i: nat)
    requires a.Valid() && t.ids != [] && t.ids[0] < |a.seqToStream|
  {
    Row(a.nKv, i) + a.nKv <= |data| && data[Row(a.nKv, i)..Row(a.nKv, i) + a.nKv] == PlainRow(a, t)
  }

  /** The tests on an occupied cell of the query's own sequence. */
  method Visit(a: Args, t: Tok, c: Cell) returns (e: Entry)
    requires t.ids != [] && c.Has(t.ids[0])
    ensures e == MaskOf(a, t, c)
  {
    var p0: int, p1: int := c.pos, t.pos;
    if a.causal {
      if p0 > p1 {
        return Drop;
      }
      if a.is2d && p0 == p1 && a.later(c.ext, t.ext.x, t.ext.y) {
        return Drop;
      }
    }
    if a.swa.windowed && a.swa.hides(p0, p1) {
      return Drop;
    }
    return if a.alibi then Bias(-Abs(p0 - p1)) else Bias(0);
  }

  /** The entry of one cell, and whether the cell is to be looked at again for the next token. */
  method CellEntry(a: Args, t: Tok, c: Cell, posMin: int) returns (entry: Entry, near: bool)
    requires t.ids != []
    ensures entry == MaskOf(a, t, c) && near == IsNear(a, c, t.ids[0], posMin)
  {
    if c.Free? || !c.Has(t.ids[0]) {
      return Drop, false;
    }
    entry := Visit(a, t, c);
    near := c.pos + (a.swa.n + 32) >= posMin;
  }

  /** The row from base on: plain entries of t where it has been redone, and as it was elsewhere. */
  ghost predicate Mixed(a: Args, t: Tok, data: seq<Entry>, base: nat, was: seq<Entry>, redone: set<int>)
    requires a.Valid() && t.ids != [] && t.ids[0] < |a.seqToStream|
  {
    base + a.nKv <= |data| && |was| == a.nKv
    && forall k :: base <= k < base + a.nKv ==>
      data[k] == if (k - base) in redone then MaskOf(a, t, a.CellsOf(t.ids[0])[k - base]) else was[k - base]
  }

  lemma MixedStep(a: Args, t: Tok, data: seq<Entry>, base: nat, was: seq<Entry>, redone: set<int>, j: nat)
    requires a.Valid() && t.ids != [] && t.ids[0] < |a.seqToStream| && j < a.nKv
    requires Mixed(a, t, data, base, was, redone)
    ensures Mixed(a, t, data[base + j := MaskOf(a, t, a.CellsOf(t.ids[0])[j])], base, was, redone + {j})
  {
  }

  /** After jj rounds: with a previous row the first jj near cells are redone, else the first jj cells,
      and of those the near ones are recorded. */
  ghost predicate Rounds(a: Args, q: nat, posMin: int, prev: bool, known: seq<nat>, idxs: seq<nat>, redone: set<int>,
                         jj: nat)
    requires a.Valid() && q < |a.seqToStream| && jj <= a.nKv
  {
    if prev then idxs == known && jj <= |known| && forall m :: 0 <= m < jj ==> known[m] in redone
    else (forall j :: 0 <= j < jj ==> j in redone) && (!a.alibi ==> idxs == Near(a, a.CellsOf(q), q, posMin, jj))
  }

  /** All entries redone, or the near ones redone on top of the row of another token. */
  lemma RowIsPlain(a: Args, t: Tok, u: Tok, posMin: int, prev: bool, known: seq<nat>, idxs: seq<nat>, data: seq<Entry>,
                   base: nat, was: seq<Entry>, redone: set<int>, jj: nat)
    requires a.Valid() && t.ids != [] && t.ids[0] < |a.seqToStream| && posMin <= t.pos
    requires Mixed(a, t, data, base, was, redone)
    requires jj <= a.nKv && Rounds(a, t.ids[0], posMin, prev, known, idxs, redone, jj)
    requires !prev ==> jj == a.nKv
    requires prev ==>
      && !a.alibi && u.ids != [] && u.ids[0] == t.ids[0] && posMin <= u.pos && was == PlainRow(a, u)
      && known == Near(a, a.CellsOf(t.ids[0]), t.ids[0], posMin, a.nKv) && jj == |known|
    ensures data[base..base + a.nKv] == PlainRow(a, t)
    ensures !a.alibi ==> idxs == Near(a, a.CellsOf(t.ids[0]), t.ids[0], posMin, a.nKv)
  {
    var cells := a.CellsOf(t.ids[0]);
    NearMembers(a, cells, t.ids[0], posMin, a.nKv);
    forall k | base <= k < base + a.nKv
      ensures data[k] == MaskOf(a, t, cells[k - base])
    {
      if (k - base) !in redone {
        FarIsSame(a, t, u, cells[k - base], posMin);
      }
    }
  }

  /** The cell loop for one token. Without a previous row it computes every entry and records the
      near cells; with one (already copied into place) it recomputes only the recorded cells. */
  method MaskRow(a: Args, t: Tok, posMin: int, base: nat, prev: bool, ghost u: Tok, known: seq<nat>, data: array<Entry>)
    returns (idxs: seq<nat>)
    requires a.Valid() && t.ids != [] && t.ids[0] < |a.seqToStream| && posMin <= t.pos
    requires base + a.nKv <= data.Length
    requires prev ==>
      && !a.alibi && u.ids != [] && u.ids[0] == t.ids[0] && posMin <= u.pos
      && data[base..base + a.nKv] == PlainRow(a, u)
      && known == Near(a, a.CellsOf(t.ids[0]), t.ids[0], posMin, a.nKv)
    requires !prev ==> known == []
    modifies data
    ensures data[base..base + a.nKv] == PlainRow(a, t)
    ensures forall k :: 0 <= k < data.Length && !(base <= k < base + a.nKv) ==> data[k] == old(data[k])
    ensures !a.alibi ==> idxs == Near(a, a.CellsOf(t.ids[0]), t.ids[0], posMin, a.nKv)
  {
    var q := t.ids[0];
    var cells := a.CellsOf(q);
    idxs := known;
    NearMembers(a, cells, q, posMin, a.nKv);
    ghost var was := data[base..base + a.nKv];
    ghost var redone: set<int> := {};
    var jj := 0;
    while jj < a.nKv
      invariant 0 <= jj <= a.nKv
      invariant forall k :: 0 <= k < data.Length && !(base <= k < base + a.nKv) ==> data[k] == old(data[k])
      invariant Rounds(a, q, posMin, prev, known, idxs, redone, jj)
      invariant Mixed(a, t, data[..], base, was, redone)
    {
      var j := jj;
      if !a.alibi && prev {
        if jj >= |idxs| {
          break;
        }
        j := idxs[jj];
      }
      var entry, near := CellEntry(a, t, cells[j], posMin);
      if near && !a.alibi && !prev {
        idxs := idxs + [j];
      }
      MixedStep(a, t, data[..], base, was, redone, j);
      data[base + j] := entry;
      redone := redone + {j};
      jj := jj + 1;
    }
    RowIsPlain(a, t, u, posMin, prev, known, idxs, data[..], base, was, redone, jj);
  }

  /** The rows and near cells remembered for the sequences seen so far in the current group. */
  ghost predicate Remembered(a: Args, toks: seq<Tok>, i: nat, srct: map<nat, nat>, idxs: map<nat, seq<nat>>)
    requires a.Valid() && ToksValid(a, toks) && i <= |toks|
  {
    forall q :: q in srct ==>
      && q in idxs && q < |a.seqToStream| && srct[q] < i && toks[srct[q]].ids[0] == q
      && idxs[q] == Near(a, a.CellsOf(q), q, LeadMin(toks, q), a.nKv)
  }

  lemma RememberedStep(a: Args, toks: seq<Tok>, i: nat, srct: map<nat, nat>, idxs: map<nat, seq<nat>>)
    requires a.Valid() && ToksValid(a, toks) && i < |toks| && Remembered(a, toks, i, srct, idxs)
    ensures var q := toks[i].ids[0];
      var near := Near(a, a.CellsOf(q), q, LeadMin(toks, q), a.nKv);
      Remembered(a, toks, i + 1, if q in srct then srct else srct[q := i], idxs[q := near])
  {
  }

  lemma RowAt(a: Args, toks: seq<Tok>, data: seq<Entry>, n: nat, i: nat)
    requires a.Valid() && ToksValid(a, toks) && i < n <= |toks| && RowsDone(a, toks, data, n)
    ensures Row(a.nKv, i) + a.nKv <= |data| && data[Row(a.nKv, i)..Row(a.nKv, i) + a.nKv] == PlainRow(a, toks[i])
  {
    assert RowIs(a, toks[i], data, i);
  }

  /** Nothing before place p differs. */
  ghost predicate SameBelow(before: seq<Entry>, after: seq<Entry>, p: nat) {
    |before| == |after| && forall k :: 0 <= k < p && k < |after| ==> after[k] == before[k]
  }

  lemma RowKept(a: Args, t: Tok, before: seq<Entry>, after: seq<Entry>, k: nat, i: nat)
    requires a.Valid() && t.ids != [] && t.ids[0] < |a.seqToStream| && k < i
    requires SameBelow(before, after, Row(a.nKv, i)) && RowIs(a, t, before, k)
    ensures RowIs(a, t, after, k)
  {
    RowsApart(a.nKv, k, i);
    var lo, hi := Row(a.nKv, k), Row(a.nKv, k) + a.nKv;
    assert after[lo..hi] == before[lo..hi];
  }

  /** Writing row i leaves the earlier rows alone. */
  lemma RowsKept(a: Args, toks: seq<Tok>, before: seq<Entry>, after: seq<Entry>, i: nat)
    requires a.Valid() && ToksValid(a, toks) && i < |toks| && SameBelow(before, after, Row(a.nKv, i))
    requires RowsDone(a, toks, before, i) && RowIs(a, toks[i], after, i)
    ensures RowsDone(a, toks, after, i + 1)
  {
    forall k {:trigger RowIs(a, toks[k], after, k)} | 0 <= k < i
      ensures RowIs(a, toks[k], after, k)
    {
      assert RowIs(a, toks[k], before, k);
      RowKept(a, toks[k], before, after, k, i);
    }
  }

  method CopyRow(data: array<Entry>, src: nat, dst: nat, n: nat)
    requires src + n <= dst && dst + n <= data.Length
    modifies data
    ensures data[dst..dst + n] == old(data[..])[src..src + n]
    ensures forall k :: 0 <= k < data.Length && !(dst <= k < dst + n) ==> data[k] == old(data[k])
  {
    forall k | dst <= k < dst + n {
      data[k] := data[src + (k - dst)];
    }
  }

  /** If an earlier token of the group had the same sequence, copy its row into place. */
  method ReuseRow(a: Args, toks: seq<Tok>, i: nat, srct: map<nat, nat>, idxs: map<nat, seq<nat>>, data: array<Entry>)
    returns (prev: bool, known: seq<nat>)
    requires a.Valid() && ToksValid(a, toks) && i < |toks| && Row(a.nKv, i) + a.nKv <= data.Length
    requires RowsDone(a, toks, data[..], i) && Remembered(a, toks, i, srct, idxs)
    modifies data
    ensures var q := toks[i].ids[0];
      && prev == (q in srct)
      && known == (if prev then Near(a, a.CellsOf(q), q, LeadMin(toks, q), a.nKv) else [])
      && (prev ==> data[Row(a.nKv, i)..Row(a.nKv, i) + a.nKv] == PlainRow(a, toks[srct[q]]))
    ensures forall k :: 0 <= k < data.Length && !(Row(a.nKv, i) <= k < Row(a.nKv, i) + a.nKv) ==>
      data[k] == old(data[k])
  {
    var q := toks[i].ids[0];
    if q !in srct {
      return false, [];
    }
    RowsApart(a.nKv, srct[q], i);
    RowAt(a, toks, data[..], i, srct[q]);
    CopyRow(data, Row(a.nKv, srct[q]), Row(a.nKv, i), a.nKv);
    return true, idxs[q];
  }

  /** One token: reuse the row of an earlier token of its sequence, or compute it. */
  method MaskToken(a: Args, toks: seq<Tok>, i: nat, posMin: seq<int>, srct: map<nat, nat>, idxs: map<nat, seq<nat>>,
                   data: array<Entry>)
    returns (srct': map<nat, nat>, idxs': map<nat, seq<nat>>)
    requires a.Valid() && ToksValid(a, toks) && i < |toks| && Row(a.nKv, i) + a.nKv <= data.Length
    requires |posMin| == |a.seqToStream| && forall q :: 0 <= q < |posMin| ==> posMin[q] == LeadMin(toks, q)
    requires RowsDone(a, toks, data[..], i)
    requires !a.alibi ==> Remembered(a, toks, i, srct, idxs)
    modifies data
    ensures RowsDone(a, toks, data[..], i + 1)
    ensures !a.alibi ==> Remembered(a, toks, i + 1, srct', idxs')
  {
    srct', idxs' := srct, idxs;
    var q := toks[i].ids[0];
    ghost var was := data[..];
    var prev := false;
    var known: seq<nat> := [];
    if !a.alibi {
      prev, known := ReuseRow(a, toks, i, srct, idxs, data);
      if !prev {
        srct' := srct'[q := i];
      }
    }
    var near := MaskRow(a, toks[i], posMin[q], Row(a.nKv, i), prev, toks[if prev then srct[q] else i], known, data);
    if !a.alibi {
      RememberedStep(a, toks, i, srct, idxs);
      idxs' := idxs'[q := near];
    }
    RowsKept(a, toks, was, data[..], i);
  }

  /** `set_input_kq_mask_impl`: for every batch, whatever the attention kind, window, dimension and
      bias, the mask built incrementally is the plain mask. */
  method SetInputKqMask(a: Args, toks: seq<Tok>, nStream: nat, nTps: nat, data: array<Entry>)
    requires a.Valid() && ToksValid(a, toks) && |toks| == nStream * nTps && data.Length == Row(a.nKv, |toks|)
    modifies data
    ensures RowsDone(a, toks, data[..], |toks|)
  {
    var posMin := LowestPositions(|a.seqToStream|, toks);
    for s := 0 to nStream
      invariant s * nTps <= |toks| && RowsDone(a, toks, data[..], s * nTps)
    {
      var srct: map<nat, nat> := map[];
      var idxs: map<nat, seq<nat>> := map[];
      assert s * nTps + nTps == (s + 1) * nTps <= nStream * nTps;
      for ii := 0 to nTps
        invariant RowsDone(a, toks, data[..], s * nTps + ii)
        invariant !a.alibi ==> Remembered(a, toks, s * nTps + ii, srct, idxs)
      {
        RowsApart(a.nKv, s * nTps + ii, |toks|);
        srct, idxs := MaskToken(a, toks, s * nTps + ii, posMin, srct, idxs, data);
      }
    }
  }

  /** The finished mask, entry by entry: row i, column j of the flat array. */
  lemma MaskEntry(a: Args, toks: seq<Tok>, data: seq<Entry>, i: nat, j: nat)
    requires a.Valid() && ToksValid(a, toks) && i < |toks| && j < a.nKv && RowsDone(a, toks, data, |toks|)
    ensures Row(a.nKv, i) + j < |data|
    ensures data[Row(a.nKv, i) + j] == MaskOf(a, toks[i], a.CellsOf(toks[i].ids[0])[j])
  {
    RowAt(a, toks, data, |toks|, i);
    assert data[Row(a.nKv, i)..Row(a.nKv, i) + a.nKv][j] == data[Row(a.nKv, i) + j];
  }

  /** When the columns cover every occupied cell, the columns a causal 1-D query may attend are
      exactly the positions visible to it. */
  lemma MaskShowsVisible(a: Args, t: Tok, p0: int)
    requires a.Valid() && t.ids != [] && t.ids[0] < |a.seqToStream| && a.causal && !a.is2d
    requires UsedMaxP1(a.CellsOf(t.ids[0])) <= a.nKv
    ensures var cells := a.CellsOf(t.ids[0]);
      (exists j :: 0 <= j < a.nKv && MaskOf(a, t, cells[j]) != Drop && cells[j].Used? && cells[j].pos == p0)
        <==> Visible(cells, a.swa, t.ids[0], p0, t.pos)
  {
    var cells := a.CellsOf(t.ids[0]);
    if Visible(cells, a.swa, t.ids[0], p0, t.pos) {
      var j :| 0 <= j < |cells| && cells[j].Has(t.ids[0]) && cells[j].pos == p0;
      assert j < a.nKv && MaskOf(a, t, cells[j]) != Drop;
    }
  }

  /** Without a causal mask every position of the sequence is seen that the window does not hide, later
      ones as well. */
  lemma MaskShowsAll(a: Args, t: Tok, p0: int)
    requires a.Valid() && t.ids != [] && t.ids[0] < |a.seqToStream| && !a.causal
    requires UsedMaxP1(a.CellsOf(t.ids[0])) <= a.nKv
    ensures var cells := a.CellsOf(t.ids[0]);
      (exists j :: 0 <= j < a.nKv && MaskOf(a, t, cells[j]) != Drop && cells[j].Used? && cells[j].pos == p0)
        <==> Present(cells, t.ids[0], p0) && !a.swa.hides(p0, t.pos)
  {
    var cells := a.CellsOf(t.ids[0]);
    if Present(cells, t.ids[0], p0) && !a.swa.hides(p0, t.pos) {
      var j :| 0 <= j < |cells| && cells[j].Has(t.ids[0]) && cells[j].pos == p0;
      assert j < a.nKv && MaskOf(a, t, cells[j]) != Drop;
    }
  }

  /** 2-D coordinates come later row by row, and from left to right within a row. */
  ghost predicate RowByRow(a: Args) {
    forall e: Ext, x, y :: a.later(e, x, y) <==> e.y > y || (e.y == y && e.x > x)
  }

  /** (p, y, x) comes no later than (p', y', x'), the first number counting most. */
  predicate NoLater(p: int, y: int, x: int, p': int, y': int, x': int) {
    p < p' || (p == p' && (y < y' || (y == y' && x <= x')))
  }

  /** A 2-D causal query sees of its sequence what comes no later than itself, by position, then row,
      then column, and is not hidden by the window; in particular itself. */
  lemma MaskIn2d(a: Args, t: Tok, c: Cell)
    requires a.Valid() && t.ids != [] && a.causal && a.is2d && RowByRow(a)
    ensures MaskOf(a, t, c) != Drop <==>
      c.Has(t.ids[0]) && NoLater(c.pos, c.ext.y, c.ext.x, t.pos, t.ext.y, t.ext.x) && !a.swa.hides(c.pos, t.pos)
  {
  }

  /** The bias of a key that is seen: none, or one less for every position between it and the query, on
      whichever side it lies. */
  lemma BiasIsDistance(a: Args, t: Tok, c: Cell)
    requires t.ids != [] && MaskOf(a, t, c) != Drop
    ensures c.Used?
    ensures !a.alibi ==> MaskOf(a, t, c) == Bias(0)
    ensures a.alibi && c.pos <= t.pos ==> MaskOf(a, t, c) == Bias(c.pos - t.pos)
    ensures a.alibi && c.pos >= t.pos ==> MaskOf(a, t, c) == Bias(t.pos - c.pos)
  {
  }

  /** The farther of two keys that are seen has the smaller bias, and no bias is positive. */
  lemma BiasFalls(a: Args, t: Tok, near: Cell, far: Cell)
    requires t.ids != [] && a.alibi && MaskOf(a, t, near) != Drop && MaskOf(a, t, far) != Drop
    requires near.pos == far.pos + 1 <= t.pos || t.pos <= near.pos == far.pos - 1
    ensures MaskOf(a, t, far).b == MaskOf(a, t, near).b - 1 < MaskOf(a, t, near).b <= 0
  {
  }
}
