/** The metadata of one stream of the KV cache: a fixed row of cells, each either free or holding
    one position and the set of sequences that own it. */
module KvCells {
  import opened Wrappers

  /** Positions are 32-bit in the engine; INT32_MAX itself is the open upper end of a range. */
  const POS_MAX: int := 0x7fff_ffff

  type Pos = p: int | 0 <= p < POS_MAX witness 0

  /** The second and third coordinate of a 2-D (M-RoPE) position. */
  datatype Ext = Ext(x: int, y: int)

  const NO_EXT: Ext := Ext(0, 0)

  datatype Cell = Free | Used(pos: Pos, shift: int, ext: Ext, seqs: set<nat>)
  {
    predicate Has(q: nat) {
      Used? && q in seqs
    }

    predicate In(p0: int, p1: int) {
      Used? && p0 <= pos < p1
    }
  }

  /** The sliding-window rule. `hides(p0, p1)` says that a key at p0 is out of reach of a query at
      p1; the rule itself belongs to the hyper-parameters and is any predicate that obeys Valid. */
  datatype Swa = Swa(windowed: bool, n: nat, hides: (int, int) -> bool)
  {
    ghost predicate Valid() {
      && (!windowed ==> forall a, b :: !hides(a, b))
      && (windowed ==> forall a, b :: 0 <= a && a + n < b ==> hides(a, b))
      && (forall a, b, a', b' :: 0 <= a' <= a <= b <= b' && hides(a, b) ==> hides(a', b'))
    }
  }

  /** Sequence q has position p in the cache. */
  ghost predicate Present(cells: seq<Cell>, q: nat, p: int) {
    exists i :: 0 <= i < |cells| && cells[i].Has(q) && cells[i].pos == p
  }

  function SeqPosMax(cells: seq<Cell>, q: nat): (m: int)
    ensures m >= -1
    ensures forall i :: 0 <= i < |cells| && cells[i].Has(q) ==> cells[i].pos <= m
    ensures m >= 0 ==> Present(cells, q, m)
  {
    if cells == [] then -1
    else
      var last := cells[|cells| - 1];
      var rest := SeqPosMax(cells[..|cells| - 1], q);
      if last.Has(q) then Max(rest, last.pos) else rest
  }

  function SeqPosMin(cells: seq<Cell>, q: nat): (m: int)
    ensures m >= -1
    ensures forall i :: 0 <= i < |cells| && cells[i].Has(q) ==> m >= 0 && m <= cells[i].pos
    ensures m >= 0 ==> Present(cells, q, m)
  {
    if cells == [] then -1
    else
      var last := cells[|cells| - 1];
      var rest := SeqPosMin(cells[..|cells| - 1], q);
      if !last.Has(q) then rest
      else if rest == -1 then last.pos
      else Min(rest, last.pos)
  }

  /** Number of occupied cells. */
  function UsedCount(cells: seq<Cell>): (n: nat)
    ensures n <= |cells|
  {
    if cells == [] then 0
    else UsedCount(cells[..|cells| - 1]) + (if cells[|cells| - 1].Used? then 1 else 0)
  }

  /** One past the last occupied cell. */
  function UsedMaxP1(cells: seq<Cell>): (n: nat)
    ensures n <= |cells|
    ensures forall i :: n <= i < |cells| ==> cells[i].Free?
    ensures n > 0 ==> cells[n - 1].Used?
  {
    if cells == [] then 0
    else if cells[|cells| - 1].Used? then |cells|
    else UsedMaxP1(cells[..|cells| - 1])
  }

  /** The maximum is determined by which positions are present, not by where they sit. */
  lemma SeqPosMaxIs(cells: seq<Cell>, q: nat, m: int)
    requires forall i :: 0 <= i < |cells| && cells[i].Has(q) ==> cells[i].pos <= m
    requires Present(cells, q, m)
    ensures SeqPosMax(cells, q) == m
  {
    var i :| 0 <= i < |cells| && cells[i].Has(q) && cells[i].pos == m;
    assert cells[i].pos <= SeqPosMax(cells, q);
    var j :| 0 <= j < |cells| && cells[j].Has(q) && cells[j].pos == SeqPosMax(cells, q);
  }
}
