/** The edits a stream undergoes when sequences are removed, kept, copied or shifted: what happens
    to one cell, and the loops that apply it to the whole stream and move the search head. */
module SeqEdits {
  import opened KvCells

  /** Drop sequence q from a cell; a cell nobody owns any more is freed. */
  function Without(c: Cell, q: nat): Cell {
    if !c.Has(q) then c
    else if c.seqs - {q} == {} then Free
    else c.(seqs := c.seqs - {q})
  }

  function RmCell(c: Cell, q: nat, p0: int, p1: int): Cell {
    if c.In(p0, p1) then Without(c, q) else c
  }

  function RmAnyCell(c: Cell, p0: int, p1: int): Cell {
    if c.In(p0, p1) then Free else c
  }

  function KeepCell(c: Cell, q: nat): Cell {
    if c.Free? || c.seqs == {} then c
    else if c.Has(q) then c.(seqs := {q})
    else Free
  }

  function CpCell(c: Cell, src: nat, dst: nat, p0: int, p1: int): Cell {
    if c.In(p0, p1) && c.Has(src) then c.(seqs := c.seqs + {dst}) else c
  }

  predicate Selected(c: Cell, q: nat, p0: int, p1: int) {
    c.In(p0, p1) && c.Has(q)
  }

  /** Shifting below zero frees the cell. Shifting past the 32-bit range is not defined. */
  function ShiftCell(c: Cell, q: nat, p0: int, p1: int, d: int): Cell
    requires Selected(c, q, p0, p1) ==> c.pos + d < POS_MAX
  {
    if !Selected(c, q, p0, p1) then c
    else if c.pos + d < 0 then Free
    else c.(pos := c.pos + d, shift := c.shift + d)
  }

  function RmCells(cells: seq<Cell>, q: nat, p0: int, p1: int): (r: seq<Cell>)
    ensures |r| == |cells|
  {
    seq(|cells|, i requires 0 <= i < |cells| => RmCell(cells[i], q, p0, p1))
  }

  function RmAnyCells(cells: seq<Cell>, p0: int, p1: int): (r: seq<Cell>)
    ensures |r| == |cells|
  {
    seq(|cells|, i requires 0 <= i < |cells| => RmAnyCell(cells[i], p0, p1))
  }

  function KeepCells(cells: seq<Cell>, q: nat): (r: seq<Cell>)
    ensures |r| == |cells|
  {
    seq(|cells|, i requires 0 <= i < |cells| => KeepCell(cells[i], q))
  }

  function CpCells(cells: seq<Cell>, src: nat, dst: nat, p0: int, p1: int): (r: seq<Cell>)
    ensures |r| == |cells|
  {
    seq(|cells|, i requires 0 <= i < |cells| => CpCell(cells[i], src, dst, p0, p1))
  }

  ghost predicate CanShift(cells: seq<Cell>, q: nat, p0: int, p1: int, d: int) {
    forall i :: 0 <= i < |cells| && Selected(cells[i], q, p0, p1) ==> cells[i].pos + d < POS_MAX
  }

  function ShiftCells(cells: seq<Cell>, q: nat, p0: int, p1: int, d: int): (r: seq<Cell>)
    requires CanShift(cells, q, p0, p1, d)
    ensures |r| == |cells|
  {
    seq(|cells|, i requires 0 <= i < |cells| && CanShift(cells, q, p0, p1, d) => ShiftCell(cells[i], q, p0, p1, d))
  }

  predicate Freed(before: Cell, after: Cell) {
    before.Used? && after.Free?
  }

  /** The first cell an edit freed, or the stream's size if it freed none. */
  function FirstFreed(before: seq<Cell>, after: seq<Cell>): (r: nat)
    requires |before| == |after|
    ensures r <= |before|
    ensures r < |before| ==> Freed(before[r], after[r])
    ensures forall i :: 0 <= i < r ==> !Freed(before[i], after[i])
  {
    if before == [] then 0
    else
      var k := |before| - 1;
      var r := FirstFreed(before[..k], after[..k]);
      if r < k || Freed(before[k], after[k]) then r else k + 1
  }

  /** After i cells, newHead is the first one freed so far, if any was. */
  ghost predicate Tracks(before: seq<Cell>, after: seq<Cell>, i: nat, newHead: nat)
    requires |before| == |after| && i <= |before|
  {
    && (newHead == |before| || newHead < i)
    && (newHead < |before| ==> Freed(before[newHead], after[newHead]))
    && (forall j :: 0 <= j < newHead && j < i ==> !Freed(before[j], after[j]))
  }

  lemma FirstFreedIs(before: seq<Cell>, after: seq<Cell>, r: nat)
    requires |before| == |after| && Tracks(before, after, |before|, r)
    ensures FirstFreed(before, after) == r
  {
  }

  /** Removals and seq_keep pull the head back to the first cell they freed. */
  function PulledHead(head: nat, before: seq<Cell>, after: seq<Cell>): nat
    requires |before| == |after|
  {
    var f := FirstFreed(before, after);
    if f < |before| && f < head then f else head
  }

  method RemoveSeq(cells: seq<Cell>, head: nat, q: nat, p0: int, p1: int)
    returns (cells': seq<Cell>, head': nat)
    ensures cells' == RmCells(cells, q, p0, p1)
    ensures head' == PulledHead(head, cells, cells')
  {
    cells', head' := cells, head;
    var newHead: nat := |cells|;
    for i := 0 to |cells|
      invariant |cells'| == |cells|
      invariant forall j :: 0 <= j < i ==> cells'[j] == RmCell(cells[j], q, p0, p1)
      invariant forall j :: i <= j < |cells| ==> cells'[j] == cells[j]
      invariant Tracks(cells, cells', i, newHead)
    {
      if !cells[i].In(p0, p1) {
        continue;
      }
      if cells[i].Has(q) {
        cells' := cells'[i := Without(cells[i], q)];
        if cells'[i].Free? && newHead == |cells| {
          newHead := i;
        }
      }
    }
    FirstFreedIs(cells, cells', newHead);
    if newHead != |cells| && newHead < head {
      head' := newHead;
    }
  }

  method RemoveAny(cells: seq<Cell>, head: nat, p0: int, p1: int)
    returns (cells': seq<Cell>, head': nat)
    ensures cells' == RmAnyCells(cells, p0, p1)
    ensures head' == PulledHead(head, cells, cells')
  {
    cells', head' := cells, head;
    var newHead: nat := |cells|;
    for i := 0 to |cells|
      invariant |cells'| == |cells|
      invariant forall j :: 0 <= j < i ==> cells'[j] == RmAnyCell(cells[j], p0, p1)
      invariant forall j :: i <= j < |cells| ==> cells'[j] == cells[j]
      invariant Tracks(cells, cells', i, newHead)
    {
      if !cells[i].In(p0, p1) {
        continue;
      }
      cells' := cells'[i := Free];
      if newHead == |cells| {
        newHead := i;
      }
    }
    FirstFreedIs(cells, cells', newHead);
    if newHead != |cells| && newHead < head {
      head' := newHead;
    }
  }

  method KeepSeq(cells: seq<Cell>, head: nat, q: nat) returns (cells': seq<Cell>, head': nat)
    ensures cells' == KeepCells(cells, q)
    ensures head' == PulledHead(head, cells, cells')
  {
    cells', head' := cells, head;
    var newHead: nat := |cells|;
    for i := 0 to |cells|
      invariant |cells'| == |cells|
      invariant forall j :: 0 <= j < i ==> cells'[j] == KeepCell(cells[j], q)
      invariant forall j :: i <= j < |cells| ==> cells'[j] == cells[j]
      invariant Tracks(cells, cells', i, newHead)
    {
      cells' := cells'[i := KeepCell(cells[i], q)];
      if Freed(cells[i], cells'[i]) && newHead == |cells| {
        newHead := i;
      }
    }
    FirstFreedIs(cells, cells', newHead);
    if newHead != |cells| && newHead < head {
      head' := newHead;
    }
  }

  method CopySeq(cells: seq<Cell>, src: nat, dst: nat, p0: int, p1: int) returns (cells': seq<Cell>)
    ensures cells' == CpCells(cells, src, dst, p0, p1)
  {
    cells' := cells;
    for i := 0 to |cells|
      invariant |cells'| == |cells|
      invariant forall j :: 0 <= j < i ==> cells'[j] == CpCell(cells[j], src, dst, p0, p1)
      invariant forall j :: i <= j < |cells| ==> cells'[j] == cells[j]
    {
      if !cells[i].In(p0, p1) {
        continue;
      }
      if cells[i].Has(src) {
        cells' := cells'[i := cells[i].(seqs := cells[i].seqs + {dst})];
      }
    }
  }

  /** Unlike the others, a shift sets the head to the first freed cell, or to 0. */
  method ShiftSeq(cells: seq<Cell>, q: nat, p0: int, p1: int, d: int)
    returns (cells': seq<Cell>, head': nat)
    requires CanShift(cells, q, p0, p1, d)
    ensures cells' == ShiftCells(cells, q, p0, p1, d)
    ensures head' == (var f := FirstFreed(cells, cells'); if f < |cells| then f else 0)
  {
    cells' := cells;
    var newHead: nat := |cells|;
    for i := 0 to |cells|
      invariant |cells'| == |cells|
      invariant forall j :: 0 <= j < i ==> cells'[j] == ShiftCell(cells[j], q, p0, p1, d)
      invariant forall j :: i <= j < |cells| ==> cells'[j] == cells[j]
      invariant Tracks(cells, cells', i, newHead)
    {
      if !cells[i].In(p0, p1) {
        continue;
      }
      if cells[i].Has(q) {
        cells' := cells'[i := ShiftCell(cells[i], q, p0, p1, d)];
        if cells'[i].Free? && newHead == |cells| {
          newHead := i;
        }
      }
    }
    FirstFreedIs(cells, cells', newHead);
    head' := if newHead != |cells| then newHead else 0;
  }
}
