/** Over every run of the cache without a window the search head stays below all free cells, so the
    ring search is first fit; shifting positions is the one operation that can break this, and when
    it does is known beforehand. */
module FirstFit {
  import opened KvCells
  import opened SlotFacts
  import opened SeqEdits
  import opened Placement
  import opened KvStore
  import opened KvCache
  import opened Prepare
  import opened PrepareFacts

  ghost predicate Good(cfg: Config, st: State) {
    StateValid(cfg, st) && NoneFreeBelow(st.cells, st.head)
  }

  predicate FallsOut(c: Cell, q: nat, p0: int, p1: int, d: int) {
    Selected(c, q, p0, p1) && c.pos + d < 0
  }

  /** The lowest cell that a shift moves below position zero; the number of cells if there is none. */
  function FirstOut(cells: seq<Cell>, q: nat, p0: int, p1: int, d: int): (r: nat)
    ensures r <= |cells|
    ensures r < |cells| ==> FallsOut(cells[r], q, p0, p1, d)
    ensures forall i :: 0 <= i < r ==> !FallsOut(cells[i], q, p0, p1, d)
  {
    if cells == [] then 0
    else if FallsOut(cells[0], q, p0, p1, d) then 0
    else FirstOut(cells[1..], q, p0, p1, d) + 1
  }

  lemma FirstOutIsFreed(cells: seq<Cell>, q: nat, p0: int, p1: int, d: int)
    requires CanShift(cells, q, p0, p1, d)
    ensures FirstFreed(cells, ShiftCells(cells, q, p0, p1, d)) == FirstOut(cells, q, p0, p1, d)
  {
    var after, r := ShiftCells(cells, q, p0, p1, d), FirstOut(cells, q, p0, p1, d);
    FirstFreedIs(cells, after, r);
  }

  /** No free cell lies below the first one that falls out, or none falls out. */
  ghost predicate ShiftSparesHead(cells: seq<Cell>, q: nat, p0: int, p1: int, d: int) {
    var f := FirstOut(cells, q, p0, p1, d);
    f == |cells| || NoneFreeBelow(cells, f)
  }

  function Shifted(st: State, q: nat, p0: int, p1: int, d: int): State
    requires CanShift(st.cells, q, p0, p1, d)
  {
    var after := ShiftCells(st.cells, q, p0, p1, d);
    State(after, var f := FirstFreed(st.cells, after); if f < |after| then f else 0)
  }

  /** seq_add keeps the head below the free cells if and only if, beforehand, no free cell lies below
      the first cell that it moves below position zero, or it moves none there. */
  lemma ShiftKeepsHead(cfg: Config, st: State, q: nat, p0: int, p1: int, d: int)
    requires StateValid(cfg, st) && CanShift(st.cells, q, p0, p1, d)
    ensures Good(cfg, Shifted(st, q, p0, p1, d)) <==> ShiftSparesHead(st.cells, q, p0, p1, d)
  {
    var after, f := ShiftCells(st.cells, q, p0, p1, d), FirstOut(st.cells, q, p0, p1, d);
    FirstOutIsFreed(st.cells, q, p0, p1, d);
    assert forall i :: 0 <= i < f ==> (after[i].Free? <==> st.cells[i].Free?);
    ShrunkValid(cfg, st.cells, after);
  }

  /** What callers do to a cache. Decode is find_slot followed by apply_ubatch; restoring one
      sequence is Remove followed by Decode; restoring everything writes any cells, owned by known
      sequences or by nobody, and head 0. */
  datatype Op =
    | Clear
    | Remove(q: int, p0: int, p1: int)
    | Keep(id: nat)
    | Copy(src: nat, dst: nat, p0: int, p1: int)
    | Decode(ub: Ubatch)
    | PrepareOnly(ubs: seq<Ubatch>)
    | RestoreAll(cells: seq<Cell>)
    | Shift(id: nat, p0: int, p1: int, d: int)

  /** A shift is part of the runs only where it keeps the head, see ShiftKeepsHead. */
  ghost predicate OpValid(cfg: Config, cells: seq<Cell>, op: Op) {
    match op
    case Remove(q, _, _) => -1 <= q < cfg.maxSeq
    case Keep(q) => q < cfg.maxSeq
    case Copy(src, dst, _, _) => src < cfg.maxSeq && dst < cfg.maxSeq
    case Decode(ub) => UbatchValid(cfg, ub)
    case PrepareOnly(ubs) => BatchValid(cfg, ubs)
    case RestoreAll(restored) => |restored| == |cells| && OwnersKnown(cfg, restored)
    case Shift(q, p0, p1, d) =>
      q < cfg.maxSeq && CanShift(cells, q, Lo(p0), Hi(p1), d)
      && (d == 0 || Lo(p0) == Hi(p1) || ShiftSparesHead(cells, q, Lo(p0), Hi(p1), d))
    case Clear => true
  }

  ghost function Step(cfg: Config, st: State, op: Op): State
    requires StateValid(cfg, st) && OpValid(cfg, st.cells, op)
  {
    match op
    case Clear => State(Blank(|st.cells|), 0)
    case Remove(q, p0, p1) =>
      var after := if q >= 0 then RmCells(st.cells, q, Lo(p0), Hi(p1)) else RmAnyCells(st.cells, Lo(p0), Hi(p1));
      State(after, PulledHead(st.head, st.cells, after))
    case Keep(q) =>
      var after := KeepCells(st.cells, q);
      State(after, PulledHead(st.head, st.cells, after))
    case Copy(src, dst, p0, p1) =>
      if src == dst then st else State(CpCells(st.cells, src, dst, Lo(p0), Hi(p1)), st.head)
    case Decode(ub) =>
      var slot := FindIn(cfg, st, ub);
      if slot.None? then st
      else
        FoundSlotValid(st.cells, cfg.swa, st.head, ub.toks, false, slot.value);
        ApplyTo(cfg, st, slot.value, ub)
    case PrepareOnly(ubs) => Plan(cfg, st, ubs).1
    case RestoreAll(cells) => State(cells, 0)
    case Shift(q, p0, p1, d) =>
      if d == 0 || Lo(p0) == Hi(p1) then st else Shifted(st, q, Lo(p0), Hi(p1), d)
  }

  /** A run is a chain of steps from an empty cache. */
  ghost predicate IsRun(cfg: Config, run: seq<State>, ops: seq<Op>) {
    && |run| == |ops| + 1
    && cfg.swa.Valid() && run[0] == State(Blank(|run[0].cells|), 0)
    && forall i :: 0 <= i < |ops| ==>
         StateValid(cfg, run[i]) && OpValid(cfg, run[i].cells, ops[i]) && run[i + 1] == Step(cfg, run[i], ops[i])
  }

  /** An edit that frees cells and pulls the head back keeps the head below every free cell. */
  lemma EditGood(cfg: Config, st: State, after: seq<Cell>)
    requires Good(cfg, st) && |after| == |st.cells| && OwnersKnown(cfg, after)
    requires forall i :: 0 <= i < |after| && after[i].Free? ==> st.cells[i].Free? || Freed(st.cells[i], after[i])
    ensures Good(cfg, State(after, PulledHead(st.head, st.cells, after)))
  {
  }

  lemma DecodeGood(cfg: Config, st: State, ub: Ubatch)
    requires Good(cfg, st) && !cfg.swa.windowed && UbatchValid(cfg, ub)
    ensures Good(cfg, Step(cfg, st, Decode(ub)))
  {
    if FindIn(cfg, st, ub).Some? {
      var slot := FindIn(cfg, st, ub).value;
      SlotIsFree(cfg, st, ub);
      SlotIsFirstFit(st.cells, cfg.swa, st.head, |ub.toks|);
      AppliedToFree(cfg, st, slot, ub);
      ApplyValid(cfg, st, slot, ub);
      PlacedAt(st.cells, slot, ub.toks, ub.is2d);
      var after := ApplyTo(cfg, st, slot, ub);
      forall i | 0 <= i < after.head && i < |after.cells|
        ensures after.cells[i].Used?
      {
        if i in slot {
          var k :| 0 <= k < |slot| && slot[k] == i;
          assert after.cells[i] == Filled(ub.toks[k], ub.is2d);
        } else {
          assert i < slot[|slot| - 1];
          assert after.cells[i] == st.cells[i];
        }
      }
    }
  }

  lemma StepGood(cfg: Config, st: State, op: Op)
    requires Good(cfg, st) && !cfg.swa.windowed && OpValid(cfg, st.cells, op)
    ensures Good(cfg, Step(cfg, st, op))
  {
    match op {
      case Clear =>
      case Remove(q, p0, p1) =>
        var after := Step(cfg, st, op).cells;
        ShrunkValid(cfg, st.cells, after);
        EditGood(cfg, st, after);
      case Keep(q) =>
        var after := Step(cfg, st, op).cells;
        ShrunkValid(cfg, st.cells, after);
        EditGood(cfg, st, after);
      case Copy(src, dst, p0, p1) =>
        CopiedValid(cfg, st.cells, src, dst, Lo(p0), Hi(p1));
      case Decode(ub) =>
        DecodeGood(cfg, st, ub);
      case PrepareOnly(ubs) =>
        PlanLeavesNoTrace(cfg, st, ubs);
      case RestoreAll(cells) =>
      case Shift(q, p0, p1, d) =>
        if d != 0 && Lo(p0) != Hi(p1) {
          ShiftKeepsHead(cfg, st, q, Lo(p0), Hi(p1), d);
        }
    }
  }

  lemma {:induction false} RunGood(cfg: Config, run: seq<State>, ops: seq<Op>, i: nat)
    requires !cfg.swa.windowed && IsRun(cfg, run, ops) && i < |run|
    ensures Good(cfg, run[i])
  {
    if i == 0 {
      BlankValid(cfg, |run[0].cells|);
    } else {
      RunGood(cfg, run, ops, i - 1);
      StepGood(cfg, run[i - 1], ops[i - 1]);
    }
  }

  /** In every state of every run the scattered search answers like a headless first-fit scan: the n
      lowest free cells in ascending order, or nothing exactly when fewer than n are free. */
  lemma SearchIsFirstFit(cfg: Config, run: seq<State>, ops: seq<Op>, i: nat, ub: Ubatch)
    requires !cfg.swa.windowed && IsRun(cfg, run, ops) && i < |run| && UbatchValid(cfg, ub)
    ensures run[i].head <= |run[i].cells|
    ensures var r := FindIn(cfg, run[i], ub);
      && (r.None? <==> |FreeCells(run[i].cells)| < |ub.toks|)
      && (r.Some? ==> IsFirstFit(run[i].cells, r.value, |ub.toks|))
  {
    RunGood(cfg, run, ops, i);
    var st := run[i];
    SlotIsFirstFit(st.cells, cfg.swa, st.head, |ub.toks|);
    SlotSound(st.cells, cfg.swa, st.head, |ub.toks|);
    UsableIsFree(st.cells, cfg.swa);
    assert UsableSet(st.cells, cfg.swa) == FreeCells(st.cells);
  }

  /** It can fail: with cell 0 free and the head on it, shifting cell 1 below zero moves the head
      past cell 0. */
  lemma ShiftCanSkipFreeCells(cfg: Config)
    requires cfg.swa.Valid() && 0 < cfg.maxSeq
    ensures var cells := [Free, Used(0, 0, NO_EXT, {0})];
      && Good(cfg, State(cells, 0))
      && Shifted(State(cells, 0), 0, 0, POS_MAX, -1) == State([Free, Free], 1)
  {
    var cells := [Free, Used(0, 0, NO_EXT, {0})];
    var after := ShiftCells(cells, 0, 0, POS_MAX, -1);
    assert after[0] == Free && after[1] == Free;
    FirstFreedIs(cells, after, 1);
  }
}
