/** What planning a batch leaves behind, and what its slots are good for. */
module PrepareFacts {
  import opened Wrappers
  import opened KvCells
  import opened SlotSearch
  import opened SlotFacts
  import opened Scatter
  import opened Placement
  import opened KvStore
  import opened Prepare

  ghost predicate BatchValid(cfg: Config, ubs: seq<Ubatch>) {
    forall i :: 0 <= i < |ubs| ==> UbatchValid(cfg, ubs[i])
  }

  /** What apply_ubatch does to a cell outside its slot: the purge may take owners away. */
  lemma AppliedElsewhere(cfg: Config, st: State, idxs: seq<nat>, ub: Ubatch, i: nat)
    requires UbatchValid(cfg, ub) && SlotValid(st.cells, idxs, ub.toks) && i < |st.cells| && i !in idxs
    ensures ApplyTo(cfg, st, idxs, ub).cells[i]
        == PurgeCell(st.cells[i], EvictedAll(st.cells, idxs, cfg.maxSeq), cfg.maxSeq)
  {
    PlacedAt(st.cells, idxs, ub.toks, ub.is2d);
  }

  /** Filling this slot takes an owner away from cell i: the slot held a position of that sequence
      at or above the cell's own. */
  ghost predicate Purges(cells: seq<Cell>, slot: seq<nat>, i: nat)
    requires i < |cells| && Indices(slot, |cells|)
  {
    exists q: nat :: cells[i].Has(q) && cells[i].pos <= EvictedMax(cells, slot, q)
  }

  lemma PurgeTakes(cells: seq<Cell>, slot: seq<nat>, i: nat, maxSeq: nat)
    requires i < |cells| && Indices(slot, |cells|) && OwnersBelow(cells, maxSeq)
    ensures PurgeCell(cells[i], EvictedAll(cells, slot, maxSeq), maxSeq) != cells[i] <==> Purges(cells, slot, i)
  {
    var c, rm := cells[i], EvictedAll(cells, slot, maxSeq);
    if c.Used? {
      var keep := Keepers(c, rm, maxSeq);
      if Purges(cells, slot, i) {
        var q: nat :| c.Has(q) && c.pos <= EvictedMax(cells, slot, q);
        assert q !in keep;
      } else {
        assert keep == c.seqs;
      }
    }
  }

  /** Planning this batch loses cell i: some ubatch purges it before any ubatch claims it. */
  ghost predicate Loses(cfg: Config, st: State, ubs: seq<Ubatch>, i: nat)
    requires StateValid(cfg, st) && BatchValid(cfg, ubs) && i < |st.cells|
    decreases |ubs|
  {
    ubs != [] &&
    var slot := FindIn(cfg, st, ubs[0]);
    slot.Some? && i !in slot.value &&
    (FoundSlotValid(st.cells, cfg.swa, st.head, ubs[0].toks, false, slot.value);
     ApplyValid(cfg, st, slot.value, ubs[0]);
     var next := ApplyTo(cfg, st, slot.value, ubs[0]);
     Purges(st.cells, slot.value, i) || Loses(cfg, next, ubs[1..], i))
  }

  /** c is what is left of b after dropping owners. */
  ghost predicate Remains(b: Cell, c: Cell) {
    c == b || (b.Used? && (c.Free? || (c.seqs < b.seqs && c == b.(seqs := c.seqs))))
  }

  /** Exactly what `prepare` restores, under any window and whether or not the batch fits: the head
      always; a cell if and only if no ubatch purges it before one of them has claimed it. */
  lemma {:induction false} PlanTrace(cfg: Config, st: State, ubs: seq<Ubatch>, i: nat)
    requires StateValid(cfg, st) && BatchValid(cfg, ubs) && i < |st.cells|
    ensures Plan(cfg, st, ubs).1.head == st.head
    ensures Plan(cfg, st, ubs).1.cells[i] == st.cells[i] <==> !Loses(cfg, st, ubs, i)
    ensures Remains(st.cells[i], Plan(cfg, st, ubs).1.cells[i])
    decreases |ubs|
  {
    if ubs != [] && FindIn(cfg, st, ubs[0]).Some? {
      var slot := FindIn(cfg, st, ubs[0]).value;
      FoundSlotValid(st.cells, cfg.swa, st.head, ubs[0].toks, false, slot);
      ApplyValid(cfg, st, slot, ubs[0]);
      var next := ApplyTo(cfg, st, slot, ubs[0]);
      PlanTrace(cfg, next, ubs[1..], i);
      PutBackAt(Plan(cfg, next, ubs[1..]).1.cells, slot, Picked(st.cells, slot));
      if i !in slot {
        AppliedElsewhere(cfg, st, slot, ubs[0], i);
        PurgeTakes(st.cells, slot, i, cfg.maxSeq);
      }
    }
  }

  /** Overwriting free cells evicts nothing, so the purge has nothing to do. */
  lemma AppliedToFree(cfg: Config, st: State, idxs: seq<nat>, ub: Ubatch)
    requires UbatchValid(cfg, ub) && SlotValid(st.cells, idxs, ub.toks)
    requires forall k :: 0 <= k < |idxs| ==> st.cells[idxs[k]].Free?
    ensures ApplyTo(cfg, st, idxs, ub).cells == Placed(st.cells, idxs, ub.toks, ub.is2d)
  {
    PurgedNothing(Placed(st.cells, idxs, ub.toks, ub.is2d), EvictedAll(st.cells, idxs, cfg.maxSeq), cfg.maxSeq);
  }

  /** Without a window slots consist of free cells. */
  lemma SlotIsFree(cfg: Config, st: State, ub: Ubatch)
    requires StateValid(cfg, st) && UbatchValid(cfg, ub) && !cfg.swa.windowed && FindIn(cfg, st, ub).Some?
    ensures var s := FindIn(cfg, st, ub).value;
      SlotValid(st.cells, s, ub.toks) && forall k :: 0 <= k < |s| ==> st.cells[s[k]].Free?
  {
    FoundSlotValid(st.cells, cfg.swa, st.head, ub.toks, false, FindIn(cfg, st, ub).value);
    SlotSound(st.cells, cfg.swa, st.head, |ub.toks|);
    UsableIsFree(st.cells, cfg.swa);
  }

  /** Without a window `prepare` leaves the cache exactly as it found it. */
  lemma {:induction false} PlanLeavesNoTrace(cfg: Config, st: State, ubs: seq<Ubatch>)
    requires StateValid(cfg, st) && BatchValid(cfg, ubs) && !cfg.swa.windowed
    ensures Plan(cfg, st, ubs).1 == st
  {
    if |st.cells| == 0 {
      if ubs != [] { SlotSound(st.cells, cfg.swa, st.head, |ubs[0].toks|); }
    }
    forall i | 0 <= i < |st.cells|
      ensures Plan(cfg, st, ubs).1.cells[i] == st.cells[i] && Plan(cfg, st, ubs).1.head == st.head
    {
      NeverLoses(cfg, st, ubs, i);
      PlanTrace(cfg, st, ubs, i);
    }
  }

  lemma {:induction false} NeverLoses(cfg: Config, st: State, ubs: seq<Ubatch>, i: nat)
    requires StateValid(cfg, st) && BatchValid(cfg, ubs) && !cfg.swa.windowed && i < |st.cells|
    ensures !Loses(cfg, st, ubs, i)
    decreases |ubs|
  {
    if ubs != [] && FindIn(cfg, st, ubs[0]).Some? {
      SlotIsFree(cfg, st, ubs[0]);
      var slot := FindIn(cfg, st, ubs[0]).value;
      AppliedToFree(cfg, st, slot, ubs[0]);
      ApplyValid(cfg, st, slot, ubs[0]);
      PlacedAt(st.cells, slot, ubs[0].toks, ubs[0].is2d);
      NeverLoses(cfg, ApplyTo(cfg, st, slot, ubs[0]), ubs[1..], i);
    }
  }

  /** Step i of a replay: the slot is the one `find_slot` would choose, without a window its cells are
      empty, and it is filled. */
  ghost predicate ReplayStep(cfg: Config, ub: Ubatch, slot: seq<nat>, st: State, next: State) {
    StateValid(cfg, st) && UbatchValid(cfg, ub) && FindIn(cfg, st, ub) == Some(slot)
    && |slot| == |ub.toks| > 0 && Indices(slot, |st.cells|) && next == ApplyTo(cfg, st, slot, ub)
    && (!cfg.swa.windowed ==> AllFree(st.cells, slot))
  }

  /** Applying a prepared plan in order meets the very slots that `find_slot` would choose at each
      point, under any window. */
  lemma {:induction false} PlanReplays(cfg: Config, st: State, ubs: seq<Ubatch>) returns (run: seq<State>)
    requires StateValid(cfg, st) && BatchValid(cfg, ubs) && Plan(cfg, st, ubs).0.Some?
    ensures |run| == |ubs| + 1 && run[0] == st && |Plan(cfg, st, ubs).0.value| == |ubs|
    ensures forall i :: 0 <= i < |ubs| ==>
      ReplayStep(cfg, ubs[i], Plan(cfg, st, ubs).0.value[i], run[i], run[i + 1])
    decreases |ubs|
  {
    run := [st];
    if ubs != [] {
      var slot := FindIn(cfg, st, ubs[0]).value;
      assert UbatchValid(cfg, ubs[0]);
      FoundSlotValid(st.cells, cfg.swa, st.head, ubs[0].toks, false, slot);
      if !cfg.swa.windowed { SlotIsFree(cfg, st, ubs[0]); }
      ApplyValid(cfg, st, slot, ubs[0]);
      var next := ApplyTo(cfg, st, slot, ubs[0]);
      var rest := PlanReplays(cfg, next, ubs[1..]);
      run := [st] + rest;
      var slots, after := Plan(cfg, st, ubs).0.value, Plan(cfg, next, ubs[1..]).0.value;
      assert slots == [slot] + after;
      forall i | 0 <= i < |ubs|
        ensures ReplayStep(cfg, ubs[i], slots[i], run[i], run[i + 1])
      {
        if i > 0 {
          assert ReplayStep(cfg, ubs[1..][i - 1], after[i - 1], rest[i - 1], rest[i]);
        }
      }
    }
  }

  function FreeCells(cells: seq<Cell>): set<nat> {
    set c: nat | c < |cells| && cells[c].Free?
  }

  /** Each slot takes cells that are still free, and they are no longer free for the next. */
  ghost predicate TakesFree(free: set<nat>, slots: seq<seq<nat>>)
    decreases |slots|
  {
    slots != [] ==>
      (forall c :: c in slots[0] ==> c in free) && TakesFree(free - (set c | c in slots[0]), slots[1..])
  }

  /** Filling a slot of free cells takes exactly its cells from the free ones. */
  lemma FreeAfter(cfg: Config, st: State, ub: Ubatch)
    requires StateValid(cfg, st) && UbatchValid(cfg, ub) && !cfg.swa.windowed && FindIn(cfg, st, ub).Some?
    ensures var slot := FindIn(cfg, st, ub).value;
      SlotValid(st.cells, slot, ub.toks)
      && (forall c :: c in slot ==> c in FreeCells(st.cells))
      && FreeCells(ApplyTo(cfg, st, slot, ub).cells) == FreeCells(st.cells) - (set c | c in slot)
  {
    SlotIsFree(cfg, st, ub);
    var slot := FindIn(cfg, st, ub).value;
    AppliedToFree(cfg, st, slot, ub);
    PlacedAt(st.cells, slot, ub.toks, ub.is2d);
    var next := ApplyTo(cfg, st, slot, ub).cells;
    forall c: nat | c < |st.cells|
      ensures next[c].Free? <==> st.cells[c].Free? && c !in slot
    {
      if c in slot {
        var k :| 0 <= k < |slot| && slot[k] == c;
        assert next[c] == Filled(ub.toks[k], ub.is2d);
      } else {
        assert next[c] == st.cells[c];
      }
    }
  }

  lemma {:induction false} PlanTakesFree(cfg: Config, st: State, ubs: seq<Ubatch>)
    requires StateValid(cfg, st) && BatchValid(cfg, ubs) && !cfg.swa.windowed && Plan(cfg, st, ubs).0.Some?
    ensures TakesFree(FreeCells(st.cells), Plan(cfg, st, ubs).0.value)
    decreases |ubs|
  {
    if ubs != [] {
      FreeAfter(cfg, st, ubs[0]);
      var slot := FindIn(cfg, st, ubs[0]).value;
      ApplyValid(cfg, st, slot, ubs[0]);
      var next := ApplyTo(cfg, st, slot, ubs[0]);
      PlanTakesFree(cfg, next, ubs[1..]);
      var rest := Plan(cfg, next, ubs[1..]).0.value;
      assert ([slot] + rest)[1..] == rest;
    }
  }

  lemma {:induction false} TakenWasFree(free: set<nat>, slots: seq<seq<nat>>, j: nat)
    requires TakesFree(free, slots) && j < |slots|
    ensures forall c :: c in slots[j] ==> c in free
    decreases |slots|
  {
    if j > 0 {
      TakenWasFree(free - (set c | c in slots[0]), slots[1..], j - 1);
    }
  }

  lemma {:induction false} TakenOnce(free: set<nat>, slots: seq<seq<nat>>, i: nat, j: nat)
    requires TakesFree(free, slots) && i < j < |slots|
    ensures forall c :: c in slots[i] ==> c !in slots[j]
    decreases |slots|
  {
    var left := free - (set c | c in slots[0]);
    if i == 0 {
      TakenWasFree(left, slots[1..], j - 1);
    } else {
      TakenOnce(left, slots[1..], i - 1, j - 1);
    }
  }

  ghost predicate AllFree(cells: seq<Cell>, slot: seq<nat>) {
    forall c :: c in slot ==> c < |cells| && cells[c].Free?
  }

  ghost predicate Apart(a: seq<nat>, b: seq<nat>) {
    forall c :: c in a ==> c !in b
  }

  lemma FreeAndApart(cells: seq<Cell>, slots: seq<seq<nat>>)
    requires TakesFree(FreeCells(cells), slots)
    ensures forall j :: 0 <= j < |slots| ==> AllFree(cells, slots[j])
    ensures forall i, j :: 0 <= i < j < |slots| ==> Apart(slots[i], slots[j])
  {
    forall j | 0 <= j < |slots|
      ensures AllFree(cells, slots[j])
    {
      TakenWasFree(FreeCells(cells), slots, j);
    }
    forall i, j | 0 <= i < j < |slots|
      ensures Apart(slots[i], slots[j])
    {
      TakenOnce(FreeCells(cells), slots, i, j);
    }
  }

  /** Without a window every planned cell is free in the cache as `prepare` found it, and the slots of
      different ubatches have no cell in common. */
  lemma PlanSlotsDisjoint(cfg: Config, st: State, ubs: seq<Ubatch>)
    requires StateValid(cfg, st) && BatchValid(cfg, ubs) && !cfg.swa.windowed && Plan(cfg, st, ubs).0.Some?
    ensures var slots := Plan(cfg, st, ubs).0.value;
      && (forall j :: 0 <= j < |slots| ==> AllFree(st.cells, slots[j]))
      && (forall i, j :: 0 <= i < j < |slots| ==> Apart(slots[i], slots[j]))
  {
    PlanTakesFree(cfg, st, ubs);
    FreeAndApart(st.cells, Plan(cfg, st, ubs).0.value);
  }

  const LOSS_CFG: Config := Config(2, Swa(true, 1, (a: int, b: int) => b - a >= 2))
  const LOSS_CELLS: seq<Cell> := [Used(1, 0, NO_EXT, {0}), Used(0, 0, NO_EXT, {0}), Used(2, 0, NO_EXT, {0})]
  const LOSS_UB: Ubatch := Ubatch([Tok(0, NO_EXT, [1])], false)

  lemma LossSlot()
    ensures FindIn(LOSS_CFG, State(LOSS_CELLS, 0), LOSS_UB) == Some([0])
  {
    var cells, ring := LOSS_CELLS, Ring(3, 0);
    assert cells[2].Has(0);
    SeqPosMaxIs(cells, 0, 2);
    assert 0 in cells[0].seqs && LOSS_CFG.swa.hides(1, 3);
    UsableStep(cells, LOSS_CFG.swa, ring, 0);
    UsablePrefix(cells, LOSS_CFG.swa, ring, 1);
    assert Usable(cells, LOSS_CFG.swa, ring[..0]) == [];
    assert Usable(cells, LOSS_CFG.swa, ring)[..1] == [0];
  }

  lemma LossPurge()
    ensures EvictedAll(LOSS_CELLS, [0], 2) == [1, -1]
    ensures PurgeCell(LOSS_CELLS[1], [1, -1], 2) == Free
  {
    assert EvictedMax(LOSS_CELLS, [0], 0) == 1;
    assert EvictedMax(LOSS_CELLS, [0], 1) == -1;
    assert Keepers(LOSS_CELLS[1], [1, -1], 2) == {};
  }

  /** Under a window `prepare` can lose a cell: seq 1 takes the cell of seq 0's position 1, and the
      purge then drops seq 0's position 0, which the recovery stack never saw. */
  lemma WindowedPlanCanLose()
    ensures var st := State(LOSS_CELLS, 0);
      StateValid(LOSS_CFG, st) && BatchValid(LOSS_CFG, [LOSS_UB]) && Plan(LOSS_CFG, st, [LOSS_UB]).1 != st
  {
    var st := State(LOSS_CELLS, 0);
    LossSlot();
    LossPurge();
    PurgeTakes(LOSS_CELLS, [0], 1, 2);
    assert Loses(LOSS_CFG, st, [LOSS_UB], 1);
    PlanTrace(LOSS_CFG, st, [LOSS_UB], 1);
  }
}
