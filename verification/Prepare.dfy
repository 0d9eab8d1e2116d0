/** Planning a batch (`prepare`): place every ubatch speculatively, then unwind. */
module Prepare {
  import opened Wrappers
  import opened KvCells
  import opened SlotSearch
  import opened Scatter
  import opened KvStore
  import opened KvCache

  /** One entry of the recovery stack: the slot, the head before placing, the cells it held. */
  datatype Saved = Saved(idxs: seq<nat>, headOld: nat, cellsOld: seq<Cell>)

  function Undo(st: State, s: Saved): (r: State)
    requires |s.idxs| == |s.cellsOld| && Indices(s.idxs, |st.cells|)
    ensures |r.cells| == |st.cells|
  {
    State(PutBack(st.cells, s.idxs, s.cellsOld), s.headOld)
  }

  ghost predicate StackValid(states: seq<Saved>, size: nat) {
    forall i :: 0 <= i < |states| ==>
      |states[i].idxs| == |states[i].cellsOld| && Indices(states[i].idxs, size) && states[i].headOld <= size
  }

  /** Unwind the stack, last entry first. */
  function UndoAll(st: State, states: seq<Saved>): (r: State)
    requires StackValid(states, |st.cells|)
    ensures |r.cells| == |st.cells|
    decreases |states|
  {
    if states == [] then st
    else UndoAll(Undo(st, states[|states| - 1]), states[..|states| - 1])
  }

  /** `prepare` as a recursion: the slots it finds (None if some ubatch does not fit) and the state
      it leaves behind. */
  function Plan(cfg: Config, st: State, ubs: seq<Ubatch>): (r: (Option<seq<seq<nat>>>, State))
    requires StateValid(cfg, st) && forall i :: 0 <= i < |ubs| ==> UbatchValid(cfg, ubs[i])
    ensures |r.1.cells| == |st.cells|
    ensures r.0.Some? ==> |r.0.value| == |ubs|
    decreases |ubs|
  {
    if ubs == [] then (Some([]), st)
    else
      var slot := FindIn(cfg, st, ubs[0]);
      if slot.None? then (None, st)
      else
        assert UbatchValid(cfg, ubs[0]);
        FoundSlotValid(st.cells, cfg.swa, st.head, ubs[0].toks, false, slot.value);
        ApplyValid(cfg, st, slot.value, ubs[0]);
        var rest := Plan(cfg, ApplyTo(cfg, st, slot.value, ubs[0]), ubs[1..]);
        (if rest.0.Some? then Some([slot.value] + rest.0.value) else None,
         Undo(rest.1, Saved(slot.value, st.head, Picked(st.cells, slot.value))))
  }

  function Prefixed(done: seq<seq<nat>>, rest: Option<seq<seq<nat>>>): Option<seq<seq<nat>>> {
    if rest.Some? then Some(done + rest.value) else None
  }

  lemma PrefixedUnits(res: seq<seq<nat>>, rest: Option<seq<seq<nat>>>)
    ensures Prefixed([], rest) == rest && Prefixed(res, Some([])) == Some(res)
  {
    assert rest.Some? ==> [] + rest.value == rest.value;
    assert res + [] == res;
  }

  /** Pop the recovery stack. */
  method Unwind(c: Cache, stack: seq<Saved>)
    requires StackValid(stack, |c.cells|)
    modifies c
    ensures c.St() == UndoAll(old(c.St()), stack)
  {
    var states := stack;
    while states != []
      invariant |c.cells| == |old(c.cells)| && StackValid(states, |c.cells|)
      invariant UndoAll(old(c.St()), stack) == UndoAll(c.St(), states)
      decreases |states|
    {
      var s := states[|states| - 1];
      c.cells := RestoreCells(c.cells, s.idxs, s.cellsOld);
      c.head := s.headOld;
      states := states[..|states| - 1];
    }
  }

  /** After i ubatches: finishing the plan from here and unwinding gives what the whole plan gives. */
  ghost predicate OnTrack(cfg: Config, st: State, ubs: seq<Ubatch>, i: nat, res: seq<seq<nat>>, states: seq<Saved>,
                          goal: (Option<seq<seq<nat>>>, State))
    requires StateValid(cfg, st) && i <= |ubs| && forall j :: 0 <= j < |ubs| ==> UbatchValid(cfg, ubs[j])
  {
    StackValid(states, |st.cells|)
    && goal.1 == UndoAll(Plan(cfg, st, ubs[i..]).1, states)
    && goal.0 == Prefixed(res, Plan(cfg, st, ubs[i..]).0)
  }

  lemma TrackStarts(cfg: Config, st: State, ubs: seq<Ubatch>)
    requires StateValid(cfg, st) && forall j :: 0 <= j < |ubs| ==> UbatchValid(cfg, ubs[j])
    ensures OnTrack(cfg, st, ubs, 0, [], [], Plan(cfg, st, ubs))
  {
    assert ubs[0..] == ubs;
    PrefixedUnits([], Plan(cfg, st, ubs).0);
  }

  lemma PlanStep(cfg: Config, st: State, ubs: seq<Ubatch>, i: nat, res: seq<seq<nat>>, states: seq<Saved>)
    requires i < |ubs| && StateValid(cfg, st) && forall j :: 0 <= j < |ubs| ==> UbatchValid(cfg, ubs[j])
    requires StackValid(states, |st.cells|)
    requires FindIn(cfg, st, ubs[i]).Some?
    ensures var slot := FindIn(cfg, st, ubs[i]).value;
      ubs[i].toks != [] && SlotValid(st.cells, slot, ubs[i].toks) &&
      var next, saved := ApplyTo(cfg, st, slot, ubs[i]), Saved(slot, st.head, Picked(st.cells, slot));
      && StateValid(cfg, next) && StackValid(states + [saved], |st.cells|)
      && Prefixed(res, Plan(cfg, st, ubs[i..]).0) == Prefixed(res + [slot], Plan(cfg, next, ubs[i + 1..]).0)
      && UndoAll(Plan(cfg, st, ubs[i..]).1, states) == UndoAll(Plan(cfg, next, ubs[i + 1..]).1, states + [saved])
  {
    var slot := FindIn(cfg, st, ubs[i]).value;
    assert UbatchValid(cfg, ubs[i]);
    FoundSlotValid(st.cells, cfg.swa, st.head, ubs[i].toks, false, slot);
    ApplyValid(cfg, st, slot, ubs[i]);
    var next, saved := ApplyTo(cfg, st, slot, ubs[i]), Saved(slot, st.head, Picked(st.cells, slot));
    assert ubs[i..][1..] == ubs[i + 1..];
    var rest := Plan(cfg, next, ubs[i + 1..]);
    assert (states + [saved])[..|states|] == states;
    if rest.0.Some? {
      assert res + ([slot] + rest.0.value) == (res + [slot]) + rest.0.value;
    }
  }

  /** The ubatch fits: one more slot, one more entry on the stack. */
  lemma TrackGoesOn(cfg: Config, st: State, ubs: seq<Ubatch>, i: nat, res: seq<seq<nat>>, states: seq<Saved>,
                    goal: (Option<seq<seq<nat>>>, State), slot: seq<nat>)
    requires i < |ubs| && StateValid(cfg, st) && forall j :: 0 <= j < |ubs| ==> UbatchValid(cfg, ubs[j])
    requires OnTrack(cfg, st, ubs, i, res, states, goal) && FindIn(cfg, st, ubs[i]) == Some(slot)
    ensures SlotValid(st.cells, slot, ubs[i].toks) && UbatchValid(cfg, ubs[i])
    ensures StateValid(cfg, ApplyTo(cfg, st, slot, ubs[i]))
    ensures OnTrack(cfg, ApplyTo(cfg, st, slot, ubs[i]), ubs, i + 1, res + [slot],
                    states + [Saved(slot, st.head, Picked(st.cells, slot))], goal)
  {
    PlanStep(cfg, st, ubs, i, res, states);
  }

  /** The ubatch does not fit: there is no plan, and everything is unwound. */
  lemma TrackBreaks(cfg: Config, st: State, ubs: seq<Ubatch>, i: nat, res: seq<seq<nat>>, states: seq<Saved>,
                    goal: (Option<seq<seq<nat>>>, State))
    requires i < |ubs| && StateValid(cfg, st) && forall j :: 0 <= j < |ubs| ==> UbatchValid(cfg, ubs[j])
    requires OnTrack(cfg, st, ubs, i, res, states, goal) && FindIn(cfg, st, ubs[i]) == None
    ensures StackValid(states, |st.cells|) && goal == (None, UndoAll(st, states))
  {
  }

  lemma TrackEnds(cfg: Config, st: State, ubs: seq<Ubatch>, res: seq<seq<nat>>, states: seq<Saved>,
                  goal: (Option<seq<seq<nat>>>, State))
    requires StateValid(cfg, st) && forall j :: 0 <= j < |ubs| ==> UbatchValid(cfg, ubs[j])
    requires OnTrack(cfg, st, ubs, |ubs|, res, states, goal)
    ensures StackValid(states, |st.cells|) && goal == (Some(res), UndoAll(st, states))
  {
    PrefixedUnits(res, None);
  }

  /** `prepare`: the loop with its recovery stack does what Plan says, whatever the window. */
  method PrepareBatch(c: Cache, ubs: seq<Ubatch>) returns (r: Option<seq<seq<nat>>>)
    requires c.Valid() && ubs != [] && forall i :: 0 <= i < |ubs| ==> UbatchValid(c.cfg, ubs[i])
    modifies c
    ensures (r, c.St()) == Plan(c.cfg, old(c.St()), ubs)
  {
    var res: seq<seq<nat>> := [];
    var states: seq<Saved> := [];
    ghost var goal := Plan(c.cfg, c.St(), ubs);
    TrackStarts(c.cfg, c.St(), ubs);
    var i := 0;
    while i < |ubs|
      invariant 0 <= i <= |ubs| && c.Valid()
      invariant OnTrack(c.cfg, c.St(), ubs, i, res, states, goal)
    {
      var slot := c.FindSlot(ubs[i], false);
      if slot.None? {
        TrackBreaks(c.cfg, c.St(), ubs, i, res, states, goal);
        Unwind(c, states);
        return None;
      }
      TrackGoesOn(c.cfg, c.St(), ubs, i, res, states, goal, slot.value);
      res := res + [slot.value];
      states := states + [Saved(slot.value, c.head, Picked(c.cells, slot.value))];
      c.ApplyUbatch(slot.value, ubs[i]);
      i := i + 1;
    }
    TrackEnds(c.cfg, c.St(), ubs, res, states, goal);
    Unwind(c, states);
    return Some(res);
  }
}
