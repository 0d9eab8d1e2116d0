/** What a windowed checkpoint is good for: it holds exactly what the sequence's next queries can
    still see, and a restored sequence shows them the same keys. */
module CheckpointWindow {
  import opened Wrappers
  import opened KvCells
  import opened SlotSearch
  import opened KvStore
  import opened AppendRuns
  import opened Checkpoint
  import opened CheckpointRoundTrip

  /** Position p of sequence q is dumped. */
  ghost predicate Dumped(cells: seq<Cell>, swa: Swa, q: nat, p: int) {
    exists i :: 0 <= i < |cells| && InDump(cells, swa, Some(q), i) && cells[i].pos == p
  }

  /** For every query from the sequence's greatest position on, the visible keys are all dumped, and
      the window hides from it nothing of the dump that it does not hide anyway. */
  lemma DumpShowsVisible(cells: seq<Cell>, swa: Swa, q: nat, p0: int, p1: int)
    requires swa.Valid() && p1 >= SeqPosMax(cells, q)
    ensures Visible(cells, swa, q, p0, p1) <==> p0 <= p1 && !swa.hides(p0, p1) && Dumped(cells, swa, q, p0)
  {
    if Visible(cells, swa, q, p0, p1) {
      var i :| 0 <= i < |cells| && cells[i].Has(q) && cells[i].pos == p0;
      assert InDump(cells, swa, Some(q), i);
    }
  }

  /** Nothing is dumped that the sequence's own last token cannot see, and without a window all of the
      sequence is. */
  lemma DumpedIsVisible(cells: seq<Cell>, swa: Swa, q: nat, p: int)
    requires swa.Valid()
    ensures Dumped(cells, swa, q, p) <==> Visible(cells, swa, q, p, SeqPosMax(cells, q))
    ensures !swa.windowed ==> (Dumped(cells, swa, q, p) <==> Present(cells, q, p))
  {
    if Present(cells, q, p) && !swa.hides(p, SeqPosMax(cells, q)) {
      var i :| 0 <= i < |cells| && cells[i].Has(q) && cells[i].pos == p;
      assert InDump(cells, swa, Some(q), i);
    }
  }

  /** A whole dump takes every occupied cell, window or not. */
  lemma WholeDumpTakesAll(cells: seq<Cell>, swa: Swa, i: nat)
    requires i < |cells|
    ensures InDump(cells, swa, None, i) <==> cells[i].Used?
  {
  }

  lemma RestoredWasDumped(s: Scene, slot: seq<nat>, cells: seq<Cell>, p: int)
    requires s.Valid() && s.Picks() != [] && s.q < s.sh.nSeqMax && s.Takes(slot) && Present(cells, s.q, p)
    requires UbatchValid(s.cfg, s.Batch()) && Indices(slot, |s.Cleared().cells|)
    requires cells == ApplyTo(s.cfg, s.Cleared(), slot, s.Batch()).cells
    ensures Dumped(s.cells, s.swa, s.q, p)
  {
    ClearedValid(s);
    ChosenUsed(s.cells, s.swa, Some(s.q), 0, |s.cells|);
    var i: nat :| i < |cells| && cells[i].Has(s.q) && cells[i].pos == p;
    RestoredCell(s, slot, i);
    var k :| 0 <= k < |slot| && slot[k] == i;
    assert InDump(s.cells, s.swa, Some(s.q), s.Picks()[k]) && s.cells[s.Picks()[k]].pos == p;
  }

  lemma DumpedIsRestored(s: Scene, slot: seq<nat>, cells: seq<Cell>, p: int)
    requires s.Valid() && s.Picks() != [] && s.q < s.sh.nSeqMax && s.Takes(slot) && Dumped(s.cells, s.swa, s.q, p)
    requires UbatchValid(s.cfg, s.Batch()) && Indices(slot, |s.Cleared().cells|)
    requires cells == ApplyTo(s.cfg, s.Cleared(), slot, s.Batch()).cells
    ensures Present(cells, s.q, p)
  {
    ClearedValid(s);
    ChosenUsed(s.cells, s.swa, Some(s.q), 0, |s.cells|);
    var i: nat :| i < |s.cells| && InDump(s.cells, s.swa, Some(s.q), i) && s.cells[i].pos == p;
    ChosenHas(s.cells, s.swa, Some(s.q), |s.cells|, i);
    var k :| 0 <= k < |s.Picks()| && s.Picks()[k] == i;
    RestoredCell(s, slot, slot[k]);
    assert cells[slot[k]].Has(s.q) && cells[slot[k]].pos == p;
  }

  /** After a restore that succeeds, the target holds of the sequence exactly what was dumped. */
  lemma RestoredIsDumped(s: Scene, p: int)
    requires s.Valid() && s.Picks() != [] && s.q < s.sh.nSeqMax && s.Fits()
    ensures Present(s.After().st.cells, s.q, p) <==> Dumped(s.cells, s.swa, s.q, p)
  {
    var slot := SlotFound(s);
    BatchOk(s);
    ClearedValid(s);
    RestoreWorks(s, slot);
    if Present(s.After().st.cells, s.q, p) {
      RestoredWasDumped(s, slot, s.After().st.cells, p);
    }
    if Dumped(s.cells, s.swa, s.q, p) {
      DumpedIsRestored(s, slot, s.After().st.cells, p);
    }
  }

  lemma {:induction false} ChosenHas(cells: seq<Cell>, swa: Swa, who: Option<nat>, b: nat, i: nat)
    requires i < b <= |cells| && InDump(cells, swa, who, i)
    ensures i in Chosen(cells, swa, who, 0, b)
  {
    if i < b - 1 {
      ChosenHas(cells, swa, who, b - 1, i);
    }
  }

  /** So the restored sequence shows every query from its greatest position on the very keys that the
      source shows. */
  lemma RestoredSeesSame(s: Scene, p0: int, p1: int)
    requires s.Valid() && s.Picks() != [] && s.q < s.sh.nSeqMax && s.Fits() && p1 >= SeqPosMax(s.cells, s.q)
    ensures Visible(s.After().st.cells, s.swa, s.q, p0, p1) <==> Visible(s.cells, s.swa, s.q, p0, p1)
  {
    DumpShowsVisible(s.cells, s.swa, s.q, p0, p1);
    RestoredIsDumped(s, p0);
  }
}
