/** Write, restore, write again: when a sequence's checkpoint is reproduced item by item, and that no other
    sequence notices. */
module CheckpointRoundTrip {
  import opened Wrappers
  import opened KvCells
  import opened SlotSearch
  import opened SlotFacts
  import opened SeqEdits
  import opened Placement
  import opened Scatter
  import opened KvStore
  import opened PrepareFacts
  import opened FirstFit
  import opened Checkpoint
  import opened CheckpointRead
  import opened CheckpointFacts

  lemma AscendingOrder(s: seq<nat>, a: nat, b: nat)
    requires Ascending(s) && a < |s| && b < |s| && s[b] <= s[a]
    ensures b <= a
  {
  }

  lemma NoneBeyond(s: seq<nat>, n: nat, size: nat)
    requires Indices(s, size) && n <= |s| && forall k :: n <= k < |s| ==> s[k] >= size
    ensures n == |s|
  {
    assert |s| > 0 ==> s[|s| - 1] < size;
  }

  lemma {:induction false} ChosenPrefix(cells: seq<Cell>, swa: Swa, who: Option<nat>, s: seq<nat>,
      b: nat) returns (n: nat)
    requires b <= |cells| && Ascending(s) && forall i: nat :: i < |cells| ==> (InDump(cells, swa, who, i) <==> i in s)
    ensures n <= |s| && Chosen(cells, swa, who, 0, b) == s[..n]
    ensures (forall k :: 0 <= k < n ==> s[k] < b) && (forall k :: n <= k < |s| ==> s[k] >= b)
  {
    if b == 0 {
      n := 0;
    } else {
      n := ChosenPrefix(cells, swa, who, s, b - 1);
      if InDump(cells, swa, who, b - 1) {
        var k :| 0 <= k < |s| && s[k] == b - 1;
        AscendingOrder(s, n, k);
        n := n + 1;
      }
    }
  }

  /** The dumped cells are the ascending list of those that qualify. */
  lemma ChosenIs(cells: seq<Cell>, swa: Swa, who: Option<nat>, s: seq<nat>)
    requires Ascending(s) && Indices(s, |cells|)
    requires forall i: nat :: i < |cells| ==> (InDump(cells, swa, who, i) <==> i in s)
    ensures Chosen(cells, swa, who, 0, |cells|) == s
  {
    var n := ChosenPrefix(cells, swa, who, s, |cells|);
    NoneBeyond(s, n, |cells|);
    assert s[..n] == s;
  }

  /** A source cache to be dumped and a target cache to be restored into. If the target has a window, it
      is the source's. */
  datatype Scene = Scene(sh: Shape, q: nat,
                         swa: Swa, cells: seq<Cell>, from: seq<LayerData>,
                         cfg: Config, st: State, data: seq<LayerData>)
  {
    ghost predicate Valid() {
      && swa.Valid() && DataValid(sh, |cells|, from)
      && StateValid(cfg, st) && DataValid(sh, |st.cells|, data) && q < cfg.maxSeq
      && (cfg.swa.windowed ==> cfg.swa == swa)
    }

    function Picks(): seq<nat> {
      Chosen(cells, swa, Some(q), 0, |cells|)
    }

    function Items(): seq<Item>
      requires Valid()
    {
      Dump(sh, swa, cells, from, Some(q))
    }

    function Cleared(): State {
      Removed(st, q)
    }

    function Batch(): Ubatch {
      ChosenUsed(cells, swa, Some(q), 0, |cells|);
      Ubatch(ToksOf(sh, cells, Picks(), q), sh.is2d)
    }

    function After(): Restored
      requires Valid()
    {
      DataSized(sh, |st.cells|, data);
      Restore(sh, cfg, st, data, Items(), q)
    }

    /** The restore finds enough usable cells once the old contents of q are gone: free ones and, under
        a window, those that are out of reach. */
    ghost predicate Fits() {
      |Picks()| <= |UsableSet(Cleared().cells, cfg.swa)|
    }

    /** The search takes them all from one side of the place where it starts. */
    ghost predicate InOrder() {
      OneSided(Cleared().cells, cfg.swa, StartAt(Cleared().cells, Cleared().head, |Picks()|), |Picks()|)
    }

    /** No two dumped cells have the same position, 2-D coordinates included. */
    ghost predicate ToksDiffer() {
      forall a, b :: 0 <= a < b < |Batch().toks| ==> Batch().toks[a] != Batch().toks[b]
    }

    ghost predicate Takes(slot: seq<nat>) {
      |slot| == |Picks()| && SlotValid(Cleared().cells, slot, Batch().toks)
    }
  }

  lemma DataSized(sh: Shape, size: nat, data: seq<LayerData>)
    requires DataValid(sh, size, data)
    ensures |data| == |sh.layers| && AllSized(data, size)
  {
    forall l | 0 <= l < |data|
      ensures |data[l].k| == size && Sized(data[l].v, size)
    {
      assert LayerValid(sh, size, l, data[l]);
    }
  }

  lemma ClearedValid(s: Scene)
    requires s.Valid()
    ensures StateValid(s.cfg, s.Cleared()) && |s.Cleared().cells| == |s.st.cells|
    ensures forall i :: 0 <= i < |s.st.cells| ==> !s.Cleared().cells[i].Has(s.q)
  {
    RemovedValid(s.cfg, s.st, s.q);
  }

  lemma BatchOk(s: Scene)
    requires s.Valid() && s.Picks() != []
    ensures UbatchValid(s.cfg, s.Batch()) && |s.Batch().toks| == |s.Picks()|
  {
    ChosenUsed(s.cells, s.swa, Some(s.q), 0, |s.cells|);
    forall k | 0 <= k < |s.Batch().toks|
      ensures TokValid(s.cfg, s.Batch().toks[k])
    {
      assert s.Batch().toks[k].ids == [s.q];
    }
  }

  /** The metadata section reads back as the batch, and the tensor section is left. */
  lemma ReadsBack(s: Scene)
    requires s.Valid() && s.Picks() != [] && s.q < s.sh.nSeqMax
    ensures var items := s.Items();
      && items[..2] == [Num(1), Num(|s.Picks()|)]
      && ReadToks(items[2..], |s.Picks()|, s.sh.is2d, s.q)
         == Got(s.Batch().toks, Tensors(s.sh, |s.cells|, s.from, s.Picks()))
  {
    ChosenUsed(s.cells, s.swa, Some(s.q), 0, |s.cells|);
    var tail := Tensors(s.sh, |s.cells|, s.from, s.Picks());
    assert s.Items()[2..] == Meta(s.sh, s.cells, Some(s.q), s.Picks()) + tail;
    ReadsMeta(s.sh, s.cells, s.Picks(), s.q, tail);
  }

  /** The slot of a restore that fits, ascending if its cells lie on one side. */
  lemma SlotFound(s: Scene) returns (slot: seq<nat>)
    requires s.Valid() && s.Picks() != []
    ensures s.Cleared().head <= |s.Cleared().cells|
    ensures s.Fits() <==> FindIn(s.cfg, s.Cleared(), s.Batch()).Some?
    ensures s.Fits() ==>
      && FindIn(s.cfg, s.Cleared(), s.Batch()) == Some(slot)
      && s.Takes(slot) && |slot| <= |s.st.cells| && (Ascending(slot) <==> s.InOrder())
  {
    ClearedValid(s);
    BatchOk(s);
    var c := s.Cleared();
    SlotAscends(c.cells, s.cfg.swa, c.head, |s.Picks()|);
    SlotSound(c.cells, s.cfg.swa, c.head, |s.Picks()|);
    slot := [];
    if s.Fits() {
      slot := FindIn(s.cfg, c, s.Batch()).value;
      FoundSlotValid(c.cells, s.cfg.swa, c.head, s.Batch().toks, false, slot);
    }
  }

  function TransferOf(s: Scene, slot: seq<nat>): Transfer {
    Transfer(s.sh, s.data, |s.st.cells|, slot, s.from, |s.cells|, s.Picks())
  }

  /** The restore of a dump that fits: the batch goes into the slot, its rows with it. */
  lemma RestoreWorks(s: Scene, slot: seq<nat>)
    requires s.Valid() && s.Picks() != [] && s.q < s.sh.nSeqMax
    requires FindIn(s.cfg, s.Cleared(), s.Batch()) == Some(slot) && SlotValid(s.Cleared().cells, slot, s.Batch().toks)
    requires |slot| <= |s.st.cells| && |s.Cleared().cells| == |s.st.cells| && s.Batch().toks != []
    ensures TransferOf(s, slot).Valid()
    ensures s.After() == Restored(Done, ApplyTo(s.cfg, s.Cleared(), slot, s.Batch()), TransferOf(s, slot).Result())
  {
    ReadsBack(s);
    ChosenUsed(s.cells, s.swa, Some(s.q), 0, |s.cells|);
    DataSized(s.sh, |s.st.cells|, s.data);
    ReadsTensors(TransferOf(s, slot));
    assert s.Items()[0] == s.Items()[..2][0] && s.Items()[1] == s.Items()[..2][1];
  }

  /** A new cell survives the purge: its sequence had nothing left that could be overwritten. */
  lemma NewCellStays(s: Scene, slot: seq<nat>, k: nat)
    requires s.Valid() && s.Picks() != [] && s.Takes(slot) && k < |slot|
    ensures |s.Cleared().cells| == |s.st.cells|
    ensures |s.Batch().toks| == |slot|
    ensures var c := Filled(s.Batch().toks[k], s.sh.is2d);
      PurgeCell(c, EvictedAll(s.Cleared().cells, slot, s.cfg.maxSeq), s.cfg.maxSeq) == c
  {
    BatchOk(s);
    ClearedValid(s);
    var c, rm := Filled(s.Batch().toks[k], s.sh.is2d), EvictedAll(s.Cleared().cells, slot, s.cfg.maxSeq);
    assert s.Batch().toks[k].ids == [s.q] by { ChosenUsed(s.cells, s.swa, Some(s.q), 0, |s.cells|); }
    assert rm[s.q] == EvictedMax(s.Cleared().cells, slot, s.q) == -1;
    assert Keepers(c, rm, s.cfg.maxSeq) == c.seqs;
  }

  /** The cells after the restore, one by one. */
  lemma RestoredCell(s: Scene, slot: seq<nat>, i: nat)
    requires s.Valid() && s.Picks() != [] && s.q < s.sh.nSeqMax && i < |s.st.cells|
    requires s.Takes(slot)
    ensures UbatchValid(s.cfg, s.Batch()) && |s.Cleared().cells| == |s.st.cells|
    ensures var cells, was := ApplyTo(s.cfg, s.Cleared(), slot, s.Batch()).cells, s.Cleared().cells;
      && (i !in slot ==> !cells[i].Has(s.q)
                         && cells[i] == PurgeCell(was[i], EvictedAll(was, slot, s.cfg.maxSeq), s.cfg.maxSeq))
      && forall k :: 0 <= k < |slot| && slot[k] == i ==> cells[i] == Filled(s.Batch().toks[k], s.sh.is2d)
  {
    BatchOk(s);
    ClearedValid(s);
    PlacedAt(s.Cleared().cells, slot, s.Batch().toks, s.sh.is2d);
    if i in slot {
      var k :| 0 <= k < |slot| && slot[k] == i;
      NewCellStays(s, slot, k);
    } else {
      AppliedElsewhere(s.cfg, s.Cleared(), slot, s.Batch(), i);
      assert !s.Cleared().cells[i].Has(s.q);
    }
  }

  /** The restored cells hold dumped positions, so their greatest is no greater than the source's. */
  lemma RestoredMax(s: Scene, slot: seq<nat>)
    requires s.Valid() && s.Picks() != [] && s.q < s.sh.nSeqMax && s.Takes(slot)
    ensures UbatchValid(s.cfg, s.Batch()) && |s.Cleared().cells| == |s.st.cells|
    ensures SeqPosMax(ApplyTo(s.cfg, s.Cleared(), slot, s.Batch()).cells, s.q) <= SeqPosMax(s.cells, s.q)
  {
    BatchOk(s);
    ClearedValid(s);
    var cells := ApplyTo(s.cfg, s.Cleared(), slot, s.Batch()).cells;
    if SeqPosMax(cells, s.q) >= 0 {
      var i: nat :| i < |cells| && cells[i].Has(s.q) && cells[i].pos == SeqPosMax(cells, s.q);
      RestoredCell(s, slot, i);
      var k :| 0 <= k < |slot| && slot[k] == i;
      ChosenUsed(s.cells, s.swa, Some(s.q), 0, |s.cells|);
      assert s.cells[s.Picks()[k]].Has(s.q);
    }
  }

  lemma RestoredInDump(s: Scene, slot: seq<nat>, i: nat)
    requires s.Valid() && s.Picks() != [] && s.q < s.sh.nSeqMax && i < |s.st.cells|
    requires s.Takes(slot)
    ensures UbatchValid(s.cfg, s.Batch()) && |s.Cleared().cells| == |s.st.cells|
    ensures InDump(ApplyTo(s.cfg, s.Cleared(), slot, s.Batch()).cells, s.cfg.swa, Some(s.q), i) <==> i in slot
  {
    RestoredCell(s, slot, i);
    RestoredMax(s, slot);
    ChosenUsed(s.cells, s.swa, Some(s.q), 0, |s.cells|);
    if i in slot {
      var k :| 0 <= k < |slot| && slot[k] == i;
      var cells := ApplyTo(s.cfg, s.Cleared(), slot, s.Batch()).cells;
      assert s.q in s.Batch().toks[k].ids && cells[i].Has(s.q);
      assert InDump(s.cells, s.swa, Some(s.q), s.Picks()[k]);
    }
  }

  /** These cells hold, in the order of the slot, what was dumped, and nothing else of the sequence. */
  ghost predicate HoldsDump(s: Scene, cells: seq<Cell>, slot: seq<nat>) {
    |slot| == |s.Batch().toks| && AllUsed(cells, slot)
    && (forall i: nat :: i < |cells| ==> (InDump(cells, s.cfg.swa, Some(s.q), i) <==> i in slot))
    && forall k :: 0 <= k < |slot| ==> cells[slot[k]] == Filled(s.Batch().toks[k], s.sh.is2d)
  }

  /** The restored cells of q are exactly the slot, with the dumped metadata. */
  lemma MetaAgain(s: Scene, slot: seq<nat>)
    requires s.Valid() && s.Picks() != [] && s.q < s.sh.nSeqMax && s.Takes(slot)
    ensures UbatchValid(s.cfg, s.Batch())
    ensures var cells := ApplyTo(s.cfg, s.Cleared(), slot, s.Batch()).cells;
      && HoldsDump(s, cells, slot) && AllUsed(cells, slot) && AllUsed(s.cells, s.Picks())
      && Meta(s.sh, cells, Some(s.q), slot) == Meta(s.sh, s.cells, Some(s.q), s.Picks())
  {
    BatchOk(s);
    ClearedValid(s);
    ChosenUsed(s.cells, s.swa, Some(s.q), 0, |s.cells|);
    var cells := ApplyTo(s.cfg, s.Cleared(), slot, s.Batch()).cells;
    forall i: nat | i < |cells|
      ensures InDump(cells, s.cfg.swa, Some(s.q), i) <==> i in slot
    {
      RestoredInDump(s, slot, i);
    }
    forall k | 0 <= k < |slot|
      ensures cells[slot[k]] == Filled(TokOf(s.sh, s.cells[s.Picks()[k]], s.q), s.sh.is2d)
    {
      RestoredCell(s, slot, slot[k]);
    }
    MetaSame(s, cells, slot, |slot|);
  }

  lemma MetaCellSame(s: Scene, a: Cell, b: Cell)
    requires b.Has(s.q) && a == Filled(TokOf(s.sh, b, s.q), s.sh.is2d)
    ensures a.Used? && MetaCell(s.sh, a, Some(s.q)) == MetaCell(s.sh, b, Some(s.q))
  {
    OwnersOne(a, s.q, s.sh.nSeqMax);
    OwnersOne(b, s.q, s.sh.nSeqMax);
  }

  lemma {:induction false} MetaSame(s: Scene, cells: seq<Cell>, slot: seq<nat>, n: nat)
    requires AllUsed(s.cells, s.Picks()) && AllUsed(cells, slot) && n <= |slot| == |s.Picks()|
    requires forall k :: 0 <= k < |slot| ==>
      s.cells[s.Picks()[k]].Has(s.q) && cells[slot[k]] == Filled(TokOf(s.sh, s.cells[s.Picks()[k]], s.q), s.sh.is2d)
    ensures Meta(s.sh, cells, Some(s.q), slot[..n]) == Meta(s.sh, s.cells, Some(s.q), s.Picks()[..n])
    ensures n == |slot| ==> Meta(s.sh, cells, Some(s.q), slot) == Meta(s.sh, s.cells, Some(s.q), s.Picks())
  {
    if n > 0 {
      MetaSame(s, cells, slot, n - 1);
      assert slot[..n][..n - 1] == slot[..n - 1] && s.Picks()[..n][..n - 1] == s.Picks()[..n - 1];
      MetaCellSame(s, cells[slot[n - 1]], s.cells[s.Picks()[n - 1]]);
    }
    assert slot[..|slot|] == slot && s.Picks()[..|slot|] == s.Picks();
  }

  lemma InOrderAgain(s: Scene, slot: seq<nat>)
    requires s.Valid() && s.Picks() != [] && s.q < s.sh.nSeqMax && s.Takes(slot) && Ascending(slot)
    requires s.After() == Restored(Done, ApplyTo(s.cfg, s.Cleared(), slot, s.Batch()), TransferOf(s, slot).Result())
    requires TransferOf(s, slot).Valid()
    ensures var r := s.After();
      DataValid(s.sh, |r.st.cells|, r.data) && Dump(s.sh, s.cfg.swa, r.st.cells, r.data, Some(s.q)) == s.Items()
  {
    MetaAgain(s, slot);
    ChosenIs(s.After().st.cells, s.cfg.swa, Some(s.q), slot);
    RedumpsTensors(TransferOf(s, slot));
  }

  /** Two dumps that agree name the same tokens. */
  lemma SameDumpSameToks(sh: Shape, a: seq<Cell>, b: seq<Cell>, ks: seq<nat>, js: seq<nat>, q: nat,
                         x: seq<Item>, y: seq<Item>)
    requires q < sh.nSeqMax && AllUsed(a, ks) && AllUsed(b, js) && |ks| == |js|
    requires forall k :: 0 <= k < |ks| ==> a[ks[k]].Has(q)
    requires forall k :: 0 <= k < |js| ==> b[js[k]].Has(q)
    requires Meta(sh, a, Some(q), ks) + x == Meta(sh, b, Some(q), js) + y
    ensures ToksOf(sh, a, ks, q) == ToksOf(sh, b, js, q)
  {
    ReadsMeta(sh, a, ks, q, x);
    ReadsMeta(sh, b, js, q, y);
  }

  /** If the cells of a slot hold different tokens, another list of its cells with the same tokens is
      the slot itself. */
  lemma SameToksSameCells(sh: Shape, cells: seq<Cell>, slot: seq<nat>, mine: seq<nat>, toks: seq<Tok>, q: nat)
    requires |slot| == |mine| == |toks| && AllUsed(cells, slot) && AllUsed(cells, mine)
    requires forall a, b :: 0 <= a < b < |toks| ==> toks[a] != toks[b]
    requires forall k :: 0 <= k < |mine| ==> mine[k] in slot
    requires forall k :: 0 <= k < |slot| ==> TokOf(sh, cells[slot[k]], q) == toks[k]
    requires forall k :: 0 <= k < |mine| ==> TokOf(sh, cells[mine[k]], q) == toks[k]
    ensures mine == slot
  {
    forall j | 0 <= j < |mine|
      ensures mine[j] == slot[j]
    {
      var k :| 0 <= k < |slot| && slot[k] == mine[j];
      assert toks[k] == toks[j];
    }
  }

  lemma {:induction false} ChosenAscends(cells: seq<Cell>, swa: Swa, who: Option<nat>, b: nat)
    requires b <= |cells|
    ensures Ascending(Chosen(cells, swa, who, 0, b))
    ensures forall k :: 0 <= k < |Chosen(cells, swa, who, 0, b)| ==> Chosen(cells, swa, who, 0, b)[k] < b
  {
    if b > 0 {
      ChosenAscends(cells, swa, who, b - 1);
    }
  }

  /** A dump apart: the count, the metadata, and the tensor section. */
  lemma DumpParts(sh: Shape, swa: Swa, cells: seq<Cell>, data: seq<LayerData>, q: nat) returns (tensors: seq<Item>)
    requires DataValid(sh, |cells|, data)
    ensures var idxs, dump := Chosen(cells, swa, Some(q), 0, |cells|), Dump(sh, swa, cells, data, Some(q));
      && AllUsed(cells, idxs) && |dump| >= 2 && dump[1] == Num(|idxs|)
      && (forall k :: 0 <= k < |idxs| ==> cells[idxs[k]].Has(q))
      && (idxs != [] ==> dump[2..] == Meta(sh, cells, Some(q), idxs) + tensors)
  {
    var idxs := Chosen(cells, swa, Some(q), 0, |cells|);
    ChosenUsed(cells, swa, Some(q), 0, |cells|);
    tensors := Tensors(sh, |cells|, data, idxs);
    if idxs != [] {
      assert Dump(sh, swa, cells, data, Some(q))[2..] == Meta(sh, cells, Some(q), idxs) + tensors;
    }
  }

  lemma HeldToks(s: Scene, cells: seq<Cell>, slot: seq<nat>)
    requires HoldsDump(s, cells, slot)
    ensures forall k :: 0 <= k < |slot| ==> TokOf(s.sh, cells[slot[k]], s.q) == s.Batch().toks[k]
    ensures forall k :: 0 <= k < |Chosen(cells, s.cfg.swa, Some(s.q), 0, |cells|)| ==>
      Chosen(cells, s.cfg.swa, Some(s.q), 0, |cells|)[k] in slot
  {
    ChosenUsed(s.cells, s.swa, Some(s.q), 0, |s.cells|);
    ChosenUsed(cells, s.cfg.swa, Some(s.q), 0, |cells|);
  }

  lemma OnlyInOrder(s: Scene, cells: seq<Cell>, data: seq<LayerData>, slot: seq<nat>)
    requires s.Valid() && s.Picks() != [] && s.q < s.sh.nSeqMax && s.ToksDiffer() && HoldsDump(s, cells, slot)
    requires DataValid(s.sh, |cells|, data) && Dump(s.sh, s.cfg.swa, cells, data, Some(s.q)) == s.Items()
    ensures Ascending(slot)
  {
    var mine := Chosen(cells, s.cfg.swa, Some(s.q), 0, |cells|);
    ChosenAscends(cells, s.cfg.swa, Some(s.q), |cells|);
    var x := DumpParts(s.sh, s.cfg.swa, cells, data, s.q);
    var y := DumpParts(s.sh, s.swa, s.cells, s.from, s.q);
    SameDumpSameToks(s.sh, cells, s.cells, mine, s.Picks(), s.q, x, y);
    HeldToks(s, cells, slot);
    SameToksSameCells(s.sh, cells, slot, mine, s.Batch().toks, s.q);
  }

  /** Restoring a dump of at least one cell that fits, and dumping again, reproduces it if the search
      takes its cells from one side of its starting place; and only then, unless two dumped cells have
      the same position. */
  lemma RoundTrip(s: Scene)
    requires s.Valid() && s.Picks() != [] && s.q < s.sh.nSeqMax && s.Fits()
    ensures s.After().o == Done && DataValid(s.sh, |s.After().st.cells|, s.After().data)
    ensures var again := Dump(s.sh, s.cfg.swa, s.After().st.cells, s.After().data, Some(s.q));
      (s.InOrder() ==> again == s.Items()) && (again == s.Items() && s.ToksDiffer() ==> s.InOrder())
  {
    var slot := SlotFound(s);
    ClearedValid(s);
    BatchOk(s);
    RestoreWorks(s, slot);
    MergedValid(TransferOf(s, slot), |s.data|, |s.data|);
    if s.InOrder() {
      InOrderAgain(s, slot);
    } else if Dump(s.sh, s.cfg.swa, s.After().st.cells, s.After().data, Some(s.q)) == s.Items() && s.ToksDiffer() {
      MetaAgain(s, slot);
      OnlyInOrder(s, s.After().st.cells, s.After().data, slot);
    }
  }

  /** Without a window, a target with no free cell below its head is such a one; every run without a shift that skips
      free cells ends in one. */
  lemma GoodIsInOrder(s: Scene)
    requires s.Valid() && Good(s.cfg, s.st) && !s.cfg.swa.windowed && s.Fits()
    ensures s.InOrder()
  {
    ClearedValid(s);
    var c := s.Cleared();
    EditGood(s.cfg, s.st, c.cells);
    var h := StartAt(c.cells, c.head, |s.Picks()|);
    UsableIsFree(c.cells, s.cfg.swa);
    assert UsableFrom(c.cells, s.cfg.swa, h) == UsableSet(c.cells, s.cfg.swa);
  }

  const NO_WINDOW: Swa := Swa(false, 0, (a: int, b: int) => false)
  const SHIFTED: seq<Cell> := [Free, Used(0, -1, NO_EXT, {1}), Free]

  /** Two cells of sequence 0, and a target that one shift has left with the head on its last cell. */
  function FailingScene(): Scene {
    Scene(Shape([], false, false, 2), 0, NO_WINDOW,
          [Used(0, 0, NO_EXT, {0}), Used(1, 0, NO_EXT, {0})], [],
          Config(2, NO_WINDOW), State(SHIFTED, 2), [])
  }

  lemma ShiftedThere()
    ensures var st := State([Free, Used(1, 0, NO_EXT, {1}), Used(0, 0, NO_EXT, {1})], 0);
      Good(Config(2, NO_WINDOW), st) && Shifted(st, 1, 0, POS_MAX, -1) == State(SHIFTED, 2)
  {
    var cells := [Free, Used(1, 0, NO_EXT, {1}), Used(0, 0, NO_EXT, {1})];
    var after := ShiftCells(cells, 1, 0, POS_MAX, -1);
    assert after == SHIFTED;
    FirstFreedIs(cells, after, 2);
  }

  lemma FailingPicks()
    ensures FailingScene().Picks() == [0, 1] && FailingScene().Cleared() == State(SHIFTED, 2)
  {
    var s := FailingScene();
    assert InDump(s.cells, s.swa, Some(0), 0) && InDump(s.cells, s.swa, Some(0), 1);
    assert Chosen(s.cells, s.swa, Some(0), 0, 1) == Chosen(s.cells, s.swa, Some(0), 0, 0) + [0];
    assert RmCells(SHIFTED, 0, 0, POS_MAX) == SHIFTED;
  }

  lemma FailingIsValid()
    ensures FailingScene().Valid() && FailingScene().ToksDiffer()
  {
    var s := FailingScene();
    FailingPicks();
    assert s.Batch().toks[0] == TokOf(s.sh, s.cells[0], 0) && s.Batch().toks[1] == TokOf(s.sh, s.cells[1], 0);
  }

  lemma FailingOrder()
    ensures FailingScene().Fits() && !FailingScene().InOrder()
  {
    FailingPicks();
    UsableIsFree(SHIFTED, NO_WINDOW);
    assert UsableSet(SHIFTED, NO_WINDOW) == {0, 2};
    assert UsedCount(SHIFTED) <= 3 && StartAt(SHIFTED, 2, 2) == 2;
    assert UsableFrom(SHIFTED, NO_WINDOW, 2) == {2};
  }

  lemma RestoredSize(s: Scene)
    requires s.Valid()
    ensures |s.After().st.cells| == |s.st.cells|
  {
    if |s.st.cells| == 0 {
      ClearedValid(s);
    } else {
      CellsAfter(s, 0);
    }
  }

  /** The restored cells lie in the slot [2, 0], and the second dump lists them the other way round. */
  lemma RoundTripCanFail()
    ensures var s := FailingScene();
      && s.Valid() && s.After().o == Done
      && |s.After().st.cells| == 3 && DataValid(s.sh, 3, s.After().data)
      && Dump(s.sh, s.cfg.swa, s.After().st.cells, s.After().data, Some(s.q)) != s.Items()
  {
    FailingIsValid();
    FailingOrder();
    RoundTrip(FailingScene());
    RestoredSize(FailingScene());
  }

  /** The owners of a cell other than q, and everything else it holds for them. */
  function Rest(c: Cell, q: nat): Cell {
    Without(c, q)
  }

  lemma SlotCellIsOnlyQs(s: Scene, slot: seq<nat>, i: nat)
    requires s.Valid() && s.Picks() != [] && s.q < s.sh.nSeqMax && i < |s.st.cells| && i in slot
    requires s.Takes(slot)
    ensures UbatchValid(s.cfg, s.Batch()) && |s.Cleared().cells| == |s.st.cells|
    ensures Rest(ApplyTo(s.cfg, s.Cleared(), slot, s.Batch()).cells[i], s.q) == Free
  {
    RestoredCell(s, slot, i);
    ChosenUsed(s.cells, s.swa, Some(s.q), 0, |s.cells|);
    var k :| 0 <= k < |slot| && slot[k] == i;
    assert Filled(s.Batch().toks[k], s.sh.is2d).seqs == {s.q};
  }

  /** Exactly when a dump of at least one cell can be restored: the source must write the owner (its
      id is below n_seq_max), and the target must have room. Otherwise the target loses q, and
      nothing but q. */
  lemma RestoreOutcome(s: Scene)
    requires s.Valid() && s.Picks() != []
    ensures s.After().o == Done <==> s.q < s.sh.nSeqMax && s.Fits()
    ensures s.After().o != Done ==> s.After().o == Rejected
    ensures s.After().o != Done ==> s.After().st.cells == s.Cleared().cells && s.After().data == s.data
  {
    RemovedTwice(s);
    if s.q < s.sh.nSeqMax {
      var slot := SlotFound(s);
      BatchOk(s);
      ClearedValid(s);
      ReadsBack(s);
      assert s.Items()[0] == s.Items()[..2][0] && s.Items()[1] == s.Items()[..2][1];
      if s.Fits() {
        RestoreWorks(s, slot);
      }
    } else {
      OwnerlessRejected(s);
    }
  }

  lemma RemovedTwice(s: Scene)
    requires s.Valid()
    ensures Removed(s.Cleared(), s.q).cells == s.Cleared().cells
  {
    ClearedValid(s);
  }

  /** The metadata begins with a cell that names no owner. */
  lemma FirstWithoutOwner(s: Scene) returns (items: seq<Item>)
    requires s.Valid() && s.Picks() != [] && s.sh.nSeqMax <= s.q
    ensures |s.Items()| >= 4 && items == s.Items()[2..]
    ensures items[0].Num? && 0 <= items[0].n < POS_MAX && items[1] == Num(0)
  {
    ChosenUsed(s.cells, s.swa, Some(s.q), 0, |s.cells|);
    var idxs := s.Picks();
    MetaFirst(s.sh, s.cells, Some(s.q), idxs);
    var first := MetaCell(s.sh, s.cells[idxs[0]], Some(s.q));
    OwnersOne(s.cells[idxs[0]], s.q, s.sh.nSeqMax);
    assert first[0] == Num(s.cells[idxs[0]].pos) && first[1] == Num(0);
    items := s.Items()[2..];
    assert items == Meta(s.sh, s.cells, Some(s.q), idxs) + Tensors(s.sh, |s.cells|, s.from, idxs);
    assert items[0] == first[0] && items[1] == first[1];
  }

  lemma FirstRejected(s: Scene, items: seq<Item>)
    requires s.Picks() != [] && |items| >= 2 && items[0].Num? && 0 <= items[0].n < POS_MAX && items[1] == Num(0)
    ensures ReadToks(items, |s.Picks()|, s.sh.is2d, s.q) == Fail(Rejected)
  {
    assert ReadToks(items, 0, s.sh.is2d, s.q) == Got([], items);
    assert ReadToks(items, 1, s.sh.is2d, s.q) == Fail(Rejected);
    ReadToksFails(items, 1, |s.Picks()|, s.sh.is2d, s.q);
  }

  /** A sequence id the source does not save is written with no owner, which the reader refuses. */
  lemma OwnerlessRejected(s: Scene)
    requires s.Valid() && s.Picks() != [] && s.sh.nSeqMax <= s.q
    ensures s.After().o == Rejected && s.After().st.cells == Removed(s.Cleared(), s.q).cells && s.After().data == s.data
  {
    var items := FirstWithoutOwner(s);
    FirstRejected(s, items);
    assert s.Items()[0] == Num(1) && s.Items()[1] == Num(|s.Picks()|);
    DataSized(s.sh, |s.st.cells|, s.data);
  }

  lemma {:induction false} MetaFirst(sh: Shape, cells: seq<Cell>, who: Option<nat>, idxs: seq<nat>)
    requires AllUsed(cells, idxs) && idxs != []
    ensures MetaCell(sh, cells[idxs[0]], who) <= Meta(sh, cells, who, idxs)
  {
    if |idxs| > 1 {
      MetaFirst(sh, cells, who, idxs[..|idxs| - 1]);
    } else {
      assert Meta(sh, cells, who, idxs[..0]) == [];
    }
  }

  /** A dump of no cells is the one thing a restore does not bring about: it leaves the target's own
      cells of q in place, so the second dump agrees if and only if there were none to dump. */
  lemma EmptyDumpChangesNothing(s: Scene)
    requires s.Valid() && s.Picks() == []
    ensures s.After() == Restored(Done, s.st, s.data)
    ensures Dump(s.sh, s.cfg.swa, s.st.cells, s.data, Some(s.q)) == s.Items()
        <==> forall i: nat :: i < |s.st.cells| ==> !InDump(s.st.cells, s.cfg.swa, Some(s.q), i)
  {
    var mine := Chosen(s.st.cells, s.cfg.swa, Some(s.q), 0, |s.st.cells|);
    assert s.Items() == [Num(1), Num(0)];
    var again := Dump(s.sh, s.cfg.swa, s.st.cells, s.data, Some(s.q));
    assert again[1] == Num(|mine|);
    ChosenAll(s.st.cells, s.cfg.swa, s.q, |s.st.cells|);
  }

  lemma {:induction false} ChosenAll(cells: seq<Cell>, swa: Swa, q: nat, b: nat)
    requires b <= |cells|
    ensures Chosen(cells, swa, Some(q), 0, b) == [] <==> forall i: nat :: i < b ==> !InDump(cells, swa, Some(q), i)
  {
    if b > 0 {
      ChosenAll(cells, swa, q, b - 1);
    }
  }

  /** The slot the restore takes, if it comes to that. */
  ghost function SlotOf(s: Scene): seq<nat>
    requires s.Valid()
  {
    ClearedValid(s);
    if s.Picks() == [] || s.q >= s.sh.nSeqMax || FindIn(s.cfg, s.Cleared(), s.Batch()).None? then []
    else FindIn(s.cfg, s.Cleared(), s.Batch()).value
  }

  /** The restore overwrites a cell of another sequence, or the purge after it takes an owner away. */
  ghost predicate Disturbs(s: Scene, i: nat)
    requires s.Valid() && i < |s.st.cells|
  {
    ClearedValid(s);
    if i in SlotOf(s) then s.Cleared().cells[i].Used?
    else SlotIndices(s); Purges(s.Cleared().cells, SlotOf(s), i)
  }

  lemma SlotIndices(s: Scene)
    requires s.Valid()
    ensures Indices(SlotOf(s), |s.Cleared().cells|)
    ensures SlotOf(s) != [] ==> s.Fits() && s.Takes(SlotOf(s)) && s.Picks() != [] && s.q < s.sh.nSeqMax
    ensures s.Picks() != [] && s.q < s.sh.nSeqMax && s.Fits() ==>
      SlotOf(s) != [] && FindIn(s.cfg, s.Cleared(), s.Batch()) == Some(SlotOf(s))
  {
    ClearedValid(s);
    if s.Picks() != [] {
      var slot := SlotFound(s);
    }
  }

  lemma RestIsCleared(s: Scene, i: nat)
    requires s.Valid() && i < |s.st.cells|
    ensures |s.Cleared().cells| == |s.st.cells| && Rest(s.st.cells[i], s.q) == s.Cleared().cells[i]
    ensures Rest(s.Cleared().cells[i], s.q) == s.Cleared().cells[i]
  {
    ClearedValid(s);
  }

  lemma OthersWhenDone(s: Scene, i: nat)
    requires s.Valid() && i < |s.st.cells| && s.Picks() != [] && s.q < s.sh.nSeqMax && s.Fits()
    ensures |s.After().st.cells| == |s.st.cells|
    ensures Rest(s.After().st.cells[i], s.q) == s.Cleared().cells[i] <==> !Disturbs(s, i)
  {
    var slot := SlotFound(s);
    SlotIndices(s);
    ClearedValid(s);
    BatchOk(s);
    RestoreWorks(s, slot);
    RestoredCell(s, slot, i);
    if i in slot {
      SlotCellIsOnlyQs(s, slot, i);
    } else {
      PurgeTakes(s.Cleared().cells, slot, i, s.cfg.maxSeq);
    }
  }

  /** What a cell holds for the other sequences changes if and only if the restore overwrites it or the
      purge takes an owner from it. */
  lemma CellsAfter(s: Scene, i: nat)
    requires s.Valid() && i < |s.st.cells|
    ensures |s.After().st.cells| == |s.st.cells|
    ensures Rest(s.After().st.cells[i], s.q) == Rest(s.st.cells[i], s.q) <==> !Disturbs(s, i)
  {
    RestIsCleared(s, i);
    if s.Picks() != [] && s.q < s.sh.nSeqMax && s.Fits() {
      OthersWhenDone(s, i);
    } else {
      SlotIndices(s);
      if s.Picks() == [] {
        EmptyDumpChangesNothing(s);
      } else {
        RestoreOutcome(s);
      }
    }
  }

  /** Without a window nothing of the kind happens. */
  lemma OthersKeepCells(s: Scene, i: nat)
    requires s.Valid() && i < |s.st.cells| && !s.cfg.swa.windowed
    ensures |s.After().st.cells| == |s.st.cells|
    ensures Rest(s.After().st.cells[i], s.q) == Rest(s.st.cells[i], s.q)
  {
    CellsAfter(s, i);
    SlotIndices(s);
    ClearedValid(s);
    if SlotOf(s) != [] {
      SlotSound(s.Cleared().cells, s.cfg.swa, s.Cleared().head, |s.Picks()|);
      UsableIsFree(s.Cleared().cells, s.cfg.swa);
      BatchOk(s);
    }
  }

  /** Elements of row i of a layer, keys and values, are the same in both. */
  ghost predicate SameRow(a: LayerData, b: LayerData, i: nat) {
    |a.k| == |b.k| && i < |b.k| && a.k[i] == b.k[i] && |a.v| == |b.v|
    && forall j :: 0 <= j < |b.v| ==> |a.v[j]| == |b.v[j]| && i < |b.v[j]| && a.v[j][i] == b.v[j][i]
  }

  lemma OthersKeepRowsWhenDone(s: Scene, i: nat, l: nat)
    requires s.Valid() && i < |s.st.cells| && l < |s.data| && s.Picks() != [] && s.q < s.sh.nSeqMax && s.Fits()
    requires i !in SlotOf(s)
    ensures |s.After().data| == |s.data| && SameRow(s.After().data[l], s.data[l], i)
  {
    var slot := SlotFound(s);
    SlotIndices(s);
    ClearedValid(s);
    BatchOk(s);
    RestoreWorks(s, slot);
    var t := TransferOf(s, slot);
    assert LayerValid(s.sh, |s.st.cells|, l, s.data[l]) && LayerValid(s.sh, |s.cells|, l, s.from[l]);
    PutBackAt(s.data[l].k, slot, Picked(s.from[l].k, s.Picks()));
    forall j | 0 <= j < |s.data[l].v|
      ensures t.Layer(l).v[j][i] == s.data[l].v[j][i]
    {
      PutBackAt(s.data[l].v[j], slot, Picked(s.from[l].v[j], s.Picks()));
    }
  }

  /** The rows of a cell that another sequence owns, and that is not disturbed, stay. */
  lemma OthersKeepRows(s: Scene, i: nat, l: nat)
    requires s.Valid() && i < |s.st.cells| && l < |s.data|
    requires Rest(s.st.cells[i], s.q).Used? && !Disturbs(s, i)
    ensures |s.After().data| == |s.data| && SameRow(s.After().data[l], s.data[l], i)
  {
    RestIsCleared(s, i);
    if s.Picks() != [] && s.q < s.sh.nSeqMax && s.Fits() {
      OthersKeepRowsWhenDone(s, i, l);
    } else {
      if s.Picks() == [] {
        EmptyDumpChangesNothing(s);
      } else {
        RestoreOutcome(s);
      }
      assert LayerValid(s.sh, |s.st.cells|, l, s.data[l]);
    }
  }
}
