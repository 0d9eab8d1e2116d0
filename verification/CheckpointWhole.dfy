/** Restoring a whole one-stream cache (`state_read` without a destination sequence): the cells are laid
    down from the front, whatever places they came from. */
module CheckpointWhole {
  import opened Wrappers
  import opened KvCells
  import opened Placement
  import opened KvStore
  import opened KvCache
  import opened Checkpoint
  import opened CheckpointRead
  import opened CheckpointFacts
  import opened CheckpointRoundTrip

  // ---- reading the metadata ----

  /** k owner ids, each of which must be one this cache saves. */
  function ReadIds(items: seq<Item>, k: nat, nSeqMax: nat): (r: Got<set<nat>>)
    ensures r.Got? ==> (r.v == {} <==> k == 0) && forall q :: q in r.v ==> q < nSeqMax
  {
    if k == 0 then Got({}, items)
    else
      match ReadIds(items, k - 1, nSeqMax)
      case Fail(o) => Fail(o)
      case Got(ids, rest) =>
        if !NumAt(rest, 0) then Fail(Malformed)
        else if !(0 <= rest[0].n < nSeqMax) then Fail(Rejected)
        else Got(ids + {rest[0].n as nat}, rest[1..])
  }

  function ReadCell(sh: Shape, items: seq<Item>): (r: Got<Cell>)
    ensures r.Got? ==> r.v.Used? && forall q :: q in r.v.seqs ==> q < sh.nSeqMax
    // exactly the cells dumped without owners come back ownerless
    ensures r.Got? ==> |items| >= 2 && items[1].Num? && (r.v.seqs == {} <==> items[1].n == 0)
  {
    if !NumAt(items, 0) || !NumAt(items, 1) || items[1].n < 0 || !(0 <= items[0].n < POS_MAX) then Fail(Malformed)
    else if sh.is2d && (!NumAt(items, 2) || !NumAt(items, 3)) then Fail(Malformed)
    else
      var ext := if sh.is2d then Ext(items[2].n, items[3].n) else NO_EXT;
      match ReadIds(if sh.is2d then items[4..] else items[2..], items[1].n, sh.nSeqMax)
      case Fail(o) => Fail(o)
      case Got(ids, rest) => Got(Used(items[0].n, 0, ext, ids), rest)
  }

  function ReadCells(sh: Shape, items: seq<Item>, n: nat): (r: Got<seq<Cell>>)
    ensures r.Got? ==> |r.v| == n && OwnersBelow(r.v, sh.nSeqMax) && forall k :: 0 <= k < n ==> r.v[k].Used?
  {
    if n == 0 then Got([], items)
    else
      match ReadCells(sh, items, n - 1)
      case Fail(o) => Fail(o)
      case Got(cells, rest) =>
        match ReadCell(sh, rest)
        case Fail(o) => Fail(o)
        case Got(c, rest') => Got(cells + [c], rest')
  }

  // ---- the restore ----

  /** The cells at the front, the rest free. */
  function Laid(cells: seq<Cell>, size: nat): (r: seq<Cell>)
    requires |cells| <= size
    ensures |r| == size
  {
    cells + Blank(size - |cells|)
  }

  function ZeroLine(size: nat, width: nat): (r: seq<Bytes>)
    ensures LineValid(r, size, width)
  {
    seq(size, i => seq(width, j => 0))
  }

  function ZeroLines(n: nat, size: nat, width: nat): (r: seq<seq<Bytes>>)
    ensures |r| == n && forall j :: 0 <= j < n ==> LineValid(r[j], size, width)
  {
    seq(n, j => ZeroLine(size, width))
  }

  /** The tensors after the cache has been cleared with its data. */
  function Zeroed(sh: Shape, size: nat): (r: seq<LayerData>)
    ensures |r| == |sh.layers| && forall l :: 0 <= l < |r| ==>
      r[l] == LayerData(ZeroLine(size, sh.layers[l].kSize),
                        ZeroLines(if sh.layers[l].hasV then sh.Lines(l) else 0, size, sh.layers[l].vSize))
  {
    seq(|sh.layers|, l requires 0 <= l < |sh.layers| =>
      LayerData(ZeroLine(size, sh.layers[l].kSize),
                ZeroLines(if sh.layers[l].hasV then sh.Lines(l) else 0, size, sh.layers[l].vSize)))
  }

  lemma ZeroedValid(sh: Shape, size: nat)
    ensures DataValid(sh, size, Zeroed(sh, size)) && AllSized(Zeroed(sh, size), size)
  {
    forall l | 0 <= l < |sh.layers|
      ensures LayerValid(sh, size, l, Zeroed(sh, size)[l])
    {
    }
    DataSized(sh, size, Zeroed(sh, size));
  }

  /** `state_read` of everything. A dump of no cells changes nothing; a rejected one leaves the cache
      cleared; after an exception in the middle nothing of the cells read so far is kept here. */
  function RestoreWhole(sh: Shape, st: State, data: seq<LayerData>, items: seq<Item>): Restored
    requires DataValid(sh, |st.cells|, data)
  {
    var size := |st.cells|;
    var cleared := State(Blank(size), 0);
    if !NumAt(items, 0) || items[0].n != 1 || !NumAt(items, 1) || items[1].n < 0 then Restored(Malformed, st, data)
    else if items[1].n == 0 then Restored(Done, st, data)
    else if items[1].n > size then Restored(Rejected, cleared, Zeroed(sh, size))
    else
      match ReadCells(sh, items[2..], items[1].n)
      case Fail(o) => Restored(o, cleared, Zeroed(sh, size))
      case Got(cells, rest) =>
        var slot := Span(0, items[1].n);
        ZeroedValid(sh, size);
        match ReadTensors(sh, Zeroed(sh, size), size, slot, rest)
        case Fail(o) => Restored(o, if o == Rejected then cleared else State(Laid(cells, size), 0), Zeroed(sh, size))
        case Got(d, _) => Restored(Done, State(Laid(cells, size), 0), d)
  }

  // ---- the loops ----

  lemma {:induction false} ReadIdsFails(items: seq<Item>, i: nat, k: nat, nSeqMax: nat)
    requires i <= k && ReadIds(items, i, nSeqMax).Fail?
    ensures ReadIds(items, k, nSeqMax) == ReadIds(items, i, nSeqMax)
  {
    if i < k {
      ReadIdsFails(items, i, k - 1, nSeqMax);
    }
  }

  lemma {:induction false} ReadCellsFails(sh: Shape, items: seq<Item>, i: nat, n: nat)
    requires i <= n && ReadCells(sh, items, i).Fail?
    ensures ReadCells(sh, items, n) == ReadCells(sh, items, i)
  {
    if i < n {
      ReadCellsFails(sh, items, i, n - 1);
    }
  }

  method ReadOwners(items: seq<Item>, k: nat, nSeqMax: nat) returns (r: Got<set<nat>>)
    ensures r == ReadIds(items, k, nSeqMax)
  {
    var ids: set<nat>, rest := {}, items;
    for j := 0 to k
      invariant ReadIds(items, j, nSeqMax) == Got(ids, rest)
    {
      if !NumAt(rest, 0) {
        ReadIdsFails(items, j + 1, k, nSeqMax);
        return Fail(Malformed);
      }
      if rest[0].n < 0 || rest[0].n >= nSeqMax {
        ReadIdsFails(items, j + 1, k, nSeqMax);
        return Fail(Rejected);
      }
      ids, rest := ids + {rest[0].n as nat}, rest[1..];
    }
    return Got(ids, rest);
  }

  method ReadWholeMeta(sh: Shape, items: seq<Item>, n: nat) returns (r: Got<seq<Cell>>)
    ensures r == ReadCells(sh, items, n)
  {
    var cells: seq<Cell>, rest := [], items;
    for i := 0 to n
      invariant ReadCells(sh, items, i) == Got(cells, rest)
    {
      var c := ReadOneCell(sh, rest);
      if c.Fail? {
        ReadCellsFails(sh, items, i + 1, n);
        return Fail(c.o);
      }
      cells, rest := cells + [c.v], c.rest;
    }
    return Got(cells, rest);
  }

  method ReadOneCell(sh: Shape, items: seq<Item>) returns (r: Got<Cell>)
    ensures r == ReadCell(sh, items)
  {
    if !NumAt(items, 0) || !NumAt(items, 1) || items[1].n < 0 || items[0].n < 0 || items[0].n >= POS_MAX {
      return Fail(Malformed);
    }
    var pos, k, rest, ext := items[0].n, items[1].n, items[2..], NO_EXT;
    if sh.is2d {
      if !NumAt(items, 2) || !NumAt(items, 3) {
        return Fail(Malformed);
      }
      ext, rest := Ext(items[2].n, items[3].n), items[4..];
    }
    var ids := ReadOwners(rest, k, sh.nSeqMax);
    if ids.Fail? {
      return Fail(ids.o);
    }
    return Got(Used(pos, 0, ext, ids.v), ids.rest);
  }

  /** `state_read` with no destination sequence. */
  method StateReadWhole(c: Cache, sh: Shape, data: seq<LayerData>, items: seq<Item>)
    returns (o: Outcome, data': seq<LayerData>)
    requires c.Valid() && DataValid(sh, |c.cells|, data)
    modifies c
    ensures sh.nSeqMax <= c.cfg.maxSeq ==> c.Valid()
    ensures Restored(o, c.St(), data') == RestoreWhole(sh, old(c.St()), data, items)
  {
    if !NumAt(items, 0) || items[0].n != 1 || !NumAt(items, 1) || items[1].n < 0 {
      return Malformed, data;
    }
    if items[1].n == 0 {
      return Done, data;
    }
    var n, size := items[1].n, |c.cells|;
    c.Clear();
    data' := Zeroed(sh, size);
    if n > size {
      return Rejected, data';
    }
    var cells := ReadWholeMeta(sh, items[2..], n);
    if cells.Fail? {
      return cells.o, data';
    }
    c.cells := Laid(cells.v, size);
    c.head := 0;
    ZeroedValid(sh, size);
    var d := StateReadData(sh, data', size, Span(0, n), cells.rest);
    if d.Fail? {
      if d.o == Rejected {
        c.cells, c.head := Blank(size), 0;
      }
      return d.o, data';
    }
    return Done, d.v;
  }

  // ---- what survives ----

  /** What a dumped cell becomes: owners this cache does not save are lost, and so is a pending shift. */
  function Kept(sh: Shape, c: Cell): (r: Cell)
    requires c.Used?
    ensures r.Used?
  {
    Used(c.pos, 0, if sh.is2d then c.ext else NO_EXT, set q: nat | q < sh.nSeqMax && q in c.seqs)
  }

  lemma {:induction false} OwnersAre(c: Cell, n: nat)
    ensures forall q: nat :: q in Owners(c, None, n) <==> q < n && c.Has(q)
    ensures forall i :: 0 <= i < |Owners(c, None, n)| ==> Owners(c, None, n)[i] < n && c.Has(Owners(c, None, n)[i])
  {
    if n > 0 {
      OwnersAre(c, n - 1);
    }
  }

  lemma {:induction false} OwnersKept(a: Cell, b: Cell, n: nat)
    requires forall q: nat :: q < n ==> (a.Has(q) <==> b.Has(q))
    ensures Owners(a, None, n) == Owners(b, None, n)
  {
    if n > 0 {
      OwnersKept(a, b, n - 1);
    }
  }

  /** The first k elements as a set. */
  function FirstIds(s: seq<nat>, k: nat): (r: set<nat>)
    requires k <= |s|
  {
    if k == 0 then {} else FirstIds(s, k - 1) + {s[k - 1]}
  }

  lemma {:induction false} FirstIdsAre(s: seq<nat>, k: nat)
    requires k <= |s|
    ensures forall q :: q in FirstIds(s, k) <==> exists i :: 0 <= i < k && s[i] == q
  {
    if k > 0 {
      FirstIdsAre(s, k - 1);
    }
  }

  lemma {:induction false} ReadsIds(s: seq<nat>, n: nat, k: nat, tail: seq<Item>)
    requires k <= |s| && forall i :: 0 <= i < |s| ==> s[i] < n
    ensures ReadIds(Nums(s) + tail, k, n) == Got(FirstIds(s, k), Nums(s)[k..] + tail)
  {
    if k > 0 {
      ReadsIds(s, n, k - 1, tail);
      var rest := Nums(s)[k - 1..] + tail;
      assert rest[0] == Num(s[k - 1]) && rest[1..] == Nums(s)[k..] + tail;
    } else {
      assert Nums(s)[0..] == Nums(s);
    }
  }

  lemma OwnersAreKept(sh: Shape, c: Cell)
    requires c.Used?
    ensures var owners := Owners(c, None, sh.nSeqMax);
            FirstIds(owners, |owners|) == Kept(sh, c).seqs && forall i :: 0 <= i < |owners| ==> owners[i] < sh.nSeqMax
  {
    var owners := Owners(c, None, sh.nSeqMax);
    OwnersAre(c, sh.nSeqMax);
    FirstIdsAre(owners, |owners|);
    forall q: nat | q in Kept(sh, c).seqs
      ensures q in FirstIds(owners, |owners|)
    {
      assert q in owners;
    }
  }

  lemma CellParts(sh: Shape, c: Cell, tail: seq<Item>)
    requires c.Used?
    ensures var items, owners := MetaCell(sh, c, None) + tail, Owners(c, None, sh.nSeqMax);
      && |items| >= (if sh.is2d then 4 else 2) && items[0] == Num(c.pos) && items[1] == Num(|owners|)
      && (sh.is2d ==> items[2] == Num(c.ext.x) && items[3] == Num(c.ext.y))
      && (if sh.is2d then items[4..] else items[2..]) == Nums(owners) + tail
  {
  }

  /** Reading one cell's metadata back. */
  lemma ReadsWholeCell(sh: Shape, c: Cell, tail: seq<Item>)
    requires c.Used?
    ensures ReadCell(sh, MetaCell(sh, c, None) + tail) == Got(Kept(sh, c), tail)
  {
    var owners := Owners(c, None, sh.nSeqMax);
    OwnersAreKept(sh, c);
    CellParts(sh, c, tail);
    ReadsIds(owners, sh.nSeqMax, |owners|, tail);
    assert Nums(owners)[|owners|..] + tail == tail;
  }

  function KeptAll(sh: Shape, cells: seq<Cell>, idxs: seq<nat>): (r: seq<Cell>)
    requires AllUsed(cells, idxs)
    ensures |r| == |idxs| && forall k :: 0 <= k < |idxs| ==> r[k] == Kept(sh, cells[idxs[k]])
  {
    seq(|idxs|, k requires 0 <= k < |idxs| && AllUsed(cells, idxs) => Kept(sh, cells[idxs[k]]))
  }

  lemma {:induction false} ReadsWholeMeta(sh: Shape, cells: seq<Cell>, idxs: seq<nat>, tail: seq<Item>)
    requires AllUsed(cells, idxs)
    ensures ReadCells(sh, Meta(sh, cells, None, idxs) + tail, |idxs|) == Got(KeptAll(sh, cells, idxs), tail)
  {
    if idxs == [] {
      assert Meta(sh, cells, None, idxs) + tail == tail;
    } else {
      var k := |idxs| - 1;
      var last := MetaCell(sh, cells[idxs[k]], None);
      ReadsWholeMeta(sh, cells, idxs[..k], last + tail);
      ReadsWholeCell(sh, cells[idxs[k]], tail);
      assert Meta(sh, cells, None, idxs) + tail == Meta(sh, cells, None, idxs[..k]) + (last + tail);
      assert KeptAll(sh, cells, idxs) == KeptAll(sh, cells, idxs[..k]) + [Kept(sh, cells[idxs[k]])];
    }
  }

  /** A source cache and a target cache of the same shape; nothing is asked of what the target holds. */
  datatype WholeScene = WholeScene(sh: Shape, swa: Swa, cells: seq<Cell>, from: seq<LayerData>,
                                   st: State, data: seq<LayerData>)
  {
    ghost predicate Valid() {
      DataValid(sh, |cells|, from) && DataValid(sh, |st.cells|, data)
    }

    function Picks(): (r: seq<nat>)
      ensures AllUsed(cells, r)
    {
      ChosenUsed(cells, swa, None, 0, |cells|);
      Chosen(cells, swa, None, 0, |cells|)
    }

    function Items(): seq<Item>
      requires Valid()
    {
      Dump(sh, swa, cells, from, None)
    }

    function After(): Restored
      requires Valid()
    {
      RestoreWhole(sh, st, data, Items())
    }

    function Moves(): Transfer {
      Transfer(sh, Zeroed(sh, |st.cells|), |st.cells|, Span(0, |Picks()|), from, |cells|, Picks())
    }
  }

  lemma MovesValid(s: WholeScene)
    requires s.Valid() && |s.Picks()| <= |s.st.cells|
    ensures s.Moves().Valid()
  {
    ZeroedValid(s.sh, |s.st.cells|);
  }

  /** The restore succeeds with the dumped cells in front and their rows with them. */
  ghost predicate Arrives(s: WholeScene)
    requires s.Valid() && s.Moves().Valid() && |s.Picks()| <= |s.st.cells|
  {
    var cells := Laid(KeptAll(s.sh, s.cells, s.Picks()), |s.st.cells|);
    s.After() == Restored(Done, State(cells, 0), s.Moves().Result())
  }

  /** Exactly the occupied cells arrive, from the front, with head 0; and nothing but lack of room can
      prevent it. */
  lemma WholeRestored(s: WholeScene)
    requires s.Valid() && s.Picks() != []
    ensures |s.Picks()| > |s.st.cells| ==>
              s.After() == Restored(Rejected, State(Blank(|s.st.cells|), 0), Zeroed(s.sh, |s.st.cells|))
    ensures |s.Picks()| <= |s.st.cells| ==> s.Moves().Valid() && Arrives(s)
  {
    var n, tail := |s.Picks()|, Tensors(s.sh, |s.cells|, s.from, s.Picks());
    assert s.Items()[0] == Num(1) && s.Items()[1] == Num(n);
    assert s.Items()[2..] == Meta(s.sh, s.cells, None, s.Picks()) + tail;
    if n <= |s.st.cells| {
      ReadsWholeMeta(s.sh, s.cells, s.Picks(), tail);
      MovesValid(s);
      ReadsTensors(s.Moves());
    }
  }

  /** Once restored, the first cells hold the dumped ones in their order, each with its position, moved by
      nothing, and those of its owners that the writer saved; all others are free. */
  lemma RestoredCells(s: WholeScene, i: nat)
    requires s.Valid() && s.Picks() != [] && |s.Picks()| <= |s.st.cells| && i < |s.st.cells|
    ensures |s.After().st.cells| == |s.st.cells| && (s.After().st.cells[i].Used? <==> i < |s.Picks()|)
    ensures i < |s.Picks()| ==>
              var c, was := s.After().st.cells[i], s.cells[s.Picks()[i]];
              && c.pos == was.pos && c.shift == 0 && (s.sh.is2d ==> c.ext == was.ext)
              && forall q: nat :: q in c.seqs <==> q in was.seqs && q < s.sh.nSeqMax
  {
    WholeRestored(s);
    if i < |s.Picks()| {
      assert s.After().st.cells[i] == Kept(s.sh, s.cells[s.Picks()[i]]);
    }
  }

  /** Once restored, cell i is occupied and owned by nobody exactly if it holds the i-th dumped cell and
      the writer saved none of that cell's owners. */
  lemma OwnerlessAfterwards(s: WholeScene, i: nat)
    requires s.Valid() && s.Picks() != [] && |s.Picks()| <= |s.st.cells| && i < |s.st.cells|
    ensures |s.After().st.cells| == |s.st.cells|
    ensures var c := s.After().st.cells[i];
            c.Used? && c.seqs == {} <==>
            i < |s.Picks()| && forall q :: q in s.cells[s.Picks()[i]].seqs ==> q >= s.sh.nSeqMax
  {
    WholeRestored(s);
    if i < |s.Picks()| {
      var c := s.cells[s.Picks()[i]];
      assert s.After().st.cells[i] == Kept(s.sh, c);
      if q: nat :| q in c.seqs && q < s.sh.nSeqMax {
        assert q in Kept(s.sh, c).seqs;
      }
    }
  }

  lemma MetaCellKept(sh: Shape, c: Cell)
    requires c.Used?
    ensures MetaCell(sh, Kept(sh, c), None) == MetaCell(sh, c, None)
  {
    OwnersKept(Kept(sh, c), c, sh.nSeqMax);
  }

  lemma {:induction false} WholeMetaSame(s: WholeScene, laid: seq<Cell>, n: nat)
    requires n <= |s.Picks()| <= |laid|
    requires forall k :: 0 <= k < |s.Picks()| ==> laid[k] == Kept(s.sh, s.cells[s.Picks()[k]])
    ensures AllUsed(laid, Span(0, n)) && AllUsed(s.cells, s.Picks()[..n])
    ensures Meta(s.sh, laid, None, Span(0, n)) == Meta(s.sh, s.cells, None, s.Picks()[..n])
  {
    if n > 0 {
      WholeMetaSame(s, laid, n - 1);
      assert Span(0, n)[..n - 1] == Span(0, n - 1);
      assert s.Picks()[..n][..n - 1] == s.Picks()[..n - 1];
      MetaCellKept(s.sh, s.cells[s.Picks()[n - 1]]);
    }
  }

  lemma LaidPicks(s: WholeScene, cells: seq<Cell>, size: nat)
    requires |cells| <= size && forall k :: 0 <= k < |cells| ==> cells[k].Used?
    ensures Chosen(Laid(cells, size), s.swa, None, 0, size) == Span(0, |cells|)
  {
    var laid := Laid(cells, size);
    forall i: nat | i < size
      ensures InDump(laid, s.swa, None, i) <==> i in Span(0, |cells|)
    {
      if i < |cells| {
        assert Span(0, |cells|)[i] == i;
      }
    }
    ChosenIs(laid, s.swa, None, Span(0, |cells|));
  }

  /** Writing a cache with at least one occupied cell, restoring it into any cache with room, and
      writing it again gives the same stream, item by item. */
  lemma WholeRoundTrip(s: WholeScene)
    requires s.Valid() && s.Picks() != [] && |s.Picks()| <= |s.st.cells|
    ensures s.After().o == Done
    ensures var r := s.After();
            DataValid(s.sh, |r.st.cells|, r.data) && Dump(s.sh, s.swa, r.st.cells, r.data, None) == s.Items()
  {
    var kept, size := KeptAll(s.sh, s.cells, s.Picks()), |s.st.cells|;
    WholeRestored(s);
    LaidPicks(s, kept, size);
    WholeMetaSame(s, Laid(kept, size), |s.Picks()|);
    assert s.Picks()[..|s.Picks()|] == s.Picks();
    RedumpsTensors(s.Moves());
  }

  /** The one exception: the dump of an empty cache is restored by doing nothing, so writing again gives
      the same stream if and only if the target was empty as well. */
  lemma EmptyCacheRestoresNothing(s: WholeScene)
    requires s.Valid() && s.Picks() == []
    ensures s.After() == Restored(Done, s.st, s.data)
    ensures Dump(s.sh, s.swa, s.st.cells, s.data, None) == s.Items()
        <==> forall i :: 0 <= i < |s.st.cells| ==> s.st.cells[i].Free?
  {
    var mine := Chosen(s.st.cells, s.swa, None, 0, |s.st.cells|);
    assert s.Items() == [Num(1), Num(0)];
    assert Dump(s.sh, s.swa, s.st.cells, s.data, None)[1] == Num(|mine|);
    ChosenNone(s.st.cells, s.swa, |s.st.cells|);
  }

  lemma {:induction false} ChosenNone(cells: seq<Cell>, swa: Swa, b: nat)
    requires b <= |cells|
    ensures Chosen(cells, swa, None, 0, b) == [] <==> forall i :: 0 <= i < b ==> cells[i].Free?
  {
    if b > 0 {
      ChosenNone(cells, swa, b - 1);
    }
  }
}
