/** The round trip: what a sequence's checkpoint says survives being restored into another cache. */
module CheckpointFacts {
  import opened Wrappers
  import opened KvCells
  import opened SlotSearch
  import opened SlotFacts
  import opened Placement
  import opened Scatter
  import opened Checkpoint
  import opened CheckpointRead

  /** The tokens a dump stands for. */
  function TokOf(sh: Shape, c: Cell, q: nat): Tok
    requires c.Used?
  {
    Tok(c.pos, if sh.is2d then c.ext else NO_EXT, [q])
  }

  function ToksOf(sh: Shape, cells: seq<Cell>, idxs: seq<nat>, q: nat): (r: seq<Tok>)
    requires AllUsed(cells, idxs)
    ensures |r| == |idxs| && forall k :: 0 <= k < |idxs| ==> r[k] == TokOf(sh, cells[idxs[k]], q)
  {
    seq(|idxs|, k requires 0 <= k < |idxs| && AllUsed(cells, idxs) => TokOf(sh, cells[idxs[k]], q))
  }

  lemma {:induction false} OwnersOne(c: Cell, q: nat, n: nat)
    ensures Owners(c, Some(q), n) == if q < n && c.Has(q) then [q] else []
  {
    if n > 0 {
      OwnersOne(c, q, n - 1);
    }
  }

  /** Reading one cell's metadata back. */
  lemma ReadsCell(sh: Shape, c: Cell, q: nat, tail: seq<Item>)
    requires c.Has(q) && q < sh.nSeqMax
    ensures ReadTok(MetaCell(sh, c, Some(q)) + tail, sh.is2d, q) == Got(TokOf(sh, c, q), tail)
  {
    OwnersOne(c, q, sh.nSeqMax);
    var m := MetaCell(sh, c, Some(q));
    assert m == if sh.is2d
                then [Num(c.pos), Num(1), Num(c.ext.x), Num(c.ext.y), Num(q)]
                else [Num(c.pos), Num(1), Num(q)];
    assert (m + tail)[|m|..] == tail;
  }

  lemma MetaLast(sh: Shape, cells: seq<Cell>, idxs: seq<nat>, q: nat, tail: seq<Item>)
    requires AllUsed(cells, idxs) && idxs != []
    ensures var k := |idxs| - 1;
      && Meta(sh, cells, Some(q), idxs) + tail
         == Meta(sh, cells, Some(q), idxs[..k]) + (MetaCell(sh, cells[idxs[k]], Some(q)) + tail)
      && ToksOf(sh, cells, idxs, q) == ToksOf(sh, cells, idxs[..k], q) + [TokOf(sh, cells[idxs[k]], q)]
  {
  }

  lemma {:induction false} ReadsMeta(sh: Shape, cells: seq<Cell>, idxs: seq<nat>, q: nat, tail: seq<Item>)
    requires AllUsed(cells, idxs) && q < sh.nSeqMax && forall k :: 0 <= k < |idxs| ==> cells[idxs[k]].Has(q)
    ensures ReadToks(Meta(sh, cells, Some(q), idxs) + tail, |idxs|, sh.is2d, q) == Got(ToksOf(sh, cells, idxs, q), tail)
  {
    if idxs == [] {
      assert Meta(sh, cells, Some(q), idxs) + tail == tail;
    } else {
      var k := |idxs| - 1;
      var last := MetaCell(sh, cells[idxs[k]], Some(q));
      ReadsMeta(sh, cells, idxs[..k], q, last + tail);
      ReadsCell(sh, cells[idxs[k]], q, tail);
      MetaLast(sh, cells, idxs, q, tail);
    }
  }

  /** Source and target of a copy: row idxs[k] of one line goes to place slot[k] of another. */
  ghost predicate Copies(size: nat, slot: seq<nat>, size': nat, idxs: seq<nat>) {
    |slot| == |idxs| && Indices(slot, size) && Distinct(slot) && Indices(idxs, size')
  }

  function Moved(line: seq<Bytes>, slot: seq<nat>, from: seq<Bytes>, idxs: seq<nat>): (r: seq<Bytes>)
    requires |slot| == |idxs| && Indices(slot, |line|) && Indices(idxs, |from|)
    ensures |r| == |line|
  {
    PutBack(line, slot, Picked(from, idxs))
  }

  /** Reading a line back, and dumping it again from its new places. */
  lemma ReadsLine(line: seq<Bytes>, slot: seq<nat>, from: seq<Bytes>, idxs: seq<nat>, width: nat, tail: seq<Item>)
    requires Copies(|line|, slot, |from|, idxs) && LineValid(from, |from|, width)
    ensures ReadLine(line, slot, width, LineItems(from, idxs) + tail) == Got(Moved(line, slot, from, idxs), tail)
    ensures LineItems(Moved(line, slot, from, idxs), slot) == LineItems(from, idxs)
  {
    var items := LineItems(from, idxs) + tail;
    assert HaveRows(items, |slot|, width);
    assert RowsOf(items, |slot|, width) == Picked(from, idxs);
    assert items[|slot|..] == tail;
    PutBackAt(line, slot, Picked(from, idxs));
    assert forall k :: 0 <= k < |slot| ==>
      Moved(line, slot, from, idxs)[slot[k]] == Picked(from, idxs)[k] == from[idxs[k]];
  }

  /** The first n lines moved. */
  function MovedLines(lines: seq<seq<Bytes>>, slot: seq<nat>, from: seq<seq<Bytes>>, idxs: seq<nat>,
      n: nat): (r: seq<seq<Bytes>>)
    requires |lines| == |from| && n <= |lines| && |slot| == |idxs| && LinesFit(lines, slot) && LinesFit(from, idxs)
    ensures |r| == |lines|
    ensures forall j :: 0 <= j < |lines| ==> r[j] == if j < n then Moved(lines[j], slot, from[j], idxs) else lines[j]
  {
    seq(|lines|, j requires 0 <= j < |lines| == |from| && |slot| == |idxs|
                            && LinesFit(lines, slot) && LinesFit(from, idxs) =>
      if j < n then Moved(lines[j], slot, from[j], idxs) else lines[j])
  }

  /** Two tensors of equally many lines whose rows can be copied. */
  ghost predicate LinesMatch(lines: seq<seq<Bytes>>, size: nat, from: seq<seq<Bytes>>, size': nat, width: nat) {
    |lines| == |from| && Sized(lines, size) && forall j :: 0 <= j < |from| ==> LineValid(from[j], size', width)
  }

  lemma MovedLinesStep(lines: seq<seq<Bytes>>, slot: seq<nat>, from: seq<seq<Bytes>>, idxs: seq<nat>, n: nat)
    requires |lines| == |from| && |slot| == |idxs| && LinesFit(lines, slot) && LinesFit(from, idxs) && n < |lines|
    ensures MovedLines(lines, slot, from, idxs, n + 1)
         == MovedLines(lines, slot, from, idxs, n)[n := Moved(lines[n], slot, from[n], idxs)]
  {
  }

  lemma LinesItemsStep(from: seq<seq<Bytes>>, idxs: seq<nat>, n: nat, tail: seq<Item>)
    requires LinesFit(from, idxs) && n < |from|
    ensures LinesItems(from, idxs, n + 1) + tail == LinesItems(from, idxs, n) + (LineItems(from[n], idxs) + tail)
  {
    assert LinesItems(from, idxs, n + 1) == LinesItems(from, idxs, n) + LineItems(from[n], idxs);
  }

  lemma ReadLinesMore(lines: seq<seq<Bytes>>, size: nat, slot: seq<nat>, width: nat, n: nat, items: seq<Item>,
                      ls: seq<seq<Bytes>>, rest: seq<Item>, line: seq<Bytes>, tail: seq<Item>)
    requires Sized(lines, size) && Indices(slot, size) && n < |lines|
    requires ReadLines(lines, size, slot, width, n, items) == Got(ls, rest)
    requires n < |ls| && Indices(slot, |ls[n]|) && ReadLine(ls[n], slot, width, rest) == Got(line, tail)
    ensures ReadLines(lines, size, slot, width, n + 1, items) == Got(ls[n := line], tail)
  {
  }

  lemma {:induction false} ReadsLines(lines: seq<seq<Bytes>>, size: nat, slot: seq<nat>, from: seq<seq<Bytes>>,
                                      size': nat, idxs: seq<nat>, width: nat, n: nat, tail: seq<Item>)
    requires Copies(size, slot, size', idxs) && LinesMatch(lines, size, from, size', width) && n <= |lines|
    ensures LinesFit(lines, slot) && LinesFit(from, idxs)
    ensures ReadLines(lines, size, slot, width, n, LinesItems(from, idxs, n) + tail)
        == Got(MovedLines(lines, slot, from, idxs, n), tail)
  {
    if n == 0 {
      assert LinesItems(from, idxs, 0) + tail == tail;
      assert MovedLines(lines, slot, from, idxs, 0) == lines;
    } else {
      var l := n - 1;
      var last := LineItems(from[l], idxs);
      ReadsLines(lines, size, slot, from, size', idxs, width, l, last + tail);
      ReadsLine(lines[l], slot, from[l], idxs, width, tail);
      LinesItemsStep(from, idxs, l, tail);
      MovedLinesStep(lines, slot, from, idxs, l);
      ReadLinesMore(lines, size, slot, width, l, LinesItems(from, idxs, n) + tail,
                    MovedLines(lines, slot, from, idxs, l), last + tail,
                    Moved(lines[l], slot, from[l], idxs), tail);
    }
  }

  lemma LastLineItems(from: seq<seq<Bytes>>, idxs: seq<nat>, n: nat)
    requires LinesFit(from, idxs) && 0 < n <= |from|
    ensures LinesItems(from, idxs, n) == LinesItems(from, idxs, n - 1) + LineItems(from[n - 1], idxs)
  {
  }

  lemma {:induction false} RedumpsLines(lines: seq<seq<Bytes>>, size: nat, slot: seq<nat>, from: seq<seq<Bytes>>,
                                        size': nat, idxs: seq<nat>, width: nat, n: nat)
    requires Copies(size, slot, size', idxs) && LinesMatch(lines, size, from, size', width) && n <= |lines|
    ensures LinesFit(lines, slot) && LinesFit(from, idxs)
    ensures LinesFit(MovedLines(lines, slot, from, idxs, |lines|), slot)
    ensures LinesItems(MovedLines(lines, slot, from, idxs, |lines|), slot, n) == LinesItems(from, idxs, n)
  {
    if n > 0 {
      RedumpsLines(lines, size, slot, from, size', idxs, width, n - 1);
      var moved := MovedLines(lines, slot, from, idxs, |lines|);
      ReadsLine(lines[n - 1], slot, from[n - 1], idxs, width, []);
      LastLineItems(moved, slot, n);
      LastLineItems(from, idxs, n);
    }
  }

  /** The rows idxs of the tensors `from` (of a cache of size' cells) go to the places `slot` of the
      tensors `data` (of a cache of `size` cells). */
  datatype Transfer = Transfer(sh: Shape, data: seq<LayerData>, size: nat, slot: seq<nat>,
                               from: seq<LayerData>, size': nat, idxs: seq<nat>)
  {
    ghost predicate Valid() {
      Copies(size, slot, size', idxs) && DataValid(sh, size, data) && DataValid(sh, size', from)
    }

    /** Layer l after the transfer. */
    function Layer(l: nat): LayerData
      requires Valid() && l < |data|
    {
      assert LayerValid(sh, size, l, data[l]) && LayerValid(sh, size', l, from[l]);
      LayerData(Moved(data[l].k, slot, from[l].k, idxs), MovedLines(data[l].v, slot, from[l].v, idxs, |data[l].v|))
    }

    /** All layers, with the keys of the first nk and the values of the first nv transferred. */
    function Merged(nk: nat, nv: nat): (r: seq<LayerData>)
      requires Valid()
      ensures |r| == |data|
      ensures forall l :: 0 <= l < |data| ==>
        r[l].k == (if l < nk then Layer(l).k else data[l].k) && r[l].v == (if l < nv then Layer(l).v else data[l].v)
    {
      seq(|data|, (l: nat) requires l < |data| && Valid() =>
        LayerData(if l < nk then Layer(l).k else data[l].k, if l < nv then Layer(l).v else data[l].v))
    }

    function Result(): seq<LayerData>
      requires Valid()
    {
      Merged(|data|, |data|)
    }
  }

  lemma MergedValid(t: Transfer, nk: nat, nv: nat)
    requires t.Valid()
    ensures DataValid(t.sh, t.size, t.Merged(nk, nv)) && AllSized(t.Merged(nk, nv), t.size)
  {
    var r := t.Merged(nk, nv);
    forall l | 0 <= l < |t.data|
      ensures LayerValid(t.sh, t.size, l, r[l]) && |r[l].k| == t.size && Sized(r[l].v, t.size)
    {
      assert LayerValid(t.sh, t.size, l, t.data[l]) && LayerValid(t.sh, t.size', l, t.from[l]);
      MovedValid(t.data[l].k, t.slot, t.from[l].k, t.idxs, t.sh.layers[l].kSize);
      forall j | 0 <= j < |t.data[l].v| {
        MovedValid(t.data[l].v[j], t.slot, t.from[l].v[j], t.idxs, t.sh.layers[l].vSize);
      }
    }
  }

  lemma MergedStep(t: Transfer, nk: nat, nv: nat)
    requires t.Valid()
    ensures nk < |t.data| && nv == 0 ==>
      t.Merged(nk + 1, 0) == (var d := t.Merged(nk, 0); d[nk := d[nk].(k := t.Layer(nk).k)])
    ensures nv < |t.data| ==> t.Merged(nk, nv + 1) == (var d := t.Merged(nk, nv); d[nv := d[nv].(v := t.Layer(nv).v)])
  {
  }

  lemma MovedValid(line: seq<Bytes>, slot: seq<nat>, from: seq<Bytes>, idxs: seq<nat>, width: nat)
    requires Copies(|line|, slot, |from|, idxs) && LineValid(line, |line|, width) && LineValid(from, |from|, width)
    ensures LineValid(Moved(line, slot, from, idxs), |line|, width)
  {
    var r := Moved(line, slot, from, idxs);
    PutBackAt(line, slot, Picked(from, idxs));
    forall i | 0 <= i < |line|
      ensures |r[i]| == width
    {
      if i in slot {
        var k :| 0 <= k < |slot| && slot[k] == i;
        assert r[i] == Picked(from, idxs)[k];
      }
    }
  }

  /** What the dump holds for the keys, or the values, of one layer. */
  function KeyPart(t: Transfer, l: nat): seq<Item>
    requires t.Valid() && l < |t.data|
  {
    assert LayerValid(t.sh, t.size', l, t.from[l]);
    KHeader(t.sh.layers[l]) + LineItems(t.from[l].k, t.idxs)
  }

  function ValuePart(t: Transfer, l: nat): seq<Item>
    requires t.Valid() && l < |t.data|
  {
    assert LayerValid(t.sh, t.size', l, t.from[l]);
    if t.sh.layers[l].hasV then VHeader(t.sh, t.sh.layers[l]) + LinesItems(t.from[l].v, t.idxs, |t.from[l].v|) else []
  }

  lemma KItemsStep(t: Transfer, l: nat, tail: seq<Item>)
    requires t.Valid() && l < |t.data|
    ensures KItems(t.sh, t.size', t.from, t.idxs, l + 1) + tail
        == KItems(t.sh, t.size', t.from, t.idxs, l) + (KeyPart(t, l) + tail)
  {
  }

  lemma VItemsStep(t: Transfer, l: nat, tail: seq<Item>)
    requires t.Valid() && l < |t.data|
    ensures VItems(t.sh, t.size', t.from, t.idxs, l + 1) + tail
        == VItems(t.sh, t.size', t.from, t.idxs, l) + (ValuePart(t, l) + tail)
  {
    assert LayerValid(t.sh, t.size', l, t.from[l]);
  }

  lemma MatchHit(want: Item, rest: seq<Item>)
    requires !want.Data?
    ensures Match([want] + rest, want) == Got(want, rest)
  {
    assert ([want] + rest)[1..] == rest;
  }

  /** Past its header a layer's keys are one line. */
  lemma ReadKeyHit(sh: Shape, d: seq<LayerData>, size: nat, idxs: seq<nat>, l: nat, body: seq<Item>)
    requires |d| == |sh.layers| && AllSized(d, size) && Indices(idxs, size) && l < |d|
    ensures ReadKey(sh, d, size, idxs, l, KHeader(sh.layers[l]) + body) ==
      match ReadLine(d[l].k, idxs, sh.layers[l].kSize, body)
      case Fail(o) => Fail(o)
      case Got(k, rest) => Got(d[l := d[l].(k := k)], rest)
  {
    var s := sh.layers[l];
    assert KHeader(s) + body == [Num(s.kType)] + ([Long(s.kSize)] + body);
    MatchHit(Num(s.kType), [Long(s.kSize)] + body);
    MatchHit(Long(s.kSize), body);
  }

  /** Past its header a layer's values are its lines. */
  lemma ReadValueHit(sh: Shape, d: seq<LayerData>, size: nat, idxs: seq<nat>, l: nat, body: seq<Item>)
    requires |d| == |sh.layers| && AllSized(d, size) && Indices(idxs, size) && l < |d|
    ensures ReadValue(sh, d, size, idxs, l, VHeader(sh, sh.layers[l]) + body) ==
      match ReadLines(d[l].v, size, idxs, sh.layers[l].vSize, |d[l].v|, body)
      case Fail(o) => Fail(o)
      case Got(v, rest) => Got(d[l := d[l].(v := v)], rest)
  {
    var s := sh.layers[l];
    var sized := if sh.vTrans then [Num(s.nV)] + body else body;
    assert VHeader(sh, s) + body == [Num(s.vType)] + ([VSize(sh, s)] + sized);
    MatchHit(Num(s.vType), [VSize(sh, s)] + sized);
    MatchHit(VSize(sh, s), sized);
    MatchHit(Num(s.nV), body);
  }

  lemma ReadsKey(t: Transfer, l: nat, tail: seq<Item>)
    requires t.Valid() && l < |t.data|
    ensures AllSized(t.Merged(l, 0), t.size)
    ensures ReadKey(t.sh, t.Merged(l, 0), t.size, t.slot, l, KeyPart(t, l) + tail) == Got(t.Merged(l + 1, 0), tail)
  {
    MergedValid(t, l, 0);
    assert LayerValid(t.sh, t.size, l, t.data[l]) && LayerValid(t.sh, t.size', l, t.from[l]);
    var body := LineItems(t.from[l].k, t.idxs) + tail;
    assert KeyPart(t, l) + tail == KHeader(t.sh.layers[l]) + body;
    ReadKeyHit(t.sh, t.Merged(l, 0), t.size, t.slot, l, body);
    ReadsLine(t.data[l].k, t.slot, t.from[l].k, t.idxs, t.sh.layers[l].kSize, tail);
    MergedStep(t, l, 0);
  }

  lemma ReadsValue(t: Transfer, l: nat, tail: seq<Item>)
    requires t.Valid() && l < |t.data| && t.sh.layers[l].hasV
    ensures AllSized(t.Merged(|t.data|, l), t.size)
    ensures ReadValue(t.sh, t.Merged(|t.data|, l), t.size, t.slot, l, ValuePart(t, l) + tail)
        == Got(t.Merged(|t.data|, l + 1), tail)
  {
    MergedValid(t, |t.data|, l);
    assert LayerValid(t.sh, t.size, l, t.data[l]) && LayerValid(t.sh, t.size', l, t.from[l]);
    var body := LinesItems(t.from[l].v, t.idxs, |t.from[l].v|) + tail;
    assert ValuePart(t, l) + tail == VHeader(t.sh, t.sh.layers[l]) + body;
    ReadValueHit(t.sh, t.Merged(|t.data|, l), t.size, t.slot, l, body);
    ReadsLines(t.data[l].v, t.size, t.slot, t.from[l].v, t.size', t.idxs, t.sh.layers[l].vSize, |t.data[l].v|, tail);
    MergedStep(t, |t.data|, l);
  }

  /** Reading the keys of n layers off items has transferred them, and tail is left. */
  ghost predicate KeysRead(t: Transfer, n: nat, items: seq<Item>, tail: seq<Item>)
    requires t.Valid() && n <= |t.data|
  {
    AllSized(t.data, t.size)
    && ReadKeys(t.sh, t.data, t.size, t.slot, n, items) == Got(t.Merged(n, 0), tail)
  }

  lemma NoKeysRead(t: Transfer, tail: seq<Item>)
    requires t.Valid()
    ensures KeysRead(t, 0, KItems(t.sh, t.size', t.from, t.idxs, 0) + tail, tail)
  {
    MergedValid(t, 0, 0);
    assert t.Merged(0, 0) == t.data;
    assert KItems(t.sh, t.size', t.from, t.idxs, 0) + tail == tail;
  }

  lemma MoreKeysRead(t: Transfer, l: nat, items: seq<Item>, tail: seq<Item>)
    requires t.Valid() && l < |t.data| && KeysRead(t, l, items, KeyPart(t, l) + tail)
    ensures KeysRead(t, l + 1, items, tail)
  {
    ReadsKey(t, l, tail);
    ReadKeysMore(t.sh, t.data, t.size, t.slot, l, items, t.Merged(l, 0), KeyPart(t, l) + tail);
  }

  lemma {:induction false} ReadsKeys(t: Transfer, n: nat, tail: seq<Item>)
    requires t.Valid() && n <= |t.data|
    ensures KeysRead(t, n, KItems(t.sh, t.size', t.from, t.idxs, n) + tail, tail)
  {
    if n == 0 {
      NoKeysRead(t, tail);
    } else {
      ReadsKeys(t, n - 1, KeyPart(t, n - 1) + tail);
      KItemsStep(t, n - 1, tail);
      MoreKeysRead(t, n - 1, KItems(t.sh, t.size', t.from, t.idxs, n) + tail, tail);
    }
  }

  lemma {:induction false} ReadsValues(t: Transfer, n: nat, tail: seq<Item>)
    requires t.Valid() && n <= |t.data|
    ensures AllSized(t.Merged(|t.data|, 0), t.size)
    ensures ReadValues(t.sh, t.Merged(|t.data|, 0), t.size, t.slot, n, VItems(t.sh, t.size', t.from, t.idxs, n) + tail)
         == Got(t.Merged(|t.data|, n), tail)
  {
    MergedValid(t, |t.data|, 0);
    if n == 0 {
      assert VItems(t.sh, t.size', t.from, t.idxs, 0) + tail == tail;
    } else {
      ReadsValues(t, n - 1, ValuePart(t, n - 1) + tail);
      VItemsStep(t, n - 1, tail);
      if t.sh.layers[n - 1].hasV {
        ReadsValue(t, n - 1, tail);
      } else {
        assert ValuePart(t, n - 1) + tail == tail;
        NoValues(t, n - 1);
      }
    }
  }

  lemma NoValues(t: Transfer, l: nat)
    requires t.Valid() && l < |t.data| && !t.sh.layers[l].hasV
    ensures t.Merged(|t.data|, l + 1) == t.Merged(|t.data|, l)
  {
    assert LayerValid(t.sh, t.size, l, t.data[l]);
    assert t.Layer(l).v == t.data[l].v;
  }

  /** Reading the tensor section of a dump performs the whole transfer. */
  lemma ReadsTensors(t: Transfer)
    requires t.Valid() && |t.slot| <= t.size
    ensures AllSized(t.data, t.size)
    ensures ReadTensors(t.sh, t.data, t.size, t.slot, Tensors(t.sh, t.size', t.from, t.idxs)) == Got(t.Result(), [])
  {
    var items := Tensors(t.sh, t.size', t.from, t.idxs);
    var values := VItems(t.sh, t.size', t.from, t.idxs, |t.data|) + [];
    assert items[2..] == KItems(t.sh, t.size', t.from, t.idxs, |t.data|) + values;
    ReadsKeys(t, |t.data|, values);
    ReadsValues(t, |t.data|, []);
  }

  /** One layer's keys: the destination places of the result hold what was read. */
  lemma RedumpsKey(t: Transfer, l: nat)
    requires t.Valid() && l < |t.data|
    ensures Indices(t.slot, |t.Result()[l].k|) && Indices(t.idxs, |t.from[l].k|)
    ensures LineItems(t.Result()[l].k, t.slot) == LineItems(t.from[l].k, t.idxs)
  {
    assert LayerValid(t.sh, t.size, l, t.data[l]) && LayerValid(t.sh, t.size', l, t.from[l]);
    ReadsLine(t.data[l].k, t.slot, t.from[l].k, t.idxs, t.sh.layers[l].kSize, []);
  }

  lemma KItemsSame(sh: Shape, size: nat, data: seq<LayerData>, idxs: seq<nat>,
                   size': nat, data': seq<LayerData>, idxs': seq<nat>, l: nat)
    requires DataValid(sh, size, data) && Indices(idxs, size) && DataValid(sh, size', data') && Indices(idxs', size')
    requires l < |data| && l < |data'| && Indices(idxs, |data[l].k|) && Indices(idxs', |data'[l].k|)
    requires KItems(sh, size, data, idxs, l) == KItems(sh, size', data', idxs', l)
    requires LineItems(data[l].k, idxs) == LineItems(data'[l].k, idxs')
    ensures KItems(sh, size, data, idxs, l + 1) == KItems(sh, size', data', idxs', l + 1)
  {
  }

  ghost predicate KeyBack(t: Transfer, res: seq<LayerData>, l: nat) {
    l < |res| && l < |t.from| && Indices(t.slot, |res[l].k|) && Indices(t.idxs, |t.from[l].k|)
    && LineItems(res[l].k, t.slot) == LineItems(t.from[l].k, t.idxs)
  }

  lemma {:induction false} RedumpsKeys(t: Transfer, res: seq<LayerData>, n: nat)
    requires Indices(t.slot, t.size) && Indices(t.idxs, t.size') && n <= |res| && n <= |t.from|
    requires DataValid(t.sh, t.size, res) && DataValid(t.sh, t.size', t.from)
    requires forall l: nat :: l < n ==> KeyBack(t, res, l)
    ensures KItems(t.sh, t.size, res, t.slot, n) == KItems(t.sh, t.size', t.from, t.idxs, n)
  {
    if n > 0 {
      RedumpsKeys(t, res, n - 1);
      assert KeyBack(t, res, n - 1);
      KItemsSame(t.sh, t.size, res, t.slot, t.size', t.from, t.idxs, n - 1);
    }
  }

  lemma {:induction false} RedumpsValues(t: Transfer, n: nat)
    requires t.Valid() && n <= |t.data|
    ensures DataValid(t.sh, t.size, t.Result())
    ensures VItems(t.sh, t.size, t.Result(), t.slot, n) == VItems(t.sh, t.size', t.from, t.idxs, n)
  {
    MergedValid(t, |t.data|, |t.data|);
    if n > 0 {
      var l := n - 1;
      RedumpsValues(t, l);
      assert LayerValid(t.sh, t.size, l, t.data[l]) && LayerValid(t.sh, t.size', l, t.from[l]);
      RedumpsLines(t.data[l].v, t.size, t.slot, t.from[l].v, t.size', t.idxs, t.sh.layers[l].vSize, |t.data[l].v|);
    }
  }

  /** Dumping the destination places afterwards gives the tensor section that was read. */
  lemma RedumpsTensors(t: Transfer)
    requires t.Valid()
    ensures DataValid(t.sh, t.size, t.Result())
    ensures Tensors(t.sh, t.size, t.Result(), t.slot) == Tensors(t.sh, t.size', t.from, t.idxs)
  {
    MergedValid(t, |t.data|, |t.data|);
    forall l: nat | l < |t.data|
      ensures KeyBack(t, t.Result(), l)
    {
      RedumpsKey(t, l);
    }
    RedumpsKeys(t, t.Result(), |t.data|);
    RedumpsValues(t, |t.data|);
  }
}
