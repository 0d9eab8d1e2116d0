/** The layout of a checkpoint, spelled out for the smallest caches, and its numbers in bytes. */
module CheckpointFormat {
  import opened Wrappers
  import opened KvCells
  import opened Checkpoint
  import opened CheckpointFacts
  import opened CheckpointBytes

  // ---- numbers ----

  function Power256(w: nat): (p: nat)
    ensures p > 0
  {
    if w == 0 then 1 else 0x100 * Power256(w - 1)
  }

  /** What a reader makes of bytes, the lowest first. */
  function FromLe(b: Bytes): nat {
    if b == [] then 0 else b[0] as int + 0x100 * FromLe(b[1..])
  }

  lemma NextMultiple(d: nat, a: int, b: int)
    requires a < b
    ensures d * a + d <= d * b
  {
    var e: nat := b - a - 1;
    Distribute(d, a + 1, e);
    Distribute(d, a, 1);
    assert d * e >= 0;
  }

  lemma Distribute(d: int, x: int, y: int)
    ensures d * (x + y) == d * x + d * y
  {
  }

  lemma RemainderIs(n: int, d: nat, a: int, m: nat)
    requires m < d && n == d * a + m
    ensures n % d == m
  {
    var q := n / d;
    assert n == d * q + n % d;
    if a > q {
      NextMultiple(d, q, a);
    } else if a < q {
      NextMultiple(d, a, q);
    }
  }

  lemma LowByte(n: int, p: nat)
    requires p > 0
    ensures n % (0x100 * p) == n % 0x100 + 0x100 * ((n / 0x100) % p)
  {
    var q, r := n / 0x100, n % 0x100;
    var a, b := q / p, q % p;
    assert q == p * a + b && n == 0x100 * q + r;
    assert 0x100 * (p * a) == (0x100 * p) * a;
    RemainderIs(n, 0x100 * p, a, r + 0x100 * b);
  }

  /** A number written in w bytes reads as itself up to multiples of 256^w; a number that fits, as
      itself. */
  lemma {:induction false} LeReads(n: int, w: nat)
    ensures FromLe(Le(n, w)) == n % Power256(w)
    decreases w
  {
    if w > 0 {
      LeReads(n / 0x100, w - 1);
      LowByte(n, Power256(w - 1));
      assert Le(n, w)[1..] == Le(n / 0x100, w - 1);
    }
  }

  lemma Powers()
    ensures Power256(4) == 0x1_0000_0000
    ensures Power256(8) == 0x1_0000_0000_0000_0000
  {
    assert Power256(2) == 0x1_0000 && Power256(3) == 0x100_0000 && Power256(4) == 0x1_0000_0000;
    assert Power256(5) == 0x100 * Power256(4) && Power256(6) == 0x100 * Power256(5);
    assert Power256(7) == 0x100 * Power256(6) && Power256(8) == 0x100 * Power256(7);
  }

  lemma FitsRead(n: nat, w: nat)
    requires n < Power256(w)
    ensures FromLe(Le(n, w)) == n
  {
    LeReads(n, w);
  }

  /** A field has 32 bits or 64, and a number that fits is read back. */
  lemma NumReads(n: nat)
    requires n < 0x1_0000_0000
    ensures FromLe(Field(Num(n))) == n && |Field(Num(n))| == 4
  {
    Powers();
    FitsRead(n, 4);
  }

  lemma LongReads(n: nat)
    requires n < 0x1_0000_0000_0000_0000
    ensures FromLe(Field(Long(n))) == n && |Field(Long(n))| == 8
  {
    Powers();
    FitsRead(n, 8);
  }

  // ---- one cell ----

  lemma OneChosen(c: Cell, swa: Swa, q: nat)
    requires swa.Valid() && !swa.windowed && c.Used? && c.seqs == {q}
    ensures Chosen([c], swa, Some(q), 0, 1) == [0]
  {
    assert InDump([c], swa, Some(q), 0);
    assert Chosen([c], swa, Some(q), 0, 1) == Chosen([c], swa, Some(q), 0, 0) + [0];
  }

  lemma OneMetaCell(sh: Shape, c: Cell, q: nat)
    requires c.Used? && c.seqs == {q} && q < sh.nSeqMax
    ensures MetaCell(sh, c, Some(q))
         == if sh.is2d then [Num(c.pos), Num(1), Num(c.ext.x), Num(c.ext.y), Num(q)]
            else [Num(c.pos), Num(1), Num(q)]
  {
    OwnersOne(c, q, sh.nSeqMax);
  }

  lemma OneMeta(sh: Shape, c: Cell, q: nat)
    requires c.Used? && c.seqs == {q} && q < sh.nSeqMax
    ensures AllUsed([c], [0])
    ensures Meta(sh, [c], Some(q), [0])
         == if sh.is2d then [Num(c.pos), Num(1), Num(c.ext.x), Num(c.ext.y), Num(q)]
            else [Num(c.pos), Num(1), Num(q)]
  {
    OneMetaCell(sh, c, q);
    assert [0][..0] == [] && Meta(sh, [c], Some(q), []) == [];
    assert Meta(sh, [c], Some(q), [0]) == Meta(sh, [c], Some(q), [0][..0]) + MetaCell(sh, c, Some(q));
  }

  lemma OneKey(sh: Shape, data: seq<LayerData>, k: Bytes)
    requires DataValid(sh, 1, data) && |data| == 1 && data[0].k == [k]
    ensures KItems(sh, 1, data, [0], 1) == [Num(sh.layers[0].kType), Long(sh.layers[0].kSize), Data(k)]
  {
    assert LineItems([k], [0]) == [Data(k)];
    assert KItems(sh, 1, data, [0], 0) == [];
  }

  lemma OneValue(sh: Shape, data: seq<LayerData>, v: Bytes)
    requires DataValid(sh, 1, data) && |data| == 1 && data[0].v == [[v]] && sh.layers[0].hasV && !sh.vTrans
    ensures VItems(sh, 1, data, [0], 1) == [Num(sh.layers[0].vType), Long(sh.layers[0].vSize), Data(v)]
  {
    assert LineItems([v], [0]) == [Data(v)];
    assert LinesItems([[v]], [0], 0) == [] && LinesItems([[v]], [0], 1) == [Data(v)];
    assert VItems(sh, 1, data, [0], 0) == [];
  }

  lemma TwoValues(sh: Shape, data: seq<LayerData>, v: Bytes, w: Bytes)
    requires DataValid(sh, 1, data) && |data| == 1 && data[0].v == [[v], [w]] && sh.layers[0].hasV && sh.vTrans
    ensures VItems(sh, 1, data, [0], 1)
         == [Num(sh.layers[0].vType), Num(sh.layers[0].vSize), Num(sh.layers[0].nV), Data(v), Data(w)]
  {
    var lines := [[v], [w]];
    assert LineItems([v], [0]) == [Data(v)] && LineItems([w], [0]) == [Data(w)];
    assert LinesItems(lines, [0], 0) == [] && LinesItems(lines, [0], 1) == [Data(v)];
    assert LinesItems(lines, [0], 2) == [Data(v), Data(w)];
    assert VItems(sh, 1, data, [0], 0) == [];
  }

  lemma DumpOfOne(sh: Shape, swa: Swa, cells: seq<Cell>, data: seq<LayerData>, q: nat)
    requires DataValid(sh, |cells|, data) && |cells| == 1 && AllUsed(cells, [0])
    requires Chosen(cells, swa, Some(q), 0, 1) == [0] && |data| == 1
    ensures Dump(sh, swa, cells, data, Some(q)) ==
      [Num(1), Num(1)] + Meta(sh, cells, Some(q), [0]) + [Num(if sh.vTrans then 1 else 0), Num(1)]
      + KItems(sh, 1, data, [0], 1) + VItems(sh, 1, data, [0], 1)
  {
    var meta, ks, vs := Meta(sh, cells, Some(q), [0]), KItems(sh, 1, data, [0], 1), VItems(sh, 1, data, [0], 1);
    assert Dump(sh, swa, cells, data, Some(q)) == [Num(1), Num(1)] + (meta + (DataHeader(sh) + ks + vs));
    EndToEnd([Num(1), Num(1)], meta, DataHeader(sh), ks, vs);
  }

  lemma EndToEnd(a: seq<Item>, b: seq<Item>, c: seq<Item>, d: seq<Item>, e: seq<Item>)
    ensures a + (b + (c + d + e)) == a + b + c + d + e
  {
  }

  /** One cell, one layer of keys and plain values: number of streams, number of cells; position, number
      of owners and owner; the layout flag and the number of layers; type, row size and row of the keys,
      and of the values. */
  lemma PlainExample(pos: Pos, q: nat, s: LayerShape, k: Bytes, v: Bytes, swa: Swa)
    requires swa.Valid() && !swa.windowed && s.hasV && |k| == s.kSize && |v| == s.vSize
    ensures var sh, cells, data := Shape([s], false, false, q + 1), [Used(pos, 0, NO_EXT, {q})],
                                   [LayerData([k], [[v]])];
      && DataValid(sh, 1, data)
      && Dump(sh, swa, cells, data, Some(q)) ==
         [Num(1), Num(1)] + [Num(pos), Num(1), Num(q)] + [Num(0), Num(1)]
         + [Num(s.kType), Long(s.kSize), Data(k)] + [Num(s.vType), Long(s.vSize), Data(v)]
  {
    var sh, c, data := Shape([s], false, false, q + 1), Used(pos, 0, NO_EXT, {q}), [LayerData([k], [[v]])];
    assert LayerValid(sh, 1, 0, data[0]);
    OneChosen(c, swa, q);
    OneMeta(sh, c, q);
    OneKey(sh, data, k);
    OneValue(sh, data, v);
    DumpOfOne(sh, swa, [c], data, q);
  }

  /** The same with 2-D positions and transposed values of two dimensions: the coordinates stand before
      the owner, the flag is set, and the element size and the number of dimensions come before the
      elements. */
  lemma TransposedExample(pos: Pos, x: int, y: int, q: nat, s: LayerShape, k: Bytes, v: Bytes, w: Bytes, swa: Swa)
    requires swa.Valid() && !swa.windowed && s.hasV && s.nV == 2 && |k| == s.kSize && |v| == |w| == s.vSize
    ensures var sh, cells, data := Shape([s], true, true, q + 1), [Used(pos, 0, Ext(x, y), {q})],
                                   [LayerData([k], [[v], [w]])];
      && DataValid(sh, 1, data)
      && Dump(sh, swa, cells, data, Some(q)) ==
         [Num(1), Num(1)] + [Num(pos), Num(1), Num(x), Num(y), Num(q)] + [Num(1), Num(1)]
         + [Num(s.kType), Long(s.kSize), Data(k)] + [Num(s.vType), Num(s.vSize), Num(2), Data(v), Data(w)]
  {
    var sh, c, data := Shape([s], true, true, q + 1), Used(pos, 0, Ext(x, y), {q}), [LayerData([k], [[v], [w]])];
    assert LayerValid(sh, 1, 0, data[0]);
    OneChosen(c, swa, q);
    OneMeta(sh, c, q);
    OneKey(sh, data, k);
    TwoValues(sh, data, v, w);
    DumpOfOne(sh, swa, [c], data, q);
  }
}
