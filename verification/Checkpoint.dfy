/** The checkpoint stream: its format, and the loops that write it (`state_write`). One sequence, or
    with `who == None` the whole stream. */
module Checkpoint {
  import opened Wrappers
  import opened KvCells
  import opened SlotSearch
  import opened Rows

  /** The bytes of one cell in one tensor line: a K or V row, or one element of a transposed V. */
  type Bytes = seq<Byte>

  /** What the byte stream is made of: header fields of 32 and of 64 bits, and tensor rows. */
  datatype Item = Num(n: int) | Long(n: int) | Data(row: Bytes)

  /** Per layer: tensor types, row sizes, whether values exist, and (transposed only) how many
      lines of values there are. */
  datatype LayerShape = LayerShape(kType: int, kSize: nat, hasV: bool, vType: int, vSize: nat, nV: nat)

  datatype Shape = Shape(layers: seq<LayerShape>, vTrans: bool, is2d: bool, nSeqMax: nat)
  {
    /** Plain values form one line of rows; transposed values one line of elements per dimension. */
    function Lines(l: nat): nat
      requires l < |layers|
    {
      if vTrans then layers[l].nV else 1
    }
  }

  datatype LayerData = LayerData(k: seq<Bytes>, v: seq<seq<Bytes>>)

  ghost predicate LineValid(line: seq<Bytes>, size: nat, width: nat) {
    |line| == size && forall i :: 0 <= i < |line| ==> |line[i]| == width
  }

  ghost predicate LayerValid(sh: Shape, size: nat, l: nat, d: LayerData)
    requires l < |sh.layers|
  {
    && LineValid(d.k, size, sh.layers[l].kSize)
    && |d.v| == (if sh.layers[l].hasV then sh.Lines(l) else 0)
    && forall j :: 0 <= j < |d.v| ==> LineValid(d.v[j], size, sh.layers[l].vSize)
  }

  ghost predicate DataValid(sh: Shape, size: nat, data: seq<LayerData>) {
    && |data| == |sh.layers|
    && forall l {:trigger LayerValid(sh, size, l, data[l])} :: 0 <= l < |data| ==> LayerValid(sh, size, l, data[l])
  }

  /** The cells a dump takes: occupied, owned by the sequence if one is given, and then not out of
      its window. */
  predicate InDump(cells: seq<Cell>, swa: Swa, who: Option<nat>, i: nat)
    requires i < |cells|
  {
    && cells[i].Used?
    && (who.Some? ==> cells[i].Has(who.value) && !swa.hides(cells[i].pos, SeqPosMax(cells, who.value)))
  }

  /** The dumped cells from a to b, in order. */
  function Chosen(cells: seq<Cell>, swa: Swa, who: Option<nat>, a: nat, b: nat): (r: seq<nat>)
    requires a <= b <= |cells|
    ensures Indices(r, |cells|)
    decreases b - a
  {
    if a == b then []
    else
      var rest := Chosen(cells, swa, who, a, b - 1);
      if InDump(cells, swa, who, b - 1) then rest + [b - 1] else rest
  }

  /** The owners written for a cell, below n. */
  function Owners(c: Cell, who: Option<nat>, n: nat): (r: seq<nat>) {
    if n == 0 then []
    else
      var rest := Owners(c, who, n - 1);
      if (who.None? || who.value == n - 1) && c.Has(n - 1) then rest + [n - 1] else rest
  }

  function Nums(s: seq<nat>): (r: seq<Item>)
    ensures |r| == |s| && forall i :: 0 <= i < |s| ==> r[i] == Num(s[i])
  {
    seq(|s|, i requires 0 <= i < |s| => Num(s[i]))
  }

  function MetaCell(sh: Shape, c: Cell, who: Option<nat>): seq<Item>
    requires c.Used?
  {
    var owners := Owners(c, who, sh.nSeqMax);
    [Num(c.pos), Num(|owners|)] + (if sh.is2d then [Num(c.ext.x), Num(c.ext.y)] else []) + Nums(owners)
  }

  ghost predicate AllUsed(cells: seq<Cell>, idxs: seq<nat>) {
    Indices(idxs, |cells|) && forall k :: 0 <= k < |idxs| ==> cells[idxs[k]].Used?
  }

  function Meta(sh: Shape, cells: seq<Cell>, who: Option<nat>, idxs: seq<nat>): seq<Item>
    requires AllUsed(cells, idxs)
  {
    if idxs == [] then []
    else
      var k := |idxs| - 1;
      Meta(sh, cells, who, idxs[..k]) + MetaCell(sh, cells[idxs[k]], who)
  }

  /** The rows of one tensor line, cell by cell. */
  function LineItems(line: seq<Bytes>, idxs: seq<nat>): (r: seq<Item>)
    requires Indices(idxs, |line|)
    ensures |r| == |idxs| && forall k :: 0 <= k < |idxs| ==> r[k] == Data(line[idxs[k]])
  {
    seq(|idxs|, k requires 0 <= k < |idxs| && Indices(idxs, |line|) => Data(line[idxs[k]]))
  }

  ghost predicate LinesFit(lines: seq<seq<Bytes>>, idxs: seq<nat>) {
    forall j :: 0 <= j < |lines| ==> Indices(idxs, |lines[j]|)
  }

  /** The first n lines of a tensor. */
  function LinesItems(lines: seq<seq<Bytes>>, idxs: seq<nat>, n: nat): seq<Item>
    requires LinesFit(lines, idxs) && n <= |lines|
  {
    if n == 0 then [] else LinesItems(lines, idxs, n - 1) + LineItems(lines[n - 1], idxs)
  }

  function KHeader(s: LayerShape): seq<Item> { [Num(s.kType), Long(s.kSize)] }

  /** The size of a row is a 64-bit field, that of one element a 32-bit one. */
  function VSize(sh: Shape, s: LayerShape): Item { if sh.vTrans then Num(s.vSize) else Long(s.vSize) }

  function VHeader(sh: Shape, s: LayerShape): seq<Item> {
    [Num(s.vType), VSize(sh, s)] + (if sh.vTrans then [Num(s.nV)] else [])
  }

  /** The keys of the first l layers. */
  function KItems(sh: Shape, size: nat, data: seq<LayerData>, idxs: seq<nat>, l: nat): seq<Item>
    requires DataValid(sh, size, data) && Indices(idxs, size) && l <= |data|
  {
    if l == 0 then []
    else
      assert LayerValid(sh, size, l - 1, data[l - 1]);
      KItems(sh, size, data, idxs, l - 1) + KHeader(sh.layers[l - 1]) + LineItems(data[l - 1].k, idxs)
  }

  /** The values of the first l layers; a layer without values leaves no trace. */
  function VItems(sh: Shape, size: nat, data: seq<LayerData>, idxs: seq<nat>, l: nat): seq<Item>
    requires DataValid(sh, size, data) && Indices(idxs, size) && l <= |data|
  {
    if l == 0 then []
    else
      assert LayerValid(sh, size, l - 1, data[l - 1]);
      var rest := VItems(sh, size, data, idxs, l - 1);
      if !sh.layers[l - 1].hasV then rest
      else rest + VHeader(sh, sh.layers[l - 1]) + LinesItems(data[l - 1].v, idxs, |data[l - 1].v|)
  }

  function DataHeader(sh: Shape): seq<Item> {
    [Num(if sh.vTrans then 1 else 0), Num(|sh.layers|)]
  }

  function Tensors(sh: Shape, size: nat, data: seq<LayerData>, idxs: seq<nat>): seq<Item>
    requires DataValid(sh, size, data) && Indices(idxs, size)
  {
    DataHeader(sh) + KItems(sh, size, data, idxs, |data|) + VItems(sh, size, data, idxs, |data|)
  }

  /** The checkpoint of a single-stream cache: stream count, cell count, and unless there are no
      cells the metadata, the keys and the values. */
  function Dump(sh: Shape, swa: Swa, cells: seq<Cell>, data: seq<LayerData>, who: Option<nat>): seq<Item>
    requires DataValid(sh, |cells|, data)
  {
    var idxs := Chosen(cells, swa, who, 0, |cells|);
    ChosenUsed(cells, swa, who, 0, |cells|);
    [Num(1), Num(|idxs|)] +
    if idxs == [] then []
    else Meta(sh, cells, who, idxs) + Tensors(sh, |cells|, data, idxs)
  }

  lemma {:induction false} ChosenUsed(cells: seq<Cell>, swa: Swa, who: Option<nat>, a: nat, b: nat)
    requires a <= b <= |cells|
    ensures AllUsed(cells, Chosen(cells, swa, who, a, b))
    ensures forall k :: 0 <= k < |Chosen(cells, swa, who, a, b)| ==>
      a <= Chosen(cells, swa, who, a, b)[k] < b && InDump(cells, swa, who, Chosen(cells, swa, who, a, b)[k])
    decreases b - a
  {
    if a < b {
      ChosenUsed(cells, swa, who, a, b - 1);
    }
  }

  /** A half-open range of cells. */
  datatype Range = Range(lo: nat, hi: nat)

  function Span(a: nat, b: nat): (r: seq<nat>)
    requires a <= b
    ensures |r| == b - a && forall k :: 0 <= k < |r| ==> r[k] == a + k
  {
    seq(b - a, (k: nat) => a + k)
  }

  /** The cells of a list of ranges. */
  function Expand(rs: seq<Range>): seq<nat>
    requires forall k :: 0 <= k < |rs| ==> rs[k].lo < rs[k].hi
  {
    if rs == [] then [] else Expand(rs[..|rs| - 1]) + Span(rs[|rs| - 1].lo, rs[|rs| - 1].hi)
  }

  ghost predicate RangesValid(rs: seq<Range>, size: nat) {
    forall k :: 0 <= k < |rs| ==> rs[k].lo < rs[k].hi <= size
  }

  /** The range that is still open when the scan stands at i. */
  function Open(begin: nat, i: nat): (r: seq<nat>)
    ensures begin <= i ==> r == Span(begin, i)
  {
    if begin <= i then Span(begin, i) else []
  }

  /** After i cells: the closed ranges and the open one hold exactly the dumped cells so far. */
  ghost predicate Scanned(cells: seq<Cell>, swa: Swa, who: Option<nat>, rs: seq<Range>, begin: nat, i: nat)
    requires i <= |cells|
  {
    && RangesValid(rs, i) && (begin == |cells| || begin < i)
    && Expand(rs) + Open(begin, i) == Chosen(cells, swa, who, 0, i)
  }

  lemma ScanHit(cells: seq<Cell>, swa: Swa, who: Option<nat>, rs: seq<Range>, begin: nat, i: nat)
    requires i < |cells| && Scanned(cells, swa, who, rs, begin, i) && InDump(cells, swa, who, i)
    ensures Scanned(cells, swa, who, rs, if begin == |cells| then i else begin, i + 1)
  {
    var begin' := if begin == |cells| then i else begin;
    assert Open(begin', i + 1) == Open(begin, i) + [i];
    assert Expand(rs) + Open(begin', i + 1) == (Expand(rs) + Open(begin, i)) + [i];
  }

  lemma ExpandMore(rs: seq<Range>, r: Range)
    requires r.lo < r.hi && forall k :: 0 <= k < |rs| ==> rs[k].lo < rs[k].hi
    ensures Expand(rs + [r]) == Expand(rs) + Span(r.lo, r.hi)
  {
    assert (rs + [r])[..|rs|] == rs;
  }

  lemma ChosenMiss(cells: seq<Cell>, swa: Swa, who: Option<nat>, i: nat)
    requires i < |cells| && !InDump(cells, swa, who, i)
    ensures Chosen(cells, swa, who, 0, i + 1) == Chosen(cells, swa, who, 0, i)
  {
  }

  lemma ScanMiss(cells: seq<Cell>, swa: Swa, who: Option<nat>, rs: seq<Range>, begin: nat, i: nat)
    requires i < |cells| && Scanned(cells, swa, who, rs, begin, i) && !InDump(cells, swa, who, i)
    ensures Scanned(cells, swa, who, if begin != |cells| then rs + [Range(begin, i)] else rs, |cells|, i + 1)
  {
    ChosenMiss(cells, swa, who, i);
    var open := Open(begin, i);
    assert Open(|cells|, i + 1) == [];
    if begin != |cells| {
      ExpandMore(rs, Range(begin, i));
      assert Expand(rs + [Range(begin, i)]) == Expand(rs) + open;
    } else {
      assert open == [];
    }
  }

  lemma ScanEnd(cells: seq<Cell>, swa: Swa, who: Option<nat>, rs: seq<Range>, begin: nat)
    requires Scanned(cells, swa, who, rs, begin, |cells|)
    ensures var rs' := if begin != |cells| then rs + [Range(begin, |cells|)] else rs;
      RangesValid(rs', |cells|) && Expand(rs') == Chosen(cells, swa, who, 0, |cells|)
  {
    if begin != |cells| {
      ExpandMore(rs, Range(begin, |cells|));
    }
  }

  /** The scan of `state_write`: the ranges of dumped cells, and how many cells they hold. */
  method FindRanges(cells: seq<Cell>, swa: Swa, who: Option<nat>) returns (rs: seq<Range>, count: nat)
    ensures RangesValid(rs, |cells|) && Expand(rs) == Chosen(cells, swa, who, 0, |cells|) && count == |Expand(rs)|
  {
    rs, count := [], 0;
    var begin: nat := |cells|;
    for i := 0 to |cells|
      invariant Scanned(cells, swa, who, rs, begin, i)
      invariant count == |Chosen(cells, swa, who, 0, i)|
    {
      if InDump(cells, swa, who, i) {
        ScanHit(cells, swa, who, rs, begin, i);
        count := count + 1;
        if begin == |cells| {
          begin := i;
        }
      } else {
        ScanMiss(cells, swa, who, rs, begin, i);
        if begin != |cells| {
          rs := rs + [Range(begin, i)];
          begin := |cells|;
        }
      }
    }
    ScanEnd(cells, swa, who, rs, begin);
    if begin != |cells| {
      rs := rs + [Range(begin, |cells|)];
    }
  }

  /** The owner loop of `state_write_meta`. */
  method ListOwners(c: Cell, who: Option<nat>, nSeqMax: nat) returns (r: seq<nat>)
    ensures r == Owners(c, who, nSeqMax)
  {
    r := [];
    for cur := 0 to nSeqMax
      invariant r == Owners(c, who, cur)
    {
      if who.None? || cur == who.value {
        if c.Has(cur) {
          r := r + [cur];
        }
      }
    }
  }

  method WriteCell(sh: Shape, c: Cell, who: Option<nat>) returns (out: seq<Item>)
    requires c.Used?
    ensures out == MetaCell(sh, c, who)
  {
    var owners := ListOwners(c, who, sh.nSeqMax);
    out := [Num(c.pos), Num(|owners|)];
    if sh.is2d {
      out := out + [Num(c.ext.x), Num(c.ext.y)];
    }
    out := out + Nums(owners);
  }

  lemma MetaStep(sh: Shape, cells: seq<Cell>, who: Option<nat>, done: seq<nat>, lo: nat, i: nat)
    requires lo <= i < |cells| && AllUsed(cells, done + Span(lo, i)) && cells[i].Used?
    ensures AllUsed(cells, done + Span(lo, i + 1))
    ensures Meta(sh, cells, who, done + Span(lo, i + 1))
        == Meta(sh, cells, who, done + Span(lo, i)) + MetaCell(sh, cells[i], who)
  {
    var more := done + Span(lo, i + 1);
    assert more[..|more| - 1] == done + Span(lo, i);
    assert more == done + Span(lo, i) + [i];
  }

  /** The cells of the first ranges are cells of all of them. */
  lemma {:induction false} ExpandPrefix(rs: seq<Range>, r: nat, size: nat)
    requires RangesValid(rs, size) && r < |rs|
    ensures RangesValid(rs[..r], size)
    ensures Expand(rs[..r]) + Span(rs[r].lo, rs[r].hi) == Expand(rs[..r + 1]) <= Expand(rs)
    decreases |rs|
  {
    assert rs[..r + 1][..r] == rs[..r];
    if r + 1 == |rs| {
      assert rs[..r + 1] == rs;
    } else {
      var init := rs[..|rs| - 1];
      assert init[..r + 1] == rs[..r + 1] && init[..r] == rs[..r];
      ExpandPrefix(init, r, size);
    }
  }

  /** `state_write_meta`: range by range, cell by cell. */
  method WriteMeta(sh: Shape, cells: seq<Cell>, who: Option<nat>, rs: seq<Range>) returns (out: seq<Item>)
    requires RangesValid(rs, |cells|) && AllUsed(cells, Expand(rs))
    ensures out == Meta(sh, cells, who, Expand(rs))
  {
    out := [];
    for r := 0 to |rs|
      invariant RangesValid(rs[..r], |cells|)
      invariant AllUsed(cells, Expand(rs[..r])) && out == Meta(sh, cells, who, Expand(rs[..r]))
    {
      ExpandPrefix(rs, r, |cells|);
      ghost var done := Expand(rs[..r]);
      assert done + Span(rs[r].lo, rs[r].lo) == done;
      for i := rs[r].lo to rs[r].hi
        invariant AllUsed(cells, done + Span(rs[r].lo, i)) && out == Meta(sh, cells, who, done + Span(rs[r].lo, i))
      {
        assert Expand(rs)[|done| + (i - rs[r].lo)] == i;
        MetaStep(sh, cells, who, done, rs[r].lo, i);
        var cell := WriteCell(sh, cells[i], who);
        out := out + cell;
      }
    }
    assert rs[..|rs|] == rs;
  }

  /** One tensor line, one write per range. */
  method WriteLine(line: seq<Bytes>, rs: seq<Range>) returns (out: seq<Item>)
    requires RangesValid(rs, |line|) && Indices(Expand(rs), |line|)
    ensures out == LineItems(line, Expand(rs))
  {
    out := [];
    for r := 0 to |rs|
      invariant RangesValid(rs[..r], |line|)
      invariant Indices(Expand(rs[..r]), |line|) && out == LineItems(line, Expand(rs[..r]))
    {
      ExpandPrefix(rs, r, |line|);
      var block := line[rs[r].lo..rs[r].hi];
      out := out + seq(|block|, k requires 0 <= k < |block| => Data(block[k]));
    }
    assert rs[..|rs|] == rs;
  }

  method WriteKeys(sh: Shape, size: nat, data: seq<LayerData>, rs: seq<Range>) returns (out: seq<Item>)
    requires DataValid(sh, size, data) && RangesValid(rs, size) && Indices(Expand(rs), size)
    ensures out == KItems(sh, size, data, Expand(rs), |data|)
  {
    out := [];
    for l := 0 to |data|
      invariant out == KItems(sh, size, data, Expand(rs), l)
    {
      assert LayerValid(sh, size, l, data[l]);
      var rows := WriteLine(data[l].k, rs);
      out := out + KHeader(sh.layers[l]) + rows;
    }
  }

  method WriteValues(sh: Shape, size: nat, data: seq<LayerData>, rs: seq<Range>) returns (out: seq<Item>)
    requires DataValid(sh, size, data) && RangesValid(rs, size) && Indices(Expand(rs), size)
    ensures out == VItems(sh, size, data, Expand(rs), |data|)
  {
    out := [];
    for l := 0 to |data|
      invariant out == VItems(sh, size, data, Expand(rs), l)
    {
      if !sh.layers[l].hasV {
        continue;
      }
      assert LayerValid(sh, size, l, data[l]);
      var lines := WriteLines(data[l].v, rs, size);
      out := out + VHeader(sh, sh.layers[l]) + lines;
    }
  }

  /** The tensor section (`state_write_data`): all keys, then all values. */
  method WriteData(sh: Shape, size: nat, data: seq<LayerData>, rs: seq<Range>) returns (out: seq<Item>)
    requires DataValid(sh, size, data) && RangesValid(rs, size) && Indices(Expand(rs), size)
    ensures out == Tensors(sh, size, data, Expand(rs))
  {
    var keys := WriteKeys(sh, size, data, rs);
    var values := WriteValues(sh, size, data, rs);
    out := DataHeader(sh) + keys + values;
  }

  method WriteLines(lines: seq<seq<Bytes>>, rs: seq<Range>, size: nat) returns (out: seq<Item>)
    requires RangesValid(rs, size) && Indices(Expand(rs), size) && forall j :: 0 <= j < |lines| ==> |lines[j]| == size
    ensures out == LinesItems(lines, Expand(rs), |lines|)
  {
    out := [];
    for j := 0 to |lines|
      invariant out == LinesItems(lines, Expand(rs), j)
    {
      var rows := WriteLine(lines[j], rs);
      out := out + rows;
    }
  }

  /** `state_write` on a single-stream cache. */
  method StateWrite(sh: Shape, swa: Swa, cells: seq<Cell>, data: seq<LayerData>,
      who: Option<nat>) returns (out: seq<Item>)
    requires DataValid(sh, |cells|, data)
    ensures out == Dump(sh, swa, cells, data, who)
  {
    var rs, count := FindRanges(cells, swa, who);
    ChosenUsed(cells, swa, who, 0, |cells|);
    out := [Num(1), Num(count)];
    if count == 0 {
      return;
    }
    var meta := WriteMeta(sh, cells, who, rs);
    var tensors := WriteData(sh, |cells|, data, rs);
    out := out + (meta + tensors);
  }
}
