/** The checkpoint in bytes: the calls `state_write` makes, range by range, put exactly the encoded
    stream into the buffer. */
module CheckpointBytes {
  import opened Wrappers
  import opened KvCells
  import opened SlotSearch
  import opened Rows
  import opened Checkpoint
  import opened HostIo

  /** The low w bytes of n, lowest first; negative numbers in two's complement. */
  function Le(n: int, w: nat): (r: Bytes)
    ensures |r| == w
    decreases w
  {
    if w == 0 then [] else [(n % 0x100) as Byte] + Le(n / 0x100, w - 1)
  }

  /** Header fields of 32 and of 64 bits. */
  function Field(item: Item): Bytes {
    match item
    case Num(n) => Le(n, 4)
    case Long(n) => Le(n, 8)
    case Data(row) => row
  }

  /** An item in bytes, under any layout f of the header fields. */
  function Code(item: Item, f: Item -> Bytes): Bytes {
    if item.Data? then item.row else f(item)
  }

  function Codes(items: seq<Item>, f: Item -> Bytes): (r: seq<Bytes>)
    ensures |r| == |items| && forall k :: 0 <= k < |items| ==> r[k] == Code(items[k], f)
  {
    seq(|items|, k requires 0 <= k < |items| => Code(items[k], f))
  }

  function Coded(items: seq<Item>, f: Item -> Bytes): Bytes {
    Concat(Codes(items, f), |items|)
  }

  lemma Regroup<T>(a: seq<T>, b: seq<T>, c: seq<T>)
    ensures (a + b) + c == a + (b + c)
  {
  }

  lemma {:induction false} ConcatPrefix(all: seq<Bytes>, a: seq<Bytes>, n: nat)
    requires n <= |a| && a <= all
    ensures Concat(all, n) == Concat(a, n)
  {
    if n > 0 {
      ConcatPrefix(all, a, n - 1);
    }
  }

  lemma {:induction false} ConcatAppend(all: seq<Bytes>, a: seq<Bytes>, b: seq<Bytes>, n: nat)
    requires n <= |b| && all == a + b
    ensures Concat(all, |a| + n) == Concat(a, |a|) + Concat(b, n)
  {
    if n == 0 {
      ConcatPrefix(all, a, |a|);
    } else {
      ConcatAppend(all, a, b, n - 1);
      assert all[|a| + n - 1] == b[n - 1];
      Regroup(Concat(a, |a|), Concat(b, n - 1), b[n - 1]);
    }
  }

  lemma CodesBoth(a: seq<Item>, b: seq<Item>, f: Item -> Bytes)
    ensures Codes(a + b, f) == Codes(a, f) + Codes(b, f)
  {
    var x, y := Codes(a + b, f), Codes(a, f) + Codes(b, f);
    forall k | 0 <= k < |x|
      ensures x[k] == y[k]
    {
      assert x[k] == Code((a + b)[k], f);
      assert y[k] == if k < |a| then Codes(a, f)[k] else Codes(b, f)[k - |a|];
    }
  }

  lemma CodedAppend(a: seq<Item>, b: seq<Item>, f: Item -> Bytes)
    ensures Coded(a + b, f) == Coded(a, f) + Coded(b, f)
  {
    CodesBoth(a, b, f);
    ConcatAppend(Codes(a + b, f), Codes(a, f), Codes(b, f), |b|);
  }

  // ---- calls and what they stand for ----

  /** One call, and the items it puts into the stream. */
  datatype Say = Say(op: Op, items: seq<Item>)

  ghost predicate Honest(say: Say, mem: Memory, f: Item -> Bytes) {
    InMemory(say.op, mem) && Piece(say.op, mem) == Coded(say.items, f)
  }

  ghost predicate AllHonest(says: seq<Say>, mem: Memory, f: Item -> Bytes) {
    forall k {:trigger Honest(says[k], mem, f)} :: 0 <= k < |says| ==> Honest(says[k], mem, f)
  }

  function Ops(says: seq<Say>): (r: seq<Op>)
    ensures |r| == |says| && forall k :: 0 <= k < |says| ==> r[k] == says[k].op
  {
    seq(|says|, k requires 0 <= k < |says| => says[k].op)
  }

  /** What the first n calls stand for. */
  function SaidBy(says: seq<Say>, n: nat): seq<Item>
    requires n <= |says|
  {
    if n == 0 then [] else SaidBy(says, n - 1) + says[n - 1].items
  }

  function Said(says: seq<Say>): seq<Item> {
    SaidBy(says, |says|)
  }

  lemma {:induction false} SaidPrefix(a: seq<Say>, b: seq<Say>, n: nat)
    requires n <= |a|
    ensures SaidBy(a + b, n) == SaidBy(a, n)
  {
    if n > 0 {
      SaidPrefix(a, b, n - 1);
    }
  }

  lemma {:induction false} SaidAppend(a: seq<Say>, b: seq<Say>, n: nat)
    requires n <= |b|
    ensures SaidBy(a + b, |a| + n) == Said(a) + SaidBy(b, n)
  {
    if n == 0 {
      SaidPrefix(a, b, |a|);
    } else {
      SaidAppend(a, b, n - 1);
      assert (a + b)[|a| + n - 1] == b[n - 1];
      Regroup(Said(a), SaidBy(b, n - 1), b[n - 1].items);
    }
  }

  lemma SaidBoth(a: seq<Say>, b: seq<Say>)
    ensures Said(a + b) == Said(a) + Said(b)
  {
    SaidAppend(a, b, |b|);
  }

  lemma HonestBoth(a: seq<Say>, b: seq<Say>, mem: Memory, f: Item -> Bytes)
    requires AllHonest(a, mem, f) && AllHonest(b, mem, f)
    ensures AllHonest(a + b, mem, f)
  {
    forall k {:trigger Honest((a + b)[k], mem, f)} | 0 <= k < |a + b|
      ensures Honest((a + b)[k], mem, f)
    {
      if k < |a| { assert Honest(a[k], mem, f); } else { assert Honest(b[k - |a|], mem, f); }
    }
  }

  /** Each string is the encoding of what its call stands for. */
  ghost predicate AllMatch(ps: seq<Bytes>, says: seq<Say>, f: Item -> Bytes) {
    |ps| == |says| && forall k: nat {:trigger Matches(ps, says, k, f)} :: k < |says| ==> Matches(ps, says, k, f)
  }

  ghost predicate Matches(ps: seq<Bytes>, says: seq<Say>, k: nat, f: Item -> Bytes)
    requires |ps| == |says|
  {
    k < |says| && ps[k] == Coded(says[k].items, f)
  }

  lemma CodedMore(before: seq<Item>, more: seq<Item>, all: seq<Item>, x: Bytes, y: Bytes, f: Item -> Bytes)
    requires all == before + more && x == Coded(before, f) && y == Coded(more, f)
    ensures Coded(all, f) == x + y
  {
    CodedAppend(before, more, f);
  }

  lemma {:induction false} ConcatSaid(says: seq<Say>, ps: seq<Bytes>, n: nat, f: Item -> Bytes)
    requires n <= |says| && AllMatch(ps, says, f)
    ensures Concat(ps, n) == Coded(SaidBy(says, n), f)
  {
    if n > 0 {
      ConcatSaid(says, ps, n - 1, f);
      assert Matches(ps, says, n - 1, f);
      CodedMore(SaidBy(says, n - 1), says[n - 1].items, SaidBy(says, n), Concat(ps, n - 1), ps[n - 1], f);
    } else {
      assert Codes([], f) == [];
    }
  }

  /** Honest calls leave the encoding of what they stand for. */
  lemma StreamSaid(says: seq<Say>, mem: Memory, f: Item -> Bytes)
    requires AllHonest(says, mem, f)
    ensures AllInMemory(Ops(says), mem) && Stream(Ops(says), mem) == Coded(Said(says), f)
  {
    var ops := Ops(says);
    forall k {:trigger InMemory(ops[k], mem)} | 0 <= k < |ops|
      ensures InMemory(ops[k], mem)
    {
      assert Honest(says[k], mem, f);
    }
    var ps := Pieces(ops, mem);
    forall k: nat {:trigger Matches(ps, says, k, f)} | k < |says|
      ensures Matches(ps, says, k, f)
    {
      assert Honest(says[k], mem, f);
    }
    ConcatSaid(says, ps, |says|, f);
  }

  /** Header fields are written at once. */
  function Plains(items: seq<Item>, f: Item -> Bytes): (r: seq<Say>)
    ensures |r| == |items|
  {
    seq(|items|, k requires 0 <= k < |items| => Say(Plain(Code(items[k], f)), [items[k]]))
  }

  lemma CodedOne(item: Item, f: Item -> Bytes)
    ensures Coded([item], f) == Code(item, f)
  {
    var ps := Codes([item], f);
    assert Concat(ps, 1) == Concat(ps, 0) + ps[0];
  }

  lemma PlainsHonest(items: seq<Item>, mem: Memory, f: Item -> Bytes)
    ensures AllHonest(Plains(items, f), mem, f)
  {
    forall k {:trigger Honest(Plains(items, f)[k], mem, f)} | 0 <= k < |items|
      ensures Honest(Plains(items, f)[k], mem, f)
    {
      CodedOne(items[k], f);
    }
  }

  lemma {:induction false} PlainsSaidBy(items: seq<Item>, n: nat, f: Item -> Bytes)
    requires n <= |items|
    ensures SaidBy(Plains(items, f), n) == items[..n]
  {
    if n > 0 {
      PlainsSaidBy(items, n - 1, f);
      assert items[..n] == items[..n - 1] + [items[n - 1]];
    }
  }

  lemma PlainsSaid(items: seq<Item>, f: Item -> Bytes)
    ensures Said(Plains(items, f)) == items
  {
    PlainsSaidBy(items, |items|, f);
    assert items[..|items|] == items;
  }

  // ---- tensors as bytes ----

  function Datas(rows: seq<Bytes>): (r: seq<Item>)
    ensures |r| == |rows| && forall k :: 0 <= k < |rows| ==> r[k] == Data(rows[k])
  {
    seq(|rows|, k requires 0 <= k < |rows| => Data(rows[k]))
  }

  /** A line: its rows end to end. */
  function Flat(rows: seq<Bytes>): Bytes {
    Concat(rows, |rows|)
  }

  lemma FlatIsCoded(rows: seq<Bytes>, f: Item -> Bytes)
    ensures Coded(Datas(rows), f) == Flat(rows)
  {
    assert Codes(Datas(rows), f) == rows;
  }

  lemma FlatAppend(a: seq<Bytes>, b: seq<Bytes>)
    ensures Flat(a + b) == Flat(a) + Flat(b)
  {
    ConcatAppend(a + b, a, b, |b|);
  }

  lemma {:induction false} EvenOffset(ps: seq<Bytes>, w: nat, n: nat)
    requires n <= |ps| && forall k :: 0 <= k < |ps| ==> |ps[k]| == w
    ensures Offset(ps, n) == Row(w, n)
  {
    if n > 0 {
      EvenOffset(ps, w, n - 1);
    }
  }

  lemma FlatSize(rows: seq<Bytes>, w: nat)
    requires forall k :: 0 <= k < |rows| ==> |rows[k]| == w
    ensures |Flat(rows)| == Row(w, |rows|)
  {
    EvenOffset(rows, w, |rows|);
  }

  /** A stretch of rows stands in its line where their size says. */
  lemma RowsInLine(line: seq<Bytes>, w: nat, lo: nat, hi: nat)
    requires lo <= hi <= |line| && forall k :: 0 <= k < |line| ==> |line[k]| == w
    ensures Stands(Flat(line), Row(w, lo), Flat(line[lo..hi]))
  {
    var a, b, c := line[..lo], line[lo..hi], line[hi..];
    assert line == (a + b) + c;
    FlatAppend(a + b, c);
    FlatAppend(a, b);
    FlatSize(a, w);
    LastStands(Flat(a), Flat(b), Flat(a + b));
    StandsInLonger(Flat(a + b), Flat(line), Row(w, lo), Flat(b));
  }

  /** A tensor: its first n lines end to end. */
  function Lined(lines: seq<seq<Bytes>>, n: nat): Bytes
    requires n <= |lines|
  {
    if n == 0 then [] else Lined(lines, n - 1) + Flat(lines[n - 1])
  }

  lemma {:induction false} LinesInTensor(lines: seq<seq<Bytes>>, w: nat, n: nat, j: nat)
    requires j < n <= |lines| && forall i :: 0 <= i < |lines| ==> |Flat(lines[i])| == w
    ensures |Lined(lines, n)| == Row(w, n)
    ensures Stands(Lined(lines, n), Row(w, j), Flat(lines[j]))
  {
    var before := Lined(lines, n - 1);
    if n > 1 {
      LinesInTensor(lines, w, n - 1, if j < n - 1 then j else 0);
    }
    LastStands(before, Flat(lines[n - 1]), Lined(lines, n));
    if j < n - 1 {
      StandsInLonger(before, Lined(lines, n), Row(w, j), Flat(lines[j]));
    }
  }

  lemma StandsWithin(x: Bytes, a: nat, y: Bytes, b: nat, z: Bytes)
    requires Stands(x, a, y) && Stands(y, b, z)
    ensures Stands(x, a + b, z)
  {
    forall i | 0 <= i < |z|
      ensures x[a + b + i] == z[i]
    {
      assert x[a..a + |y|][b + i] == x[a + (b + i)] && y[b..b + |z|][i] == y[b + i];
    }
  }

  // ---- the calls ----

  ghost predicate Rising(rs: seq<Range>) {
    forall k :: 0 <= k < |rs| ==> rs[k].lo < rs[k].hi
  }

  /** The call for one range of a line of w-wide rows, which begins at base of tensor t. */
  function RangeSays(t: nat, base: nat, w: nat, line: seq<Bytes>, r: Range): Say
    requires r.lo < r.hi <= |line|
  {
    Say(Tensor(t, base + Row(w, r.lo), Row(w, r.hi - r.lo)), Datas(line[r.lo..r.hi]))
  }

  lemma RangeHonest(t: nat, base: nat, w: nat, line: seq<Bytes>, r: Range, mem: Memory, f: Item -> Bytes)
    requires t < |mem| && Stands(mem[t], base, Flat(line)) && LineValid(line, |line|, w) && r.lo < r.hi <= |line|
    ensures Honest(RangeSays(t, base, w, line, r), mem, f)
  {
    var rows := line[r.lo..r.hi];
    RowsInLine(line, w, r.lo, r.hi);
    FlatSize(rows, w);
    FlatIsCoded(rows, f);
    StandsWithin(mem[t], base, Flat(line), Row(w, r.lo), Flat(rows));
  }

  /** One call per range. */
  function LineSays(t: nat, base: nat, w: nat, line: seq<Bytes>, rs: seq<Range>): (r: seq<Say>)
    requires RangesValid(rs, |line|)
    ensures |r| == |rs| && forall k :: 0 <= k < |rs| ==> r[k] == RangeSays(t, base, w, line, rs[k])
  {
    seq(|rs|, k requires 0 <= k < |rs| && RangesValid(rs, |line|) => RangeSays(t, base, w, line, rs[k]))
  }

  lemma LineHonest(t: nat, base: nat, w: nat, line: seq<Bytes>, rs: seq<Range>, mem: Memory, f: Item -> Bytes)
    requires t < |mem| && Stands(mem[t], base, Flat(line)) && LineValid(line, |line|, w) && RangesValid(rs, |line|)
    ensures AllHonest(LineSays(t, base, w, line, rs), mem, f)
  {
    var says := LineSays(t, base, w, line, rs);
    forall k {:trigger Honest(says[k], mem, f)} | 0 <= k < |says|
      ensures Honest(says[k], mem, f)
    {
      RangeHonest(t, base, w, line, rs[k], mem, f);
    }
  }

  lemma InRange(rs: seq<Range>, size: nat)
    requires RangesValid(rs, size)
    ensures Indices(Expand(rs), size)
  {
    if rs != [] {
      InRange(rs[..|rs| - 1], size);
    }
  }

  lemma LineItemsMore(line: seq<Bytes>, rs: seq<Range>, n: nat)
    requires RangesValid(rs, |line|) && n < |rs|
    ensures Indices(Expand(rs[..n]), |line|) && Indices(Expand(rs[..n + 1]), |line|)
    ensures LineItems(line, Expand(rs[..n + 1]))
         == LineItems(line, Expand(rs[..n])) + Datas(line[rs[n].lo..rs[n].hi])
  {
    InRange(rs[..n], |line|);
    InRange(rs[..n + 1], |line|);
    assert rs[..n + 1][..n] == rs[..n];
    assert Expand(rs[..n + 1]) == Expand(rs[..n]) + Span(rs[n].lo, rs[n].hi);
  }

  lemma {:induction false} LineSaidBy(t: nat, base: nat, w: nat, line: seq<Bytes>, rs: seq<Range>, n: nat)
    requires RangesValid(rs, |line|) && n <= |rs|
    ensures Indices(Expand(rs[..n]), |line|)
    ensures SaidBy(LineSays(t, base, w, line, rs), n) == LineItems(line, Expand(rs[..n]))
  {
    if n > 0 {
      LineSaidBy(t, base, w, line, rs, n - 1);
      LineItemsMore(line, rs, n - 1);
    }
  }

  lemma LineSaid(t: nat, base: nat, w: nat, line: seq<Bytes>, rs: seq<Range>)
    requires RangesValid(rs, |line|)
    ensures Indices(Expand(rs), |line|) && Said(LineSays(t, base, w, line, rs)) == LineItems(line, Expand(rs))
  {
    LineSaidBy(t, base, w, line, rs, |rs|);
    assert rs[..|rs|] == rs;
  }

  ghost predicate LinesSized(lines: seq<seq<Bytes>>, size: nat, w: nat) {
    forall j :: 0 <= j < |lines| ==> LineValid(lines[j], size, w)
  }

  /** The calls for the first n lines of tensor t, each of `size` rows. */
  function LinesSay(t: nat, w: nat, size: nat, lines: seq<seq<Bytes>>, rs: seq<Range>, n: nat): seq<Say>
    requires n <= |lines| && RangesValid(rs, size) && LinesSized(lines, size, w)
  {
    if n == 0 then []
    else LinesSay(t, w, size, lines, rs, n - 1) + LineSays(t, Row(Row(w, size), n - 1), w, lines[n - 1], rs)
  }

  lemma LineInTensor(lines: seq<seq<Bytes>>, size: nat, w: nat, j: nat)
    requires j < |lines| && LinesSized(lines, size, w)
    ensures Stands(Lined(lines, |lines|), Row(Row(w, size), j), Flat(lines[j]))
  {
    forall i | 0 <= i < |lines|
      ensures |Flat(lines[i])| == Row(w, size)
    {
      FlatSize(lines[i], w);
    }
    LinesInTensor(lines, Row(w, size), |lines|, j);
  }

  lemma {:induction false} LinesHonest(t: nat, w: nat, size: nat, lines: seq<seq<Bytes>>, rs: seq<Range>, n: nat,
                                       mem: Memory, f: Item -> Bytes)
    requires t < |mem| && mem[t] == Lined(lines, |lines|) && n <= |lines|
    requires RangesValid(rs, size) && LinesSized(lines, size, w)
    ensures AllHonest(LinesSay(t, w, size, lines, rs, n), mem, f)
  {
    if n > 0 {
      LinesHonest(t, w, size, lines, rs, n - 1, mem, f);
      LineInTensor(lines, size, w, n - 1);
      LineHonest(t, Row(Row(w, size), n - 1), w, lines[n - 1], rs, mem, f);
      HonestBoth(LinesSay(t, w, size, lines, rs, n - 1),
                 LineSays(t, Row(Row(w, size), n - 1), w, lines[n - 1], rs), mem, f);
    }
  }

  lemma {:induction false} LinesSaid(t: nat, w: nat, size: nat, lines: seq<seq<Bytes>>, rs: seq<Range>, n: nat)
    requires n <= |lines| && RangesValid(rs, size) && LinesSized(lines, size, w)
    ensures LinesFit(lines, Expand(rs))
    ensures Said(LinesSay(t, w, size, lines, rs, n)) == LinesItems(lines, Expand(rs), n)
  {
    InRange(rs, size);
    if n > 0 {
      LinesSaid(t, w, size, lines, rs, n - 1);
      var before, says := LinesSay(t, w, size, lines, rs, n - 1),
                          LineSays(t, Row(Row(w, size), n - 1), w, lines[n - 1], rs);
      LineSaid(t, Row(Row(w, size), n - 1), w, lines[n - 1], rs);
      SaidBoth(before, says);
    }
  }

  /** The tensors of a cache: the keys of every layer, then the values of every layer. */
  function Tensorial(data: seq<LayerData>): (r: Memory)
    ensures |r| == 2 * |data|
  {
    seq(|data|, l requires 0 <= l < |data| => Flat(data[l].k))
    + seq(|data|, l requires 0 <= l < |data| => Lined(data[l].v, |data[l].v|))
  }

  /** These are the tensors. */
  ghost predicate Keeps(mem: Memory, data: seq<LayerData>) {
    |mem| == 2 * |data| && forall l: nat {:trigger LayerKept(mem, data, l)} :: l < |data| ==> LayerKept(mem, data, l)
  }

  ghost predicate LayerKept(mem: Memory, data: seq<LayerData>, l: nat)
    requires |mem| == 2 * |data|
  {
    l < |data| && mem[l] == Flat(data[l].k) && mem[|data| + l] == Lined(data[l].v, |data[l].v|)
  }

  lemma TensorialKeeps(data: seq<LayerData>)
    ensures Keeps(Tensorial(data), data)
  {
  }

  function KeySays(sh: Shape, size: nat, data: seq<LayerData>, rs: seq<Range>, l: nat, f: Item -> Bytes): seq<Say>
    requires DataValid(sh, size, data) && RangesValid(rs, size) && l < |data|
  {
    assert LayerValid(sh, size, l, data[l]);
    Plains(KHeader(sh.layers[l]), f) + LineSays(l, 0, sh.layers[l].kSize, data[l].k, rs)
  }

  function ValueSays(sh: Shape, size: nat, data: seq<LayerData>, rs: seq<Range>, l: nat, f: Item -> Bytes): seq<Say>
    requires DataValid(sh, size, data) && RangesValid(rs, size) && l < |data|
  {
    assert LayerValid(sh, size, l, data[l]);
    if !sh.layers[l].hasV then []
    else
      Plains(VHeader(sh, sh.layers[l]), f)
      + LinesSay(|data| + l, sh.layers[l].vSize, size, data[l].v, rs, |data[l].v|)
  }

  function KSays(sh: Shape, size: nat, data: seq<LayerData>, rs: seq<Range>, l: nat, f: Item -> Bytes): seq<Say>
    requires DataValid(sh, size, data) && RangesValid(rs, size) && l <= |data|
  {
    if l == 0 then [] else KSays(sh, size, data, rs, l - 1, f) + KeySays(sh, size, data, rs, l - 1, f)
  }

  function VSays(sh: Shape, size: nat, data: seq<LayerData>, rs: seq<Range>, l: nat, f: Item -> Bytes): seq<Say>
    requires DataValid(sh, size, data) && RangesValid(rs, size) && l <= |data|
  {
    if l == 0 then [] else VSays(sh, size, data, rs, l - 1, f) + ValueSays(sh, size, data, rs, l - 1, f)
  }

  lemma WholeStands(x: Bytes)
    ensures Stands(x, 0, x)
  {
  }

  lemma KeyHonest(sh: Shape, size: nat, data: seq<LayerData>, rs: seq<Range>, l: nat, mem: Memory, f: Item -> Bytes)
    requires DataValid(sh, size, data) && RangesValid(rs, size) && l < |data| && Keeps(mem, data)
    ensures AllHonest(KeySays(sh, size, data, rs, l, f), mem, f)
  {
    assert LayerValid(sh, size, l, data[l]) && LayerKept(mem, data, l);
    WholeStands(mem[l]);
    LineHonest(l, 0, sh.layers[l].kSize, data[l].k, rs, mem, f);
    PlainsHonest(KHeader(sh.layers[l]), mem, f);
    HonestBoth(Plains(KHeader(sh.layers[l]), f), LineSays(l, 0, sh.layers[l].kSize, data[l].k, rs), mem, f);
  }

  lemma ValueHonest(sh: Shape, size: nat, data: seq<LayerData>, rs: seq<Range>, l: nat, mem: Memory, f: Item -> Bytes)
    requires DataValid(sh, size, data) && RangesValid(rs, size) && l < |data| && Keeps(mem, data)
    ensures AllHonest(ValueSays(sh, size, data, rs, l, f), mem, f)
  {
    assert LayerValid(sh, size, l, data[l]) && LayerKept(mem, data, l);
    var t, w, v := |data| + l, sh.layers[l].vSize, data[l].v;
    if sh.layers[l].hasV {
      LinesHonest(t, w, size, v, rs, |v|, mem, f);
      PlainsHonest(VHeader(sh, sh.layers[l]), mem, f);
      HonestBoth(Plains(VHeader(sh, sh.layers[l]), f), LinesSay(t, w, size, v, rs, |v|), mem, f);
    }
  }

  lemma KeysHonest(sh: Shape, size: nat, data: seq<LayerData>, rs: seq<Range>, mem: Memory, f: Item -> Bytes)
    requires DataValid(sh, size, data) && RangesValid(rs, size) && Keeps(mem, data)
    ensures AllHonest(KSays(sh, size, data, rs, |data|, f), mem, f)
  {
    for l := 0 to |data|
      invariant AllHonest(KSays(sh, size, data, rs, l, f), mem, f)
    {
      KeyHonest(sh, size, data, rs, l, mem, f);
      HonestBoth(KSays(sh, size, data, rs, l, f), KeySays(sh, size, data, rs, l, f), mem, f);
    }
  }

  lemma ValuesHonest(sh: Shape, size: nat, data: seq<LayerData>, rs: seq<Range>, mem: Memory, f: Item -> Bytes)
    requires DataValid(sh, size, data) && RangesValid(rs, size) && Keeps(mem, data)
    ensures AllHonest(VSays(sh, size, data, rs, |data|, f), mem, f)
  {
    for l := 0 to |data|
      invariant AllHonest(VSays(sh, size, data, rs, l, f), mem, f)
    {
      ValueHonest(sh, size, data, rs, l, mem, f);
      HonestBoth(VSays(sh, size, data, rs, l, f), ValueSays(sh, size, data, rs, l, f), mem, f);
    }
  }

  lemma KeySaid(sh: Shape, size: nat, data: seq<LayerData>, rs: seq<Range>, l: nat, f: Item -> Bytes)
    requires DataValid(sh, size, data) && RangesValid(rs, size) && l < |data|
    ensures LayerValid(sh, size, l, data[l]) && Indices(Expand(rs), size)
    ensures Said(KeySays(sh, size, data, rs, l, f)) == KHeader(sh.layers[l]) + LineItems(data[l].k, Expand(rs))
  {
    InRange(rs, size);
    assert LayerValid(sh, size, l, data[l]);
    var header, says := KHeader(sh.layers[l]), LineSays(l, 0, sh.layers[l].kSize, data[l].k, rs);
    LineSaid(l, 0, sh.layers[l].kSize, data[l].k, rs);
    PlainsSaid(header, f);
    SaidBoth(Plains(header, f), says);
  }

  lemma ValueSaid(sh: Shape, size: nat, data: seq<LayerData>, rs: seq<Range>, l: nat, f: Item -> Bytes)
    requires DataValid(sh, size, data) && RangesValid(rs, size) && l < |data| && sh.layers[l].hasV
    ensures LayerValid(sh, size, l, data[l]) && LinesFit(data[l].v, Expand(rs))
    ensures Said(ValueSays(sh, size, data, rs, l, f))
         == VHeader(sh, sh.layers[l]) + LinesItems(data[l].v, Expand(rs), |data[l].v|)
  {
    assert LayerValid(sh, size, l, data[l]);
    var header, v := VHeader(sh, sh.layers[l]), data[l].v;
    var says := LinesSay(|data| + l, sh.layers[l].vSize, size, v, rs, |v|);
    LinesSaid(|data| + l, sh.layers[l].vSize, size, v, rs, |v|);
    PlainsSaid(header, f);
    SaidBoth(Plains(header, f), says);
  }

  /** The values of one more layer. */
  lemma VItemsMore(sh: Shape, size: nat, data: seq<LayerData>, rs: seq<Range>, l: nat, f: Item -> Bytes)
    requires DataValid(sh, size, data) && RangesValid(rs, size) && l < |data|
    ensures Indices(Expand(rs), size)
    ensures VItems(sh, size, data, Expand(rs), l + 1)
         == VItems(sh, size, data, Expand(rs), l) + Said(ValueSays(sh, size, data, rs, l, f))
  {
    InRange(rs, size);
    assert LayerValid(sh, size, l, data[l]);
    if sh.layers[l].hasV {
      ValueSaid(sh, size, data, rs, l, f);
      Regroup(VItems(sh, size, data, Expand(rs), l), VHeader(sh, sh.layers[l]),
              LinesItems(data[l].v, Expand(rs), |data[l].v|));
    } else {
      assert ValueSays(sh, size, data, rs, l, f) == [];
    }
  }

  lemma {:induction false} KeysSaid(sh: Shape, size: nat, data: seq<LayerData>, rs: seq<Range>, l: nat,
                                    f: Item -> Bytes)
    requires DataValid(sh, size, data) && RangesValid(rs, size) && l <= |data|
    ensures Indices(Expand(rs), size) && Said(KSays(sh, size, data, rs, l, f)) == KItems(sh, size, data, Expand(rs), l)
  {
    InRange(rs, size);
    if l > 0 {
      KeysSaid(sh, size, data, rs, l - 1, f);
      KeySaid(sh, size, data, rs, l - 1, f);
      SaidBoth(KSays(sh, size, data, rs, l - 1, f), KeySays(sh, size, data, rs, l - 1, f));
      Regroup(KItems(sh, size, data, Expand(rs), l - 1), KHeader(sh.layers[l - 1]),
              LineItems(data[l - 1].k, Expand(rs)));
    }
  }

  ghost predicate ValuesSpelt(sh: Shape, size: nat, data: seq<LayerData>, rs: seq<Range>, l: nat, f: Item -> Bytes)
    requires DataValid(sh, size, data) && RangesValid(rs, size) && l <= |data|
  {
    Indices(Expand(rs), size) && Said(VSays(sh, size, data, rs, l, f)) == VItems(sh, size, data, Expand(rs), l)
  }

  lemma NoValuesSpelt(sh: Shape, size: nat, data: seq<LayerData>, rs: seq<Range>, f: Item -> Bytes)
    requires DataValid(sh, size, data) && RangesValid(rs, size)
    ensures ValuesSpelt(sh, size, data, rs, 0, f)
  {
    InRange(rs, size);
  }

  lemma MoreValuesSpelt(sh: Shape, size: nat, data: seq<LayerData>, rs: seq<Range>, l: nat, f: Item -> Bytes)
    requires DataValid(sh, size, data) && RangesValid(rs, size) && l < |data| && ValuesSpelt(sh, size, data, rs, l, f)
    ensures ValuesSpelt(sh, size, data, rs, l + 1, f)
  {
    VItemsMore(sh, size, data, rs, l, f);
    SaidBoth(VSays(sh, size, data, rs, l, f), ValueSays(sh, size, data, rs, l, f));
  }

  lemma ValuesSaid(sh: Shape, size: nat, data: seq<LayerData>, rs: seq<Range>, f: Item -> Bytes)
    requires DataValid(sh, size, data) && RangesValid(rs, size)
    ensures ValuesSpelt(sh, size, data, rs, |data|, f)
  {
    NoValuesSpelt(sh, size, data, rs, f);
    for k := 0 to |data|
      invariant ValuesSpelt(sh, size, data, rs, k, f)
    {
      MoreValuesSpelt(sh, size, data, rs, k, f);
    }
  }

  /** All calls of `state_write`. */
  function Says(sh: Shape, cells: seq<Cell>, data: seq<LayerData>, who: Option<nat>, rs: seq<Range>,
                f: Item -> Bytes): seq<Say>
    requires DataValid(sh, |cells|, data) && RangesValid(rs, |cells|) && AllUsed(cells, Expand(rs))
  {
    Plains([Num(1), Num(|Expand(rs)|)], f) +
    if Expand(rs) == [] then []
    else
      Plains(Meta(sh, cells, who, Expand(rs)) + DataHeader(sh), f)
      + (KSays(sh, |cells|, data, rs, |data|, f) + VSays(sh, |cells|, data, rs, |data|, f))
  }

  lemma SaysHonest(sh: Shape, cells: seq<Cell>, data: seq<LayerData>, who: Option<nat>, rs: seq<Range>, mem: Memory,
                   f: Item -> Bytes)
    requires DataValid(sh, |cells|, data) && RangesValid(rs, |cells|) && AllUsed(cells, Expand(rs)) && Keeps(mem, data)
    ensures AllHonest(Says(sh, cells, data, who, rs, f), mem, f)
  {
    var first, head := [Num(1), Num(|Expand(rs)|)], Meta(sh, cells, who, Expand(rs)) + DataHeader(sh);
    var ks, vs := KSays(sh, |cells|, data, rs, |data|, f), VSays(sh, |cells|, data, rs, |data|, f);
    PlainsHonest(first, mem, f);
    PlainsHonest(head, mem, f);
    KeysHonest(sh, |cells|, data, rs, mem, f);
    ValuesHonest(sh, |cells|, data, rs, mem, f);
    HonestBoth(ks, vs, mem, f);
    HonestBoth(Plains(head, f), ks + vs, mem, f);
    HonestBoth(Plains(first, f), if Expand(rs) == [] then [] else Plains(head, f) + (ks + vs), mem, f);
  }

  lemma SaysDump(sh: Shape, swa: Swa, cells: seq<Cell>, data: seq<LayerData>, who: Option<nat>, rs: seq<Range>,
                 f: Item -> Bytes)
    requires DataValid(sh, |cells|, data) && RangesValid(rs, |cells|) && AllUsed(cells, Expand(rs))
    requires Expand(rs) == Chosen(cells, swa, who, 0, |cells|)
    ensures Said(Says(sh, cells, data, who, rs, f)) == Dump(sh, swa, cells, data, who)
  {
    var first, head := [Num(1), Num(|Expand(rs)|)], Meta(sh, cells, who, Expand(rs)) + DataHeader(sh);
    var ks, vs := KSays(sh, |cells|, data, rs, |data|, f), VSays(sh, |cells|, data, rs, |data|, f);
    PlainsSaid(first, f);
    if Expand(rs) == [] {
      SaidBoth(Plains(first, f), []);
    } else {
      PlainsSaid(head, f);
      KeysSaid(sh, |cells|, data, rs, |data|, f);
      ValuesSaid(sh, |cells|, data, rs, f);
      SaidBoth(ks, vs);
      SaidBoth(Plains(head, f), ks + vs);
      SaidBoth(Plains(first, f), Plains(head, f) + (ks + vs));
      RegroupDump(Meta(sh, cells, who, Expand(rs)), DataHeader(sh), Said(ks), Said(vs));
    }
  }

  lemma RegroupDump(meta: seq<Item>, header: seq<Item>, ks: seq<Item>, vs: seq<Item>)
    ensures (meta + header) + (ks + vs) == meta + (header + ks + vs)
  {
  }

  /** What the calls put into the stream is the encoded dump. */
  lemma DumpInBytes(sh: Shape, swa: Swa, cells: seq<Cell>, data: seq<LayerData>, who: Option<nat>, rs: seq<Range>,
                    f: Item -> Bytes)
    requires DataValid(sh, |cells|, data) && RangesValid(rs, |cells|)
    requires Expand(rs) == Chosen(cells, swa, who, 0, |cells|)
    ensures AllUsed(cells, Expand(rs))
    ensures var ops, mem := Ops(Says(sh, cells, data, who, rs, f)), Tensorial(data);
      AllInMemory(ops, mem) && Stream(ops, mem) == Coded(Dump(sh, swa, cells, data, who), f)
  {
    ChosenUsed(cells, swa, who, 0, |cells|);
    TensorialKeeps(data);
    SaysHonest(sh, cells, data, who, rs, Tensorial(data), f);
    SaysDump(sh, swa, cells, data, who, rs, f);
    StreamSaid(Says(sh, cells, data, who, rs, f), Tensorial(data), f);
  }
}
