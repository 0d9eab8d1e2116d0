/** Restoring one sequence from a checkpoint stream (`state_read` with a destination sequence). */
module CheckpointRead {
  import opened KvCells
  import opened SlotSearch
  import opened SeqEdits
  import opened Placement
  import opened Scatter
  import opened KvStore
  import opened KvCache
  import opened Checkpoint

  /** Rejected: the stream is well formed but does not fit this cache. Malformed: it ends early or
      holds something no writer puts there (an exception in the reader). */
  datatype Outcome = Done | Rejected | Malformed

  /** A value read and what is left of the stream, or why there is none. */
  datatype Got<T> = Got(v: T, rest: seq<Item>) | Fail(o: Outcome)

  predicate NumAt(items: seq<Item>, i: nat) {
    i < |items| && items[i].Num?
  }

  /** The next header field must have the given value. */
  function Match(items: seq<Item>, want: Item): Got<Item> {
    if |items| == 0 || items[0].Data? || items[0].Num? != want.Num? then Fail(Malformed)
    else if items[0] != want then Fail(Rejected)
    else Got(want, items[1..])
  }

  /** One cell's metadata: position, owner count, coordinates, and an owner that is replaced by q. */
  function ReadTok(items: seq<Item>, is2d: bool, q: nat): Got<Tok> {
    if !NumAt(items, 0) || !NumAt(items, 1) then Fail(Malformed)
    else if items[1].n != 1 then Fail(Rejected)
    else if !(0 <= items[0].n < POS_MAX) then Fail(Malformed)
    else if is2d then
      if NumAt(items, 2) && NumAt(items, 3) && NumAt(items, 4)
      then Got(Tok(items[0].n, Ext(items[2].n, items[3].n), [q]), items[5..])
      else Fail(Malformed)
    else if NumAt(items, 2) then Got(Tok(items[0].n, NO_EXT, [q]), items[3..])
    else Fail(Malformed)
  }

  function ReadToks(items: seq<Item>, n: nat, is2d: bool, q: nat): (r: Got<seq<Tok>>)
    ensures r.Got? ==> |r.v| == n && forall k :: 0 <= k < n ==> r.v[k].ids == [q]
  {
    if n == 0 then Got([], items)
    else
      match ReadToks(items, n - 1, is2d, q)
      case Fail(o) => Fail(o)
      case Got(toks, rest) =>
        match ReadTok(rest, is2d, q)
        case Fail(o) => Fail(o)
        case Got(t, rest') => Got(toks + [t], rest')
  }

  /** The next n items are rows of the given width. */
  predicate HaveRows(items: seq<Item>, n: nat, width: nat) {
    n <= |items| && forall k :: 0 <= k < n ==> items[k].Data? && |items[k].row| == width
  }

  function RowsOf(items: seq<Item>, n: nat, width: nat): (r: seq<Bytes>)
    requires HaveRows(items, n, width)
    ensures |r| == n && forall k :: 0 <= k < n ==> r[k] == items[k].row
  {
    seq(n, k requires 0 <= k < n && HaveRows(items, n, width) => items[k].row)
  }

  /** One tensor line: as many rows as there are cells, each to its own place. */
  function ReadLine(line: seq<Bytes>, idxs: seq<nat>, width: nat, items: seq<Item>): (r: Got<seq<Bytes>>)
    requires Indices(idxs, |line|)
    ensures r.Got? ==> |r.v| == |line|
  {
    if HaveRows(items, |idxs|, width) then
      Got(PutBack(line, idxs, RowsOf(items, |idxs|, width)), items[|idxs|..])
    else Fail(Malformed)
  }

  ghost predicate Sized(lines: seq<seq<Bytes>>, size: nat) {
    forall j :: 0 <= j < |lines| ==> |lines[j]| == size
  }

  function ReadLines(lines: seq<seq<Bytes>>, size: nat, idxs: seq<nat>, width: nat, n: nat,
      items: seq<Item>): (r: Got<seq<seq<Bytes>>>)
    requires Sized(lines, size) && Indices(idxs, size) && n <= |lines|
    ensures r.Got? ==> |r.v| == |lines| && Sized(r.v, size)
  {
    if n == 0 then Got(lines, items)
    else
      match ReadLines(lines, size, idxs, width, n - 1, items)
      case Fail(o) => Fail(o)
      case Got(ls, rest) =>
        match ReadLine(ls[n - 1], idxs, width, rest)
        case Fail(o) => Fail(o)
        case Got(l, rest') => Got(ls[n - 1 := l], rest')
  }

  ghost predicate AllSized(data: seq<LayerData>, size: nat) {
    forall l :: 0 <= l < |data| ==> |data[l].k| == size && Sized(data[l].v, size)
  }

  function ReadKeys(sh: Shape, data: seq<LayerData>, size: nat, idxs: seq<nat>, n: nat,
      items: seq<Item>): (r: Got<seq<LayerData>>)
    requires |data| == |sh.layers| && AllSized(data, size) && Indices(idxs, size) && n <= |data|
    ensures r.Got? ==> |r.v| == |data| && AllSized(r.v, size)
  {
    if n == 0 then Got(data, items)
    else
      match ReadKeys(sh, data, size, idxs, n - 1, items)
      case Fail(o) => Fail(o)
      case Got(d, rest) => ReadKey(sh, d, size, idxs, n - 1, rest)
  }

  function ReadKey(sh: Shape, d: seq<LayerData>, size: nat, idxs: seq<nat>, l: nat,
      items: seq<Item>): (r: Got<seq<LayerData>>)
    requires |d| == |sh.layers| && AllSized(d, size) && Indices(idxs, size) && l < |d|
    ensures r.Got? ==> |r.v| == |d| && AllSized(r.v, size)
  {
    match Match(items, Num(sh.layers[l].kType))
    case Fail(o) => Fail(o)
    case Got(_, i1) =>
      match Match(i1, Long(sh.layers[l].kSize))
      case Fail(o) => Fail(o)
      case Got(_, i2) =>
        match ReadLine(d[l].k, idxs, sh.layers[l].kSize, i2)
        case Fail(o) => Fail(o)
        case Got(k, rest) => Got(d[l := d[l].(k := k)], rest)
  }

  function ReadValues(sh: Shape, data: seq<LayerData>, size: nat, idxs: seq<nat>, n: nat,
      items: seq<Item>): (r: Got<seq<LayerData>>)
    requires |data| == |sh.layers| && AllSized(data, size) && Indices(idxs, size) && n <= |data|
    ensures r.Got? ==> |r.v| == |data| && AllSized(r.v, size)
  {
    if n == 0 then Got(data, items)
    else
      match ReadValues(sh, data, size, idxs, n - 1, items)
      case Fail(o) => Fail(o)
      case Got(d, rest) => if sh.layers[n - 1].hasV then ReadValue(sh, d, size, idxs, n - 1, rest) else Got(d, rest)
  }

  function ReadValue(sh: Shape, d: seq<LayerData>, size: nat, idxs: seq<nat>, l: nat,
      items: seq<Item>): (r: Got<seq<LayerData>>)
    requires |d| == |sh.layers| && AllSized(d, size) && Indices(idxs, size) && l < |d|
    ensures r.Got? ==> |r.v| == |d| && AllSized(r.v, size)
  {
    match Match(items, Num(sh.layers[l].vType))
    case Fail(o) => Fail(o)
    case Got(_, i1) =>
      match Match(i1, VSize(sh, sh.layers[l]))
      case Fail(o) => Fail(o)
      case Got(_, i2) =>
        match (if sh.vTrans then Match(i2, Num(sh.layers[l].nV)) else Got(Num(0), i2))
        case Fail(o) => Fail(o)
        case Got(_, i3) =>
          match ReadLines(d[l].v, size, idxs, sh.layers[l].vSize, |d[l].v|, i3)
          case Fail(o) => Fail(o)
          case Got(v, rest) => Got(d[l := d[l].(v := v)], rest)
  }

  /** The tensor section (`state_read_data`). */
  function ReadTensors(sh: Shape, data: seq<LayerData>, size: nat, idxs: seq<nat>,
      items: seq<Item>): (r: Got<seq<LayerData>>)
    requires |data| == |sh.layers| && AllSized(data, size) && Indices(idxs, size)
    ensures r.Got? ==> |r.v| == |data|
  {
    if !NumAt(items, 0) || !NumAt(items, 1) then Fail(Malformed)
    else if items[1].n != |sh.layers| || |idxs| > size || (items[0].n != 0) != sh.vTrans then Fail(Rejected)
    else
      match ReadKeys(sh, data, size, idxs, |data|, items[2..])
      case Fail(o) => Fail(o)
      case Got(d, rest) => ReadValues(sh, d, size, idxs, |data|, rest)
  }

  /** seq_rm over all positions. */
  function Removed(st: State, q: nat): State {
    var after := RmCells(st.cells, q, 0, POS_MAX);
    State(after, PulledHead(st.head, st.cells, after))
  }

  datatype Restored = Restored(o: Outcome, st: State, data: seq<LayerData>)

  /** `state_read` of one sequence: the outcome, the cells, and after success the tensors. A dump of
      no cells changes nothing; a rejected one leaves the sequence removed. */
  function Restore(sh: Shape, cfg: Config, st: State, data: seq<LayerData>, items: seq<Item>, q: nat): Restored
    requires StateValid(cfg, st) && |data| == |sh.layers| && AllSized(data, |st.cells|) && q < cfg.maxSeq
  {
    if !NumAt(items, 0) || items[0].n != 1 || !NumAt(items, 1) || items[1].n < 0 then Restored(Malformed, st, data)
    else if items[1].n == 0 then Restored(Done, st, data)
    else
      var st1 := Removed(st, q);
      RemovedValid(cfg, st, q);
      match ReadToks(items[2..], items[1].n, sh.is2d, q)
      case Fail(o) => Restored(o, if o == Rejected then Removed(st1, q) else st1, data)
      case Got(toks, rest) =>
        var ub := Ubatch(toks, sh.is2d);
        var slot := FindIn(cfg, st1, ub);
        if slot.None? then Restored(Rejected, Removed(st1, q), data)
        else
          FoundSlotValid(st1.cells, cfg.swa, st1.head, toks, false, slot.value);
          var st2 := ApplyTo(cfg, st1, slot.value, ub);
          match ReadTensors(sh, data, |st.cells|, slot.value, rest)
          case Fail(o) => Restored(o, if o == Rejected then Removed(st2, q) else st2, data)
          case Got(d, _) => Restored(Done, st2, d)
  }

  lemma RemovedValid(cfg: Config, st: State, q: nat)
    requires StateValid(cfg, st)
    ensures StateValid(cfg, Removed(st, q)) && |Removed(st, q).cells| == |st.cells|
  {
    ShrunkValid(cfg, st.cells, Removed(st, q).cells);
  }

  /** `slot_info::is_contiguous`. */
  method IsContiguous(idxs: seq<nat>) returns (b: bool)
    ensures b <==> forall i :: 0 <= i < |idxs| ==> idxs[i] == idxs[0] + i
  {
    for i := 0 to |idxs|
      invariant forall j :: 0 <= j < i ==> idxs[j] == idxs[0] + j
    {
      if idxs[i] != idxs[0] + i {
        return false;
      }
    }
    return true;
  }

  /** Writing consecutive places one by one is one block copy. */
  lemma {:induction false} PutBackBlock(line: seq<Bytes>, idxs: seq<nat>, rows: seq<Bytes>)
    requires |idxs| == |rows| > 0 && Indices(idxs, |line|) && forall i :: 0 <= i < |idxs| ==> idxs[i] == idxs[0] + i
    ensures idxs[0] + |idxs| <= |line|
    ensures PutBack(line, idxs, rows) == line[..idxs[0]] + rows + line[idxs[0] + |idxs|..]
  {
    assert idxs[|idxs| - 1] < |line|;
    var k := |idxs| - 1;
    if k > 0 {
      PutBackBlock(line, idxs[..k], rows[..k]);
    } else {
      assert PutBack(line, idxs[..0], rows[..0]) == line;
    }
    assert rows == rows[..k] + [rows[k]];
  }

  /** The two read paths of a tensor line, one block or row by row, give the same line. */
  method ReadRows(line: seq<Bytes>, idxs: seq<nat>, width: nat, items: seq<Item>) returns (r: Got<seq<Bytes>>)
    requires Indices(idxs, |line|) && idxs != []
    ensures r == ReadLine(line, idxs, width, items)
  {
    var n := |idxs|;
    if !HaveRows(items, n, width) {
      return Fail(Malformed);
    }
    var rows := RowsOf(items, n, width);
    var contiguous := IsContiguous(idxs);
    if contiguous {
      PutBackBlock(line, idxs, rows);
      return Got(line[..idxs[0]] + rows + line[idxs[0] + n..], items[n..]);
    }
    var scattered := RestoreCells(line, idxs, rows);
    return Got(scattered, items[n..]);
  }

  /** The metadata loop of `state_read_meta`. */
  method ReadMeta(items: seq<Item>, n: nat, is2d: bool, q: nat) returns (r: Got<seq<Tok>>)
    ensures r == ReadToks(items, n, is2d, q)
  {
    var toks: seq<Tok> := [];
    var rest := items;
    for i := 0 to n
      invariant ReadToks(items, i, is2d, q) == Got(toks, rest)
    {
      var t := ReadTok(rest, is2d, q);
      if t.Fail? {
        ReadToksFails(items, i + 1, n, is2d, q);
        return Fail(t.o);
      }
      toks, rest := toks + [t.v], t.rest;
    }
    return Got(toks, rest);
  }

  lemma {:induction false} ReadToksFails(items: seq<Item>, i: nat, n: nat, is2d: bool, q: nat)
    requires i <= n && ReadToks(items, i, is2d, q).Fail?
    ensures ReadToks(items, n, is2d, q) == ReadToks(items, i, is2d, q)
  {
    if i < n {
      ReadToksFails(items, i, n - 1, is2d, q);
    }
  }

  method ReadAllLines(lines: seq<seq<Bytes>>, size: nat, idxs: seq<nat>, width: nat, items: seq<Item>)
    returns (r: Got<seq<seq<Bytes>>>)
    requires Sized(lines, size) && Indices(idxs, size) && idxs != []
    ensures r == ReadLines(lines, size, idxs, width, |lines|, items)
  {
    var ls, rest := lines, items;
    for j := 0 to |lines|
      invariant |ls| == |lines| && Sized(ls, size) && ReadLines(lines, size, idxs, width, j, items) == Got(ls, rest)
    {
      var l := ReadRows(ls[j], idxs, width, rest);
      if l.Fail? {
        ReadLinesFails(lines, size, idxs, width, j + 1, |lines|, items);
        return Fail(l.o);
      }
      ls, rest := ls[j := l.v], l.rest;
    }
    return Got(ls, rest);
  }

  lemma {:induction false} ReadLinesFails(lines: seq<seq<Bytes>>, size: nat, idxs: seq<nat>, width: nat, i: nat,
      n: nat, items: seq<Item>)
    requires Sized(lines, size) && Indices(idxs, size) && i <= n <= |lines|
    requires ReadLines(lines, size, idxs, width, i, items).Fail?
    ensures ReadLines(lines, size, idxs, width, n, items) == ReadLines(lines, size, idxs, width, i, items)
  {
    if i < n {
      ReadLinesFails(lines, size, idxs, width, i, n - 1, items);
    }
  }

  lemma {:induction false} ReadKeysFails(sh: Shape, data: seq<LayerData>, size: nat, idxs: seq<nat>, i: nat, n: nat,
      items: seq<Item>)
    requires |data| == |sh.layers| && AllSized(data, size) && Indices(idxs, size) && i <= n <= |data|
    requires ReadKeys(sh, data, size, idxs, i, items).Fail?
    ensures ReadKeys(sh, data, size, idxs, n, items) == ReadKeys(sh, data, size, idxs, i, items)
  {
    if i < n {
      ReadKeysFails(sh, data, size, idxs, i, n - 1, items);
    }
  }

  lemma {:induction false} ReadValuesFails(sh: Shape, data: seq<LayerData>, size: nat, idxs: seq<nat>, i: nat,
      n: nat, items: seq<Item>)
    requires |data| == |sh.layers| && AllSized(data, size) && Indices(idxs, size) && i <= n <= |data|
    requires ReadValues(sh, data, size, idxs, i, items).Fail?
    ensures ReadValues(sh, data, size, idxs, n, items) == ReadValues(sh, data, size, idxs, i, items)
  {
    if i < n {
      ReadValuesFails(sh, data, size, idxs, i, n - 1, items);
    }
  }

  method ReadOneKey(sh: Shape, d: seq<LayerData>, size: nat, idxs: seq<nat>, l: nat,
      items: seq<Item>) returns (r: Got<seq<LayerData>>)
    requires |d| == |sh.layers| && AllSized(d, size) && Indices(idxs, size) && l < |d| && idxs != []
    ensures r == ReadKey(sh, d, size, idxs, l, items)
  {
    var i1 := Match(items, Num(sh.layers[l].kType));
    if i1.Fail? { return Fail(i1.o); }
    var i2 := Match(i1.rest, Long(sh.layers[l].kSize));
    if i2.Fail? { return Fail(i2.o); }
    var k := ReadRows(d[l].k, idxs, sh.layers[l].kSize, i2.rest);
    if k.Fail? { return Fail(k.o); }
    return Got(d[l := d[l].(k := k.v)], k.rest);
  }

  method ReadOneValue(sh: Shape, d: seq<LayerData>, size: nat, idxs: seq<nat>, l: nat,
      items: seq<Item>) returns (r: Got<seq<LayerData>>)
    requires |d| == |sh.layers| && AllSized(d, size) && Indices(idxs, size) && l < |d| && idxs != []
    ensures r == ReadValue(sh, d, size, idxs, l, items)
  {
    var i1 := Match(items, Num(sh.layers[l].vType));
    if i1.Fail? { return Fail(i1.o); }
    var i2 := Match(i1.rest, VSize(sh, sh.layers[l]));
    if i2.Fail? { return Fail(i2.o); }
    var i3 := Got(Num(0), i2.rest);
    if sh.vTrans {
      i3 := Match(i2.rest, Num(sh.layers[l].nV));
      if i3.Fail? { return Fail(i3.o); }
    }
    var v := ReadAllLines(d[l].v, size, idxs, sh.layers[l].vSize, i3.rest);
    if v.Fail? { return Fail(v.o); }
    return Got(d[l := d[l].(v := v.v)], v.rest);
  }

  lemma ReadKeysMore(sh: Shape, data: seq<LayerData>, size: nat, idxs: seq<nat>, l: nat, items: seq<Item>,
                     d: seq<LayerData>, rest: seq<Item>)
    requires |data| == |sh.layers| && AllSized(data, size) && Indices(idxs, size) && l < |data|
    requires ReadKeys(sh, data, size, idxs, l, items) == Got(d, rest)
    ensures |d| == |data| && AllSized(d, size)
    ensures ReadKeys(sh, data, size, idxs, l + 1, items) == ReadKey(sh, d, size, idxs, l, rest)
  {
  }

  method ReadAllKeys(sh: Shape, data: seq<LayerData>, size: nat, idxs: seq<nat>,
      items: seq<Item>) returns (r: Got<seq<LayerData>>)
    requires |data| == |sh.layers| && AllSized(data, size) && Indices(idxs, size) && idxs != []
    ensures r == ReadKeys(sh, data, size, idxs, |data|, items)
  {
    var d, rest := data, items;
    for l := 0 to |data|
      invariant |d| == |data| && AllSized(d, size) && ReadKeys(sh, data, size, idxs, l, items) == Got(d, rest)
    {
      ReadKeysMore(sh, data, size, idxs, l, items, d, rest);
      var k := ReadOneKey(sh, d, size, idxs, l, rest);
      if k.Fail? {
        ReadKeysFails(sh, data, size, idxs, l + 1, |data|, items);
        return Fail(k.o);
      }
      d, rest := k.v, k.rest;
    }
    return Got(d, rest);
  }

  method ReadAllValues(sh: Shape, data: seq<LayerData>, size: nat, idxs: seq<nat>,
      items: seq<Item>) returns (r: Got<seq<LayerData>>)
    requires |data| == |sh.layers| && AllSized(data, size) && Indices(idxs, size) && idxs != []
    ensures r == ReadValues(sh, data, size, idxs, |data|, items)
  {
    var d, rest := data, items;
    for l := 0 to |data|
      invariant |d| == |data| && AllSized(d, size) && ReadValues(sh, data, size, idxs, l, items) == Got(d, rest)
    {
      if !sh.layers[l].hasV {
        continue;
      }
      var v := ReadOneValue(sh, d, size, idxs, l, rest);
      if v.Fail? {
        ReadValuesFails(sh, data, size, idxs, l + 1, |data|, items);
        return Fail(v.o);
      }
      d, rest := v.v, v.rest;
    }
    return Got(d, rest);
  }

  /** `state_read_data`: the header checks, then the key loop and the value loop over the layers. */
  method StateReadData(sh: Shape, data: seq<LayerData>, size: nat, idxs: seq<nat>,
      items: seq<Item>) returns (r: Got<seq<LayerData>>)
    requires |data| == |sh.layers| && AllSized(data, size) && Indices(idxs, size) && idxs != []
    ensures r == ReadTensors(sh, data, size, idxs, items)
  {
    if !NumAt(items, 0) || !NumAt(items, 1) {
      return Fail(Malformed);
    }
    if items[1].n != |sh.layers| || |idxs| > size || (items[0].n != 0) != sh.vTrans {
      return Fail(Rejected);
    }
    var keys := ReadAllKeys(sh, data, size, idxs, items[2..]);
    if keys.Fail? {
      return keys;
    }
    r := ReadAllValues(sh, keys.v, size, idxs, keys.rest);
  }

  /** `state_read` with a destination sequence. The tensors are returned; after a failure their
      contents in cells that hold no position are of no interest and the old ones are returned. */
  method StateReadSeq(c: Cache, sh: Shape, data: seq<LayerData>, items: seq<Item>, q: nat)
    returns (o: Outcome, data': seq<LayerData>)
    requires c.Valid() && |data| == |sh.layers| && AllSized(data, |c.cells|) && q < c.cfg.maxSeq
    modifies c
    ensures c.Valid() && Restored(o, c.St(), data') == Restore(sh, c.cfg, old(c.St()), data, items, q)
  {
    if !NumAt(items, 0) || items[0].n != 1 || !NumAt(items, 1) || items[1].n < 0 {
      return Malformed, data;
    }
    if items[1].n == 0 {
      return Done, data;
    }
    c.SeqRm(q, -1, -1);
    var toks := ReadMeta(items[2..], items[1].n, sh.is2d, q);
    if toks.Fail? {
      if toks.o == Rejected {
        c.SeqRm(q, -1, -1);
      }
      return toks.o, data;
    }
    var ub := Ubatch(toks.v, sh.is2d);
    assert forall k :: 0 <= k < |ub.toks| ==> TokValid(c.cfg, ub.toks[k]);
    var slot := c.FindSlot(ub, false);
    if slot.None? {
      c.SeqRm(q, -1, -1);
      return Rejected, data;
    }
    c.ApplyUbatch(slot.value, ub);
    var d := StateReadData(sh, data, |c.cells|, slot.value, toks.rest);
    if d.Fail? {
      if d.o == Rejected {
        c.SeqRm(q, -1, -1);
      }
      return d.o, data;
    }
    return Done, d.v;
  }
}
