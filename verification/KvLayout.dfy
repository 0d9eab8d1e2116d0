/** Where keys and values live: the destination indices a ubatch is written through, the views the
    attention reads through, and the offsets the checkpoint dump uses. Offsets count elements. */
module KvLayout {
  import opened Wrappers
  import opened KvCells
  import opened Rows

  /** Element d of cell `cell` of stream x, keys and plain values: rows of nE elements. */
  function RowAddr(kv: nat, nE: nat, x: nat, cell: nat, d: nat): nat {
    (x * kv + cell) * nE + d
  }

  /** The same for transposed values: one line of kv elements per dimension. */
  function LineAddr(kv: nat, nE: nat, x: nat, cell: nat, d: nat): nat {
    x * kv * nE + d * kv + cell
  }

  /** The view of `get_k` and of `get_v` without transposition: element d of head h, cell, and
      stream rel counted from s0, each head having hd elements. */
  function ViewRow(kv: nat, nE: nat, hd: nat, s0: nat, rel: nat, cell: nat, h: nat, d: nat): nat {
    nE * kv * s0 + d + hd * h + nE * cell + nE * kv * rel
  }

  /** The view of `get_v` with transposition. */
  function ViewLine(kv: nat, nE: nat, hd: nat, s0: nat, rel: nat, cell: nat, h: nat, d: nat): nat {
    kv * nE * s0 + cell + kv * hd * h + kv * d + kv * nE * rel
  }

  /** The checkpoint dump of stream x: rows from the start of the stream's own part, or single
      elements line by line. */
  function DumpRow(kv: nat, nE: nat, x: nat, cell: nat, d: nat): nat {
    x * (nE * kv) + cell * nE + d
  }

  function DumpLine(kv: nat, nE: nat, x: nat, cell: nat, d: nat): nat {
    x * (nE * kv) + (cell + d * kv)
  }

  lemma MulAssoc(a: nat, b: nat, c: nat)
    ensures a * b * c == a * (b * c) == b * (a * c) == c * b * a == c * a * b
  {
  }

  /** The same element as nested row offsets. */
  lemma RowAddrIsRow(kv: nat, nE: nat, x: nat, c: nat, d: nat)
    ensures RowAddr(kv, nE, x, c, d) == Row(nE, Row(kv, x) + c) + d
  {
    RowIsProduct(kv, x);
    RowIsProduct(nE, Row(kv, x) + c);
  }

  lemma SizeIsRow(kv: nat, nE: nat, nStream: nat)
    ensures nStream * kv * nE == Row(nE, Row(kv, nStream))
  {
    RowIsProduct(kv, nStream);
    RowIsProduct(nE, Row(kv, nStream));
  }

  /** A row and a place in it determine each other. */
  lemma RowUnique(n: nat, a: nat, b: nat, c: nat, d: nat)
    requires b < n && d < n && Row(n, a) + b == Row(n, c) + d
    ensures a == c && b == d
  {
    if a != c {
      RowsApart(n, if a < c then a else c, if a < c then c else a);
    }
  }

  lemma NestedRowsUnique(kv: nat, nE: nat, x: nat, c: nat, d: nat, x': nat, c': nat, d': nat)
    requires c < kv && c' < kv && d < nE && d' < nE
    requires Row(nE, Row(kv, x) + c) + d == Row(nE, Row(kv, x') + c') + d'
    ensures x == x' && c == c' && d == d'
  {
    RowUnique(nE, Row(kv, x) + c, d, Row(kv, x') + c', d');
    RowUnique(kv, x, c, x', c');
  }

  lemma NestedRowsFit(kv: nat, nE: nat, nStream: nat, x: nat, c: nat, d: nat)
    requires x < nStream && c < kv && d < nE
    ensures Row(nE, Row(kv, x) + c) + d < Row(nE, Row(kv, nStream))
  {
    RowsApart(kv, x, nStream);
    RowsApart(nE, Row(kv, x) + c, Row(kv, nStream));
  }

  /** Different cells, streams or dimensions never share an element, and all of them fit. */
  lemma RowAddrInjective(kv: nat, nE: nat, nStream: nat, x: nat, c: nat, d: nat, x': nat, c': nat, d': nat)
    requires x < nStream && x' < nStream && c < kv && c' < kv && d < nE && d' < nE
    ensures RowAddr(kv, nE, x, c, d) < nStream * kv * nE
    ensures RowAddr(kv, nE, x, c, d) == RowAddr(kv, nE, x', c', d') ==> x == x' && c == c' && d == d'
  {
    NestedRowsFit(kv, nE, nStream, x, c, d);
    RowAddrIsRow(kv, nE, x, c, d);
    RowAddrIsRow(kv, nE, x', c', d');
    SizeIsRow(kv, nE, nStream);
    if Row(nE, Row(kv, x) + c) + d == Row(nE, Row(kv, x') + c') + d' {
      NestedRowsUnique(kv, nE, x, c, d, x', c', d');
    }
  }

  lemma LineAsRow(kv: nat, nE: nat, x: nat, c: nat, d: nat)
    ensures LineAddr(kv, nE, x, c, d) == (x * nE + d) * kv + c
  {
    MulAssoc(x, kv, nE);
    MulAssoc(x, nE, kv);
  }

  lemma LineAddrInjective(kv: nat, nE: nat, nStream: nat, x: nat, c: nat, d: nat, x': nat, c': nat, d': nat)
    requires x < nStream && x' < nStream && c < kv && c' < kv && d < nE && d' < nE
    ensures LineAddr(kv, nE, x, c, d) < nStream * kv * nE
    ensures LineAddr(kv, nE, x, c, d) == LineAddr(kv, nE, x', c', d') ==> x == x' && c == c' && d == d'
  {
    LineAsRow(kv, nE, x, c, d);
    LineAsRow(kv, nE, x', c', d');
    RowAddrInjective(nE, kv, nStream, x, d, c, x', d', c');
    MulAssoc(nStream, kv, nE);
    MulAssoc(nStream, nE, kv);
  }

  /** What is written for a cell is what the attention view and the dump read, in both layouts. */
  lemma ReadsWhatWasWritten(kv: nat, nE: nat, hd: nat, s0: nat, x: nat, cell: nat, h: nat, d: nat)
    requires s0 <= x
    ensures ViewRow(kv, nE, hd, s0, x - s0, cell, h, d) == RowAddr(kv, nE, x, cell, h * hd + d)
    ensures ViewLine(kv, nE, hd, s0, x - s0, cell, h, d) == LineAddr(kv, nE, x, cell, h * hd + d)
    ensures DumpRow(kv, nE, x, cell, d) == RowAddr(kv, nE, x, cell, d)
    ensures DumpLine(kv, nE, x, cell, d) == LineAddr(kv, nE, x, cell, d)
  {
    assert nE * kv * s0 + nE * kv * (x - s0) == nE * kv * x;
    assert kv * nE * s0 + kv * nE * (x - s0) == kv * nE * x;
    assert (x * kv + cell) * nE == x * kv * nE + cell * nE;
    assert (h * hd + d) * kv == h * hd * kv + d * kv;
    MulAssoc(x, kv, nE);
    MulAssoc(nE, kv, x);
    MulAssoc(h, hd, kv);
    MulAssoc(kv, hd, h);
  }

  /** Rows one after the other. */
  function Flat(rows: seq<seq<int>>): seq<int> {
    if rows == [] then [] else Flat(rows[..|rows| - 1]) + rows[|rows| - 1]
  }

  lemma FlatMore(rows: seq<seq<int>>, s: nat)
    requires s < |rows|
    ensures Flat(rows[..s + 1]) == Flat(rows[..s]) + rows[s]
  {
    assert rows[..s + 1][..s] == rows[..s];
  }

  lemma AppendAssoc(a: seq<int>, b: seq<int>, c: seq<int>)
    ensures (a + b) + c == a + (b + c)
  {
  }

  lemma {:induction false} FlatSize(rows: seq<seq<int>>, n: nat)
    requires forall k :: 0 <= k < |rows| ==> |rows[k]| == n
    ensures |Flat(rows)| == Row(n, |rows|)
  {
    if rows != [] {
      FlatSize(rows[..|rows| - 1], n);
    }
  }

  lemma {:induction false} FlatAt(rows: seq<seq<int>>, n: nat, s: nat, i: nat)
    requires forall k :: 0 <= k < |rows| ==> |rows[k]| == n
    requires s < |rows| && i < n
    ensures Row(n, s) + i < |Flat(rows)| == Row(n, |rows|)
    ensures Flat(rows)[Row(n, s) + i] == rows[s][i]
  {
    var init := rows[..|rows| - 1];
    FlatSize(init, n);
    if s < |init| {
      FlatAt(init, n, s, i);
    }
  }

  /** The destination rows of one block of tokens in stream x. */
  function RowDests(kv: nat, x: nat, idxs: seq<nat>): (r: seq<int>)
    ensures |r| == |idxs| && forall i :: 0 <= i < |idxs| ==> r[i] == x * kv + idxs[i]
  {
    seq(|idxs|, i requires 0 <= i < |idxs| => x * kv + idxs[i])
  }

  function AllRowDests(kv: nat, strm: seq<nat>, idxs: seq<seq<nat>>): (r: seq<seq<int>>)
    requires |strm| == |idxs|
    ensures |r| == |strm| && forall s :: 0 <= s < |strm| ==> r[s] == RowDests(kv, strm[s], idxs[s])
  {
    seq(|strm|, s requires 0 <= s < |strm| == |idxs| => RowDests(kv, strm[s], idxs[s]))
  }

  /** The destination elements of one token's value: one per dimension. */
  function LineDests(kv: nat, nE: nat, x: nat, cell: nat): (r: seq<int>)
    ensures |r| == nE && forall j :: 0 <= j < nE ==> r[j] == x * kv * nE + j * kv + cell
  {
    seq(nE, (j: nat) => x * kv * nE + j * kv + cell)
  }

  function BlockLineDests(kv: nat, nE: nat, x: nat, idxs: seq<nat>): (r: seq<seq<int>>)
    ensures |r| == |idxs| && forall i :: 0 <= i < |idxs| ==> r[i] == LineDests(kv, nE, x, idxs[i])
  {
    seq(|idxs|, i requires 0 <= i < |idxs| => LineDests(kv, nE, x, idxs[i]))
  }

  function AllLineDests(kv: nat, nE: nat, strm: seq<nat>, idxs: seq<seq<nat>>): (r: seq<seq<int>>)
    requires |strm| == |idxs|
    ensures |r| == |strm| && forall s :: 0 <= s < |strm| ==> r[s] == Flat(BlockLineDests(kv, nE, strm[s], idxs[s]))
  {
    seq(|strm|, s requires 0 <= s < |strm| == |idxs| => Flat(BlockLineDests(kv, nE, strm[s], idxs[s])))
  }

  /** `set_input_k_idxs`, also used for values that are not transposed. */
  method SetInputRowIdxs(kv: nat, strm: seq<nat>, idxs: seq<seq<nat>>, n: nat, data: array<int>)
    requires |strm| == |idxs| && forall s :: 0 <= s < |idxs| ==> |idxs[s]| == n
    requires data.Length == Row(n, |strm|)
    modifies data
    ensures data[..] == Flat(AllRowDests(kv, strm, idxs))
  {
    ghost var rows := AllRowDests(kv, strm, idxs);
    for s := 0 to |strm|
      invariant Row(n, s) <= data.Length
      invariant data[..Row(n, s)] == Flat(rows[..s])
    {
      RowsApart(n, s, |strm|);
      RowsApart(n, s, s + 1);
      FlatMore(rows, s);
      FillRow(kv, strm[s], idxs[s], data, Row(n, s));
    }
    assert rows[..|strm|] == rows;
  }

  /** The inner loop: one stream's destinations, starting at `base`. */
  method FillRow(kv: nat, x: nat, idxs: seq<nat>, data: array<int>, base: nat)
    requires base + |idxs| <= data.Length
    modifies data
    ensures data[..base + |idxs|] == old(data[..base]) + RowDests(kv, x, idxs)
  {
    ghost var row := RowDests(kv, x, idxs);
    var offs := x * kv;
    for i := 0 to |idxs|
      invariant data[..base + i] == old(data[..base]) + row[..i]
    {
      data[base + i] := offs + idxs[i];
    }
    assert row[..|idxs|] == row;
  }

  /** `set_input_v_idxs` for transposed values. */
  method SetInputLineIdxs(kv: nat, nE: nat, strm: seq<nat>, idxs: seq<seq<nat>>, n: nat, data: array<int>)
    requires |strm| == |idxs| && forall s :: 0 <= s < |idxs| ==> |idxs[s]| == n
    requires data.Length == Row(Row(nE, n), |strm|)
    modifies data
    ensures data[..] == Flat(AllLineDests(kv, nE, strm, idxs))
  {
    ghost var rows := AllLineDests(kv, nE, strm, idxs);
    var w := Row(nE, n);
    for s := 0 to |strm|
      invariant Row(w, s) <= data.Length
      invariant data[..Row(w, s)] == Flat(rows[..s])
    {
      RowsApart(w, s, |strm|);
      RowsApart(w, s, s + 1);
      FlatMore(rows, s);
      FillBlock(kv, nE, strm[s], idxs[s], data, Row(w, s));
    }
    assert rows[..|strm|] == rows;
  }

  /** The two inner loops: the block of one stream, starting at `base`. */
  method FillBlock(kv: nat, nE: nat, x: nat, idxs: seq<nat>, data: array<int>, base: nat)
    requires base + Row(nE, |idxs|) <= data.Length
    modifies data
    ensures data[..base + Row(nE, |idxs|)] == old(data[..base]) + Flat(BlockLineDests(kv, nE, x, idxs))
  {
    ghost var lines := BlockLineDests(kv, nE, x, idxs);
    ghost var was := data[..base];
    for i := 0 to |idxs|
      invariant base + Row(nE, i) <= data.Length
      invariant data[..base + Row(nE, i)] == was + Flat(lines[..i])
    {
      RowsApart(nE, i, |idxs|);
      FlatMore(lines, i);
      AppendAssoc(was, Flat(lines[..i]), lines[i]);
      FillLine(kv, nE, x, idxs[i], data, base + Row(nE, i));
    }
    assert lines[..|idxs|] == lines;
  }

  /** The innermost loop: one element of every dimension's line. */
  method FillLine(kv: nat, nE: nat, x: nat, cell: nat, data: array<int>, base: nat)
    requires base + nE <= data.Length
    modifies data
    ensures data[..base + nE] == old(data[..base]) + LineDests(kv, nE, x, cell)
  {
    ghost var line := LineDests(kv, nE, x, cell);
    var offs := x * kv * nE;
    for j := 0 to nE
      invariant data[..base + j] == old(data[..base]) + line[..j]
    {
      data[base + j] := offs + j * kv + cell;
    }
    assert line[..nE] == line;
  }

  /** The element written for dimension d of token i of block s is the one its cell is read from. */
  lemma RowDestIsAddr(kv: nat, nE: nat, strm: seq<nat>, idxs: seq<seq<nat>>, n: nat, s: nat, i: nat, d: nat)
    requires |strm| == |idxs| && (forall k :: 0 <= k < |idxs| ==> |idxs[k]| == n) && s < |strm| && i < n
    ensures Row(n, s) + i < |Flat(AllRowDests(kv, strm, idxs))|
    ensures Flat(AllRowDests(kv, strm, idxs))[Row(n, s) + i] * nE + d == RowAddr(kv, nE, strm[s], idxs[s][i], d)
  {
    FlatAt(AllRowDests(kv, strm, idxs), n, s, i);
  }

  lemma LineDestIsAddr(kv: nat, nE: nat, strm: seq<nat>, idxs: seq<seq<nat>>, n: nat, s: nat, i: nat, d: nat)
    requires |strm| == |idxs| && (forall k :: 0 <= k < |idxs| ==> |idxs[k]| == n) && s < |strm| && i < n && d < nE
    ensures var all, at := Flat(AllLineDests(kv, nE, strm, idxs)), Row(Row(nE, n), s) + Row(nE, i) + d;
      at < |all| && all[at] == LineAddr(kv, nE, strm[s], idxs[s][i], d)
  {
    var rows := AllLineDests(kv, nE, strm, idxs);
    forall k | 0 <= k < |rows|
      ensures |rows[k]| == Row(nE, n)
    {
      FlatSize(BlockLineDests(kv, nE, strm[k], idxs[k]), nE);
    }
    FlatAt(BlockLineDests(kv, nE, strm[s], idxs[s]), nE, i, d);
    FlatAt(rows, Row(nE, n), s, Row(nE, i) + d);
  }

  function Times(k: nat, pad: nat): nat { k * pad }

  ghost predicate Multiple(n: nat, pad: nat) {
    exists k: nat :: n == Times(k, pad)
  }

  /** Round up to a multiple of pad. */
  function PadTo(n: nat, pad: nat): (r: nat)
    requires pad > 0
    ensures n <= r < n + pad && Multiple(r, pad)
  {
    var q := (n + pad - 1) / pad;
    assert q * pad <= n + pad - 1 < q * pad + pad;
    Times(q, pad)
  }

  /** One of the first k streams has an occupied cell at n or later. */
  ghost predicate Needs(streams: seq<seq<Cell>>, k: nat, n: int)
    requires k <= |streams|
  {
    exists s, i :: 0 <= s < k && 0 <= i < |streams[s]| && n <= i && streams[s][i].Used?
  }

  /** `get_n_kv`: no more columns than the largest stream has cells, and every occupied cell of
      every stream has one. */
  method GetNKv(streams: seq<seq<Cell>>, nPad: nat) returns (n: nat)
    ensures forall s, i :: 0 <= s < |streams| && 0 <= i < |streams[s]| && streams[s][i].Used? ==> i < n
    ensures streams != [] ==> Multiple(n, Max(nPad, 256)) || exists s :: 0 <= s < |streams| && n == |streams[s]|
    ensures streams != [] ==> exists s :: 0 <= s < |streams| && n <= |streams[s]|
    // no smaller number will do: one step less would miss a cell, or fall below the least number
    ensures streams != [] ==> n <= Max(nPad, 256) || Needs(streams, |streams|, n - Max(nPad, 256))
    ensures forall s :: 0 <= s < |streams| ==> n >= Min(|streams[s]|, Max(nPad, 256))
    ensures streams == [] ==> n == 0
  {
    n := 0;
    var pad := Max(nPad, 256);
    assert pad == Times(1, pad);
    for s := 0 to |streams|
      invariant forall t, i :: 0 <= t < s && 0 <= i < |streams[t]| && streams[t][i].Used? ==> i < n
      invariant s == 0 ==> n == 0
      invariant s > 0 ==> Multiple(n, pad) || exists t :: 0 <= t < s && n == |streams[t]|
      invariant s > 0 ==> exists t :: 0 <= t < s && n <= |streams[t]|
      invariant s > 0 ==> n <= pad || Needs(streams, s, n - pad)
      invariant forall t :: 0 <= t < s ==> n >= Min(|streams[t]|, pad)
    {
      var used := UsedMaxP1(streams[s]);
      var here := Min(|streams[s]|, Max(pad, PadTo(used, pad)));
      assert here > pad ==> used > here - pad && streams[s][used - 1].Used?;
      n := Max(here, n);
    }
  }
}
