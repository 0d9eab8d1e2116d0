/** Saving a checkpoint into a buffer, and the round trips as statements about bytes. */
module CheckpointBuffer {
  import opened Wrappers
  import opened KvCells
  import opened Rows
  import opened Checkpoint
  import opened HostIo
  import opened CheckpointRead
  import opened CheckpointBytes
  import opened CheckpointRoundTrip
  import opened CheckpointWhole

  /** The first i calls take no room from those behind them. */
  lemma StartOfPrefix(ops: seq<Op>, i: nat)
    requires i <= |ops|
    ensures Start(ops[..i], i) == Start(ops, i) <= Start(ops, |ops|)
  {
    assert ops[..i] + ops[i..] == ops;
    StartPrefix(ops[..i], ops[i..], i);
    StartsGrow(ops, i, |ops|);
  }

  lemma PrefixInMemory(ops: seq<Op>, i: nat, mem: Memory)
    requires i <= |ops| && AllInMemory(ops, mem)
    ensures AllInMemory(ops[..i], mem)
  {
    forall k {:trigger InMemory(ops[..i][k], mem)} | 0 <= k < i
      ensures InMemory(ops[..i][k], mem)
    {
      assert InMemory(ops[k], mem);
    }
  }

  /** One call of the writer; false stands for its exception. */
  method Issue(w: HostWriter, op: Op) returns (ok: bool)
    requires w.Valid()
    modifies w, w.buf
    ensures w.Valid() && ok == (old(w.at) + op.Size() <= w.buf.Length)
    ensures w.ops == (if ok then old(w.ops) + [op] else old(w.ops)) && w.at >= old(w.at)
    ensures SameFrom(old(w.buf[..]), w.buf[..], w.at)
  {
    match op {
      case Plain(data) => ok := w.Write(data);
      case Tensor(t, offset, size) => ok := w.WriteTensor(t, offset, size);
    }
  }

  /** The calls one after the other, up to the first that finds no room. */
  method IssueAll(w: HostWriter, ops: seq<Op>, ghost mem: Memory) returns (ok: bool)
    requires w.Valid() && w.ops == [] && AllInMemory(ops, mem)
    modifies w, w.buf
    ensures w.Valid() && AllInMemory(w.ops, mem) && (ok ==> w.ops == ops)
    ensures ok <==> Start(ops, |ops|) <= w.buf.Length
    ensures SameFrom(old(w.buf[..]), w.buf[..], w.at)
  {
    for i := 0 to |ops|
      invariant w.Valid() && w.ops == ops[..i]
      invariant SameFrom(old(w.buf[..]), w.buf[..], w.at)
    {
      StartOfPrefix(ops, i);
      StartOfPrefix(ops, i + 1);
      PrefixInMemory(ops, i, mem);
      ok := Issue(w, ops[i]);
      if !ok {
        return;
      }
      assert ops[..i + 1] == ops[..i] + [ops[i]];
    }
    assert ops[..|ops|] == ops;
    ok := true;
  }

  /** `state_write` into a host buffer: it succeeds exactly if the encoded dump fits, and then the
      buffer begins with it and is untouched behind. The writer is destroyed either way. */
  method SaveState(sh: Shape, swa: Swa, cells: seq<Cell>, data: seq<LayerData>, who: Option<nat>, buf: array<Byte>)
    returns (ok: bool, n: nat)
    requires DataValid(sh, |cells|, data)
    modifies buf
    ensures ok <==> |Coded(Dump(sh, swa, cells, data, who), Field)| <= buf.Length
    ensures ok ==> n <= buf.Length && buf[..n] == Coded(Dump(sh, swa, cells, data, who), Field)
                   && SameFrom(old(buf[..]), buf[..], n)
  {
    var rs, _ := FindRanges(cells, swa, who);
    DumpInBytes(sh, swa, cells, data, who, rs, Field);
    var ops, mem := Ops(Says(sh, cells, data, who, rs, Field)), Tensorial(data);
    var w := new HostWriter(buf);
    ok := IssueAll(w, ops, mem);
    w.Finish(mem);
    n := w.at;
  }

  /** After a round trip of one sequence that keeps the order, the calls leave the same bytes again. */
  lemma SameBytesAgain(s: Scene, rs: seq<Range>, rs': seq<Range>)
    requires s.Valid() && s.Picks() != [] && s.q < s.sh.nSeqMax && s.Fits() && s.InOrder()
    requires RangesValid(rs, |s.cells|) && Expand(rs) == s.Picks()
    ensures s.After().o == Done && DataValid(s.sh, |s.After().st.cells|, s.After().data)
    ensures var r := s.After();
      RangesValid(rs', |r.st.cells|)
      && Expand(rs') == Chosen(r.st.cells, s.cfg.swa, Some(s.q), 0, |r.st.cells|) ==>
      SameStreams(s.sh, s.cells, s.from, rs, r.st.cells, r.data, rs', Some(s.q))
  {
    RoundTrip(s);
    DumpInBytes(s.sh, s.swa, s.cells, s.from, Some(s.q), rs, Field);
    var r := s.After();
    if RangesValid(rs', |r.st.cells|) && Expand(rs') == Chosen(r.st.cells, s.cfg.swa, Some(s.q), 0, |r.st.cells|) {
      DumpInBytes(s.sh, s.cfg.swa, r.st.cells, r.data, Some(s.q), rs', Field);
    }
  }

  /** Writing either cache leaves the same bytes. */
  ghost predicate SameStreams(sh: Shape, cells: seq<Cell>, data: seq<LayerData>, rs: seq<Range>,
                              cells': seq<Cell>, data': seq<LayerData>, rs': seq<Range>, who: Option<nat>)
    requires DataValid(sh, |cells|, data) && DataValid(sh, |cells'|, data')
  {
    && RangesValid(rs, |cells|) && AllUsed(cells, Expand(rs))
    && RangesValid(rs', |cells'|) && AllUsed(cells', Expand(rs'))
    && var a, b := Ops(Says(sh, cells, data, who, rs, Field)), Ops(Says(sh, cells', data', who, rs', Field));
       AllInMemory(a, Tensorial(data)) && AllInMemory(b, Tensorial(data'))
       && Stream(a, Tensorial(data)) == Stream(b, Tensorial(data'))
  }

  /** Nor do the bytes of a whole cache change on the way through any other cache with room. */
  lemma SameBytesOfWhole(s: WholeScene, rs: seq<Range>, rs': seq<Range>)
    requires s.Valid() && s.Picks() != [] && |s.Picks()| <= |s.st.cells|
    requires RangesValid(rs, |s.cells|) && Expand(rs) == s.Picks()
    ensures s.After().o == Done && DataValid(s.sh, |s.After().st.cells|, s.After().data)
    ensures var r := s.After();
      RangesValid(rs', |r.st.cells|) && Expand(rs') == Chosen(r.st.cells, s.swa, None, 0, |r.st.cells|) ==>
      SameStreams(s.sh, s.cells, s.from, rs, r.st.cells, r.data, rs', None)
  {
    WholeRoundTrip(s);
    DumpInBytes(s.sh, s.swa, s.cells, s.from, None, rs, Field);
    var r := s.After();
    if RangesValid(rs', |r.st.cells|) && Expand(rs') == Chosen(r.st.cells, s.swa, None, 0, |r.st.cells|) {
      DumpInBytes(s.sh, s.swa, r.st.cells, r.data, None, rs', Field);
    }
  }
}
