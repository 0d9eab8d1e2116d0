/** Prefill in two loop orders: ubatch by ubatch, and layer by layer with the hidden rows of every
    ubatch parked in one of two banks. The layers are arbitrary functions. */
module LayerMajor {
  import opened Rows

  datatype Ubatch = Ubatch(tokens: seq<int>, output: seq<bool>)

  /** M is the memory metadata, V what a graph sees of it, S a layer's own state, H a hidden row,
      Y a row of logits. */
  datatype Net<!M, !V, !S, !H, !Y> = Net(
    place: (M, Ubatch) -> M,
    see: (M, Ubatch) -> V,
    embed: (Ubatch, V) -> seq<H>,
    layer: (nat, Ubatch, V, S, seq<H>) -> (S, seq<H>),
    head: (Ubatch, V, seq<H>) -> seq<Y>)

  /** One prefill: everything its outcome depends on. The grid of layers and ubatches is filled by
      two dependencies only: a layer's state comes from the ubatch before, a hidden row from the
      layer below. */
  datatype Run<!M, !V, !S, !H, !Y> = Run(
    net: Net<M, V, S, H, Y>, meta0: M, states0: seq<S>, ubs: seq<Ubatch>, all: bool)
  {
    function Meta(u: nat): M
      requires u <= |ubs|
    {
      if u == 0 then meta0 else net.place(Meta(u - 1), ubs[u - 1])
    }

    /** What ubatch u sees: the metadata once it and its predecessors are placed. */
    function View(u: nat): V
      requires u < |ubs|
    {
      net.see(Meta(u + 1), ubs[u])
    }

    /** The state of layer l after u ubatches. */
    function State(l: nat, u: nat): S
      requires l < |states0| && u <= |ubs|
      decreases u, l
    {
      if u == 0 then states0[l]
      else net.layer(l, ubs[u - 1], View(u - 1), State(l, u - 1), Hidden(l, u - 1)).0
    }

    /** The rows of ubatch u that enter layer l. */
    function Hidden(l: nat, u: nat): seq<H>
      requires l <= |states0| && u < |ubs|
      decreases u, l
    {
      if l == 0 then net.embed(ubs[u], View(u))
      else net.layer(l - 1, ubs[u], View(u), State(l - 1, u), Hidden(l - 1, u)).1
    }

    function Logits(u: nat): seq<Y>
      requires u < |ubs|
    {
      net.head(ubs[u], View(u), Hidden(|states0|, u))
    }

    /** The rows ubatch u puts out. */
    function Outputs(u: nat): nat
      requires u < |ubs|
    {
      if all then |ubs[u].tokens| else Flags(ubs[u].output, |ubs[u].output|)
    }

    /** The rows put out by the ubatches before u. */
    function Before(u: nat): nat
      requires u <= |ubs|
    {
      if u == 0 then 0 else Before(u - 1) + Outputs(u - 1)
    }

    /** Tensors have the shapes of their ubatches: one row per token between layers, one row of
        logits per output. */
    ghost predicate Shaped() {
      (forall l: nat, u: nat :: l < |states0| && u < |ubs| ==> |Hidden(l, u)| == |ubs[u].tokens|)
      && forall u: nat :: u < |ubs| ==> |Logits(u)| == Outputs(u)
    }

    /** Every layer's state after u ubatches. */
    ghost predicate StatesAfter(states: seq<S>, u: nat)
      requires u <= |ubs|
    {
      |states| == |states0| && forall l: nat :: l < |states| ==> states[l] == State(l, u)
    }

    /** The logits buffer after the first u ubatches: each block of rows right after the last. */
    ghost function Buffer(buf: seq<Y>, u: nat): (r: seq<Y>)
      requires Shaped() && u <= |ubs| && Before(u) <= |buf|
      ensures |r| == |buf|
    {
      if u == 0 then buf
      else Splice(Buffer(buf, u - 1), Before(u - 1), Logits(u - 1))
    }
  }

  function Flags(output: seq<bool>, n: nat): nat
    requires n <= |output|
  {
    if n == 0 then 0 else Flags(output, n - 1) + if output[n - 1] then 1 else 0
  }

  lemma {:induction false} BeforeGrows(run: Run, u: nat, w: nat)
    requires u <= w <= |run.ubs|
    ensures run.Before(u) <= run.Before(w)
    decreases w
  {
    if u < w {
      BeforeGrows(run, u, w - 1);
    }
  }

  method CountOutputs(ub: Ubatch, all: bool) returns (n: nat)
    ensures n == if all then |ub.tokens| else Flags(ub.output, |ub.output|)
  {
    if all {
      return |ub.tokens|;
    }
    n := 0;
    for i := 0 to |ub.output|
      invariant n == Flags(ub.output, i)
    {
      n := n + if ub.output[i] then 1 else 0;
    }
  }

  lemma EmptySplice<T>(s: seq<T>, off: nat)
    requires off <= |s|
    ensures Splice(s, off, []) == s
  {
  }

  /** Copy the logits of ubatch u behind those of its predecessors; nothing to do without outputs. */
  method Emit<M, V, S, H, Y>(run: Run<M, V, S, H, Y>, u: nat, prev: nat, n: nat, rows: seq<Y>, logits: array<Y>,
                             ghost buf: seq<Y>)
    requires run.Shaped() && u < |run.ubs| && prev == run.Before(u) && n == run.Outputs(u) && rows == run.Logits(u)
    requires run.Before(u + 1) <= logits.Length == |buf| && logits[..] == run.Buffer(buf, u)
    modifies logits
    ensures logits[..] == run.Buffer(buf, u + 1)
  {
    if n > 0 {
      CopyInto(logits, prev, rows);
    } else {
      assert rows == [];
      EmptySplice(logits[..], prev);
    }
  }

  // ---- ubatch by ubatch ----

  /** One ubatch through every layer. */
  method AllLayers<M, V, S, H, Y>(run: Run<M, V, S, H, Y>, u: nat, view: V, states: array<S>) returns (h: seq<H>)
    requires u < |run.ubs| && view == run.View(u) && run.StatesAfter(states[..], u)
    modifies states
    ensures run.StatesAfter(states[..], u + 1)
    ensures h == run.Hidden(|run.states0|, u)
  {
    h := run.net.embed(run.ubs[u], view);
    for l := 0 to states.Length
      invariant h == run.Hidden(l, u)
      invariant forall i: nat :: i < l ==> states[i] == run.State(i, u + 1)
      invariant forall i: nat :: l <= i < states.Length ==> states[i] == run.State(i, u)
    {
      var out := run.net.layer(l, run.ubs[u], view, states[l], h);
      states[l] := out.0;
      h := out.1;
    }
  }

  /** The loop of `decode`: place the ubatch, run the whole graph, append its logits. */
  method UbatchMajor<M, V, S, H, Y>(run: Run<M, V, S, H, Y>, states: array<S>, logits: array<Y>) returns (meta: M)
    requires states as object != logits as object
    requires states[..] == run.states0 && run.Shaped() && run.Before(|run.ubs|) <= logits.Length
    modifies states, logits
    ensures meta == run.Meta(|run.ubs|)
    ensures run.StatesAfter(states[..], |run.ubs|)
    ensures logits[..] == run.Buffer(old(logits[..]), |run.ubs|)
  {
    ghost var buf := logits[..];
    meta := run.meta0;
    var prev := 0;
    for u := 0 to |run.ubs|
      invariant meta == run.Meta(u) && prev == run.Before(u) <= logits.Length
      invariant run.StatesAfter(states[..], u)
      invariant logits[..] == run.Buffer(buf, u)
    {
      BeforeGrows(run, u + 1, |run.ubs|);
      var n := CountOutputs(run.ubs[u], run.all);
      meta := run.net.place(meta, run.ubs[u]);
      var view := run.net.see(meta, run.ubs[u]);
      var h := AllLayers(run, u, view, states);
      Emit(run, u, prev, n, run.net.head(run.ubs[u], view, h), logits, buf);
      prev := prev + n;
    }
  }

  // ---- layer by layer ----

  /** `memplan` capture: the views are taken while the ubatches are placed on trial. */
  method Freeze<M, V, S, H, Y>(run: Run<M, V, S, H, Y>) returns (views: seq<V>)
    ensures |views| == |run.ubs| && forall u: nat :: u < |views| ==> views[u] == run.View(u)
  {
    views := [];
    var meta := run.meta0;
    for u := 0 to |run.ubs|
      invariant meta == run.Meta(u)
      invariant |views| == u && forall i: nat :: i < u ==> views[i] == run.View(i)
    {
      meta := run.net.place(meta, run.ubs[u]);
      views := views + [run.net.see(meta, run.ubs[u])];
    }
  }

  /** A ubatch fits its slot of the bank (`moe_s2_bank_slice_of`). */
  predicate Fits(ub: Ubatch, width: nat) {
    0 < |ub.tokens| <= width
  }

  /** The first u slots of the bank hold the rows that enter layer l. */
  ghost predicate Parked<M, V, S, H, Y>(run: Run<M, V, S, H, Y>, bank: seq<H>, width: nat, l: nat, u: nat)
    requires l <= |run.states0| && u <= |run.ubs|
  {
    forall i: nat :: i < u ==> InSlot(bank, width, i, run.Hidden(l, i))
  }

  ghost predicate InSlot<H>(bank: seq<H>, width: nat, i: nat, rows: seq<H>) {
    Row(width, i) + |rows| <= |bank| && bank[Row(width, i)..Row(width, i) + |rows|] == rows
  }

  lemma SlotFits(width: nat, i: nat, k: nat, size: nat, n: nat)
    requires i < k && Row(width, k) <= size && n <= width
    ensures Row(width, i) + n <= size
  {
    RowsApart(width, i, k);
  }

  /** Writing slot u leaves the slots before it alone. */
  lemma ParkKeeps<M, V, S, H, Y>(run: Run<M, V, S, H, Y>, bank: seq<H>, width: nat, l: nat, u: nat, rows: seq<H>)
    requires l <= |run.states0| && u < |run.ubs| && rows == run.Hidden(l, u)
    requires Row(width, u) + |rows| <= |bank|
    requires forall i: nat :: i < u ==> |run.Hidden(l, i)| <= width
    requires Parked(run, bank, width, l, u)
    ensures Parked(run, Splice(bank, Row(width, u), rows), width, l, u + 1)
  {
    var next := Splice(bank, Row(width, u), rows);
    forall i: nat | i < u + 1
      ensures InSlot(next, width, i, run.Hidden(l, i))
    {
      if i < u {
        assert InSlot(bank, width, i, run.Hidden(l, i));
        RowsApart(width, i, u);
      }
    }
  }

  /** Layers below r have seen every ubatch, layer r the first u, the others none. */
  ghost predicate SweptTo<M, V, S, H, Y>(run: Run<M, V, S, H, Y>, states: seq<S>, r: nat, u: nat)
    requires u <= |run.ubs|
  {
    |states| == |run.states0|
    && (forall l: nat :: l < r && l < |states| ==> states[l] == run.State(l, |run.ubs|))
    && (r < |states| ==> states[r] == run.State(r, u))
    && forall l: nat :: r < l < |states| ==> states[l] == run.State(l, 0)
  }

  /** Whether range r moves rows through a bank at all: only a one-layer model does not. */
  predicate UsesBank(r: nat, layers: nat) {
    r > 0 || r + 1 < layers
  }

  /** Where range r reads its input rows, and what it must find there. */
  ghost predicate InputReady<M, V, S, H, Y>(run: Run<M, V, S, H, Y>, bank: seq<H>, width: nat, r: nat)
    requires r <= |run.states0|
  {
    r > 0 ==> Parked(run, bank, width, r, |run.ubs|)
  }

  ghost predicate OutputParked<M, V, S, H, Y>(run: Run<M, V, S, H, Y>, bank: seq<H>, width: nat, r: nat, u: nat)
    requires r < |run.states0| && u <= |run.ubs|
  {
    r + 1 < |run.states0| ==> Parked(run, bank, width, r + 1, u)
  }

  ghost predicate AllFit<M, V, S, H, Y>(run: Run<M, V, S, H, Y>, width: nat) {
    FitUpTo(run, width, |run.ubs|)
  }

  ghost predicate FitUpTo<M, V, S, H, Y>(run: Run<M, V, S, H, Y>, width: nat, n: nat)
    requires n <= |run.ubs|
  {
    forall u: nat :: u < n ==> Fits(run.ubs[u], width)
  }

  /** `process_ubatch_range`: one layer of one ubatch, its input out of one bank and its output into
      the other. */
  method ProcessRange<M, V, S, H, Y>(run: Run<M, V, S, H, Y>, r: nat, u: nat, view: V, width: nat,
                                     states: array<S>, bankIn: array<H>, bankOut: array<H>)
    returns (ok: bool, rows: seq<H>)
    requires states as object != bankIn as object && states as object != bankOut as object && bankIn != bankOut
    requires r < |run.states0| && u < |run.ubs| && view == run.View(u) && run.Shaped()
    requires Row(width, |run.ubs|) <= bankIn.Length && Row(width, |run.ubs|) <= bankOut.Length
    requires SweptTo(run, states[..], r, u)
    requires InputReady(run, bankIn[..], width, r)
    requires OutputParked(run, bankOut[..], width, r, u)
    requires UsesBank(r, |run.states0|) ==> FitUpTo(run, width, u)
    modifies states, bankOut
    ensures ok == (UsesBank(r, |run.states0|) ==> Fits(run.ubs[u], width))
    ensures ok ==> rows == run.Hidden(r + 1, u)
    ensures ok ==> SweptTo(run, states[..], r, u + 1)
    ensures ok ==> OutputParked(run, bankOut[..], width, r, u + 1)
  {
    var ub, at := run.ubs[u], Row(width, u);
    var first, last := r == 0, r + 1 == states.Length;
    if (!first || !last) && !Fits(ub, width) {
      return false, [];
    }
    var h;
    if first {
      h := run.net.embed(ub, view);
    } else {
      SlotFits(width, u, |run.ubs|, bankIn.Length, |ub.tokens|);
      h := bankIn[at..at + |ub.tokens|];
      assert InSlot(bankIn[..], width, u, run.Hidden(r, u));
    }
    var out := run.net.layer(r, ub, view, states[r], h);
    states[r] := out.0;
    rows := out.1;
    ok := true;
    if !last {
      Park(run, r + 1, u, width, bankOut, rows);
    }
  }

  /** The boundary copy into slot u. */
  method Park<M, V, S, H, Y>(run: Run<M, V, S, H, Y>, l: nat, u: nat, width: nat, bank: array<H>, rows: seq<H>)
    requires l < |run.states0| && u < |run.ubs| && rows == run.Hidden(l, u) && run.Shaped()
    requires Row(width, |run.ubs|) <= bank.Length
    requires FitUpTo(run, width, u + 1)
    requires Parked(run, bank[..], width, l, u)
    modifies bank
    ensures Parked(run, bank[..], width, l, u + 1)
  {
    assert |rows| == |run.ubs[u].tokens|;
    SlotFits(width, u, |run.ubs|, bank.Length, |rows|);
    forall i: nat | i < u
      ensures |run.Hidden(l, i)| <= width
    {
      assert Fits(run.ubs[i], width);
    }
    ParkKeeps(run, bank[..], width, l, u, rows);
    CopyInto(bank, Row(width, u), rows);
  }

  /** The rows of the earlier ubatches, counted again for every ubatch of the last range. */
  method CountBefore<M, V, S, H, Y>(run: Run<M, V, S, H, Y>, u: nat) returns (n: nat)
    requires u < |run.ubs|
    ensures n == run.Before(u)
  {
    n := 0;
    for j := 0 to u
      invariant n == run.Before(j)
    {
      var m := CountOutputs(run.ubs[j], run.all);
      n := n + m;
    }
  }

  /** The end of the last range for one ubatch. */
  method EmitLast<M, V, S, H, Y>(run: Run<M, V, S, H, Y>, u: nat, view: V, rows: seq<H>, logits: array<Y>,
                                 ghost buf: seq<Y>)
    requires run.Shaped() && u < |run.ubs| && view == run.View(u) && rows == run.Hidden(|run.states0|, u)
    requires run.Before(u + 1) <= logits.Length == |buf| && logits[..] == run.Buffer(buf, u)
    modifies logits
    ensures logits[..] == run.Buffer(buf, u + 1)
  {
    var n := CountOutputs(run.ubs[u], run.all);
    var prev := CountBefore(run, u);
    Emit(run, u, prev, n, run.net.head(run.ubs[u], view, rows), logits, buf);
  }

  /** The logits buffer: filled up to ubatch u in the last range, untouched in the ranges before. */
  ghost predicate LogitsAt<M, V, S, H, Y>(run: Run<M, V, S, H, Y>, r: nat, logits: seq<Y>, buf: seq<Y>, u: nat)
    requires run.Shaped() && u <= |run.ubs|
  {
    run.Before(u) <= |buf| && logits == if r + 1 == |run.states0| then run.Buffer(buf, u) else buf
  }

  /** Everything below layer r is done, and its rows wait in the given bank. */
  ghost predicate DoneBelow<M, V, S, H, Y>(run: Run<M, V, S, H, Y>, r: nat, states: seq<S>, bank: seq<H>, width: nat,
                                           logits: seq<Y>, buf: seq<Y>)
    requires run.Shaped() && r <= |run.states0|
  {
    SweptTo(run, states, r, 0) && (r < |run.states0| ==> InputReady(run, bank, width, r))
    && run.Before(|run.ubs|) <= |buf|
    && logits == if r == |run.states0| then run.Buffer(buf, |run.ubs|) else buf
  }

  /** Range r has been through the first u ubatches. */
  ghost predicate Midway<M, V, S, H, Y>(run: Run<M, V, S, H, Y>, r: nat, u: nat, states: seq<S>, bankIn: seq<H>,
                                        bankOut: seq<H>, width: nat, logits: seq<Y>, buf: seq<Y>)
    requires run.Shaped() && r < |run.states0| && u <= |run.ubs|
  {
    SweptTo(run, states, r, u) && OutputParked(run, bankOut, width, r, u) && InputReady(run, bankIn, width, r)
    && (UsesBank(r, |run.states0|) ==> FitUpTo(run, width, u))
    && LogitsAt(run, r, logits, buf, u) && run.Before(|run.ubs|) <= |buf|
  }

  /** One ubatch of one range. */
  method SweepOne<M, V, S, H, Y>(run: Run<M, V, S, H, Y>, r: nat, u: nat, view: V, width: nat, states: array<S>,
                                 bankIn: array<H>, bankOut: array<H>, logits: array<Y>, ghost buf: seq<Y>)
    returns (ok: bool)
    requires states as object != bankIn as object && states as object != bankOut as object && bankIn != bankOut
    requires logits as object !in {states as object, bankIn as object, bankOut as object}
    requires r < |run.states0| && u < |run.ubs| && view == run.View(u) && run.Shaped()
    requires Row(width, |run.ubs|) <= bankIn.Length && Row(width, |run.ubs|) <= bankOut.Length
    requires Midway(run, r, u, states[..], bankIn[..], bankOut[..], width, logits[..], buf)
    modifies states, bankOut, logits
    ensures ok == (UsesBank(r, |run.states0|) ==> Fits(run.ubs[u], width))
    ensures ok ==> Midway(run, r, u + 1, states[..], bankIn[..], bankOut[..], width, logits[..], buf)
  {
    BeforeGrows(run, u + 1, |run.ubs|);
    var rows;
    ok, rows := ProcessRange(run, r, u, view, width, states, bankIn, bankOut);
    if ok && r + 1 == states.Length {
      EmitLast(run, u, view, rows, logits, buf);
    }
  }

  /** One range over every ubatch. */
  method Sweep<M, V, S, H, Y>(run: Run<M, V, S, H, Y>, r: nat, views: seq<V>, width: nat, states: array<S>,
                              bankIn: array<H>, bankOut: array<H>, logits: array<Y>, ghost buf: seq<Y>)
    returns (ok: bool)
    requires states as object != bankIn as object && states as object != bankOut as object && bankIn != bankOut
    requires logits as object !in {states as object, bankIn as object, bankOut as object}
    requires r < |run.states0| && run.Shaped()
    requires |views| == |run.ubs| && forall u: nat :: u < |views| ==> views[u] == run.View(u)
    requires Row(width, |run.ubs|) <= bankIn.Length && Row(width, |run.ubs|) <= bankOut.Length
    requires DoneBelow(run, r, states[..], bankIn[..], width, logits[..], buf)
    modifies states, bankOut, logits
    ensures ok == (UsesBank(r, |run.states0|) ==> AllFit(run, width))
    ensures ok ==> DoneBelow(run, r + 1, states[..], bankOut[..], width, logits[..], buf)
  {
    for u := 0 to |run.ubs|
      invariant Midway(run, r, u, states[..], bankIn[..], bankOut[..], width, logits[..], buf)
    {
      ok := SweepOne(run, r, u, views[u], width, states, bankIn, bankOut, logits, buf);
      if !ok {
        return;
      }
    }
    ok := true;
  }

  /** The loops of `decode_layermajor`: freeze the views, place every ubatch, then sweep layer after
      layer, reading one bank and writing the other in turn. */
  method LayerByLayer<M, V, S, H, Y>(run: Run<M, V, S, H, Y>, width: nat, states: array<S>,
                                     bank0: array<H>, bank1: array<H>, logits: array<Y>)
    returns (ok: bool, meta: M)
    requires states as object != bank0 as object && states as object != bank1 as object && bank0 != bank1
    requires logits as object !in {states as object, bank0 as object, bank1 as object}
    requires states[..] == run.states0 && |run.states0| > 0 && run.Shaped()
    requires run.Before(|run.ubs|) <= logits.Length
    requires Row(width, |run.ubs|) <= bank0.Length && Row(width, |run.ubs|) <= bank1.Length
    modifies states, bank0, bank1, logits
    ensures meta == run.Meta(|run.ubs|)
    ensures ok == (|run.states0| > 1 ==> AllFit(run, width))
    ensures ok ==> run.StatesAfter(states[..], |run.ubs|)
    ensures ok ==> logits[..] == run.Buffer(old(logits[..]), |run.ubs|)
  {
    ghost var buf := logits[..];
    var views := Freeze(run);
    meta := PlaceAll(run);
    for r := 0 to states.Length
      invariant DoneBelow(run, r, states[..], if r % 2 == 0 then bank1[..] else bank0[..], width, logits[..], buf)
      invariant r > 0 && states.Length > 1 ==> AllFit(run, width)
    {
      ok := SweepInTurn(run, r, views, width, states, bank0, bank1, logits, buf);
      if !ok {
        return;
      }
    }
    ok := true;
  }

  /** Range r reads bank (r - 1) mod 2 and writes bank r mod 2. */
  method SweepInTurn<M, V, S, H, Y>(run: Run<M, V, S, H, Y>, r: nat, views: seq<V>, width: nat, states: array<S>,
                                    bank0: array<H>, bank1: array<H>, logits: array<Y>, ghost buf: seq<Y>)
    returns (ok: bool)
    requires states as object != bank0 as object && states as object != bank1 as object && bank0 != bank1
    requires logits as object !in {states as object, bank0 as object, bank1 as object}
    requires r < |run.states0| && run.Shaped()
    requires |views| == |run.ubs| && forall u: nat :: u < |views| ==> views[u] == run.View(u)
    requires Row(width, |run.ubs|) <= bank0.Length && Row(width, |run.ubs|) <= bank1.Length
    requires DoneBelow(run, r, states[..], if r % 2 == 0 then bank1[..] else bank0[..], width, logits[..], buf)
    modifies states, bank0, bank1, logits
    ensures ok == (UsesBank(r, |run.states0|) ==> AllFit(run, width))
    ensures ok ==> DoneBelow(run, r + 1, states[..], if (r + 1) % 2 == 0 then bank1[..] else bank0[..], width,
                             logits[..], buf)
  {
    if r % 2 == 0 {
      ok := Sweep(run, r, views, width, states, bank1, bank0, logits, buf);
    } else {
      ok := Sweep(run, r, views, width, states, bank0, bank1, logits, buf);
    }
  }

  /** Every ubatch placed, in order. */
  method PlaceAll<M, V, S, H, Y>(run: Run<M, V, S, H, Y>) returns (meta: M)
    ensures meta == run.Meta(|run.ubs|)
  {
    meta := run.meta0;
    for u := 0 to |run.ubs|
      invariant meta == run.Meta(u)
    {
      meta := run.net.place(meta, run.ubs[u]);
    }
  }

  // ---- the two orders agree ----

  /** Rows behind the last block are not touched. */
  lemma {:induction false} BufferTail<M, V, S, H, Y>(run: Run<M, V, S, H, Y>, buf: seq<Y>, u: nat, k: nat)
    requires run.Shaped() && u <= |run.ubs| && run.Before(u) <= k < |buf|
    ensures run.Buffer(buf, u)[k] == buf[k]
    decreases u
  {
    if u > 0 {
      BufferTail(run, buf, u - 1, k);
    }
  }

  /** One more block: in place at the end, and nothing in front of it touched. */
  lemma BufferStep<M, V, S, H, Y>(run: Run<M, V, S, H, Y>, buf: seq<Y>, u: nat, k: nat)
    requires run.Shaped() && u < |run.ubs| && k < run.Before(u + 1) <= |buf|
    ensures var off := run.Before(u);
            run.Buffer(buf, u + 1)[k] == if k < off then run.Buffer(buf, u)[k] else run.Logits(u)[k - off]
  {
    var off, rows := run.Before(u), run.Logits(u);
    var next := Splice(run.Buffer(buf, u), off, rows);
    if off <= k {
      assert next[off..off + |rows|][k - off] == next[k];
    }
  }

  /** What is in front of the next block stays. */
  lemma {:induction false} BufferKeeps<M, V, S, H, Y>(run: Run<M, V, S, H, Y>, buf: seq<Y>, u: nat, w: nat, k: nat)
    requires run.Shaped() && u <= w <= |run.ubs| && k < run.Before(u) <= run.Before(w) <= |buf|
    ensures run.Buffer(buf, w)[k] == run.Buffer(buf, u)[k]
    decreases w
  {
    if u < w {
      BeforeGrows(run, u, w - 1);
      BufferKeeps(run, buf, u, w - 1, k);
      BufferStep(run, buf, w - 1, k);
    }
  }

  /** Every block of logits ends up at the offset its predecessors' outputs add up to. */
  lemma BufferAt<M, V, S, H, Y>(run: Run<M, V, S, H, Y>, buf: seq<Y>, u: nat, i: nat, k: nat)
    requires run.Shaped() && i < u <= |run.ubs| && run.Before(u) <= |buf|
    requires run.Before(i) <= k < run.Before(i + 1)
    ensures k < run.Before(u)
    ensures k - run.Before(i) < |run.Logits(i)| && run.Buffer(buf, u)[k] == run.Logits(i)[k - run.Before(i)]
  {
    BeforeGrows(run, i + 1, u);
    BufferKeeps(run, buf, i + 1, u, k);
    BufferStep(run, buf, i, k);
  }

  /** Whatever the layers compute, the two drivers leave the same layer states and the same logits
      in the same places. */
  method OrdersAgree<M, V, S, H, Y>(run: Run<M, V, S, H, Y>, width: nat, s1: array<S>, s2: array<S>,
                                    bank0: array<H>, bank1: array<H>, l1: array<Y>, l2: array<Y>)
    returns (ok: bool, m1: M, m2: M)
    requires s1 != s2 && l1 != l2 && bank0 != bank1
    requires {s1 as object, s2 as object} !! {bank0 as object, bank1 as object}
    requires {l1 as object, l2 as object} !! {s1 as object, s2 as object, bank0 as object, bank1 as object}
    requires s1[..] == s2[..] == run.states0 && |run.states0| > 0 && run.Shaped()
    requires l1[..] == l2[..] && run.Before(|run.ubs|) <= l1.Length
    requires Row(width, |run.ubs|) <= bank0.Length && Row(width, |run.ubs|) <= bank1.Length
    modifies s1, s2, bank0, bank1, l1, l2
    ensures m1 == m2
    ensures AllFit(run, width) ==> ok
    ensures ok ==> s1[..] == s2[..] && l1[..] == l2[..]
  {
    m1 := UbatchMajor(run, s1, l1);
    ok, m2 := LayerByLayer(run, width, s2, bank0, bank1, l2);
  }
}
