/** What the grid of layers and ubatches means, seen through a net that computes nothing but writes
    down every call: which ubatches the graph of each one sees, and in which order the calls of each
    layer and of each ubatch are made. */
module LayerTrace {
  import opened Rows
  import opened LayerMajor

  /** The ubatches in the memory, and the one the graph is for. */
  datatype Seen = Seen(placed: seq<Ubatch>, own: Ubatch)

  /** One call: of the embedding, or of a layer, with how many calls its rows had been through and how
      many its state. */
  datatype Call =
    | Embedding(ub: Ubatch, view: Seen)
    | Layer(layer: nat, ub: Ubatch, view: Seen, below: nat, earlier: nat)

  datatype Answer = Answer(ub: Ubatch, view: Seen, calls: seq<Call>)

  /** The state of a layer and the rows of a ubatch are the calls they have been through. */
  ghost predicate Records(run: Run<seq<Ubatch>, Seen, seq<Call>, Call, Answer>) {
    var net := run.net;
    && (forall m, x :: net.place(m, x) == m + [x])
    && (forall m, x :: net.see(m, x) == Seen(m, x))
    && (forall x, v :: net.embed(x, v) == [Embedding(x, v)])
    && (forall l, x, v, s, h {:trigger net.layer(l, x, v, s, h)} ::
          net.layer(l, x, v, s, h) == (s + [Layer(l, x, v, |h|, |s|)], h + [Layer(l, x, v, |h|, |s|)]))
    && (forall x, v, h :: net.head(x, v, h) == [Answer(x, v, h)])
    && forall l :: 0 <= l < |run.states0| ==> run.states0[l] == []
  }

  lemma {:induction false} PlacedInOrder(run: Run<seq<Ubatch>, Seen, seq<Call>, Call, Answer>, u: nat)
    requires Records(run) && u <= |run.ubs|
    ensures run.Meta(u) == run.meta0 + run.ubs[..u]
  {
    if u > 0 {
      PlacedInOrder(run, u - 1);
      assert run.ubs[..u] == run.ubs[..u - 1] + [run.ubs[u - 1]];
    } else {
      assert run.meta0 + run.ubs[..0] == run.meta0;
    }
  }

  /** A graph sees its own ubatch and those before it, on top of what was there, and no later one. */
  lemma SeesItself(run: Run<seq<Ubatch>, Seen, seq<Call>, Call, Answer>, u: nat)
    requires Records(run) && u < |run.ubs|
    ensures run.View(u) == Seen(run.meta0 + run.ubs[..u + 1], run.ubs[u])
  {
    PlacedInOrder(run, u + 1);
  }

  /** The call of layer l for ubatch u, as it must be. */
  function Due(run: Run<seq<Ubatch>, Seen, seq<Call>, Call, Answer>, l: nat, u: nat): Call
    requires u < |run.ubs|
  {
    Layer(l, run.ubs[u], Seen(run.meta0 + run.ubs[..u + 1], run.ubs[u]), l + 1, u)
  }

  /** The calls the rows of ubatch u have been through below layer l. */
  ghost predicate Passed(run: Run<seq<Ubatch>, Seen, seq<Call>, Call, Answer>, calls: seq<Call>, l: nat, u: nat)
    requires u < |run.ubs|
  {
    && |calls| == l + 1
    && calls[0] == Embedding(run.ubs[u], Seen(run.meta0 + run.ubs[..u + 1], run.ubs[u]))
    && forall k :: 0 <= k < l ==> calls[k + 1] == Due(run, k, u)
  }

  /** The calls layer l has made for the first u ubatches. */
  ghost predicate Met(run: Run<seq<Ubatch>, Seen, seq<Call>, Call, Answer>, calls: seq<Call>, l: nat, u: nat)
    requires u <= |run.ubs|
  {
    |calls| == u && forall i :: 0 <= i < u ==> calls[i] == Due(run, l, i)
  }

  lemma MetsMore(run: Run<seq<Ubatch>, Seen, seq<Call>, Call, Answer>, l: nat, u: nat)
    requires Records(run) && l < |run.states0| && u < |run.ubs|
    requires Met(run, run.State(l, u), l, u) && Passed(run, run.Hidden(l, u), l, u)
    ensures Met(run, run.State(l, u + 1), l, u + 1)
  {
    SeesItself(run, u);
    assert run.State(l, u + 1) == run.State(l, u) + [Due(run, l, u)];
  }

  lemma PassesMore(run: Run<seq<Ubatch>, Seen, seq<Call>, Call, Answer>, l: nat, u: nat)
    requires Records(run) && l < |run.states0| && u < |run.ubs|
    requires Met(run, run.State(l, u), l, u) && Passed(run, run.Hidden(l, u), l, u)
    ensures Passed(run, run.Hidden(l + 1, u), l + 1, u)
  {
    SeesItself(run, u);
    assert run.Hidden(l + 1, u) == run.Hidden(l, u) + [Due(run, l, u)];
  }

  /** A layer has met the ubatches one after the other, each with rows that had been through the
      embedding and all layers below; the rows of a ubatch have met the layers one after the other, each
      in the state the ubatches before had left. */
  lemma {:induction false} GridRecorded(run: Run<seq<Ubatch>, Seen, seq<Call>, Call, Answer>, l: nat, u: nat)
    requires Records(run)
    ensures l < |run.states0| && u <= |run.ubs| ==> Met(run, run.State(l, u), l, u)
    ensures l <= |run.states0| && u < |run.ubs| ==> Passed(run, run.Hidden(l, u), l, u)
    decreases u, l
  {
    if l < |run.states0| && 0 < u <= |run.ubs| {
      GridRecorded(run, l, u - 1);
      MetsMore(run, l, u - 1);
    }
    if l <= |run.states0| && u < |run.ubs| {
      SeesItself(run, u);
      if l > 0 {
        GridRecorded(run, l - 1, u);
        PassesMore(run, l - 1, u);
      }
    }
  }

  /** The logits of ubatch u come of its rows after the last layer. */
  lemma LogitsRecorded(run: Run<seq<Ubatch>, Seen, seq<Call>, Call, Answer>, u: nat)
    requires Records(run) && u < |run.ubs|
    ensures |run.Logits(u)| == 1
    ensures var a := run.Logits(u)[0];
      && a.ub == run.ubs[u] && a.view == Seen(run.meta0 + run.ubs[..u + 1], run.ubs[u])
      && Passed(run, a.calls, |run.states0|, u)
  {
    GridRecorded(run, |run.states0|, u);
    SeesItself(run, u);
  }

  // ---- the rows put out ----

  function Raised(output: seq<bool>, n: nat): set<nat>
    requires n <= |output|
  {
    set i: nat | i < n && output[i]
  }

  lemma {:induction false} FlagsAreRaised(output: seq<bool>, n: nat)
    requires n <= |output|
    ensures Flags(output, n) == |Raised(output, n)|
  {
    if n > 0 {
      FlagsAreRaised(output, n - 1);
      assert Raised(output, n) == Raised(output, n - 1) + if output[n - 1] then {n - 1} else {};
    } else {
      assert Raised(output, 0) == {};
    }
  }

  /** A ubatch puts out a row per token if all are asked for, else one per raised flag. */
  lemma OutputsAre(run: Run, u: nat)
    requires u < |run.ubs|
    ensures run.Outputs(u) == if run.all then |run.ubs[u].tokens|
                              else |Raised(run.ubs[u].output, |run.ubs[u].output|)|
  {
    FlagsAreRaised(run.ubs[u].output, |run.ubs[u].output|);
  }

  /** A ubatch fits if it has rows and they end before the next slot begins. */
  lemma FitsItsSlot(ub: Ubatch, width: nat, i: nat)
    ensures Fits(ub, width) <==> ub.tokens != [] && Row(width, i) + |ub.tokens| <= Row(width, i + 1)
  {
  }
}
