/** Append-only runs: batches are placed by find_slot and apply_ubatch, each token above everything
    its sequences already hold. Overwriting and purging are then invisible to attention, and what is
    left of every sequence has no holes. */
module AppendRuns {
  import opened Wrappers
  import opened KvCells
  import opened SlotSearch
  import opened SlotFacts
  import opened Placement
  import opened KvStore
  import opened KvCache

  /** The ubatch holds a token of sequence q at position p. */
  ghost predicate Fresh(toks: seq<Tok>, q: nat, p: int) {
    exists k :: 0 <= k < |toks| && q in toks[k].ids && toks[k].pos == p
  }

  /** Every new position lies above all positions its sequences hold in `cells`. */
  ghost predicate AppendsTo(cells: seq<Cell>, toks: seq<Tok>) {
    forall q: nat, p, p' :: Fresh(toks, q, p) && Present(cells, q, p') ==> p' < p
  }

  /** A slot made of different usable cells: what find_slot returns in either mode. */
  ghost predicate UsableSlot(cells: seq<Cell>, swa: Swa, idxs: seq<nat>, n: nat) {
    && |idxs| == n && Indices(idxs, |cells|) && Distinct(idxs)
    && forall k :: 0 <= k < n ==> CanUse(cells, swa, idxs[k])
  }

  lemma FoundIsUsable(cells: seq<Cell>, swa: Swa, head: nat, n: nat, cont: bool, r: seq<nat>)
    requires head <= |cells| && 1 <= n
    requires !cont ==> Slot(cells, swa, head, n) == Some(r)
    requires cont ==> |r| == n && IsRun(cells, swa, r[0], n) && forall k :: 0 <= k < n ==> r[k] == r[0] + k
    ensures UsableSlot(cells, swa, r, n)
  {
    SlotSound(cells, swa, head, n);
    assert cont ==> forall k :: 0 <= k < n ==> CanUse(cells, swa, r[k]);
  }

  /** A key at p0 can be attended by a causal query of sequence q at p1. */
  ghost predicate Visible(cells: seq<Cell>, swa: Swa, q: nat, p0: int, p1: int) {
    Present(cells, q, p0) && p0 <= p1 && !swa.hides(p0, p1)
  }

  /** The reference: a cache that grows by one cell per token and never evicts. */
  ghost function Grown(cells: seq<Cell>, ub: Ubatch): seq<Cell> {
    cells + seq(|ub.toks|, k requires 0 <= k < |ub.toks| => Filled(ub.toks[k], ub.is2d))
  }

  lemma GrownPresent(cells: seq<Cell>, ub: Ubatch, q: nat, p: int)
    ensures Present(Grown(cells, ub), q, p) <==> Present(cells, q, p) || Fresh(ub.toks, q, p)
  {
    var g := Grown(cells, ub);
    if Present(cells, q, p) {
      var i :| 0 <= i < |cells| && cells[i].Has(q) && cells[i].pos == p;
      assert g[i] == cells[i];
    }
    if Fresh(ub.toks, q, p) {
      var k :| 0 <= k < |ub.toks| && q in ub.toks[k].ids && ub.toks[k].pos == p;
      assert g[|cells| + k] == Filled(ub.toks[k], ub.is2d);
    }
    if Present(g, q, p) {
      var i :| 0 <= i < |g| && g[i].Has(q) && g[i].pos == p;
      if i >= |cells| {
        assert q in ub.toks[i - |cells|].ids;
      }
    }
  }

  /** The purge takes q out of a cell exactly when q lost that position or a higher one. */
  lemma AppliedHas(cfg: Config, st: State, idxs: seq<nat>, ub: Ubatch, q: nat, i: nat)
    requires SlotValid(st.cells, idxs, ub.toks) && ub.toks != [] && q < cfg.maxSeq && i < |st.cells|
    ensures var after, placed := ApplyTo(cfg, st, idxs, ub).cells[i], Placed(st.cells, idxs, ub.toks, ub.is2d)[i];
      && (after.Has(q) <==> placed.Has(q) && EvictedMax(st.cells, idxs, q) < placed.pos)
      && (after.Has(q) ==> after.pos == placed.pos)
  {
    var rm := EvictedAll(st.cells, idxs, cfg.maxSeq);
    var c := Placed(st.cells, idxs, ub.toks, ub.is2d)[i];
    if c.Has(q) {
      assert q in Keepers(c, rm, cfg.maxSeq) <==> rm[q] < c.pos;
    }
  }

  /** Exactly which positions a sequence has after apply_ubatch: the new ones, and the old ones
      above everything it lost. */
  lemma PresentAfter(cfg: Config, st: State, idxs: seq<nat>, ub: Ubatch, q: nat, p: int)
    requires UbatchValid(cfg, ub) && SlotValid(st.cells, idxs, ub.toks) && q < cfg.maxSeq
    requires AppendsTo(st.cells, ub.toks)
    ensures Present(ApplyTo(cfg, st, idxs, ub).cells, q, p) <==>
      Fresh(ub.toks, q, p) || (Present(st.cells, q, p) && EvictedMax(st.cells, idxs, q) < p)
  {
    var after := ApplyTo(cfg, st, idxs, ub).cells;
    PlacedAt(st.cells, idxs, ub.toks, ub.is2d);
    EvictedIsPresent(st.cells, idxs, q);
    if Fresh(ub.toks, q, p) {
      var k :| 0 <= k < |ub.toks| && q in ub.toks[k].ids && ub.toks[k].pos == p;
      AppliedHas(cfg, st, idxs, ub, q, idxs[k]);
      assert after[idxs[k]].Has(q);
    }
    if Present(st.cells, q, p) && EvictedMax(st.cells, idxs, q) < p {
      var i :| 0 <= i < |st.cells| && st.cells[i].Has(q) && st.cells[i].pos == p;
      assert i !in idxs;
      AppliedHas(cfg, st, idxs, ub, q, i);
      assert after[i].Has(q);
    }
    if Present(after, q, p) {
      var i :| 0 <= i < |after| && after[i].Has(q) && after[i].pos == p;
      AppliedHas(cfg, st, idxs, ub, q, i);
      if i in idxs {
        var k :| 0 <= k < |idxs| && idxs[k] == i;
        assert q in ub.toks[k].ids;
      }
    }
  }

  lemma EvictedIsPresent(cells: seq<Cell>, idxs: seq<nat>, q: nat)
    requires Indices(idxs, |cells|)
    ensures EvictedMax(cells, idxs, q) >= 0 ==> Present(cells, q, EvictedMax(cells, idxs, q))
  {
  }

  /** What a sequence lost was out of reach of its next token already. */
  lemma EvictedIsHidden(cells: seq<Cell>, swa: Swa, idxs: seq<nat>, n: nat, q: nat, p1: int)
    requires swa.Valid() && UsableSlot(cells, swa, idxs, n)
    requires forall p :: Present(cells, q, p) ==> p < p1
    ensures forall p :: 0 <= p <= EvictedMax(cells, idxs, q) ==> swa.hides(p, p1)
  {
    var m := EvictedMax(cells, idxs, q);
    if m >= 0 {
      var k :| 0 <= k < |idxs| && cells[idxs[k]].Has(q) && cells[idxs[k]].pos == m;
      var c := cells[idxs[k]];
      assert CanUse(cells, swa, idxs[k]);
      Singleton(c.seqs, q);
      assert swa.hides(m, SeqPosMax(cells, q) + 1);
      assert m <= SeqPosMax(cells, q) < p1;
    }
  }

  /** The bounded cache against the unbounded one. `past` is the unbounded cache as it was before
      the last ubatch: queries above everything in it are the ones that are still to come. */
  ghost predicate Faithful(cfg: Config, cells: seq<Cell>, past: seq<Cell>, full: seq<Cell>) {
    && (forall q: nat, p :: q < cfg.maxSeq && Present(cells, q, p) ==> Present(full, q, p))
    && (forall q: nat, p, p' :: q < cfg.maxSeq && Present(cells, q, p) && Present(full, q, p') && p <= p' ==>
          Present(cells, q, p'))
    && (forall q: nat, p :: q < cfg.maxSeq && Present(past, q, p) ==> Present(full, q, p))
    && (forall q: nat, p, p1 ::
          q < cfg.maxSeq && Present(full, q, p) && !Present(cells, q, p) && p <= p1 && Beyond(past, q, p1)
          ==> cfg.swa.hides(p, p1))
  }

  ghost predicate Beyond(cells: seq<Cell>, q: nat, p1: int) {
    forall p :: Present(cells, q, p) ==> p < p1
  }

  /** One step keeps the correspondence. */
  lemma StepFaithful(cfg: Config, st: State, past: seq<Cell>, full: seq<Cell>, idxs: seq<nat>, ub: Ubatch)
    requires StateValid(cfg, st) && UbatchValid(cfg, ub)
    requires Faithful(cfg, st.cells, past, full)
    requires AppendsTo(full, ub.toks) && UsableSlot(st.cells, cfg.swa, idxs, |ub.toks|)
    ensures Faithful(cfg, ApplyTo(cfg, st, idxs, ub).cells, full, Grown(full, ub))
  {
    var after := ApplyTo(cfg, st, idxs, ub).cells;
    SlotUsableValid(cfg, st, idxs, ub);
    forall q: nat, p | Fresh(ub.toks, q, p)
      ensures q < cfg.maxSeq
    {
      var k :| 0 <= k < |ub.toks| && q in ub.toks[k].ids && ub.toks[k].pos == p;
      assert TokValid(cfg, ub.toks[k]);
    }
    assert AppendsTo(st.cells, ub.toks);
    forall q: nat, p | q < cfg.maxSeq
      ensures Present(after, q, p) <==>
        Fresh(ub.toks, q, p) || (Present(st.cells, q, p) && EvictedMax(st.cells, idxs, q) < p)
    {
      PresentAfter(cfg, st, idxs, ub, q, p);
    }
    forall q: nat, p
      ensures Present(Grown(full, ub), q, p) <==> Present(full, q, p) || Fresh(ub.toks, q, p)
    {
      GrownPresent(full, ub, q, p);
    }
    forall q: nat, p, p1 |
      q < cfg.maxSeq && Present(Grown(full, ub), q, p) && !Present(after, q, p) && p <= p1 && Beyond(full, q, p1)
      ensures cfg.swa.hides(p, p1)
    {
      if Present(st.cells, q, p) {
        EvictedIsHidden(st.cells, cfg.swa, idxs, |ub.toks|, q, p1);
      } else {
        assert Beyond(past, q, p1);
      }
    }
  }

  lemma SlotUsableValid(cfg: Config, st: State, idxs: seq<nat>, ub: Ubatch)
    requires UsableSlot(st.cells, cfg.swa, idxs, |ub.toks|)
    ensures SlotValid(st.cells, idxs, ub.toks)
  {
  }

  /** An append-only run from an empty cache: the cache's states, the unbounded cache's contents, and
      the slots and ubatches of the steps. */
  datatype Run = Run(cfg: Config, sts: seq<State>, full: seq<seq<Cell>>, slots: seq<seq<nat>>, ubs: seq<Ubatch>)
  {
    ghost predicate Valid() {
      && cfg.swa.Valid()
      && |sts| == |full| == |ubs| + 1 && |slots| == |ubs|
      && sts[0] == State(Blank(|sts[0].cells|), 0) && full[0] == []
      && forall i :: 0 <= i < |ubs| ==> StepValid(i)
    }

    ghost predicate StepValid(i: nat)
      requires |sts| == |full| == |ubs| + 1 && |slots| == |ubs| && i < |ubs|
    {
      && UbatchValid(cfg, ubs[i])
      && AppendsTo(full[i], ubs[i].toks)
      && UsableSlot(sts[i].cells, cfg.swa, slots[i], |ubs[i].toks|)
      && sts[i + 1] == ApplyTo(cfg, sts[i], slots[i], ubs[i])
      && full[i + 1] == Grown(full[i], ubs[i])
    }
  }

  lemma {:induction false} RunFaithful(r: Run, i: nat)
    requires r.Valid() && i <= |r.ubs|
    ensures StateValid(r.cfg, r.sts[i])
    ensures Faithful(r.cfg, r.sts[i].cells, if i == 0 then [] else r.full[i - 1], r.full[i])
  {
    if i == 0 {
      BlankValid(r.cfg, |r.sts[0].cells|);
      assert forall q: nat, p :: !Present(r.full[0], q, p);
      assert forall q: nat, p :: !Present(r.sts[0].cells, q, p);
    } else {
      RunFaithful(r, i - 1);
      assert r.StepValid(i - 1);
      SlotUsableValid(r.cfg, r.sts[i - 1], r.slots[i - 1], r.ubs[i - 1]);
      ApplyValid(r.cfg, r.sts[i - 1], r.slots[i - 1], r.ubs[i - 1]);
      StepFaithful(r.cfg, r.sts[i - 1], if i == 1 then [] else r.full[i - 2], r.full[i - 1],
                   r.slots[i - 1], r.ubs[i - 1]);
    }
  }

  /** Eviction is invisible. After any step of any append-only run, a query of any sequence above
      everything the sequence held before the step sees exactly the keys that it would see in the
      unbounded cache. */
  lemma AttentionUnchanged(r: Run, i: nat, q: nat, p0: int, p1: int)
    requires r.Valid() && 1 <= i <= |r.ubs| && q < r.cfg.maxSeq && Beyond(r.full[i - 1], q, p1)
    ensures Visible(r.sts[i].cells, r.cfg.swa, q, p0, p1) <==> Visible(r.full[i], r.cfg.swa, q, p0, p1)
  {
    RunFaithful(r, i);
  }

  /** No holes: between two positions of q every position is present. */
  ghost predicate NoHoles(cells: seq<Cell>, q: nat) {
    forall a, b, p :: Present(cells, q, a) && Present(cells, q, b) && a <= p <= b ==> Present(cells, q, p)
  }

  /** The new positions of each sequence continue what the cache holds of it without a gap. */
  ghost predicate Continues(cells: seq<Cell>, toks: seq<Tok>, q: nat) {
    forall a, b, p :: Held(cells, toks, q, a) && Held(cells, toks, q, b) && a <= p <= b ==> Held(cells, toks, q, p)
  }

  ghost predicate Held(cells: seq<Cell>, toks: seq<Tok>, q: nat, p: int) {
    Present(cells, q, p) || Fresh(toks, q, p)
  }

  /** apply_ubatch leaves no sequence with holes, not even one whose cells it overwrote with another
      sequence's tokens. Nothing is asked of the slot but that apply_ubatch accepts it. */
  lemma ApplyKeepsNoHoles(cfg: Config, st: State, idxs: seq<nat>, ub: Ubatch, q: nat)
    requires StateValid(cfg, st) && UbatchValid(cfg, ub) && SlotValid(st.cells, idxs, ub.toks) && q < cfg.maxSeq
    requires AppendsTo(st.cells, ub.toks) && Continues(st.cells, ub.toks, q)
    ensures NoHoles(ApplyTo(cfg, st, idxs, ub).cells, q)
  {
    var after := ApplyTo(cfg, st, idxs, ub).cells;
    EvictedIsPresent(st.cells, idxs, q);
    forall a, b, p | Present(after, q, a) && Present(after, q, b) && a <= p <= b
      ensures Present(after, q, p)
    {
      PresentAfter(cfg, st, idxs, ub, q, a);
      PresentAfter(cfg, st, idxs, ub, q, b);
      PresentAfter(cfg, st, idxs, ub, q, p);
      assert Held(st.cells, ub.toks, q, a) && Held(st.cells, ub.toks, q, b);
      assert Held(st.cells, ub.toks, q, p);
    }
  }

  /** One of the first i ubatches holds a token of q at position p. */
  ghost predicate Sent(ubs: seq<Ubatch>, i: nat, q: nat, p: int)
    requires i <= |ubs|
  {
    exists j :: 0 <= j < i && Fresh(ubs[j].toks, q, p)
  }

  /** The caller has left out no position of q between the first and the last it has sent. */
  ghost predicate SentWithoutGaps(ubs: seq<Ubatch>, i: nat, q: nat)
    requires i <= |ubs|
  {
    forall a, b, p :: Sent(ubs, i, q, a) && Sent(ubs, i, q, b) && a <= p <= b ==> Sent(ubs, i, q, p)
  }

  /** The unbounded cache holds exactly what was sent. */
  lemma {:induction false} FullIsSent(r: Run, i: nat, q: nat, p: int)
    requires r.Valid() && i <= |r.ubs|
    ensures Present(r.full[i], q, p) <==> Sent(r.ubs, i, q, p)
  {
    if i > 0 {
      FullIsSent(r, i - 1, q, p);
      assert r.StepValid(i - 1);
      GrownPresent(r.full[i - 1], r.ubs[i - 1], q, p);
      assert Fresh(r.ubs[i - 1].toks, q, p) ==> Sent(r.ubs, i, q, p);
    }
  }

  /** In every state of every append-only run: if the batches sent so far leave no gap in a sequence,
      what the cache still holds of it has no hole, whatever was overwritten and purged on the way. */
  lemma RunHasNoHoles(r: Run, i: nat, q: nat)
    requires r.Valid() && i <= |r.ubs| && q < r.cfg.maxSeq && SentWithoutGaps(r.ubs, i, q)
    ensures NoHoles(r.sts[i].cells, q)
  {
    RunFaithful(r, i);
    var cells, full := r.sts[i].cells, r.full[i];
    forall a, b, p | Present(cells, q, a) && Present(cells, q, b) && a <= p <= b
      ensures Present(cells, q, p)
    {
      FullIsSent(r, i, q, a);
      FullIsSent(r, i, q, b);
      FullIsSent(r, i, q, p);
    }
  }

  /** And exactly the gap-free sequences are gap-free in the unbounded cache. */
  lemma FullHasNoHoles(r: Run, i: nat, q: nat)
    requires r.Valid() && i <= |r.ubs|
    ensures NoHoles(r.full[i], q) <==> SentWithoutGaps(r.ubs, i, q)
  {
    forall p
      ensures Present(r.full[i], q, p) <==> Sent(r.ubs, i, q, p)
    {
      FullIsSent(r, i, q, p);
    }
  }

  ghost predicate IsLowest(ubs: seq<Ubatch>, i: nat, q: nat, p: int)
    requires i <= |ubs|
  {
    forall p' :: Sent(ubs, i, q, p') ==> p <= p'
  }

  /** A batch that starts each sequence right above what was sent of it, and goes on one by one, leaves
      no gap. */
  ghost predicate Follows(ubs: seq<Ubatch>, j: nat, q: nat)
    requires j < |ubs|
  {
    forall p :: Fresh(ubs[j].toks, q, p) ==>
      Sent(ubs, j + 1, q, p - 1) || IsLowest(ubs, j + 1, q, p)
  }

  lemma {:induction false} FollowingLeavesNoGaps(ubs: seq<Ubatch>, i: nat, q: nat)
    requires i <= |ubs| && forall j :: 0 <= j < i ==> Follows(ubs, j, q)
    requires forall j, p, p' :: 0 <= j < i && Fresh(ubs[j].toks, q, p) && Sent(ubs, j, q, p') ==> p' < p
    ensures SentWithoutGaps(ubs, i, q)
  {
    forall a, b, p | Sent(ubs, i, q, a) && Sent(ubs, i, q, b) && a <= p <= b
      ensures Sent(ubs, i, q, p)
    {
      DownTo(ubs, i, q, a, b, p);
    }
  }

  /** Below every sent position down to the lowest everything was sent. */
  lemma {:induction false} DownTo(ubs: seq<Ubatch>, i: nat, q: nat, a: int, b: int, p: int)
    requires i <= |ubs| && forall j :: 0 <= j < i ==> Follows(ubs, j, q)
    requires forall j, p, p' :: 0 <= j < i && Fresh(ubs[j].toks, q, p) && Sent(ubs, j, q, p') ==> p' < p
    requires Sent(ubs, i, q, a) && Sent(ubs, i, q, b) && a <= p <= b
    ensures Sent(ubs, i, q, p)
    decreases b - p
  {
    if p < b {
      var j :| 0 <= j < i && Fresh(ubs[j].toks, q, b);
      var k :| 0 <= k < i && Fresh(ubs[k].toks, q, a);
      if k > j {
        assert Sent(ubs, k, q, b);
      }
      assert Sent(ubs, j + 1, q, a);
      assert Follows(ubs, j, q);
      assert Sent(ubs, j + 1, q, b - 1);
      assert Sent(ubs, i, q, b - 1);
      DownTo(ubs, i, q, a, b - 1, p);
    }
  }

  /** So a caller that numbers each sequence's tokens one after the other never meets a hole. */
  lemma ConsecutiveRunHasNoHoles(r: Run, i: nat, q: nat)
    requires r.Valid() && i <= |r.ubs| && q < r.cfg.maxSeq && forall j :: 0 <= j < i ==> Follows(r.ubs, j, q)
    ensures NoHoles(r.sts[i].cells, q)
  {
    forall j, p, p' | 0 <= j < i && Fresh(r.ubs[j].toks, q, p) && Sent(r.ubs, j, q, p')
      ensures p' < p
    {
      FullIsSent(r, j, q, p');
      assert r.StepValid(j);
    }
    FollowingLeavesNoGaps(r.ubs, i, q);
    RunHasNoHoles(r, i, q);
  }
}
