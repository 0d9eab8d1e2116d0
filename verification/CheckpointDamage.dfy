/** What any stream at all, written by nobody or cut short, can do to a cache that reads one sequence
    from it. */
module CheckpointDamage {
  import opened SlotFacts
  import opened SeqEdits
  import opened Placement
  import opened KvStore
  import opened PrepareFacts
  import opened Checkpoint
  import opened CheckpointRead

  lemma RemovedSpares(cfg: Config, st: State, q: nat, i: nat)
    requires StateValid(cfg, st) && i < |st.cells|
    ensures StateValid(cfg, Removed(st, q)) && |Removed(st, q).cells| == |st.cells|
    ensures Without(Removed(st, q).cells[i], q) == Without(st.cells[i], q) && !Removed(st, q).cells[i].Has(q)
  {
    RemovedValid(cfg, st, q);
  }

  /** Tokens of sequence q alone, put into free cells, leave the other sequences as they are. */
  lemma FilledSpares(cfg: Config, st: State, slot: seq<nat>, ub: Ubatch, q: nat, i: nat)
    requires StateValid(cfg, st) && i < |st.cells| && q < cfg.maxSeq && ub.toks != []
    requires SlotValid(st.cells, slot, ub.toks) && AllFree(st.cells, slot)
    requires forall k :: 0 <= k < |ub.toks| ==> ub.toks[k].ids == [q]
    ensures Without(ApplyTo(cfg, st, slot, ub).cells[i], q) == Without(st.cells[i], q)
    ensures StateValid(cfg, ApplyTo(cfg, st, slot, ub))
  {
    assert UbatchValid(cfg, ub) by {
      forall k | 0 <= k < |ub.toks|
        ensures TokValid(cfg, ub.toks[k])
      {
        assert ub.toks[k].ids == [q];
      }
    }
    AppliedToFree(cfg, st, slot, ub);
    ApplyValid(cfg, st, slot, ub);
    PlacedAt(st.cells, slot, ub.toks, ub.is2d);
    if i in slot {
      var k :| 0 <= k < |slot| && slot[k] == i;
      assert Filled(ub.toks[k], ub.is2d).seqs == {q};
    }
  }

  lemma SlotOfFree(cfg: Config, st: State, ub: Ubatch)
    requires StateValid(cfg, st) && !cfg.swa.windowed && FindIn(cfg, st, ub).Some?
    ensures AllFree(st.cells, FindIn(cfg, st, ub).value)
  {
    SlotSound(st.cells, cfg.swa, st.head, |ub.toks|);
    UsableIsFree(st.cells, cfg.swa);
  }

  /** Whatever the stream is and wherever it breaks off, no cell of a cache without a window changes for
      any other sequence; and after a rejection the cache holds nothing of the one that was read. */
  lemma AnyStreamSparesOthers(sh: Shape, cfg: Config, st: State, data: seq<LayerData>, items: seq<Item>, q: nat, i: nat)
    requires StateValid(cfg, st) && |data| == |sh.layers| && AllSized(data, |st.cells|) && q < cfg.maxSeq
    requires !cfg.swa.windowed && i < |st.cells|
    ensures var r := Restore(sh, cfg, st, data, items, q);
      && |r.st.cells| == |st.cells| && Without(r.st.cells[i], q) == Without(st.cells[i], q)
      && (r.o == Rejected ==> !r.st.cells[i].Has(q))
  {
    if NumAt(items, 0) && items[0].n == 1 && NumAt(items, 1) && items[1].n > 0 {
      var st1 := Removed(st, q);
      RemovedSpares(cfg, st, q, i);
      RemovedSpares(cfg, st1, q, i);
      var read := ReadToks(items[2..], items[1].n, sh.is2d, q);
      if read.Got? {
        var ub := Ubatch(read.v, sh.is2d);
        var slot := FindIn(cfg, st1, ub);
        if slot.Some? {
          FoundSlotValid(st1.cells, cfg.swa, st1.head, ub.toks, false, slot.value);
          SlotOfFree(cfg, st1, ub);
          FilledSpares(cfg, st1, slot.value, ub, q, i);
          RemovedSpares(cfg, ApplyTo(cfg, st1, slot.value, ub), q, i);
        }
      }
    }
  }
}
