/** What the numbers of a report mean, said about the events themselves, and what the shadow
    accumulator holds. */
module ObserveFacts {
  import opened Wrappers
  import opened Observe

  predicate MainSync(es: seq<Event>, k: nat) {
    k < |es| && es[k].Sync? && !es[k].shadow
  }

  function SubmitsIn(es: seq<Event>, i: nat, j: nat): set<nat> {
    set k: nat | i <= k < j && MainSubmit(es, k)
  }

  function SyncsIn(es: seq<Event>, i: nat, j: nat): set<nat> {
    set k: nat | i <= k < j && MainSync(es, k)
  }

  lemma MoreSubmits(es: seq<Event>, i: nat, k: nat)
    requires i <= k < |es|
    ensures |SubmitsIn(es, i, k + 1)| == |SubmitsIn(es, i, k)| + if MainSubmit(es, k) then 1 else 0
  {
    if MainSubmit(es, k) {
      assert SubmitsIn(es, i, k + 1) == SubmitsIn(es, i, k) + {k};
    } else {
      assert SubmitsIn(es, i, k + 1) == SubmitsIn(es, i, k);
    }
  }

  lemma MoreSyncs(es: seq<Event>, i: nat, k: nat)
    requires i <= k < |es|
    ensures |SyncsIn(es, i, k + 1)| == |SyncsIn(es, i, k)| + if MainSync(es, k) then 1 else 0
  {
    if MainSync(es, k) {
      assert SyncsIn(es, i, k + 1) == SyncsIn(es, i, k) + {k};
    } else {
      assert SyncsIn(es, i, k + 1) == SyncsIn(es, i, k);
    }
  }

  /** The counters count the main submissions and the main waits of the window. */
  lemma {:induction false} CountersCount(es: seq<Event>, i: nat, j: nat)
    requires j <= |es|
    ensures Window(es, {}, i, j).submits == |SubmitsIn(es, i, j)|
    ensures Window(es, {}, i, j).syncs == |SyncsIn(es, i, j)|
  {
    if i < j {
      CountersCount(es, i, j - 1);
      MoreSubmits(es, i, j - 1);
      MoreSyncs(es, i, j - 1);
      WindowGrows(es, {}, i, j);
    } else {
      assert SubmitsIn(es, i, j) == {} && SyncsIn(es, i, j) == {};
    }
  }

  /** The last wait is the one that ended latest. */
  lemma {:induction false} LastSyncIsLatest(es: seq<Event>, i: nat, j: nat)
    requires j <= |es|
    ensures forall k: nat {:trigger MainSync(es, k)} :: i <= k < j && MainSync(es, k)
              ==> es[k].t1 <= Window(es, {}, i, j).lastSync
    ensures Window(es, {}, i, j).lastSync != 0 ==>
              exists k: nat :: i <= k < j && MainSync(es, k) && es[k].t1 == Window(es, {}, i, j).lastSync
  {
    if i < j {
      LastSyncIsLatest(es, i, j - 1);
      var before, now := Window(es, {}, i, j - 1), Window(es, {}, i, j);
      if MainSync(es, j - 1) {
        assert now.lastSync == Max(before.lastSync, es[j - 1].t1);
      } else {
        assert now.lastSync == before.lastSync;
      }
      if now.lastSync != 0 && now.lastSync == before.lastSync {
        var k: nat :| i <= k < j - 1 && MainSync(es, k) && es[k].t1 == before.lastSync;
        assert i <= k < j && MainSync(es, k);
      }
    }
  }

  /** The time one event waits: nothing if the clock has not moved. */
  function Waited(e: Event): nat {
    if e.Sync? && !e.shadow && e.t0 < e.t1 then e.t1 - e.t0 else 0
  }

  /** The waits from event i on, up to j, added up. */
  function WaitedFrom(es: seq<Event>, i: nat, j: nat): nat
    requires j <= |es|
    decreases j - i
  {
    if i >= j then 0 else Waited(es[i]) + WaitedFrom(es, i + 1, j)
  }

  lemma {:induction false} WaitedLast(es: seq<Event>, i: nat, j: nat)
    requires i < j <= |es|
    ensures WaitedFrom(es, i, j) == WaitedFrom(es, i, j - 1) + Waited(es[j - 1])
    decreases j - i
  {
    if i + 1 < j {
      WaitedLast(es, i + 1, j);
    }
  }

  lemma {:induction false} WaitIsSum(es: seq<Event>, i: nat, j: nat)
    requires j <= |es|
    ensures Window(es, {}, i, j).wait == WaitedFrom(es, i, j)
  {
    if i < j {
      WaitIsSum(es, i, j - 1);
      WaitedLast(es, i, j);
    }
  }

  /** The first submission is the first with a time: zero stands for none. */
  lemma {:induction false} FirstSubmitIsFirst(es: seq<Event>, i: nat, j: nat)
    requires j <= |es|
    ensures var first := Window(es, {}, i, j).firstSubmit;
      && (first == 0 <==> forall k: nat :: i <= k < j && MainSubmit(es, k) ==> es[k].t == 0)
      && (first != 0 ==> exists k: nat :: i <= k < j && MainSubmit(es, k) && es[k].t == first
                           && forall l: nat :: i <= l < k && MainSubmit(es, l) ==> es[l].t == 0)
  {
    if i < j {
      FirstSubmitIsFirst(es, i, j - 1);
      assert MainSubmit(es, j - 1) ==> es[j - 1].Submit?;
    }
  }

  /** A graph takes over with a report exactly if it is of the same request and has the next ordinal,
      the one after the last 32-bit number being zero. */
  lemma FollowsMeans(was: Ident, next: Ident)
    requires was.ord <= 0xffff_ffff && next.ord <= 0xffff_ffff
    ensures Follows(was, next) <==>
      was.req == next.req && (next.ord == was.ord + 1 || (was.ord == 0xffff_ffff && next.ord == 0))
  {
  }

  /** The report of one graph: its own identity, its own stage's time and clock first, those of the stage
      that follows second, and what was submitted and waited for in between. */
  lemma OneReport(req: nat, ord: nat, a: nat, b: nat, x: int, y: int, t: nat, t0: nat, t1: nat)
    requires 0 < t <= t0 < t1 && ord < 0xffff_ffff
    ensures var es := [StageBegin(a, x), Rotate(Some(Ident(req, ord))), Submit(false, t), Sync(false, t0, t1, false),
                       StageBegin(b, y), Rotate(Some(Ident(req, ord + 1)))];
            Run(es, 6).notes == [Note(Ident(req, ord), a, b, x, y, Acc(t1 - t0, t, t1, 1, 1))]
  {
    var es := [StageBegin(a, x), Rotate(Some(Ident(req, ord))), Submit(false, t), Sync(false, t0, t1, false),
               StageBegin(b, y), Rotate(Some(Ident(req, ord + 1)))];
    assert Run(es, 1) == Step(Run(es, 0), es[0]) == IDLE.(staging := true, stageTime := a, stageCpu := x);
    assert Run(es, 2) == Step(Run(es, 1), es[1]);
    assert Run(es, 2).cycle == Cycle(true, Ident(req, ord), a, x, ZERO) && Run(es, 2).notes == [];
    assert Run(es, 4) == Step(Step(Run(es, 2), es[2]), es[3]);
    assert Run(es, 4).cycle.acc == Acc(t1 - t0, t, t1, 1, 1);
    assert Run(es, 5) == Step(Run(es, 4), es[4]);
  }

  /** Stages begin at times that do not decrease. */
  ghost predicate StagesInTime(es: seq<Event>) {
    forall a, b :: 0 <= a < b < |es| && es[a].StageBegin? && es[b].StageBegin? ==> es[a].time <= es[b].time
  }

  /** Then no report ends before it begins. */
  lemma {:induction false} ReportsRunForward(es: seq<Event>, n: nat)
    requires n <= |es| && StagesInTime(es)
    ensures forall k :: 0 <= k < |Reported(es, n)| ==> Reported(es, n)[k].from <= Reported(es, n)[k].to
  {
    if n > 0 {
      ReportsRunForward(es, n - 1);
      CycleBeforeStage(es, n - 1);
    }
  }

  // ---- the shadow accumulator ----

  /** The event as the main role would have had it; nothing for a main event or an unseen wait. */
  function Swapped(e: Event): Event {
    match e
    case Submit(true, t) => Submit(false, t)
    case Sync(true, t0, t1, false) => Sync(false, t0, t1, false)
    case _ => Rotate(None)
  }

  function AllSwapped(es: seq<Event>): (r: seq<Event>)
    ensures |r| == |es| && forall k :: 0 <= k < |es| ==> r[k] == Swapped(es[k])
  {
    seq(|es|, k requires 0 <= k < |es| => Swapped(es[k]))
  }

  /** The shadow accumulator holds every shadow event but the unseen waits, whatever stage or cycle is
      open, and counts them as the main role's are counted. */
  lemma {:induction false} ShadowIsFold(es: seq<Event>, n: nat)
    requires n <= |es|
    ensures Run(es, n).shadowAcc == Window(AllSwapped(es), {}, 0, n)
  {
    if n > 0 {
      ShadowIsFold(es, n - 1);
      ShadowStep(Run(es, n - 1), es[n - 1]);
    }
  }

  lemma ShadowStep(s: State, e: Event)
    ensures Step(s, e).shadowAcc == Add(s.shadowAcc, Swapped(e))
  {
  }
}
