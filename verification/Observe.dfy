/** Token-cycle accounting: which backend events belong to which cycle. A cycle runs from the staging
    start of one decode graph to the staging start of the next. */
module Observe {
  import opened Wrappers

  const WORD := 0x1_0000_0000

  /** One accumulator; a time of zero means that nothing was seen. */
  datatype Acc = Acc(wait: nat, firstSubmit: nat, lastSync: nat, submits: nat, syncs: nat)

  const ZERO := Acc(0, 0, 0, 0, 0)

  function AddSubmit(a: Acc, t: nat): Acc {
    a.(firstSubmit := if a.firstSubmit == 0 then t else a.firstSubmit, submits := a.submits + 1)
  }

  function AddSync(a: Acc, t0: nat, t1: nat): Acc {
    a.(wait := if t1 > t0 then a.wait + (t1 - t0) else a.wait,
       lastSync := Max(a.lastSync, t1),
       syncs := a.syncs + 1)
  }

  function Merge(dst: Acc, src: Acc): Acc {
    Acc(dst.wait + src.wait,
        if src.firstSubmit != 0 && (dst.firstSubmit == 0 || src.firstSubmit < dst.firstSubmit)
        then src.firstSubmit else dst.firstSubmit,
        Max(dst.lastSync, src.lastSync), dst.submits + src.submits, dst.syncs + src.syncs)
  }

  datatype Ident = Ident(req: nat, ord: nat)

  datatype Event =
    | StageBegin(time: nat, cpu: int)
    | Rotate(ident: Option<Ident>)
    | Submit(shadow: bool, t: nat)
    | Sync(shadow: bool, t0: nat, t1: nat, unseen: bool)

  /** A finished cycle as it is reported. */
  datatype Note = Note(ident: Ident, from: nat, to: nat, cpu0: int, cpu1: int, acc: Acc)

  datatype Cycle = Cycle(open: bool, ident: Ident, t0: nat, cpu0: int, acc: Acc)

  datatype State = State(staging: bool, stageTime: nat, stageCpu: int, stageAcc: Acc, cycle: Cycle,
                         shadowAcc: Acc, emitted: nat, dropped: nat, notes: seq<Note>)

  const IDLE := State(false, 0, 0, ZERO, Cycle(false, Ident(0, 0), 0, 0, ZERO), ZERO, 0, 0, [])

  /** The same request and the next ordinal, which wraps at 32 bits. */
  predicate Follows(was: Ident, next: Ident) {
    was.req == next.req && (was.ord + 1) % WORD == next.ord
  }

  /** A main-role event added to an accumulator. */
  function Add(a: Acc, e: Event): Acc {
    match e
    case Submit(false, t) => AddSubmit(a, t)
    case Sync(false, t0, t1, _) => AddSync(a, t0, t1)
    case _ => a
  }

  /** The stage takes the event if one is open, else the open cycle; without either it is lost. */
  function OnMain(s: State, e: Event): State {
    if s.staging then s.(stageAcc := Add(s.stageAcc, e))
    else if s.cycle.open then s.(cycle := s.cycle.(acc := Add(s.cycle.acc, e)))
    else s
  }

  function Rotated(s: State, ident: Option<Ident>): State {
    if !s.staging then s
    else
      var t := s.(staging := false);
      match ident
      case None =>
        if t.cycle.open then t.(cycle := t.cycle.(acc := Merge(t.cycle.acc, t.stageAcc))) else t
      case Some(id) =>
        var c := t.cycle;
        var u := if !c.open then t
                 else if Follows(c.ident, id) then
                   t.(emitted := t.emitted + 1,
                      notes := t.notes + [Note(c.ident, c.t0, t.stageTime, c.cpu0, t.stageCpu, c.acc)])
                 else t.(dropped := t.dropped + 1);
        u.(cycle := Cycle(true, id, t.stageTime, t.stageCpu, t.stageAcc))
  }

  function Step(s: State, e: Event): State {
    match e
    case StageBegin(t, cpu) => s.(staging := true, stageTime := t, stageCpu := cpu, stageAcc := ZERO)
    case Rotate(ident) => Rotated(s, ident)
    case Submit(shadow, t) =>
      if shadow then s.(shadowAcc := AddSubmit(s.shadowAcc, t)) else OnMain(s, e)
    case Sync(shadow, t0, t1, unseen) =>
      if shadow then (if unseen then s else s.(shadowAcc := AddSync(s.shadowAcc, t0, t1)))
      else OnMain(s, e)
  }

  /** The state after the first n events. */
  function Run(es: seq<Event>, n: nat): State
    requires n <= |es|
  {
    if n == 0 then IDLE else Step(Run(es, n - 1), es[n - 1])
  }

  // ---- the same said without any state: windows of the event list ----

  /** Where the stage that is open after n events began. */
  function StagedAt(es: seq<Event>, n: nat): (r: Option<nat>)
    requires n <= |es|
    ensures r.Some? ==> r.value < n && es[r.value].StageBegin?
  {
    if n == 0 then None
    else match es[n - 1]
      case StageBegin(_, _) => Some(n - 1)
      case Rotate(_) => None
      case _ => StagedAt(es, n - 1)
  }

  /** Event n turns the open stage into a cycle. */
  predicate Opens(es: seq<Event>, n: nat)
    requires n < |es|
  {
    es[n].Rotate? && es[n].ident.Some? && StagedAt(es, n).Some?
  }

  /** Where the cycle that is open after n events began, and for which graph. */
  function Opening(es: seq<Event>, n: nat): (r: Option<(nat, Ident)>)
    requires n <= |es|
    ensures r.Some? ==> r.value.0 < n && es[r.value.0].StageBegin?
  {
    if n == 0 then None
    else if Opens(es, n - 1) then Some((StagedAt(es, n - 1).value, es[n - 1].ident.value))
    else Opening(es, n - 1)
  }

  /** Everything main-role in es[i..j], in order, but for the events in gone. */
  function Window(es: seq<Event>, gone: set<nat>, i: nat, j: nat): Acc
    requires j <= |es|
  {
    if j <= i then ZERO
    else if j - 1 in gone then Window(es, gone, i, j - 1)
    else Add(Window(es, gone, i, j - 1), es[j - 1])
  }

  /** Event n ends the open cycle with a report. */
  predicate Reports(es: seq<Event>, n: nat)
    requires n < |es|
  {
    Opens(es, n) && Opening(es, n).Some? && Follows(Opening(es, n).value.1, es[n].ident.value)
  }

  /** The reports of the first n events: each covers exactly the main events from the staging start
      of its graph to the staging start of the graph that follows. */
  function Reported(es: seq<Event>, n: nat): seq<Note>
    requires n <= |es|
  {
    if n == 0 then []
    else if Reports(es, n - 1) then
      var (o, id) := Opening(es, n - 1).value;
      var a := StagedAt(es, n - 1).value;
      Reported(es, n - 1) + [Note(id, es[o].time, es[a].time, es[o].cpu, es[a].cpu, Window(es, {}, o + 1, a))]
    else Reported(es, n - 1)
  }

  /** How many cycles the first n events opened. */
  function Opened(es: seq<Event>, n: nat): nat
    requires n <= |es|
  {
    if n == 0 then 0 else Opened(es, n - 1) + if Opens(es, n - 1) then 1 else 0
  }

  /** The first event from n on that begins or rotates a stage; |es| if there is none. */
  function NextMark(es: seq<Event>, n: nat): (r: nat)
    requires n <= |es|
    ensures n <= r <= |es|
    decreases |es| - n
  {
    if n == |es| || es[n].StageBegin? || es[n].Rotate? then n else NextMark(es, n + 1)
  }

  predicate IsMain(e: Event) {
    (e.Submit? || e.Sync?) && !e.shadow
  }

  /** A main event in a stage that is begun anew before it has been rotated. */
  predicate IsLost(es: seq<Event>, k: nat)
    requires k < |es|
  {
    IsMain(es[k]) && StagedAt(es, k).Some?
    && var m := NextMark(es, k + 1); m < |es| && es[m].StageBegin?
  }

  function Lost(es: seq<Event>): set<nat> {
    set k: nat | k < |es| && IsLost(es, k)
  }

  /** No reported window holds a lost event. */
  ghost predicate NothingLost(es: seq<Event>, n: nat)
    requires n <= |es|
  {
    forall m: nat :: m < n && Reports(es, m)
                     ==> Whole(Lost(es), Opening(es, m).value.0 + 1, StagedAt(es, m).value)
  }

  ghost predicate Whole(gone: set<nat>, i: nat, j: nat) {
    forall k: nat {:trigger k in gone} :: i <= k < j ==> k !in gone
  }

  /** Every stage is rotated before the next begins. */
  ghost predicate EachRotated(es: seq<Event>) {
    forall n :: 0 <= n < |es| && es[n].StageBegin? ==> StagedAt(es, n) == None
  }

  predicate MainSubmit(es: seq<Event>, i: nat) {
    i < |es| && es[i].Submit? && !es[i].shadow
  }

  /** The clock does not run backwards between main-role submissions. */
  ghost predicate InTime(es: seq<Event>) {
    forall i: nat, j: nat {:trigger MainSubmit(es, i), MainSubmit(es, j)} ::
      i < j && MainSubmit(es, i) && MainSubmit(es, j) ==> es[i].t <= es[j].t
  }

  // ---- merging is appending ----

  lemma MergeAdd(a: Acc, b: Acc, e: Event)
    requires e.Submit? && !e.shadow ==> a.firstSubmit <= e.t
    ensures Merge(a, Add(b, e)) == Add(Merge(a, b), e)
  {
  }

  /** The first submission seen in a window is one of the window's. */
  lemma {:induction false} FirstOfWindow(es: seq<Event>, gone: set<nat>, i: nat, j: nat, t: nat)
    requires j <= |es|
    requires forall k: nat :: i <= k < j && MainSubmit(es, k) ==> es[k].t <= t
    ensures Window(es, gone, i, j).firstSubmit <= t
  {
    if i < j {
      FirstOfWindow(es, gone, i, j - 1, t);
      assert MainSubmit(es, j - 1) ==> es[j - 1].t <= t;
    }
  }

  lemma MergeNothing(a: Acc)
    ensures Merge(a, ZERO) == a
  {
  }

  lemma WindowGrows(es: seq<Event>, gone: set<nat>, i: nat, j: nat)
    requires i < j <= |es|
    ensures var w := Window(es, gone, i, j - 1);
            Window(es, gone, i, j) == if j - 1 in gone then w else Add(w, es[j - 1])
  {
  }

  lemma EarlierFirst(es: seq<Event>, gone: set<nat>, i: nat, k: nat, j: nat)
    requires i <= k <= j < |es| && InTime(es) && MainSubmit(es, j)
    ensures Window(es, gone, i, k).firstSubmit <= es[j].t
  {
    FirstOfWindow(es, gone, i, k, es[j].t);
  }

  /** Two adjacent windows merged are the window over both. */
  lemma {:induction false} WindowsMerge(es: seq<Event>, gone: set<nat>, i: nat, k: nat, j: nat)
    requires i <= k <= j <= |es| && InTime(es)
    ensures Merge(Window(es, gone, i, k), Window(es, gone, k, j)) == Window(es, gone, i, j)
    decreases j
  {
    if k == j {
      MergeNothing(Window(es, gone, i, k));
    } else {
      var a, b, e := Window(es, gone, i, k), Window(es, gone, k, j - 1), es[j - 1];
      WindowGrows(es, gone, k, j);
      WindowGrows(es, gone, i, j);
      WindowsMerge(es, gone, i, k, j - 1);
      if j - 1 !in gone {
        if MainSubmit(es, j - 1) {
          EarlierFirst(es, gone, i, k, j - 1);
        }
        MergeAdd(a, b, e);
      }
    }
  }

  // ---- lost events ----

  /** Between the beginning of the open stage and now no stage begins or rotates. */
  lemma {:induction false} StageIsUnbroken(es: seq<Event>, a: nat, k: nat, n: nat)
    requires a < k <= n <= |es| && StagedAt(es, n) == Some(a)
    ensures StagedAt(es, k) == Some(a) && NextMark(es, k) == NextMark(es, n)
    ensures k < n ==> !es[k].StageBegin? && !es[k].Rotate?
    decreases n
  {
    if k < n {
      StageIsUnbroken(es, a, k, n - 1);
    }
  }

  lemma {:induction false} WholeIsAll(es: seq<Event>, gone: set<nat>, i: nat, j: nat)
    requires j <= |es| && Whole(gone, i, j)
    ensures Window(es, gone, i, j) == Window(es, {}, i, j)
  {
    if i < j {
      WholeIsAll(es, gone, i, j - 1);
    }
  }

  function Count(a: Acc): nat {
    a.submits + a.syncs
  }

  lemma CountOfAdd(a: Acc, e: Event)
    ensures Count(Add(a, e)) == Count(a) + if IsMain(e) then 1 else 0
  {
  }

  ghost predicate OnlyMain(es: seq<Event>, gone: set<nat>) {
    forall k {:trigger k in gone} :: k in gone ==> k < |es| && IsMain(es[k])
  }

  lemma MissingStep(es: seq<Event>, gone: set<nat>, i: nat, j: nat)
    requires i < j <= |es| && (j - 1 in gone ==> IsMain(es[j - 1]))
    ensures var g, w := Count(Window(es, gone, i, j - 1)), Count(Window(es, {}, i, j - 1));
            var one := if IsMain(es[j - 1]) then 1 else 0;
            && Count(Window(es, {}, i, j)) == w + one
            && Count(Window(es, gone, i, j)) == g + (if j - 1 in gone then 0 else one)
            && (j - 1 in gone ==> one == 1)
  {
    WindowGrows(es, gone, i, j);
    WindowGrows(es, {}, i, j);
    CountOfAdd(Window(es, gone, i, j - 1), es[j - 1]);
    CountOfAdd(Window(es, {}, i, j - 1), es[j - 1]);
  }

  lemma WholeGrows(gone: set<nat>, i: nat, j: nat)
    requires i < j
    ensures Whole(gone, i, j) <==> Whole(gone, i, j - 1) && j - 1 !in gone
  {
  }

  /** A main event that is gone is missing from the count. */
  lemma {:induction false} GoneIsMissing(es: seq<Event>, gone: set<nat>, i: nat, j: nat)
    requires j <= |es| && OnlyMain(es, gone)
    ensures Count(Window(es, gone, i, j)) <= Count(Window(es, {}, i, j))
    ensures Count(Window(es, gone, i, j)) == Count(Window(es, {}, i, j)) ==> Whole(gone, i, j)
  {
    if i < j {
      GoneIsMissing(es, gone, i, j - 1);
      MissingStep(es, gone, i, j);
      WholeGrows(gone, i, j);
    }
  }

  ghost predicate AllGone(es: seq<Event>, gone: set<nat>, i: nat, j: nat)
    requires j <= |es|
  {
    forall k: nat {:trigger k in gone} :: i <= k < j ==> k in gone || !IsMain(es[k])
  }

  lemma {:induction false} AllGoneIsNothing(es: seq<Event>, gone: set<nat>, i: nat, a: nat, k: nat)
    requires i <= a <= k <= |es| && AllGone(es, gone, a, k)
    ensures Window(es, gone, i, k) == Window(es, gone, i, a)
  {
    if a < k {
      AllGoneIsNothing(es, gone, i, a, k - 1);
    }
  }

  lemma LostIf(es: seq<Event>, a: nat, k: nat, n: nat)
    requires a < k < n < |es| && StagedAt(es, n) == Some(a) && IsMain(es[k])
    ensures es[n].StageBegin? ==> IsLost(es, k)
    ensures es[n].Rotate? ==> !IsLost(es, k)
  {
    StageIsUnbroken(es, a, k, n);
    StageIsUnbroken(es, a, k + 1, n);
  }

  /** Of the events in a stage that is begun anew nothing is left. */
  lemma AbandonedIsLost(es: seq<Event>, a: nat, n: nat)
    requires a < n < |es| && StagedAt(es, n) == Some(a) && es[n].StageBegin?
    ensures AllGone(es, Lost(es), a, n)
  {
    forall k: nat | a <= k < n ensures k in Lost(es) || !IsMain(es[k]) {
      if k > a && IsMain(es[k]) {
        LostIf(es, a, k, n);
      }
    }
  }

  /** A stage that is rotated keeps all its events. */
  lemma RotatedIsWhole(es: seq<Event>, a: nat, n: nat)
    requires a < n < |es| && StagedAt(es, n) == Some(a) && es[n].Rotate?
    ensures Whole(Lost(es), a + 1, n + 1)
  {
    forall k: nat | a + 1 <= k < n + 1 ensures k !in Lost(es) {
      if k < n && IsMain(es[k]) {
        LostIf(es, a, k, n);
      } else {
        assert !IsMain(es[k]);
      }
    }
  }

  // ---- attribution ----

  /** The reports of the first n events as they are made: over the events that are not lost. */
  function Collected(es: seq<Event>, n: nat): seq<Note>
    requires n <= |es|
  {
    if n == 0 then []
    else if Reports(es, n - 1) then
      var (o, id) := Opening(es, n - 1).value;
      var a := StagedAt(es, n - 1).value;
      Collected(es, n - 1)
      + [Note(id, es[o].time, es[a].time, es[o].cpu, es[a].cpu, Window(es, Lost(es), o + 1, a))]
    else Collected(es, n - 1)
  }

  /** What the state holds after n events, in terms of windows. */
  ghost predicate Attributed(es: seq<Event>, n: nat)
    requires n <= |es|
  {
    var s, a, o := Run(es, n), StagedAt(es, n), Opening(es, n);
    s.staging == a.Some? && s.cycle.open == o.Some? && s.notes == Collected(es, n)
    && (a.Some? ==> Stage(es, s, a.value, n))
    && (o.Some? ==> OpenCycle(es, s.cycle, o.value.0, o.value.1, if a.Some? then a.value else n))
  }

  ghost predicate Stage(es: seq<Event>, s: State, a: nat, n: nat)
    requires a < n <= |es| && es[a].StageBegin?
  {
    s.stageTime == es[a].time && s.stageCpu == es[a].cpu && s.stageAcc == Window(es, {}, a + 1, n)
  }

  ghost predicate OpenCycle(es: seq<Event>, c: Cycle, o: nat, id: Ident, end: nat)
    requires end <= |es|
  {
    o < end && es[o].StageBegin? && c.ident == id && c.t0 == es[o].time && c.cpu0 == es[o].cpu
    && c.acc == Window(es, Lost(es), o + 1, end)
  }

  /** A cycle begins before the stage that is open now. */
  lemma {:induction false} CycleBeforeStage(es: seq<Event>, n: nat)
    requires n <= |es|
    ensures StagedAt(es, n).Some? && Opening(es, n).Some? ==> Opening(es, n).value.0 < StagedAt(es, n).value
  {
    if n > 0 {
      CycleBeforeStage(es, n - 1);
    }
  }

  lemma StepSubmitSync(es: seq<Event>, n: nat)
    requires n < |es| && (es[n].Submit? || es[n].Sync?) && Attributed(es, n)
    ensures Attributed(es, n + 1)
  {
  }

  ghost predicate Vanishes(es: seq<Event>, o: nat, a: nat, n: nat)
    requires a < n <= |es|
  {
    Window(es, Lost(es), o + 1, n) == Window(es, Lost(es), o + 1, a)
  }

  lemma StepStage(es: seq<Event>, n: nat)
    requires n < |es| && es[n].StageBegin? && Attributed(es, n)
    requires StagedAt(es, n).Some? && Opening(es, n).Some?
             ==> Vanishes(es, Opening(es, n).value.0, StagedAt(es, n).value, n)
    ensures Attributed(es, n + 1)
  {
  }

  lemma StepNoStage(es: seq<Event>, n: nat)
    requires n < |es| && es[n].Rotate? && StagedAt(es, n) == None && Attributed(es, n)
    ensures Attributed(es, n + 1)
  {
  }

  lemma StepDecode(es: seq<Event>, n: nat)
    requires n < |es| && Opens(es, n) && Attributed(es, n)
    requires Window(es, Lost(es), StagedAt(es, n).value + 1, n + 1) == Window(es, {}, StagedAt(es, n).value + 1, n)
    ensures Attributed(es, n + 1)
  {
    assert es[n - 1 + 1] == es[n];
  }

  lemma RotationAddsNothing(es: seq<Event>, gone: set<nat>, i: nat, n: nat)
    requires i <= n < |es| && es[n].Rotate? && Whole(gone, i, n + 1)
    ensures Window(es, gone, i, n + 1) == Window(es, {}, i, n)
  {
    WholeIsAll(es, gone, i, n + 1);
    WindowGrows(es, {}, i, n + 1);
  }

  lemma BeginAddsNothing(es: seq<Event>, gone: set<nat>, i: nat, a: nat)
    requires i <= a < |es| && es[a].StageBegin?
    ensures Window(es, gone, i, a + 1) == Window(es, gone, i, a)
  {
  }

  lemma StageIntoCycle(es: seq<Event>, gone: set<nat>, o: nat, a: nat, n: nat)
    requires o < a < n < |es| && InTime(es) && es[a].StageBegin? && es[n].Rotate? && Whole(gone, a + 1, n + 1)
    ensures Merge(Window(es, gone, o + 1, a), Window(es, {}, a + 1, n)) == Window(es, gone, o + 1, n + 1)
  {
    WindowsMerge(es, gone, o + 1, a + 1, n + 1);
    BeginAddsNothing(es, gone, o + 1, a);
    RotationAddsNothing(es, gone, a + 1, n);
  }

  ghost predicate Merges(es: seq<Event>, o: nat, a: nat, n: nat)
    requires a < n < |es|
  {
    Merge(Window(es, Lost(es), o + 1, a), Window(es, {}, a + 1, n)) == Window(es, Lost(es), o + 1, n + 1)
  }

  /** A graph without an ordinal is merged into the cycle it happened in. */
  lemma StepOther(es: seq<Event>, n: nat)
    requires n < |es| && es[n] == Rotate(None) && StagedAt(es, n).Some? && Attributed(es, n)
    requires Opening(es, n).Some? ==> Merges(es, Opening(es, n).value.0, StagedAt(es, n).value, n)
    ensures Attributed(es, n + 1)
  {
  }

  lemma StepBegin(es: seq<Event>, n: nat)
    requires n < |es| && es[n].StageBegin? && Attributed(es, n)
    ensures Attributed(es, n + 1)
  {
    if StagedAt(es, n).Some? && Opening(es, n).Some? {
      var a, o := StagedAt(es, n).value, Opening(es, n).value.0;
      CycleBeforeStage(es, n);
      AbandonedIsLost(es, a, n);
      AllGoneIsNothing(es, Lost(es), o + 1, a, n);
    }
    StepStage(es, n);
  }

  lemma StepRotate(es: seq<Event>, n: nat)
    requires n < |es| && es[n].Rotate? && StagedAt(es, n).Some? && InTime(es) && Attributed(es, n)
    ensures Attributed(es, n + 1)
  {
    var a := StagedAt(es, n).value;
    RotatedIsWhole(es, a, n);
    if es[n].ident.Some? {
      RotationAddsNothing(es, Lost(es), a + 1, n);
      StepDecode(es, n);
    } else {
      if Opening(es, n).Some? {
        CycleBeforeStage(es, n);
        StageIntoCycle(es, Lost(es), Opening(es, n).value.0, a, n);
      }
      StepOther(es, n);
    }
  }

  lemma StepAny(es: seq<Event>, n: nat)
    requires n < |es| && InTime(es) && Attributed(es, n)
    ensures Attributed(es, n + 1)
  {
    if es[n].StageBegin? {
      StepBegin(es, n);
    } else if !es[n].Rotate? {
      StepSubmitSync(es, n);
    } else if StagedAt(es, n) == None {
      StepNoStage(es, n);
    } else {
      StepRotate(es, n);
    }
  }

  /** In every run: the stage holds its whole window, the cycle its window less the lost events. */
  lemma {:induction false} AlwaysAttributed(es: seq<Event>, n: nat)
    requires n <= |es| && InTime(es)
    ensures Attributed(es, n)
  {
    if n > 0 {
      AlwaysAttributed(es, n - 1);
      StepAny(es, n - 1);
    }
  }

  /** One report is right exactly if nothing in its window is lost. */
  lemma WindowKeptIff(es: seq<Event>, i: nat, j: nat)
    requires j <= |es|
    ensures Window(es, Lost(es), i, j) == Window(es, {}, i, j) <==> Whole(Lost(es), i, j)
  {
    GoneIsMissing(es, Lost(es), i, j);
    if Whole(Lost(es), i, j) {
      WholeIsAll(es, Lost(es), i, j);
    }
  }

  lemma NothingLostGrows(es: seq<Event>, n: nat)
    requires 0 < n <= |es|
    ensures NothingLost(es, n) <==>
            NothingLost(es, n - 1)
            && (Reports(es, n - 1) ==> Whole(Lost(es), Opening(es, n - 1).value.0 + 1, StagedAt(es, n - 1).value))
  {
  }

  lemma AppendedEqual(s: seq<Note>, t: seq<Note>, x: Note, y: Note)
    requires |s| == |t|
    ensures s + [x] == t + [y] <==> s == t && x == y
  {
    assert (s + [x])[..|s|] == s && (t + [y])[..|t|] == t;
    assert (s + [x])[|s|] == x && (t + [y])[|t|] == y;
  }

  lemma {:induction false} CollectedIsReported(es: seq<Event>, n: nat)
    requires n <= |es|
    ensures |Collected(es, n)| == |Reported(es, n)|
    ensures Collected(es, n) == Reported(es, n) <==> NothingLost(es, n)
  {
    if n > 0 {
      CollectedIsReported(es, n - 1);
      var c, r := Collected(es, n - 1), Reported(es, n - 1);
      if Reports(es, n - 1) {
        var o, a := Opening(es, n - 1).value.0, StagedAt(es, n - 1).value;
        WindowKeptIff(es, o + 1, a);
        AppendedEqual(c, r, Collected(es, n)[|c|], Reported(es, n)[|r|]);
      }
      NothingLostGrows(es, n);
    }
  }

  /** Every report covers exactly the main events between the staging start of its graph and that of
      the next one, if and only if no stage with an event in such a window is begun anew before it is
      rotated. */
  lemma ReportsCoverTheirWindows(es: seq<Event>, n: nat)
    requires n <= |es| && InTime(es)
    ensures Run(es, n).notes == Reported(es, n) <==> NothingLost(es, n)
  {
    AlwaysAttributed(es, n);
    CollectedIsReported(es, n);
  }

  lemma {:induction false} StageStaysOpen(es: seq<Event>, n: nat)
    requires n <= |es| && StagedAt(es, n).Some?
    ensures var m := NextMark(es, n); StagedAt(es, m) == StagedAt(es, n)
    decreases |es| - n
  {
    if n < |es| && !es[n].StageBegin? && !es[n].Rotate? {
      StageStaysOpen(es, n + 1);
    }
  }

  /** With every stage rotated before the next begins nothing is lost. */
  lemma RotatedRunsLoseNothing(es: seq<Event>, n: nat)
    requires n <= |es| && EachRotated(es)
    ensures NothingLost(es, n)
  {
    forall k: nat | k < |es| ensures k !in Lost(es) {
      if IsMain(es[k]) && StagedAt(es, k).Some? {
        StageStaysOpen(es, k + 1);
      }
    }
  }

  /** A stage that is never rotated takes its events with it: the report of the cycle around it then
      misses them. */
  lemma AbandonedStageLosesEvents(t: nat)
    ensures var es := [StageBegin(t, 0), Rotate(Some(Ident(1, 0))), StageBegin(t, 0), Submit(false, t),
                       StageBegin(t, 0), Rotate(Some(Ident(1, 1)))];
            Run(es, 6).notes == [Note(Ident(1, 0), t, t, 0, 0, ZERO)]
            && Window(es, {}, 1, 4).submits == 1
  {
    var es := [StageBegin(t, 0), Rotate(Some(Ident(1, 0))), StageBegin(t, 0), Submit(false, t),
               StageBegin(t, 0), Rotate(Some(Ident(1, 1)))];
    assert Run(es, 1) == Step(Run(es, 0), es[0]) == IDLE.(staging := true, stageTime := t);
    assert Run(es, 2) == Step(Run(es, 1), es[1]);
    assert Run(es, 2).cycle == Cycle(true, Ident(1, 0), t, 0, ZERO) && Run(es, 2).notes == [];
    assert Run(es, 4).cycle == Run(es, 2).cycle && Run(es, 4).notes == [];
    assert Run(es, 6).notes == Run(es, 4).notes + [Note(Ident(1, 0), t, t, 0, 0, ZERO)];
    assert Window(es, {}, 1, 3) == Window(es, {}, 1, 2) == Window(es, {}, 1, 1) == ZERO;
    assert Window(es, {}, 1, 4) == AddSubmit(Window(es, {}, 1, 3), t);
  }

  /** Opened cycles are reported, dropped or still open, in every run. */
  lemma {:induction false} NoCycleIsLost(es: seq<Event>, n: nat)
    requires n <= |es|
    ensures Run(es, n).staging == StagedAt(es, n).Some?
    ensures Opened(es, n) == Run(es, n).emitted + Run(es, n).dropped + if Run(es, n).cycle.open then 1 else 0
    ensures Run(es, n).emitted == |Run(es, n).notes|
  {
    if n > 0 {
      NoCycleIsLost(es, n - 1);
    }
  }

  // ---- shadow events ----

  function MainOnly(es: seq<Event>, n: nat): (r: seq<Event>)
    requires n <= |es|
    ensures |r| <= n
  {
    if n == 0 then []
    else if (es[n - 1].Submit? || es[n - 1].Sync?) && es[n - 1].shadow then MainOnly(es, n - 1)
    else MainOnly(es, n - 1) + [es[n - 1]]
  }

  /** Everything but the shadow accumulator. */
  function Main(s: State): State {
    s.(shadowAcc := ZERO)
  }

  lemma {:induction false} RunPrefix(es: seq<Event>, more: seq<Event>, n: nat)
    requires n <= |es|
    ensures Run(es + more, n) == Run(es, n)
  {
    if n > 0 {
      RunPrefix(es, more, n - 1);
    }
  }

  lemma MainStep(s: State, s': State, e: Event)
    requires Main(s) == Main(s')
    ensures Main(Step(s, e)) == Main(Step(s', e))
    ensures (e.Submit? || e.Sync?) && e.shadow ==> Main(Step(s, e)) == Main(s)
  {
  }

  /** Deleting every shadow event, seen or not, changes nothing outside the shadow accumulator. */
  lemma {:induction false} ShadowLeavesMainAlone(es: seq<Event>, n: nat)
    requires n <= |es|
    ensures Main(Run(es, n)) == Main(Run(MainOnly(es, n), |MainOnly(es, n)|))
  {
    if n > 0 {
      ShadowLeavesMainAlone(es, n - 1);
      var e, kept := es[n - 1], MainOnly(es, n - 1);
      MainStep(Run(es, n - 1), Run(kept, |kept|), e);
      RunPrefix(kept, [e], |kept|);
    }
  }

  // ---- the global state ----

  class Bench {
    var s: State

    constructor ()
      ensures s == IDLE
    {
      s := IDLE;
    }

    method StageBegin(time: nat, cpu: int)
      modifies this
      ensures s == Step(old(s), Event.StageBegin(time, cpu))
    {
      s := s.(stageTime := time, stageCpu := cpu);
      s := s.(stageAcc := ZERO);
      s := s.(staging := true);
    }

    method NoteSubmit(shadow: bool, t: nat)
      modifies this
      ensures s == Step(old(s), Submit(shadow, t))
    {
      if shadow {
        s := s.(shadowAcc := AddSubmit(s.shadowAcc, t));
      } else if s.staging {
        s := s.(stageAcc := AddSubmit(s.stageAcc, t));
      } else if s.cycle.open {
        s := s.(cycle := s.cycle.(acc := AddSubmit(s.cycle.acc, t)));
      }
    }

    /** With the fault bit set the observation of a shadow wait is left out; a main one never is. */
    method NoteSync(shadow: bool, t0: nat, t1: nat, dropObservation: bool)
      modifies this
      ensures s == Step(old(s), Sync(shadow, t0, t1, dropObservation))
    {
      if shadow && dropObservation {
        return;
      }
      if shadow {
        s := s.(shadowAcc := AddSync(s.shadowAcc, t0, t1));
      } else if s.staging {
        s := s.(stageAcc := AddSync(s.stageAcc, t0, t1));
      } else if s.cycle.open {
        s := s.(cycle := s.cycle.(acc := AddSync(s.cycle.acc, t0, t1)));
      }
    }

    method Rotate(ident: Option<Ident>)
      modifies this
      ensures s == Step(old(s), Event.Rotate(ident))
    {
      if !s.staging {
        return;
      }
      s := s.(staging := false);
      if ident == None {
        if s.cycle.open {
          s := s.(cycle := s.cycle.(acc := Merge(s.cycle.acc, s.stageAcc)));
        }
        return;
      }
      var id := ident.value;
      if s.cycle.open {
        if s.cycle.ident.req == id.req && (s.cycle.ident.ord + 1) % WORD == id.ord {
          var c := s.cycle;
          s := s.(notes := s.notes + [Note(c.ident, c.t0, s.stageTime, c.cpu0, s.stageCpu, c.acc)]);
          s := s.(emitted := s.emitted + 1);
        } else {
          s := s.(dropped := s.dropped + 1);
        }
      }
      s := s.(cycle := Cycle(true, id, s.stageTime, s.stageCpu, s.stageAcc));
    }
  }
}
