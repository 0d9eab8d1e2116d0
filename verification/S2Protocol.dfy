/** The failure protocol of the layer-major driver: what it does to the device, the memory plan and
    the banks on every way out, returned errors and exceptions alike. The environment decides where
    things fail; the event log records what the device and the memory were told. */
module S2Protocol {
  import opened Wrappers
  import opened Rows

  datatype Status = AllocFailed | Failed | Aborted

  datatype Stage =
    | Admission | Bank | Prepare | PreparedGuard
    | Apply | RangeBuild | RangeAlloc | RangeCompute | Commit

  datatype Disposition = Disposition(handled: bool, rc: int, abortPlan: bool, freeBank: bool)

  /** The disposition table. */
  function Dispose(stage: Stage, st: Status): Disposition {
    match stage
    case Admission | Bank | Prepare => Disposition(false, 0, false, true)
    case PreparedGuard => Disposition(false, 0, true, true)
    case Apply | Commit => Disposition(true, -3, true, true)
    case RangeBuild | RangeAlloc | RangeCompute =>
      Disposition(true, if st == AllocFailed then -2 else -3, true, true)
  }

  // ---- what happened ----

  datatype Event =
    | Submit      // a range graph handed to the device, not waited for
    | Sync        // the device has finished everything submitted
    | Clear       // the caches wiped, metadata and data
    | Restore     // the metadata snapshot put back
    | Place       // one ubatch placed in the metadata
    | Free        // the banks released
    | Trace       // the request trace closed

  datatype Log = Start | Then(before: Log, event: Event)

  /** Work has been submitted that nobody has waited for. */
  predicate InFlight(log: Log) {
    match log
    case Start => false
    case Then(before, Submit) => true
    case Then(before, Sync) => false
    case Then(before, _) => InFlight(before)
  }

  /** Nothing was ever wiped or released under a running kernel. */
  predicate Safe(log: Log) {
    match log
    case Start => true
    case Then(before, e) => Safe(before) && (e == Clear || e == Free ==> !InFlight(before))
  }

  function Count(log: Log, e: Event): nat {
    match log
    case Start => 0
    case Then(before, e') => Count(before, e) + if e' == e then 1 else 0
  }

  /** p is the log as it stood at some earlier point. */
  predicate Earlier(p: Log, log: Log) {
    p == log || (log.Then? && Earlier(p, log.before))
  }

  /** A log is safe exactly if at every wipe and every release, the device was idle. */
  lemma {:induction false} SafeEverywhere(log: Log)
    ensures Safe(log) <==> forall p :: Earlier(p, log) && p.Then? && p.event in {Clear, Free} ==> !InFlight(p.before)
  {
    if log.Then? {
      SafeEverywhere(log.before);
      assert Earlier(log, log);
    }
  }

  /** The device is busy exactly if something was submitted and nothing has waited since. */
  lemma {:induction false} InFlightMeans(log: Log)
    ensures InFlight(log) <==>
            exists p :: Earlier(p, log) && p.Then? && p.event == Submit && Count(log, Sync) == Count(p, Sync)
  {
    if log.Then? {
      InFlightMeans(log.before);
      if log.event == Submit {
        assert Earlier(log, log);
      } else if log.event == Sync {
        SyncsGrow(log.before);
      } else if InFlight(log.before) {
        var p :| Earlier(p, log.before) && p.Then? && p.event == Submit && Count(log.before, Sync) == Count(p, Sync);
        assert Earlier(p, log);
      }
    }
  }

  lemma {:induction false} SyncsGrow(log: Log)
    ensures forall p :: Earlier(p, log) ==> Count(p, Sync) <= Count(log, Sync)
  {
    if log.Then? {
      SyncsGrow(log.before);
    }
  }

  // ---- the plan ----

  datatype PlanState = Prepared | Applying | Applied | Committed | PlanAborted

  datatype Plan = NoPlan | Plan(state: PlanState, applied: nat, views: nat)
  {
    predicate Valid() {
      Plan? ==> 0 < views && applied <= views && (state == Prepared ==> applied == 0)
                && (state == Applying ==> applied < views)
                && (state == Applied || state == Committed ==> applied == views)
    }

    predicate Open() {
      Plan? && state != Committed && state != PlanAborted
    }
  }

  /** How far an open plan with i of n ubatches placed has come. */
  function Placing(i: nat, n: nat): PlanState {
    if i == 0 then Prepared else if i < n then Applying else Applied
  }

  /** The plan once ended, unless it had come to its end before. */
  function Ended(plan: Plan): Plan {
    if plan.Open() then plan.(state := PlanAborted) else plan
  }

  /** How an open plan is undone: kernels may have written once every ubatch is placed, so then the
      caches are wiped; before that the metadata snapshot is put back. */
  function Undo(plan: Plan): Event
    requires plan.Plan?
  {
    if plan.state == Applied then Clear else Restore
  }

  // ---- where things fail ----

  datatype Step = Goes | Fails | Throws

  /** `prepare` places every ubatch on trial and puts the snapshot back; `cleared` says that putting
      it back failed and the caches were wiped instead. An empty plan counts as refused. */
  datatype PrepareResult = Refused(cleared: bool) | PrepareThrows | Ready(views: nat)

  /** One range graph: where it stops, and whether its kernels had been submitted by then. */
  datatype RangeResult = Runs | Stops(status: Status, submitted: bool) | Escapes(started: bool)

  datatype Env = Env(
    bank: Step, bankPartial: bool, prepare: PrepareResult, reserve: Step, reserveWaits: bool, planned: nat,
    apply: nat -> Step, fullView: Step, range: (nat, nat) -> RangeResult, copyThrows: nat -> bool,
    mappingThrows: bool, traceOn: bool)

  datatype Exit = Returned(handled: bool, rc: int) | Threw

  datatype Flow = Onward | Left(exit: Exit)

  class Driver {
    var log: Log
    var plan: Plan
    var bankLive: bool
    var armed: bool

    constructor ()
      ensures log == Start && plan == NoPlan && !bankLive && !armed
    {
      log, plan, bankLive, armed := Start, NoPlan, false, false;
    }

    method Note(e: Event)
      modifies this`log
      ensures log == Then(old(log), e)
      ensures InFlight(log) == (e == Submit || (e != Sync && InFlight(old(log))))
      ensures Safe(log) == (Safe(old(log)) && (e == Clear || e == Free ==> !InFlight(old(log))))
      ensures forall x :: Count(log, x) == Count(old(log), x) + if x == e then 1 else 0
    {
      log := Then(log, e);
    }

    // ---- plan operations ----

    /** Placing ubatch i: only the next one in order, and only while the plan is open. */
    method PlanApply(i: nat, outcome: Step) returns (step: Step)
      requires plan.Plan? && plan.Valid()
      modifies this`log, this`plan
      ensures plan.Plan? && plan.Valid() && plan.views == old(plan.views)
      ensures step == Goes <==> old(plan.Open()) && i == old(plan.applied) && i < plan.views && outcome == Goes
      ensures step == Goes ==> plan.applied == i + 1 && log == Then(old(log), Place)
      ensures step == Goes ==> plan.state == if plan.applied == plan.views then Applied else Applying
      ensures step != Goes ==> log == old(log) && plan.applied == old(plan.applied)
      ensures step != Goes ==> plan.state == if old(plan.Open()) && i == plan.applied && i < plan.views
                                             then Applying else old(plan.state)
      ensures step == if old(plan.Open()) && i == old(plan.applied) && i < plan.views then outcome else Fails
    {
      if !plan.Open() || i >= plan.views || i != plan.applied {
        return Fails;
      }
      plan := plan.(state := Applying);
      if outcome != Goes {
        return outcome;
      }
      Note(Place);
      plan := plan.(applied := plan.applied + 1);
      if plan.applied == plan.views {
        plan := plan.(state := Applied);
      }
      return Goes;
    }

    method PlanCommit() returns (ok: bool)
      requires plan.Plan? && plan.Valid()
      modifies this`plan
      ensures plan.Valid()
      ensures ok <==> old(plan.Open()) && old(plan.applied) == old(plan.views)
      ensures plan == if ok then old(plan).(state := Committed) else old(plan)
    {
      if !plan.Open() || plan.applied != plan.views {
        return false;
      }
      plan := plan.(state := Committed);
      return true;
    }

    /** Ending the plan, from the driver or from its own destructor. */
    method PlanAbort()
      requires plan.Plan? && plan.Valid()
      modifies this`log, this`plan
      ensures plan == Ended(old(plan)) && plan.Valid()
      ensures log == if old(plan.Open()) then Then(old(log), Undo(old(plan)))
                     else old(log)
      ensures old(!InFlight(log)) ==> !InFlight(log) && Safe(log) == Safe(old(log))
      ensures forall x ::
                Count(log, x) == Count(old(log), x) + if old(plan.Open()) && x == Undo(old(plan)) then 1 else 0
    {
      if plan.Open() {
        Note(Undo(plan));
        plan := plan.(state := PlanAborted);
      }
    }

    /** Releasing the banks waits for the device only if there is something to release. */
    method BankFree()
      modifies this`log, this`bankLive
      ensures !bankLive
      ensures log == if old(bankLive) then Then(Then(old(log), Sync), Free) else old(log)
      ensures Safe(log) == Safe(old(log))
      ensures InFlight(log) == (InFlight(old(log)) && !old(bankLive))
      ensures forall x :: x != Sync && x != Free ==> Count(log, x) == Count(old(log), x)
    {
      if bankLive {
        Note(Sync);
        Note(Free);
      }
      bankLive := false;
    }

    // ---- clean-up ----

    /** The clean-up steps in their one order: drain, end the plan, release the banks, close the trace. */
    method FailCleanup(d: Disposition, traceOn: bool)
      requires plan.Valid() && d.freeBank && (plan.Open() ==> d.abortPlan)
      modifies this`log, this`plan, this`bankLive
      ensures plan.Valid() && !plan.Open() && !bankLive && !InFlight(log)
      ensures plan == Ended(old(plan))
      ensures Safe(log) == Safe(old(log))
      ensures forall x :: x !in {Sync, Free, Trace} ==>
                Count(log, x) == Count(old(log), x) + if old(plan).Open() && x == Undo(old(plan)) then 1 else 0
      ensures Count(log, Trace) == Count(old(log), Trace) + if d.handled && traceOn then 1 else 0
    {
      Note(Sync);
      if d.abortPlan && plan.Plan? {
        PlanAbort();
      }
      if d.freeBank {
        BankFree();
      }
      if d.handled && traceOn {
        Note(Trace);
      }
    }

    /** The one place every returned failure goes through. */
    method FailAt(stage: Stage, st: Status, traceOn: bool) returns (exit: Exit)
      requires plan.Valid() && (plan.Open() ==> stage !in {Admission, Bank, Prepare})
      modifies this
      ensures exit == Returned(Dispose(stage, st).handled, Dispose(stage, st).rc)
      ensures plan == Ended(old(plan)) && !armed && !bankLive && !InFlight(log)
      ensures Safe(log) == Safe(old(log))
      ensures forall x :: x !in {Sync, Free, Trace} ==>
                Count(log, x) == Count(old(log), x) + if old(plan).Open() && x == Undo(old(plan)) then 1 else 0
      ensures Count(log, Trace) == Count(old(log), Trace) + if Dispose(stage, st).handled && traceOn then 1 else 0
    {
      var d := Dispose(stage, st);
      FailCleanup(d, traceOn);
      armed := false;
      return Returned(d.handled, d.rc);
    }

    // ---- the driver ----

    /** Banks, plan and output space: nothing of the memory changes, so a failure leaves the batch to
        the ordinary path. */
    method Opening(env: Env) returns (flow: Flow)
      requires plan == NoPlan && !armed
      modifies this
      ensures plan.Valid() && !armed
      ensures flow == Onward <==> OpensWell(env)
      ensures flow == Onward ==> plan == Plan(Prepared, 0, env.prepare.views) && bankLive
      ensures flow.Left? && flow.exit.Returned? ==> flow.exit == Returned(false, 0) && !bankLive && !InFlight(log)
      ensures plan.Plan? ==> !WipesEarly(env)
      ensures flow.Left? && plan.Plan? ==>
                plan.views > 0 && plan == Plan(if flow.exit == Threw then Prepared else PlanAborted, 0, plan.views)
      ensures flow == Left(Threw) <==> OpeningThrows(env)
      ensures bankLive <==> flow == Onward || (flow == Left(Threw) && (env.bank == Throws ==> env.bankPartial))
      ensures Safe(log) <==> old(Safe(log)) && !(old(InFlight(log) && !bankLive) && WipesEarly(env))
      ensures InFlight(log) <==>
              old(InFlight(log) && !bankLive) && (flow == Onward || flow == Left(Threw)) && !Waits(env)
      ensures forall x :: x in {Submit, Place, Trace} ==> Count(log, x) == Count(old(log), x)
      ensures Count(log, Clear) == Count(old(log), Clear) + if WipesEarly(env) then 1 else 0
      ensures Count(log, Restore) == Count(old(log), Restore)
                + if flow.Left? && flow.exit.Returned? && plan.Plan? then 1 else 0
    {
      BankFree();
      match env.bank {
        case Throws => bankLive := env.bankPartial; return Left(Threw);
        case Fails => var exit := FailAt(Bank, AllocFailed, env.traceOn); return Left(exit);
        case Goes => bankLive := true;
      }
      flow := OpenPlan(env);
    }

    /** The preparation, with the banks in hand. */
    method OpenPlan(env: Env) returns (flow: Flow)
      requires plan == NoPlan && !armed && bankLive
      modifies this
      ensures plan.Valid() && !armed
      ensures flow == Onward <==> env.prepare.Ready? && 2 <= env.prepare.views <= env.planned && env.reserve == Goes
      ensures flow == Onward ==> plan == Plan(Prepared, 0, env.prepare.views) && bankLive
      ensures flow.Left? && flow.exit.Returned? ==> flow.exit == Returned(false, 0) && !bankLive && !InFlight(log)
      ensures plan.Plan? ==> env.prepare.Ready?
      ensures flow.Left? && plan.Plan? ==>
                plan.views > 0 && plan == Plan(if flow.exit == Threw then Prepared else PlanAborted, 0, plan.views)
      ensures flow == Left(Threw) <==> PlanThrows(env)
      ensures bankLive <==> flow == Onward || flow == Left(Threw)
      ensures Safe(log) <==> old(Safe(log)) && !(old(InFlight(log)) && env.prepare == Refused(true))
      ensures InFlight(log) <==> old(InFlight(log)) && (flow == Onward || flow == Left(Threw)) && !PlanWaits(env)
      ensures forall x :: x in {Submit, Place, Trace} ==> Count(log, x) == Count(old(log), x)
      ensures Count(log, Clear) == Count(old(log), Clear) + if env.prepare == Refused(true) then 1 else 0
      ensures Count(log, Restore) == Count(old(log), Restore)
                + if flow.Left? && flow.exit.Returned? && plan.Plan? then 1 else 0
    {
      match env.prepare {
        case PrepareThrows => return Left(Threw);
        case Refused(cleared) =>
          if cleared {
            Note(Clear);
          }
          var exit := FailAt(Prepare, Failed, env.traceOn);
          return Left(exit);
        case Ready(views) =>
          if views == 0 {
            var exit := FailAt(Prepare, Failed, env.traceOn);
            return Left(exit);
          }
          plan := Plan(Prepared, 0, views);
      }
      flow := CheckPlan(env);
    }

    /** The plan must suit the banks, and the outputs must fit. */
    method CheckPlan(env: Env) returns (flow: Flow)
      requires plan.Plan? && plan == Plan(Prepared, 0, plan.views) && plan.views > 0 && !armed && bankLive
      modifies this
      ensures flow == Onward <==> 2 <= old(plan.views) <= env.planned && env.reserve == Goes
      ensures flow == Onward ==> plan == old(plan) && bankLive
      ensures flow.Left? && flow.exit.Returned? ==> flow.exit == Returned(false, 0) && !bankLive && !InFlight(log)
      ensures flow.Left? ==>
                plan == Plan(if flow.exit == Threw then Prepared else PlanAborted, 0, old(plan.views))
      ensures flow == Left(Threw) <==> 2 <= old(plan.views) <= env.planned && env.reserve == Throws
      ensures bankLive <==> flow == Onward || flow == Left(Threw)
      ensures Safe(log) == Safe(old(log)) && !armed
      ensures InFlight(log) <==> old(InFlight(log)) && (flow == Onward || flow == Left(Threw))
                                 && !(2 <= old(plan.views) <= env.planned && env.reserveWaits)
      ensures forall x :: x !in {Sync, Free} ==>
                Count(log, x) == Count(old(log), x)
                + if x == Restore && flow.Left? && flow.exit.Returned? then 1 else 0
    {
      if plan.views < 2 || plan.views > env.planned {
        var exit := FailAt(PreparedGuard, Failed, env.traceOn);
        return Left(exit);
      }
      if env.reserveWaits {
        Note(Sync);
      }
      match env.reserve {
        case Throws => return Left(Threw);
        case Fails => var exit := FailAt(PreparedGuard, AllocFailed, env.traceOn); return Left(exit);
        case Goes => return Onward;
      }
    }

    /** Every ubatch placed in order; only then is the guard armed. */
    method ApplyAll(env: Env) returns (flow: Flow)
      requires plan.Plan? && plan == Plan(Prepared, 0, plan.views) && plan.views > 0 && !armed && bankLive
      modifies this
      ensures plan.Plan? && plan.Valid() && plan.views == old(plan.views)
      ensures flow == Onward <==> PlacesWell(env, plan.views)
      ensures flow == Onward ==> Riding()
      ensures flow.Left? ==> !armed && plan.applied < plan.views
      ensures flow.Left? && flow.exit.Returned? ==> flow.exit == Returned(true, -3)
                                                    && plan.state == PlanAborted && !bankLive && !InFlight(log)
      ensures flow.Left? && flow.exit.Threw? ==> plan.state == Applying
      ensures flow == Left(Threw) <==> PlacingThrows(env, plan.views)
      ensures bankLive <==> flow == Onward || flow == Left(Threw)
      ensures Safe(log) == Safe(old(log))
      ensures InFlight(log) <==> old(InFlight(log)) && (flow == Onward || flow == Left(Threw))
      ensures Count(log, Submit) == Count(old(log), Submit) && Count(log, Clear) == Count(old(log), Clear)
      ensures Count(log, Place) == Count(old(log), Place) + plan.applied
      ensures Count(log, Restore) == Count(old(log), Restore) + if plan.state == PlanAborted then 1 else 0
      ensures Count(log, Trace) == Count(old(log), Trace) + if plan.state == PlanAborted && env.traceOn then 1 else 0
    {
      for i := 0 to plan.views
        invariant plan.Plan? && plan == Plan(Placing(i, plan.views), i, plan.views)
        invariant plan.views == old(plan.views) && !armed && bankLive
        invariant PlacesWell(env, i)
        invariant Safe(log) == Safe(old(log)) && InFlight(log) == InFlight(old(log))
        invariant forall x :: Count(log, x) == Count(old(log), x) + if x == Place then i else 0
      {
        var step := PlanApply(i, env.apply(i));
        if step != Goes {
          FirstFailure(env, i, plan.views);
        }
        match step {
          case Throws => return Left(Threw);
          case Fails => var exit := FailAt(Apply, Failed, env.traceOn); return Left(exit);
          case Goes =>
        }
      }
      armed := true;
      return Onward;
    }

    /** Every ubatch placed, nothing committed, and an exception would trigger the clean-up. */
    ghost predicate Riding()
      reads this
    {
      plan.Plan? && plan.Valid() && plan.state == Applied && armed && bankLive
    }

    /** Every range graph over every ubatch. */
    method Ranges(env: Env, layers: nat) returns (flow: Flow)
      requires Riding()
      modifies this
      ensures plan.Plan? && plan.Valid() && plan.applied == plan.views == old(plan.views)
      ensures flow == Onward <==> ComputesWell(env, layers, plan.views)
      ensures flow == Onward || flow == Left(Threw) ==> Riding()
      ensures flow.Left? && flow.exit.Returned? ==>
                flow.exit.handled && flow.exit.rc in {-2, -3} && plan.state == PlanAborted
                && !armed && !bankLive && !InFlight(log)
      ensures flow == Left(Returned(true, -2)) <==> OutOfMemory(env, layers, plan.views)
      ensures flow == Left(Threw) <==> RangesThrow(env, layers, plan.views)
      ensures HandsOver(env, layers, plan.views, Count(log, Submit) - Count(old(log), Submit))
      ensures Safe(log) == Safe(old(log))
      ensures Count(log, Place) == Count(old(log), Place) && Count(log, Restore) == Count(old(log), Restore)
      ensures Count(log, Clear) == Count(old(log), Clear) + if plan.state == PlanAborted then 1 else 0
      ensures Count(log, Trace) == Count(old(log), Trace) + if plan.state == PlanAborted && env.traceOn then 1 else 0
    {
      match env.fullView {
        case Throws => return Left(Threw);
        case Fails => var exit := FailAt(RangeBuild, Failed, env.traceOn); return Left(exit);
        case Goes =>
      }
      for r := 0 to layers
        invariant Riding() && plan.views == old(plan.views)
        invariant forall i: nat :: i < r ==> RangeWell(env, layers, i, plan.views)
        invariant Safe(log) == Safe(old(log))
        invariant Count(log, Submit) == Count(old(log), Submit) + Row(plan.views, r)
        invariant Count(log, Place) == Count(old(log), Place)
        invariant forall x :: x in {Clear, Restore, Trace} ==> Count(log, x) == Count(old(log), x)
      {
        ghost var u;
        flow, u := OneRange(env, layers, r);
        if flow.Left? {
          FirstStop(env, layers, plan.views, r, u);
          return;
        }
      }
      NoStop(env, layers, plan.views);
      return Onward;
    }

    /** One range over every ubatch; u is where it stopped. */
    method OneRange(env: Env, layers: nat, r: nat) returns (flow: Flow, ghost u: nat)
      requires Riding() && r < layers && env.fullView == Goes
      requires forall i: nat :: i < r ==> RangeWell(env, layers, i, plan.views)
      modifies this
      ensures plan.Plan? && plan.Valid() && plan.applied == plan.views == old(plan.views)
      ensures flow == Onward ==> RangeWell(env, layers, r, plan.views)
      ensures flow == Onward || flow == Left(Threw) ==> Riding()
      ensures flow == Onward ==> Count(log, Submit) == Count(old(log), Submit) + plan.views
      ensures flow.Left? ==>
                StopsAt(env, layers, plan.views, r, u)
                && Count(log, Submit) == Count(old(log), Submit) + u + if Starts(env, r, u) then 1 else 0
      ensures flow == Left(Returned(true, -2)) <==> flow.Left? && RunsOut(env, r, u)
      ensures flow == Left(Threw) <==> flow.Left? && StepThrows(env, layers, r, u)
      ensures flow.Left? && flow.exit.Returned? ==>
                flow.exit.handled && flow.exit.rc in {-2, -3} && plan.state == PlanAborted
                && !armed && !bankLive && !InFlight(log)
      ensures Safe(log) == Safe(old(log))
      ensures Count(log, Place) == Count(old(log), Place) && Count(log, Restore) == Count(old(log), Restore)
      ensures Count(log, Clear) == Count(old(log), Clear) + if plan.state == PlanAborted then 1 else 0
      ensures Count(log, Trace) == Count(old(log), Trace) + if plan.state == PlanAborted && env.traceOn then 1 else 0
    {
      for k := 0 to plan.views
        invariant Riding() && plan.views == old(plan.views)
        invariant RangeWell(env, layers, r, k)
        invariant Safe(log) == Safe(old(log))
        invariant Count(log, Submit) == Count(old(log), Submit) + k
        invariant Count(log, Place) == Count(old(log), Place)
        invariant forall x :: x in {Clear, Restore, Trace} ==> Count(log, x) == Count(old(log), x)
      {
        u := k;
        flow := Range(env, layers, r, k);
        if flow.Left? {
          return;
        }
      }
      return Onward, 0;
    }

    /** One range graph for one ubatch and, in the last range, the copy of its logits. */
    method Range(env: Env, layers: nat, r: nat, u: nat) returns (flow: Flow)
      requires Riding() && r < layers && u < plan.views
      modifies this
      ensures plan.Plan? && plan.Valid() && plan.applied == plan.views == old(plan.views)
      ensures flow == Onward <==> StepWell(env, layers, r, u)
      ensures flow == Onward || flow == Left(Threw) ==> Riding()
      ensures flow.Left? && flow.exit.Returned? ==>
                flow.exit.handled && flow.exit.rc in {-2, -3} && plan.state == PlanAborted
                && !armed && !bankLive && !InFlight(log)
      ensures flow == Left(Returned(true, -2)) <==> RunsOut(env, r, u)
      ensures flow == Left(Threw) <==> StepThrows(env, layers, r, u)
      ensures Safe(log) == Safe(old(log))
      ensures Count(log, Submit) == Count(old(log), Submit) + if Starts(env, r, u) then 1 else 0
      ensures Count(log, Place) == Count(old(log), Place) && Count(log, Restore) == Count(old(log), Restore)
      ensures Count(log, Clear) == Count(old(log), Clear) + if plan.state == PlanAborted then 1 else 0
      ensures Count(log, Trace) == Count(old(log), Trace) + if plan.state == PlanAborted && env.traceOn then 1 else 0
    {
      match env.range(r, u) {
        case Escapes(started) =>
          if started {
            Note(Submit);
          }
          return Left(Threw);
        case Stops(status, submitted) =>
          if submitted {
            Note(Submit);
          }
          var exit := FailAt(if status == AllocFailed then RangeAlloc else RangeCompute, status, env.traceOn);
          return Left(exit);
        case Runs =>
          Note(Submit);
      }
      if r == layers - 1 && env.copyThrows(u) {
        return Left(Threw);
      }
      return Onward;
    }

    /** After the last range the commit cannot fail, so the row of the table for it is never used. */
    method Closing(env: Env) returns (exit: Exit)
      requires Riding()
      modifies this
      ensures plan == old(plan).(state := Committed) && !armed && !bankLive && !InFlight(log)
      ensures exit == if env.mappingThrows then Threw else Returned(true, 0)
      ensures Safe(log) == Safe(old(log))
      ensures forall x :: x !in {Sync, Free} ==> Count(log, x) == Count(old(log), x)
    {
      var ok := PlanCommit();
      assert ok;
      armed := false;
      BankFree();
      return if env.mappingThrows then Threw else Returned(true, 0);
    }

    /** Where the attempt stands when control leaves it, before any destructor runs. */
    method Attempt(env: Env, layers: nat) returns (exit: Exit)
      requires plan == NoPlan && !armed
      modifies this
      ensures plan.Valid() && (exit == Threw ==> (plan.Plan? && plan.state == Applied <==> armed))
      ensures armed ==> exit == Threw && bankLive
      ensures exit == Threw && plan.Plan? ==> plan.state != PlanAborted
      ensures plan.Plan? ==> !WipesEarly(env)
      ensures Placed() == Views() && !armed ==> !bankLive && !InFlight(log)
      ensures InFlight(log) && !armed <==> old(InFlight(log) && !bankLive) && ThrowsEarly(env) && !Waits(env)
      ensures bankLive && !armed <==> KeepsBanks(env)
      ensures exit == Threw && Placed() < Views() <==> ThrowsEarly(env)
      ensures exit == Returned(true, 0) <==> Smooth(env, layers)
      ensures exit.Returned? ==> Settled(exit)
      ensures exit == Returned(true, -2) <==> MemoryFails(env, layers)
      ensures exit == Returned(false, 0) <==> FallsBack(env)
      ensures exit == Threw <==> ThrowsEarly(env) || ThrowsLate(env, layers)
      ensures Safe(log) <==> old(Safe(log)) && !(old(InFlight(log) && !bankLive) && WipesEarly(env))
      ensures Placed() < Views() ==> Count(log, Submit) == Count(old(log), Submit)
      // every range graph of every ubatch is handed to the device, up to the first that stops
      ensures exit == Returned(true, 0) ==> Count(log, Submit) == Count(old(log), Submit) + layers * env.prepare.views
      ensures Placed() == Views() ==>
                env.prepare.Ready? && plan.views == env.prepare.views
                && HandsOver(env, layers, plan.views, Count(log, Submit) - Count(old(log), Submit))
      ensures Count(log, Place) == Count(old(log), Place) + Placed()
      ensures Count(log, Clear) == Count(old(log), Clear)
                + if WipesEarly(env) || (plan.Plan? && plan.state == PlanAborted && Placed() == Views()) then 1 else 0
      ensures Count(log, Restore) == Count(old(log), Restore)
                + if plan.Plan? && plan.state == PlanAborted && Placed() < Views() then 1 else 0
      ensures Count(log, Trace) == Count(old(log), Trace)
                + if env.traceOn && exit.Returned? && exit.handled && exit.rc != 0 then 1 else 0
    {
      if env.prepare.Ready? { RowIsProduct(env.prepare.views, layers); }
      var flow := Opening(env);
      if flow == Onward {
        flow := ApplyAll(env);
      }
      if flow == Onward {
        flow := Ranges(env, layers);
      }
      if flow.Left? {
        return flow.exit;
      }
      exit := Closing(env);
    }

    /** `decode_layermajor` with its destructors: the guard's first, then the plan's own. */
    method DecodeLayermajor(env: Env, layers: nat) returns (exit: Exit)
      modifies this
      // the whole outcome, exactly
      ensures exit == Returned(true, 0) <==> Smooth(env, layers)
      ensures exit.Returned? ==> Settled(exit)
      ensures exit == Returned(true, -2) <==> MemoryFails(env, layers)
      ensures exit == Returned(false, 0) <==> FallsBack(env)
      ensures exit == Threw <==> ThrowsEarly(env) || ThrowsLate(env, layers)
      // nothing wiped or released under a running kernel
      ensures Safe(log) <==> old(Safe(log)) && !(old(InFlight(log) && !bankLive) && WipesEarly(env))
      // nothing runs before every ubatch is placed, and then the plan is committed or wiped
      ensures !armed && plan.Valid() && !plan.Open()
      ensures Placed() < Views() ==> Count(log, Submit) == Count(old(log), Submit)
      // every range graph of every ubatch is handed to the device, up to the first that stops
      ensures exit == Returned(true, 0) ==> Count(log, Submit) == Count(old(log), Submit) + layers * env.prepare.views
      ensures Placed() == Views() ==>
                env.prepare.Ready? && plan.views == env.prepare.views
                && HandsOver(env, layers, plan.views, Count(log, Submit) - Count(old(log), Submit))
      ensures Count(log, Place) == Count(old(log), Place) + Placed()
      ensures Count(log, Clear) == Count(old(log), Clear)
                + if WipesEarly(env) || (plan.Plan? && plan.state == PlanAborted && Placed() == Views()) then 1 else 0
      ensures Count(log, Restore) == Count(old(log), Restore)
                + if plan.Plan? && plan.state == PlanAborted && Placed() < Views() then 1 else 0
      // the trace is closed once if the batch fails here, by a result or by an exception under the guard
      ensures Count(log, Trace) == Count(old(log), Trace) + if env.traceOn && FailsHere(exit) then 1 else 0
      // after an exception, too, once every ubatch was placed
      ensures Placed() == Views() ==> !bankLive && !InFlight(log)
      // a kernel of an earlier call is still running in exactly one case
      ensures InFlight(log) <==> old(InFlight(log) && !bankLive) && ThrowsEarly(env) && !Waits(env)
      // the banks stay allocated in exactly one case
      ensures bankLive <==> KeepsBanks(env)
      ensures bankLive <==> exit == Threw && Placed() < Views() && (env.bank == Throws ==> env.bankPartial)
    {
      plan, armed := NoPlan, false;
      exit := Attempt(env, layers);
      Destroy(env.traceOn);
    }

    /** The destructors: first the guard's, if it is armed, then the plan's. */
    method Destroy(traceOn: bool)
      requires plan.Valid() && (armed <==> plan.Plan? && plan.state == Applied)
      modifies this
      ensures !armed && plan == Ended(old(plan)) && plan.Valid()
      ensures Safe(log) == Safe(old(log)) && (InFlight(log) ==> old(InFlight(log)))
      ensures if old(armed) then !bankLive && !InFlight(log)
              else bankLive == old(bankLive) && InFlight(log) == old(InFlight(log))
      ensures forall x :: x !in {Sync, Free, Trace} ==>
                Count(log, x) == Count(old(log), x) + if old(plan).Open() && x == Undo(old(plan)) then 1 else 0
      ensures Count(log, Trace) == Count(old(log), Trace) + if old(armed) && traceOn then 1 else 0
    {
      if armed {
        FailCleanup(Dispose(RangeCompute, Failed), traceOn);
        armed := false;
      }
      if plan.Plan? {
        PlanAbort();
      }
    }

    /** The ordinary loop: it submits graphs, waits now and then, and does not wait in the end. */
    method Ordinary(turns: seq<Turn>)
      modifies this`log
      ensures InFlight(log) == BusyAfter(InFlight(old(log)), turns) && Safe(log) == Safe(old(log))
    {
      for i := 0 to |turns|
        invariant InFlight(log) == BusyAfter(InFlight(old(log)), turns[..i]) && Safe(log) == Safe(old(log))
      {
        Note(if turns[i] == Launch then Submit else Sync);
        assert turns[..i + 1][i] == turns[i];
      }
      assert turns[..|turns|] == turns;
    }

    /** `decode`: a batch that qualifies is tried layer by layer; the ordinary loop takes what was not
        tried or not handled. */
    method Decode(call: Call, layers: nat)
      modifies this
      ensures Device(InFlight(log), bankLive) == AfterCall(old(Device(InFlight(log), bankLive)), call)
      ensures Safe(log) <==> old(Safe(log)) && !WipesRunning(old(Device(InFlight(log), bankLive)), call)
    {
      if call.waits {
        Note(Sync);
      }
      if call.tried.Some? {
        var exit := DecodeLayermajor(call.tried.value, layers);
        if exit != Returned(false, 0) {
          return;
        }
      }
      Ordinary(call.ordinary);
    }

    /** Any number of calls of either kind, failing anywhere in any way. Something is wiped or released
        under a running kernel exactly if some call's early wipe meets one; and what runs in the end and
        whether banks are left over is known. */
    method Serve(calls: seq<Call>, layers: nat)
      modifies this
      ensures Device(InFlight(log), bankLive) == AfterCalls(old(Device(InFlight(log), bankLive)), calls, |calls|)
      ensures Safe(log) <==> old(Safe(log)) && NoneWipesRunning(old(Device(InFlight(log), bankLive)), calls, |calls|)
    {
      for i := 0 to |calls|
        invariant Device(InFlight(log), bankLive) == AfterCalls(old(Device(InFlight(log), bankLive)), calls, i)
        invariant Safe(log) <==> old(Safe(log)) && NoneWipesRunning(old(Device(InFlight(log), bankLive)), calls, i)
      {
        NextWipes(old(Device(InFlight(log), bankLive)), calls, i);
        Decode(calls[i], layers);
      }
    }

    /** Two calls are enough: an ordinary one that leaves a kernel running, and one whose preparation
        cannot put its snapshot back. */
    static method EarlyWipeUnderKernel() returns (d: Driver)
      ensures !Safe(d.log)
    {
      d := new Driver();
      var env := Env(Goes, false, Refused(true), Goes, false, 2,
                     i => Goes, Goes, (r, u) => Runs, u => false, false, false);
      var calls := [Call(false, None, [Launch]), Call(false, Some(env), [])];
      ghost var idle := Device(false, false);
      assert AfterCalls(idle, calls, 1) == AfterCall(AfterCalls(idle, calls, 0), calls[0]) == Device(true, false);
      assert WipesAt(idle, calls, 1);
      d.Serve(calls, 1);
    }

    ghost function Placed(): nat
      reads this
    {
      if plan.Plan? then plan.applied else 0
    }

    /** One more than any count when there is no plan. */
    ghost function Views(): nat
      reads this
    {
      if plan.Plan? then plan.views else 1
    }

    /** A batch that is not handed on and does not succeed, once the guard is armed if it ends in an
        exception. */
    ghost predicate FailsHere(exit: Exit)
      reads this
    {
      match exit
      case Returned(handled, rc) => handled && rc != 0
      case Threw => Placed() == Views() && plan.state != Committed
    }

    /** What every returned result promises. */
    ghost predicate Settled(exit: Exit)
      requires exit.Returned?
      reads this
    {
      !plan.Open() && !armed && !bankLive && !InFlight(log)
      && exit.rc in {0, -2, -3}
      && (!exit.handled ==> exit.rc == 0 && Placed() == 0 && !(plan.Plan? && plan.state == Committed))
      && (exit.handled ==> plan.Plan? && plan.state == if exit.rc == 0 then Committed else PlanAborted)
    }
  }

  /** Nothing fails anywhere. */
  predicate Smooth(env: Env, layers: nat) {
    OpensWell(env) && PlacesWell(env, env.prepare.views) && ComputesWell(env, layers, env.prepare.views)
    && !env.mappingThrows
  }

  /** An exception between the preparation and the first placement. */
  predicate PlanThrows(env: Env) {
    match env.prepare
    case PrepareThrows => true
    case Refused(_) => false
    case Ready(views) => 2 <= views <= env.planned && env.reserve == Throws
  }

  predicate OpeningThrows(env: Env) {
    env.bank == Throws || (env.bank == Goes && PlanThrows(env))
  }

  /** All ubatches before some one are placed, and placing that one throws. */
  predicate PlacingThrows(env: Env, n: nat) {
    exists i: nat :: i < n && PlacesWell(env, i) && env.apply(i) == Throws
  }

  /** An exception before the guard is armed. */
  predicate ThrowsEarly(env: Env) {
    OpeningThrows(env) || (OpensWell(env) && PlacingThrows(env, env.prepare.views))
  }

  /** Such an exception once a bank has been allocated. */
  predicate KeepsBanks(env: Env) {
    ThrowsEarly(env) && (env.bank == Throws ==> env.bankPartial)
  }

  lemma FirstFailure(env: Env, i: nat, n: nat)
    requires i < n && PlacesWell(env, i) && env.apply(i) != Goes
    ensures PlacingThrows(env, n) <==> env.apply(i) == Throws
  {
    if PlacingThrows(env, n) {
      var j: nat :| j < n && PlacesWell(env, j) && env.apply(j) == Throws;
      assert j == i;
    }
  }

  /** Nothing fails before the first ubatch is placed. */
  predicate OpensWell(env: Env) {
    env.bank == Goes && env.prepare.Ready? && 2 <= env.prepare.views <= env.planned && env.reserve == Goes
  }

  predicate PlacesWell(env: Env, n: nat) {
    forall i: nat :: i < n ==> env.apply(i) == Goes
  }

  predicate StepWell(env: Env, layers: nat, r: nat, u: nat) {
    env.range(r, u) == Runs && (r == layers - 1 ==> !env.copyThrows(u))
  }

  predicate RangeWell(env: Env, layers: nat, r: nat, n: nat) {
    forall u: nat :: u < n ==> StepWell(env, layers, r, u)
  }

  predicate ComputesWell(env: Env, layers: nat, n: nat) {
    env.fullView == Goes && forall r: nat :: r < layers ==> RangeWell(env, layers, r, n)
  }

  predicate RunsOut(env: Env, r: nat, u: nat) {
    env.range(r, u).Stops? && env.range(r, u).status == AllocFailed
  }

  predicate StepThrows(env: Env, layers: nat, r: nat, u: nat) {
    env.range(r, u).Escapes? || (env.range(r, u) == Runs && r == layers - 1 && env.copyThrows(u))
  }

  /** The step hands its graph to the device, whatever becomes of it. */
  predicate Starts(env: Env, r: nat, u: nat) {
    env.range(r, u) == Runs || env.range(r, u) == Escapes(true)
    || (env.range(r, u).Stops? && env.range(r, u).submitted)
  }

  /** The graphs handed over when the first stop is ubatch u of range r: all before, and perhaps its own. */
  function StartedBy(env: Env, n: nat, r: nat, u: nat): nat {
    Row(n, r) + u + if Starts(env, r, u) then 1 else 0
  }

  /** The number of graphs handed over once everything is placed. */
  ghost predicate HandsOver(env: Env, layers: nat, n: nat, submits: int) {
    && (env.fullView != Goes ==> submits == 0)
    && (ComputesWell(env, layers, n) ==> submits == Row(n, layers))
    && forall r: nat, u: nat {:trigger StopsAt(env, layers, n, r, u)} ::
         env.fullView == Goes && StopsAt(env, layers, n, r, u) ==> submits == StartedBy(env, n, r, u)
  }

  /** Everything before ubatch u of range r goes well, and that step does not. */
  predicate StopsAt(env: Env, layers: nat, n: nat, r: nat, u: nat) {
    r < layers && u < n && (forall i: nat :: i < r ==> RangeWell(env, layers, i, n))
    && RangeWell(env, layers, r, u) && !StepWell(env, layers, r, u)
  }

  /** The first step that does not go well runs out of memory. */
  ghost predicate OutOfMemory(env: Env, layers: nat, n: nat) {
    env.fullView == Goes
    && exists r: nat, u: nat {:trigger StopsAt(env, layers, n, r, u)} ::
         StopsAt(env, layers, n, r, u) && RunsOut(env, r, u)
  }

  /** The first one throws. */
  ghost predicate RangesThrow(env: Env, layers: nat, n: nat) {
    env.fullView == Throws
    || (env.fullView == Goes
        && exists r: nat, u: nat {:trigger StopsAt(env, layers, n, r, u)} ::
             StopsAt(env, layers, n, r, u) && StepThrows(env, layers, r, u))
  }

  /** There is only one first stop, and with one not everything goes well. */
  lemma FirstStop(env: Env, layers: nat, n: nat, r: nat, u: nat)
    requires StopsAt(env, layers, n, r, u) && env.fullView == Goes
    ensures !ComputesWell(env, layers, n)
    ensures OutOfMemory(env, layers, n) <==> RunsOut(env, r, u)
    ensures RangesThrow(env, layers, n) <==> StepThrows(env, layers, r, u)
    ensures HandsOver(env, layers, n, StartedBy(env, n, r, u))
  {
    assert !RangeWell(env, layers, r, n);
    forall r': nat, u': nat {:trigger StopsAt(env, layers, n, r', u')} | StopsAt(env, layers, n, r', u')
      ensures r' == r && u' == u
    {
      assert !RangeWell(env, layers, r', n);
    }
  }

  lemma NoStop(env: Env, layers: nat, n: nat)
    requires ComputesWell(env, layers, n)
    ensures !OutOfMemory(env, layers, n) && !RangesThrow(env, layers, n)
    ensures HandsOver(env, layers, n, Row(n, layers))
  {
    forall r: nat, u: nat {:trigger StopsAt(env, layers, n, r, u)} | r < layers && u < n
      ensures !StopsAt(env, layers, n, r, u)
    {
      assert RangeWell(env, layers, r, n);
    }
  }

  /** Every placement goes well and the first range step that does not runs out of memory. */
  ghost predicate MemoryFails(env: Env, layers: nat) {
    OpensWell(env) && PlacesWell(env, env.prepare.views) && OutOfMemory(env, layers, env.prepare.views)
  }

  /** An exception once the guard is armed, or after the commit. */
  ghost predicate ThrowsLate(env: Env, layers: nat) {
    OpensWell(env) && PlacesWell(env, env.prepare.views)
    && (RangesThrow(env, layers, env.prepare.views)
        || (ComputesWell(env, layers, env.prepare.views) && env.mappingThrows))
  }

  /** A failure that leaves the batch to the ordinary path. */
  predicate FallsBack(env: Env) {
    !OpensWell(env) && !OpeningThrows(env)
  }

  /** A plan of a single ubatch, or of more than were planned for, goes the ordinary way. */
  lemma PlanMustSuit(env: Env, n: nat)
    requires env.bank == Goes && env.prepare == Ready(n) && env.planned >= 2
    ensures n < 2 || n > env.planned ==> FallsBack(env)
    ensures n == 2 && env.reserve == Goes ==> !FallsBack(env) && !ThrowsEarly(env.(apply := i => Goes))
  {
  }

  /** Making room for the outputs waits for the device when their buffer has to grow. */
  predicate PlanWaits(env: Env) {
    env.prepare.Ready? && 2 <= env.prepare.views <= env.planned && env.reserveWaits
  }

  predicate Waits(env: Env) {
    env.bank == Goes && PlanWaits(env)
  }

  /** The preparation could not put the snapshot back and wiped the caches. */
  predicate WipesEarly(env: Env) {
    env.bank == Goes && env.prepare == Refused(true)
  }

  // ---- runs of calls ----

  /** A step of the ordinary loop as far as the device goes. */
  datatype Turn = Launch | Await

  /** One call of `decode`. `waits` says that the device is waited for beforehand, as by a reader of
      the previous outputs; `tried` is how the layer-major attempt goes, if the batch qualifies. */
  datatype Call = Call(waits: bool, tried: Option<Env>, ordinary: seq<Turn>)

  /** Kernels are running; banks of an earlier call are still allocated. */
  datatype Device = Device(busy: bool, banks: bool)

  function BusyAfter(busy: bool, turns: seq<Turn>): bool {
    if turns == [] then busy else turns[|turns| - 1] == Launch
  }

  function AfterCall(d: Device, call: Call): Device {
    var busy := d.busy && !call.waits;
    match call.tried
    case None => Device(BusyAfter(busy, call.ordinary), d.banks)
    case Some(env) =>
      var left := busy && !d.banks && ThrowsEarly(env) && !Waits(env);
      Device(if FallsBack(env) then BusyAfter(left, call.ordinary) else left, KeepsBanks(env))
  }

  function AfterCalls(d: Device, calls: seq<Call>, n: nat): Device
    requires n <= |calls|
  {
    if n == 0 then d else AfterCall(AfterCalls(d, calls, n - 1), calls[n - 1])
  }

  /** The call wipes the caches early while a kernel is running and no banks make it wait. */
  predicate WipesRunning(d: Device, call: Call) {
    d.busy && !call.waits && !d.banks && call.tried.Some? && WipesEarly(call.tried.value)
  }

  predicate NoneWipesRunning(d: Device, calls: seq<Call>, n: nat)
    requires n <= |calls|
  {
    forall i: nat {:trigger WipesAt(d, calls, i)} :: i < n ==> !WipesAt(d, calls, i)
  }

  predicate WipesAt(d: Device, calls: seq<Call>, i: nat) {
    i < |calls| && WipesRunning(AfterCalls(d, calls, i), calls[i])
  }

  /** The call leaves a kernel of its ordinary loop running. */
  predicate LeavesRunning(call: Call) {
    call.ordinary != [] && call.ordinary[|call.ordinary| - 1] == Launch
    && (call.tried.Some? ==> FallsBack(call.tried.value))
  }

  /** Nothing in this call waits for what was running: either it is an ordinary call without any step,
      or a layer-major attempt that threw before its guard was armed. */
  predicate PassesBy(d: Device, call: Call) {
    !call.waits && (match call.tried
                    case None => call.ordinary == []
                    case Some(env) => !d.banks && ThrowsEarly(env) && !Waits(env))
  }

  predicate PassesAt(d: Device, calls: seq<Call>, i: nat) {
    i < |calls| && PassesBy(AfterCalls(d, calls, i), calls[i])
  }

  lemma NextWipes(d: Device, calls: seq<Call>, n: nat)
    requires n < |calls|
    ensures NoneWipesRunning(d, calls, n + 1)
       <==> NoneWipesRunning(d, calls, n) && !WipesRunning(AfterCalls(d, calls, n), calls[n])
  {
    assert WipesAt(d, calls, n) <==> WipesRunning(AfterCalls(d, calls, n), calls[n]);
  }

  /** Running when call n begins, and running since call j began: something was left running then, and
      nothing has waited for it. */
  ghost predicate RunsSince(d: Device, calls: seq<Call>, j: nat, n: nat)
    requires j <= n <= |calls|
  {
    (if j == 0 then d.busy else LeavesRunning(calls[j - 1]))
    && forall i: nat {:trigger PassesAt(d, calls, i)} :: j <= i < n ==> PassesAt(d, calls, i)
  }

  lemma BusyAfterCall(d: Device, call: Call)
    ensures AfterCall(d, call).busy <==> LeavesRunning(call) || (d.busy && PassesBy(d, call))
  {
  }

  lemma RunsOn(d: Device, calls: seq<Call>, j: nat, n: nat)
    requires j <= n < |calls|
    ensures RunsSince(d, calls, j, n + 1) <==> RunsSince(d, calls, j, n) && PassesBy(AfterCalls(d, calls, n), calls[n])
  {
    assert PassesAt(d, calls, n) <==> PassesBy(AfterCalls(d, calls, n), calls[n]);
  }

  /** A kernel is running exactly if an ordinary loop left one, or one ran before the first call, and
      nothing has waited since. */
  lemma {:induction false} BusyMeans(d: Device, calls: seq<Call>, n: nat)
    requires n <= |calls|
    ensures AfterCalls(d, calls, n).busy <==> exists j: nat :: j <= n && RunsSince(d, calls, j, n)
  {
    assert RunsSince(d, calls, n, n) <==> if n == 0 then d.busy else LeavesRunning(calls[n - 1]);
    if n > 0 {
      BusyMeans(d, calls, n - 1);
      BusyAfterCall(AfterCalls(d, calls, n - 1), calls[n - 1]);
      forall j: nat {:trigger RunsSince(d, calls, j, n)} {:trigger RunsSince(d, calls, j, n - 1)} | j <= n - 1
        ensures RunsSince(d, calls, j, n)
           <==> RunsSince(d, calls, j, n - 1) && PassesBy(AfterCalls(d, calls, n - 1), calls[n - 1])
      {
        RunsOn(d, calls, j, n - 1);
      }
    }
  }

  /** Calls whose every batch is handled layer by layer, or fails there, leave an idle device idle. */
  lemma {:induction false} LayerMajorStaysIdle(d: Device, calls: seq<Call>, n: nat)
    requires n <= |calls| && !d.busy
    requires forall i: nat {:trigger LeavesRunning(calls[i])} :: i < n ==> !LeavesRunning(calls[i])
    ensures !AfterCalls(d, calls, n).busy && NoneWipesRunning(d, calls, n)
  {
    if n > 0 {
      LayerMajorStaysIdle(d, calls, n - 1);
      assert !LeavesRunning(calls[n - 1]);
      BusyAfterCall(AfterCalls(d, calls, n - 1), calls[n - 1]);
      NextWipes(d, calls, n - 1);
    }
  }

  /** So is every run in which the device is waited for before each attempt. */
  lemma WaitingIsSafe(d: Device, calls: seq<Call>, n: nat)
    requires n <= |calls| && forall i: nat :: i < n && calls[i].tried.Some? ==> calls[i].waits
    ensures NoneWipesRunning(d, calls, n)
  {
  }
}
