/** What the active counter counts: the executions that were reserved and are neither committed nor
    aborted, for exactly as long as every close is one of them. */
module RuntimeDrain {
  import opened Bytes
  import opened Foundation
  import opened Group
  import opened Runtime
  import opened RuntimeRuns
  import opened RuntimeLaws
  import L = Lifecycle
  import A = Accounting
  import E = ReferenceEngine
  import P = Planner

  /** The reserve returned, nothing was committed, and it was not aborted. */
  predicate Held(x: Execution) { x.reservation != 0 && x.measurement.None? && x.lifecycle != L.Aborted }

  ghost function HeldSet(s: RtState): set<nat> {
    set e | e in s.executions && Held(s.executions[e])
  }

  ghost predicate CountsHeld(s: RtState) { s.accounting.active == |HeldSet(s)| }

  /** Somebody outside books into the accounting object. */
  predicate Outside(a: Action) { a.Section? && a.op.Booking? }

  /** The step does not close what was never opened or is closed already: no abort of an unreserved
      execution and no commit on an aborted one, while the counter could be lowered. */
  predicate Disciplined(pf: E.Platform, sys: System, a: Action) {
    match a
    case Section(Aborting(e)) =>
      sys.rt.accounting.active > 0 && e in sys.rt.executions && L.Allowed(sys.rt.executions[e].lifecycle, L.Aborted) ==>
        sys.rt.executions[e].reservation != 0
    case Conclude(c) =>
      sys.rt.accounting.active > 0 && Commits(pf, sys, c) && sys.calls[c].e in sys.rt.executions ==>
        sys.rt.executions[sys.calls[c].e].lifecycle != L.Aborted
    case _ => true
  }

  // ---------------------------------------------------------------- reservations of executions

  predicate BetweenReserveAndEnd(l: L.State) {
    l == L.Reserved || l == L.Dispatched || l == L.Running || l == L.Completing
  }

  /** No reservation before RESERVED; and one from then on, unless its size overflowed. */
  predicate ReservationOk(x: Execution) {
    && (x.lifecycle == L.Created || x.lifecycle == L.Planned ==> x.reservation == 0)
    && (BetweenReserveAndEnd(x.lifecycle) && ElementBytes(x.descriptor).Some? ==> x.reservation != 0)
  }

  ghost predicate ReservationsOk(s: RtState) {
    && s.nextId > 0
    && (forall id :: id in s.accounting.reservations ==> id < s.nextId)
    && (forall e :: e in s.executions ==> ReservationOk(s.executions[e]))
  }

  predicate EngagedReserved(s: RtState, call: Call) {
    call.stage.Engaged? ==> call.e in s.executions && s.executions[call.e].reservation != 0
  }

  ghost predicate DrainInv(sys: System) {
    ReservationsOk(sys.rt) && forall c :: c in sys.calls ==> EngagedReserved(sys.rt, sys.calls[c])
  }

  /** A step that neither reserves, aborts nor commits. */
  predicate CalmExecution(x: Execution, y: Execution) {
    && y.descriptor == x.descriptor && y.reservation == x.reservation && y.measurement == x.measurement
    && (y.lifecycle == L.Aborted <==> x.lifecycle == L.Aborted)
    && (ReservationOk(x) ==> ReservationOk(y))
  }

  ghost predicate Calm(s: RtState, t: RtState) {
    && t.accounting.active == s.accounting.active && t.accounting.reservations == s.accounting.reservations
    && s.nextId <= t.nextId
    && (forall e :: e in s.executions ==> e in t.executions && CalmExecution(s.executions[e], t.executions[e]))
    && (forall e :: e in t.executions && e !in s.executions ==>
          t.executions[e].lifecycle == L.Created && t.executions[e].reservation == 0)
  }

  lemma CalmKeeps(s: RtState, t: RtState)
    requires ReservationsOk(s) && Calm(s, t)
    ensures ReservationsOk(t) && HeldSet(t) == HeldSet(s)
  {
    hide ReservationOk;
    forall e | e in t.executions
      ensures ReservationOk(t.executions[e])
    {
      if e !in s.executions {
        NewbornOk(t.executions[e]);
      }
    }
  }

  lemma NewbornOk(x: Execution)
    requires x.lifecycle == L.Created && x.reservation == 0
    ensures ReservationOk(x)
  {
  }

  lemma LocalCalm(s: RtState, t: RtState, e: nat)
    requires e in s.executions && e in t.executions && t.executions == s.executions[e := t.executions[e]]
    requires t.accounting.active == s.accounting.active && t.accounting.reservations == s.accounting.reservations
    requires s.nextId <= t.nextId && CalmExecution(s.executions[e], t.executions[e])
    ensures Calm(s, t)
  {
  }

  lemma CalmReflexive(s: RtState)
    ensures Calm(s, s)
  {
  }

  lemma MoveCalm(s: RtState, e: nat, to: L.State)
    requires to != L.Aborted && to != L.Reserved
    ensures Calm(s, Move(s, e, to).0)
  {
    hide ElementBytes, Calm;
    CalmReflexive(s);
    if Move(s, e, to).1.Done? {
      LocalCalm(s, Move(s, e, to).0, e);
    }
  }

  lemma PlanCalm(s: RtState, e: nat, answer: P.Selection, backend: u64)
    ensures Calm(s, Plan(s, e, answer, backend).0)
  {
    hide ElementBytes, Calm;
    MoveCalm(s, e, L.Planned);
    if Move(s, e, L.Planned).1.Done? {
      LocalCalm(s, Plan(s, e, answer, backend).0, e);
    }
  }

  lemma DispatchCalm(s: RtState, e: nat)
    ensures Calm(s, Dispatch(s, e).0)
  {
    hide ElementBytes, Calm;
    MoveCalm(s, e, L.Dispatched);
    if Move(s, e, L.Dispatched).1.Done? {
      LocalCalm(s, Dispatch(s, e).0, e);
    }
  }

  lemma FailCalm(s: RtState, e: nat, f: Failure)
    ensures Calm(s, Fail(s, e, f).0)
  {
    hide ElementBytes, Calm;
    CalmReflexive(s);
    MoveCalm(s, e, L.Failed);
    if Move(s, e, L.Failed).1.Done? {
      LocalCalm(s, Fail(s, e, f).0, e);
    }
  }

  lemma CommitFailureCalm(s: RtState, e: nat)
    ensures Calm(s, CommitFailure(s, e).0)
  {
    hide ElementBytes, Calm;
    CalmReflexive(s);
    if e in s.executions {
      LocalCalm(s, CommitFailure(s, e).0, e);
    }
  }

  lemma ReportCalm(s: RtState, e: nat, r: u64)
    ensures Calm(s, CompleteRank(s, e, r).0)
  {
    hide ElementBytes, Calm, AllReported, CompleteRank;
    CalmReflexive(s);
    if e in s.executions && r !in s.executions[e].completions {
      ReportShape(s, e, r);
      LocalCalm(s, CompleteRank(s, e, r).0, e);
    } else {
      NoReportEffect(s, e, r);
    }
  }

  lemma CreateCalm(s: RtState, d: Descriptor)
    requires ExecutionsOk(s)
    ensures Calm(s, Create(s, d).0)
  {
    hide Fault, ReservationOk, ExecutionOk;
    forall e | e in s.executions
      ensures e < s.nextId
    {
      NextIdIsNew(s, e);
    }
  }

  lemma SectionCalm(s: RtState, op: Op)
    requires ExecutionsOk(s) && !op.Reserving? && !op.Aborting? && !op.Booking?
    ensures Calm(s, Applied(s, op).0)
  {
    hide Calm, Create, Plan, Move, Dispatch, CompleteRank, Fail;
    match op
    case Registering(g) => AsideCalm(s, Applied(s, op).0);
    case Creating(d) => CreateCalm(s, d);
    case Planning(e, answer, backend) => PlanCalm(s, e, answer, backend);
    case Dispatching(e) => DispatchCalm(s, e);
    case Reporting(e, r) => ReportCalm(s, e, r);
    case Failing(e, f) => FailCalm(s, e, f);
    case Cancelling(e) => MoveCalm(s, e, L.Cancelled);
    case Retiring(e) => MoveCalm(s, e, L.Stale);
    case Ingesting(id, m) => AsideCalm(s, Applied(s, op).0);
  }

  lemma AsideCalm(s: RtState, t: RtState)
    requires t == s.(groups := t.groups, measurements := t.measurements)
    ensures Calm(s, t)
  {
  }

  // ---------------------------------------------------------------- the steps that count

  /** Without outside bookings a reserve that comes to its booking always returns. */
  lemma ReserveCounts(s: RtState, e: nat)
    requires ReservationsOk(s) && ExecutionsOk(s) && s.accounting.active < U64_LIMIT - 1
    ensures var t := Reserve(s, e).0;
            && ReservationsOk(t)
            && (forall k :: k in s.executions ==> k in t.executions && (s.executions[k].reservation != 0 ==> t.executions[k].reservation != 0))
            && (CountsHeld(s) ==> CountsHeld(t))
  {
    hide ElementBytes, Reserve, CountsHeld, HeldSet, ReservationOk, Calm;
    if e !in s.executions || s.executions[e].lifecycle != L.Planned {
      NoReserve(s, e);
    } else if ElementBytes(s.executions[e].descriptor).None? {
      OversizedReserve(s, e);
    } else {
      assert ExecutionOk(s, e);
      ReserveEffect(s, e);
      var t := Reserve(s, e).0;
      ReserveHolds(s, t, e);
    }
  }

  lemma NoReserve(s: RtState, e: nat)
    requires e !in s.executions || s.executions[e].lifecycle != L.Planned
    ensures Reserve(s, e).0 == s
  {
  }

  lemma OversizedReserve(s: RtState, e: nat)
    requires e in s.executions && s.executions[e].lifecycle == L.Planned && ElementBytes(s.executions[e].descriptor).None?
    requires ReservationsOk(s)
    ensures var t := Reserve(s, e).0;
            && ReservationsOk(t) && (CountsHeld(s) ==> CountsHeld(t))
            && forall k :: k in s.executions ==> k in t.executions && t.executions[k].reservation == s.executions[k].reservation
  {
    LocalCalm(s, Reserve(s, e).0, e);
    CalmKeeps(s, Reserve(s, e).0);
  }

  lemma ReserveEffect(s: RtState, e: nat)
    requires ReservationsOk(s) && s.accounting.active < U64_LIMIT - 1
    requires e in s.executions && s.executions[e].lifecycle == L.Planned && ElementBytes(s.executions[e].descriptor).Some?
    ensures var t, id := Reserve(s, e).0, s.nextId;
            && t.nextId == id + 1 && t.accounting.active == s.accounting.active + 1
            && t.executions == s.executions[e := s.executions[e].(lifecycle := L.Reserved, reservation := id)]
            && t.accounting.reservations.Keys == s.accounting.reservations.Keys + {id}
  {
    hide ElementBytes, ReservationOk;
  }

  lemma ReserveHolds(s: RtState, t: RtState, e: nat)
    requires ReservationsOk(s) && e in s.executions
    requires s.executions[e].lifecycle == L.Planned && s.executions[e].measurement.None?
    requires t.nextId == s.nextId + 1 && t.accounting.active == s.accounting.active + 1
    requires t.executions == s.executions[e := s.executions[e].(lifecycle := L.Reserved, reservation := s.nextId)]
    requires t.accounting.reservations.Keys == s.accounting.reservations.Keys + {s.nextId}
    ensures ReservationsOk(t) && (CountsHeld(s) ==> CountsHeld(t))
  {
    hide ElementBytes;
    assert ReservationOk(s.executions[e]);
    assert HeldSet(t) == HeldSet(s) + {e};
    forall id | id in t.accounting.reservations
      ensures id < t.nextId
    {
      assert id in t.accounting.reservations.Keys;
    }
  }

  lemma AbortCounts(s: RtState, e: nat)
    requires ReservationsOk(s) && ExecutionsOk(s)
    ensures var t := Abort(s, e).0;
            && ReservationsOk(t)
            && (forall k :: k in s.executions ==> k in t.executions && t.executions[k].reservation == s.executions[k].reservation)
    ensures CountsHeld(s) ==>
              (CountsHeld(Abort(s, e).0) <==>
                 (s.accounting.active > 0 && e in s.executions && L.Allowed(s.executions[e].lifecycle, L.Aborted)
                  ==> s.executions[e].reservation != 0))
  {
    hide ElementBytes, A.Record, Abort, Held, HeldSet, ReservationOk, CountsHeld;
    if e in s.executions && L.Allowed(s.executions[e].lifecycle, L.Aborted) {
      assert ExecutionOk(s, e);
      AbortEffect(s, e);
      AbortHolds(s, Abort(s, e).0, e);
    } else {
      NoAbort(s, e);
    }
  }

  lemma NoAbort(s: RtState, e: nat)
    requires !(e in s.executions && L.Allowed(s.executions[e].lifecycle, L.Aborted))
    ensures Abort(s, e).0 == s
  {
  }

  lemma AbortEffect(s: RtState, e: nat)
    requires e in s.executions && L.Allowed(s.executions[e].lifecycle, L.Aborted)
    ensures var t := Abort(s, e).0;
            && t.nextId == s.nextId && t.accounting.reservations == s.accounting.reservations
            && t.accounting.active == (if s.accounting.active > 0 then s.accounting.active - 1 else 0)
            && t.executions == s.executions[e := s.executions[e].(lifecycle := L.Aborted)]
  {
  }

  lemma AbortHolds(s: RtState, t: RtState, e: nat)
    requires ReservationsOk(s) && e in s.executions && s.executions[e].measurement.None?
    requires s.executions[e].lifecycle != L.Aborted
    requires t.nextId == s.nextId && t.accounting.reservations == s.accounting.reservations
    requires t.accounting.active == (if s.accounting.active > 0 then s.accounting.active - 1 else 0)
    requires t.executions == s.executions[e := s.executions[e].(lifecycle := L.Aborted)]
    ensures ReservationsOk(t)
    ensures CountsHeld(s) ==> (CountsHeld(t) <==> (s.accounting.active > 0 ==> s.executions[e].reservation != 0))
  {
    hide ElementBytes;
    assert HeldSet(t) == HeldSet(s) - {e};
    assert e in HeldSet(s) <==> s.executions[e].reservation != 0;
  }

  lemma CommitCounts(s: RtState, e: nat, n: u64, outputs: seq<seq<byte>>)
    requires ReservationsOk(s) && GroupsOk(s) && e in s.executions && Members(s, s.executions[e].descriptor, n)
    requires ElementBytes(s.executions[e].descriptor).Some?
    requires s.executions[e].measurement.None? && s.executions[e].reservation != 0
    ensures var t := Commit(s, e, n, outputs).0;
            && ReservationsOk(t)
            && (forall k :: k in s.executions ==> k in t.executions && t.executions[k].reservation == s.executions[k].reservation)
    ensures CountsHeld(s) ==>
              (CountsHeld(Commit(s, e, n, outputs).0) <==>
                 (s.accounting.active > 0 ==> s.executions[e].lifecycle != L.Aborted))
  {
    hide ElementBytes, Commit, Ranks, Quorate;
    CommitEffect(s, e, n, outputs);
    CommitBooks(s, e, n, outputs);
    var t := Commit(s, e, n, outputs).0;
    forall k | k in t.executions
      ensures ReservationOk(t.executions[k])
    {
      assert ReservationOk(s.executions[k]);
    }
    assert HeldSet(t) == HeldSet(s) - {e};
    if Held(s.executions[e]) {
      assert e in HeldSet(s);
    } else {
      assert e !in HeldSet(s);
    }
  }

  lemma CommitBooks(s: RtState, e: nat, n: u64, outputs: seq<seq<byte>>)
    requires e in s.executions && ElementBytes(s.executions[e].descriptor).Some?
    ensures var t := Commit(s, e, n, outputs).0;
            && t.accounting.reservations == s.accounting.reservations
            && t.accounting.active == if s.accounting.active > 0 then s.accounting.active - 1 else 0
  {
    hide Ranks;
    StoredElsewhere(s, e, n, outputs);
    assert Stored(s, e, n, outputs).executions[e].descriptor == s.executions[e].descriptor;
  }

  // ---------------------------------------------------------------- steps

  /** The drain invariant survives a change of state that keeps reservations. */
  lemma CallsReserved(sys: System, t: RtState)
    requires DrainInv(sys) && ReservationsOk(t)
    requires forall k :: k in sys.rt.executions ==>
               k in t.executions && (sys.rt.executions[k].reservation != 0 ==> t.executions[k].reservation != 0)
    ensures DrainInv(sys.(rt := t))
  {
    hide ReservationsOk;
    forall c | c in sys.calls
      ensures EngagedReserved(t, sys.calls[c])
    {
      assert EngagedReserved(sys.rt, sys.calls[c]);
    }
  }

  lemma CalmDrain(sys: System, t: RtState)
    requires DrainInv(sys) && Calm(sys.rt, t)
    ensures DrainInv(sys.(rt := t)) && HeldSet(t) == HeldSet(sys.rt)
    ensures CountsHeld(sys.rt) ==> CountsHeld(t)
  {
    CalmKeeps(sys.rt, t);
    hide ReservationsOk;
    CallsReserved(sys, t);
  }

  lemma RestageDrain(sys: System, c: nat, call: Call)
    requires DrainInv(sys) && EngagedReserved(sys.rt, call)
    ensures DrainInv(sys.(calls := sys.calls[c := call]))
  {
    hide ReservationsOk;
  }

  lemma SectionDrain(pf: E.Platform, sys: System, op: Op)
    requires Inv(pf, sys) && DrainInv(sys) && sys.rt.accounting.active < U64_LIMIT - 1 && !op.Booking?
    ensures var t := Applied(sys.rt, op).0;
            && DrainInv(sys.(rt := t))
            && (CountsHeld(sys.rt) ==> (CountsHeld(t) <==> Disciplined(pf, sys, Section(op))))
  {
    hide CallsOk, OneEntered, OutputsOwned, ExecutionOk, ReservationOk, Reserve, Abort, Calm, CountsHeld, GroupsOk, L.Allowed;
    match op
    case Reserving(e) =>
      ReserveCounts(sys.rt, e);
      CallsReserved(sys, Reserve(sys.rt, e).0);
    case Aborting(e) =>
      AbortCounts(sys.rt, e);
      CallsReserved(sys, Abort(sys.rt, e).0);
    case _ =>
      SectionCalm(sys.rt, op);
      CalmDrain(sys, Applied(sys.rt, op).0);
  }

  lemma StartDrain(pf: E.Platform, sys: System, c: nat)
    requires Inv(pf, sys) && DrainInv(sys) && c in sys.calls && sys.calls[c].stage.Grouped?
    ensures DrainInv(Started(sys, c)) && (CountsHeld(sys.rt) ==> CountsHeld(Started(sys, c).rt))
  {
    hide CountsHeld, E.Defined, EngineRun, Calm, ExecutionsOk, OneEntered, OutputsOwned, GroupsOk;
    var call := sys.calls[c];
    assert CallOk(pf, sys.rt, call);
    var (t, ok) := Begin(sys.rt, call.e, call.stage.d, call.stage.g, call.inputs);
    BeginCalm(sys.rt, call.e, call.stage.d, call.stage.g, call.inputs);
    CalmDrain(sys, t);
    var now := Started(sys, c).calls[c];
    if ok {
      EngagingReserved(sys.rt, call);
    }
    RestageDrain(sys.(rt := t), c, now);
  }

  lemma BeginCalm(s: RtState, e: nat, d: Descriptor, g: Option<CollectiveGroup>, inputs: seq<seq<byte>>)
    ensures Calm(s, Begin(s, e, d, g, inputs).0)
  {
    hide Calm, InputsOk;
    CalmReflexive(s);
    MoveCalm(s, e, L.Running);
  }

  /** A call only gets past its checks when the payload fits, and then the execution was reserved. */
  lemma EngagingReserved(s: RtState, call: Call)
    requires call.stage.Grouped? && call.e in s.executions && s.executions[call.e].descriptor == call.stage.d
    requires ReservationsOk(s) && Begin(s, call.e, call.stage.d, call.stage.g, call.inputs).1
    ensures var t := Begin(s, call.e, call.stage.d, call.stage.g, call.inputs).0;
            call.e in t.executions && t.executions[call.e].reservation != 0
  {
    assert ReservationOk(s.executions[call.e]);
    InputsOkBytes(call.stage.d, |call.stage.g.value.participants|, call.inputs);
  }

  lemma ConcludeDrain(pf: E.Platform, sys: System, c: nat)
    requires Inv(pf, sys) && DrainInv(sys) && c in sys.calls
    ensures var now := Concluded(pf, sys, c);
            DrainInv(now) && (CountsHeld(sys.rt) ==> (CountsHeld(now.rt) <==> Disciplined(pf, sys, Conclude(c))))
  {
    hide Inv, CountsHeld, Commit, CommitFailure, EngineRun, E.Defined, ReservationsOk, HeldSet;
    var call := sys.calls[c];
    if Commits(pf, sys, c) {
      CommitDrain(pf, sys, c);
    } else {
      CommitFailureCalm(sys.rt, call.e);
      CalmDrain(sys, CommitFailure(sys.rt, call.e).0);
      RestageDrain(sys.(rt := CommitFailure(sys.rt, call.e).0), c, call.(stage := Ended));
    }
  }

  lemma CommitDrain(pf: E.Platform, sys: System, c: nat)
    requires Inv(pf, sys) && DrainInv(sys) && Commits(pf, sys, c)
    ensures var now := Concluded(pf, sys, c);
            DrainInv(now) && (CountsHeld(sys.rt) ==> (CountsHeld(now.rt) <==> Disciplined(pf, sys, Conclude(c))))
  {
    hide CountsHeld, Commit, EngineRun, E.Defined, HeldSet, CallOk, ExecutionOk, ReservationOk, ElementBytes, InputsOk;
    var call := sys.calls[c];
    EngagedFacts(pf, sys, c);
    EngagedUncommitted(pf, sys, c);
    assert EngagedReserved(sys.rt, call);
    var bytes := Result(pf, call).bytes;
    CommitCounts(sys.rt, call.e, call.stage.n, bytes);
    var t := Commit(sys.rt, call.e, call.stage.n, bytes).0;
    CallsReserved(sys, t);
    RestageDrain(sys.(rt := t), c, call.(stage := Committed(call.stage.d, call.stage.n)));
  }

  /** One step without outside bookings keeps the count right exactly when it is disciplined. */
  lemma StepDrain(pf: E.Platform, sys: System, a: Action)
    requires Inv(pf, sys) && DrainInv(sys) && sys.rt.accounting.active < U64_LIMIT - 1 && !Outside(a)
    ensures var now := Step(pf, sys, a);
            DrainInv(now) && (CountsHeld(sys.rt) ==> (CountsHeld(now.rt) <==> Disciplined(pf, sys, a)))
  {
    hide Applied, CountsHeld, Concluded, Started, Inv, L.Allowed, ReservationsOk, FoundGroup, E.Defined, EngineRun;
    match a
    case Section(op) => SectionDrain(pf, sys, op);
    case Invoke(c, e, inputs) =>
      if c !in sys.calls {
        var stage := if e in sys.rt.executions then Described(sys.rt.executions[e].descriptor) else Ended;
        RestageDrain(sys, c, Call(e, inputs, stage));
      }
    case LookUp(c) =>
      if c in sys.calls && sys.calls[c].stage.Described? {
        RestageDrain(sys, c, sys.calls[c].(stage := Grouped(sys.calls[c].stage.d, FoundGroup(sys.rt, sys.calls[c].stage.d))));
      }
    case Start(c) =>
      if c in sys.calls && sys.calls[c].stage.Grouped? {
        StartDrain(pf, sys, c);
      }
    case Conclude(c) =>
      if c in sys.calls {
        ConcludeDrain(pf, sys, c);
      }
  }

  // ---------------------------------------------------------------- runs

  ghost predicate Inside(run: seq<Action>) { forall i :: 0 <= i < |run| ==> !Outside(run[i]) }

  ghost predicate DisciplinedRun(pf: E.Platform, run: seq<Action>) {
    forall i :: 0 <= i < |run| ==> Disciplined(pf, Reach(pf, run[..i]), run[i])
  }

  ghost predicate CountsAlways(pf: E.Platform, run: seq<Action>) {
    forall i :: 0 <= i <= |run| ==> CountsHeld(Reach(pf, run[..i]).rt)
  }

  lemma {:induction false} ReachDrain(pf: E.Platform, run: seq<Action>)
    requires Inside(run) && |run| < U64_LIMIT
    ensures DrainInv(Reach(pf, run))
  {
    hide Step, Disciplined, CountsHeld, Inv, Outside;
    if run == [] {
    } else {
      var front := run[..|run| - 1];
      ReachDrain(pf, front);
      ReachKeeps(pf, front);
      ActiveIsOpenedMinusClosed(pf, front);
      StepDrain(pf, Reach(pf, front), run[|run| - 1]);
    }
  }

  /** In a run without outside bookings the active counter is at every moment the number of held
      executions (reserved, not committed, not aborted) if and only if no step closes what was never
      opened or was closed before. */
  lemma {:induction false} CountsHeldIffDisciplined(pf: E.Platform, run: seq<Action>)
    requires Inside(run) && |run| < U64_LIMIT
    ensures CountsAlways(pf, run) <==> DisciplinedRun(pf, run)
  {
    hide Step, Disciplined, CountsHeld, Inv, Outside, DrainInv;
    if run == [] {
      NothingHeld();
      assert run[..0] == [];
    } else {
      var front := run[..|run| - 1];
      CountsHeldIffDisciplined(pf, front);
      ReachDrain(pf, front);
      ReachKeeps(pf, front);
      ActiveIsOpenedMinusClosed(pf, front);
      StepDrain(pf, Reach(pf, front), run[|run| - 1]);
      PrefixesAgree(pf, run);
    }
  }

  lemma NothingHeld()
    ensures CountsHeld(INITIAL)
  {
    assert HeldSet(INITIAL) == {};
  }

  /** Both properties of a run are those of its front and of its last step. */
  lemma PrefixesAgree(pf: E.Platform, run: seq<Action>)
    requires run != []
    ensures var front := run[..|run| - 1];
            && (CountsAlways(pf, run) <==> CountsAlways(pf, front) && CountsHeld(Reach(pf, run).rt))
            && (DisciplinedRun(pf, run) <==> DisciplinedRun(pf, front) && Disciplined(pf, Reach(pf, front), run[|run| - 1]))
            && (CountsAlways(pf, front) ==> CountsHeld(Reach(pf, front).rt))
  {
    hide Reach, CountsHeld, Disciplined;
    var front := run[..|run| - 1];
    assert forall i :: 0 <= i <= |front| ==> front[..i] == run[..i];
    assert run[..|run|] == run && front[..|front|] == front;
  }

  /** So a disciplined run has drained to zero exactly when every execution whose reserve returned
      is committed or ABORTED; one that failed, was cancelled or succeeded by reports alone is
      counted for ever. */
  lemma DrainedIff(pf: E.Platform, run: seq<Action>)
    requires Inside(run) && |run| < U64_LIMIT && DisciplinedRun(pf, run)
    ensures var s := Reach(pf, run).rt;
            s.accounting.active == 0 <==>
            forall e :: e in s.executions && s.executions[e].reservation != 0 ==>
                          s.executions[e].measurement.Some? || s.executions[e].lifecycle == L.Aborted
  {
    CountsHeldIffDisciplined(pf, run);
    assert run[..|run|] == run;
    var s := Reach(pf, run).rt;
    assert CountsHeld(s);
    if s.accounting.active == 0 {
      forall e | e in s.executions && s.executions[e].reservation != 0
        ensures s.executions[e].measurement.Some? || s.executions[e].lifecycle == L.Aborted
      {
        assert e !in HeldSet(s);
      }
    } else {
      var e :| e in HeldSet(s);
    }
  }
}
