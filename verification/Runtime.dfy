/** The runtime facade of src/runtime.cpp.

    Every section that holds the runtime's lock is one function from a state to a state and an
    outcome.  A section that throws half way keeps what it had already changed. */
module Runtime {
  import opened Bytes
  import opened Foundation
  import opened Group
  import L = Lifecycle
  import A = Accounting
  import E = ReferenceEngine
  import P = Planner

  datatype Descriptor = Descriptor(
    collectiveId: u64, groupId: u64, groupGeneration: u64, collectiveGeneration: u64,
    kind: CollectiveKind, reduction: ReductionOp, element: Datatype, elements: u64, root: u64, hasRoot: bool,
    hostInput: bool)

  datatype PlanRecord = PlanRecord(algorithm: P.Algorithm, backend: u64, steps: nat, movement: nat)

  const UNPLANNED := PlanRecord(P.UnknownAlgorithm, 0, 0, 0)

  datatype Failure = Failure(
    failureClass: byte, participant: Option<u64>, rank: Option<u64>,
    collective: u64, collectiveGeneration: u64, attempt: u64, attemptGeneration: u64,
    sideEffects: bool, retryPermitted: bool, reconfigurationRequired: bool, priorResultsInvalid: bool)

  const UNKNOWN_FAILURE: byte := 18

  /** `measurement` is set by the commit that writes `outputs`. */
  datatype Execution = Execution(
    descriptor: Descriptor, plan: PlanRecord, lifecycle: L.State, attempt: nat, dispatch: nat, reservation: nat,
    completions: set<u64>, failure: Option<Failure>, measurement: Option<nat>, outputs: seq<seq<byte>>)

  datatype Measurement = Measurement(
    collective: u64, collectiveGeneration: u64, groupGeneration: u64, algorithm: P.Algorithm, backend: u64,
    rankCount: u64, payload: u64, logical: u64, success: bool)

  datatype RtState = RtState(
    groups: map<(u64, u64), CollectiveGroup>, executions: map<nat, Execution>,
    measurements: map<nat, Measurement>, accounting: A.Counters, nextId: nat)

  const INITIAL := RtState(map[], map[], map[], A.ZERO, 1)

  /** Done carries the id a call returns, 0 for none; Thrown the error it leaves with. */
  datatype Outcome = Done(id: nat) | Thrown(code: ErrorCode)

  // ---------------------------------------------------------------- descriptors

  function GroupKey(d: Descriptor): (u64, u64) { (d.groupId, d.groupGeneration) }

  /** One rank's payload, whether or not it fits in 64 bits. */
  function Payload(d: Descriptor): nat { Mul(d.elements, Width(d.element)) }

  /** element_byte_count */
  function ElementBytes(d: Descriptor): Option<nat> { CheckedMul(d.elements, Width(d.element)) }

  /** CollectiveDescriptor::validate */
  function Fault(d: Descriptor): Option<ErrorCode> {
    if (d.kind == Reduce || d.kind == AllReduce || d.kind == ReduceScatter) && d.reduction == NoReduction then
      Some(Validation)
    else if (d.kind == Barrier || d.kind == Broadcast) && d.reduction != NoReduction then Some(Validation)
    else if d.kind == Barrier then None
    else if ElementBytes(d).None? then Some(ArithmeticOverflow)
    else if (d.kind == Broadcast || d.kind == Reduce) && !d.hasRoot then Some(Validation)
    else if d.elements == 0 then Some(Validation)
    else None
  }

  /** per_rank_bytes: the input size the runtime asks of every rank. */
  function PerRankBytes(d: Descriptor, n: u64): Option<nat> {
    var per := ElementBytes(d);
    if per.None? || (d.kind != AllGather && d.kind != ReduceScatter) then per else CheckedMul(per.value, n)
  }

  predicate InputsOk(d: Descriptor, n: u64, inputs: seq<seq<byte>>) {
    && n <= |inputs|
    && PerRankBytes(d, n).Some?
    && E.AllSized(inputs[..n], PerRankBytes(d, n).value)
  }

  // ---------------------------------------------------------------- one execution

  /** transition_to inside a try block: an illegal move is swallowed. */
  function Tried(x: Execution, to: L.State): Execution {
    if L.Allowed(x.lifecycle, to) then x.(lifecycle := to) else x
  }

  predicate AllReported(ps: seq<Participant>, completions: set<u64>) {
    forall i :: 0 <= i < |ps| ==> ps[i].rank in completions
  }

  /** apply_quorum_unlocked */
  function Settled(groups: map<(u64, u64), CollectiveGroup>, x: Execution): Execution {
    if GroupKey(x.descriptor) !in groups then Tried(x, L.Failed)
    else if AllReported(groups[GroupKey(x.descriptor)].participants, x.completions) && x.lifecycle == L.Completing then
      Tried(x, L.Succeeded)
    else x
  }

  function ErrorOf(a: A.Answer): ErrorCode
    requires a != A.Ok
  {
    match a
    case Underflow => Validation
    case DuplicateId => AlreadyExists
    case UnknownId => NotFound
  }

  function Put(s: RtState, e: nat, x: Execution): RtState { s.(executions := s.executions[e := x]) }

  /** Records an entry, then returns the id or throws what the accounting threw. */
  function Booked(s: RtState, entry: A.Entry, id: nat): (RtState, Outcome) {
    var (c, a) := A.Record(s.accounting, entry);
    (s.(accounting := c), if a == A.Ok then Done(id) else Thrown(ErrorOf(a)))
  }

  // ---------------------------------------------------------------- sections

  function RegisterGroup(s: RtState, g: CollectiveGroup): (RtState, Outcome) {
    if (g.id, g.generation) in s.groups then (s, Thrown(AlreadyExists))
    else (s.(groups := s.groups[(g.id, g.generation) := g]), Done(0))
  }

  function Create(s: RtState, d: Descriptor): (RtState, Outcome) {
    if d.groupId == 0 || d.groupGeneration == 0 || GroupKey(d) !in s.groups then (s, Thrown(Validation))
    else if Fault(d).Some? then (s, Thrown(Fault(d).value))
    else
      var x := Execution(d, UNPLANNED, L.Created, s.nextId + 1, 0, 0, {}, None, None, []);
      (Put(s, s.nextId, x).(nextId := s.nextId + 2), Done(s.nextId))
  }

  /** A guarded move that throws when illegal. */
  function Move(s: RtState, e: nat, to: L.State): (RtState, Outcome) {
    if e !in s.executions then (s, Thrown(NotFound))
    else if !L.Allowed(s.executions[e].lifecycle, to) then (s, Thrown(ErrorCode.Lifecycle))
    else (Put(s, e, Tried(s.executions[e], to)), Done(0))
  }

  /** The move to PLANNED stands even when the planner then throws. */
  function Plan(s: RtState, e: nat, answer: P.Selection, backend: u64): (RtState, Outcome) {
    var (t, o) := Move(s, e, L.Planned);
    if o.Thrown? then (t, o)
    else
      match answer
      case NoPlan(code) => (t, Thrown(code))
      case Selected(algorithm, steps, movement) =>
        (Put(t, e, t.executions[e].(plan := PlanRecord(algorithm, backend, steps, movement))), o)
  }

  function Reserve(s: RtState, e: nat): (RtState, Outcome) {
    var (t, o) := Move(s, e, L.Reserved);
    if o.Thrown? then (t, o)
    else
      var bytes := ElementBytes(t.executions[e].descriptor);
      if bytes.None? then (t, Thrown(ArithmeticOverflow))
      else
        var id := t.nextId;
        var u := Put(t, e, t.executions[e].(reservation := id)).(nextId := id + 1);
        var (v, b) := Booked(u, A.Reserve(id, bytes.value), id);
        if b.Thrown? then (v, b) else Booked(v, A.Started, id)
  }

  function Dispatch(s: RtState, e: nat): (RtState, Outcome) {
    var (t, o) := Move(s, e, L.Dispatched);
    if o.Thrown? then (t, o)
    else (Put(t, e, t.executions[e].(dispatch := t.nextId)).(nextId := t.nextId + 1), Done(t.nextId))
  }

  /** The rank is recorded before the accounting may throw, and the move comes after. */
  function CompleteRank(s: RtState, e: nat, r: u64): (RtState, Outcome) {
    if e !in s.executions then (s, Thrown(NotFound))
    else if r in s.executions[e].completions then (s, Thrown(Conflict))
    else
      var x := s.executions[e].(completions := s.executions[e].completions + {r});
      var (t, o) := Booked(Put(s, e, x), A.RankComplete, 0);
      if o.Thrown? then (t, o)
      else
        var y := if x.lifecycle == L.Running then Tried(x, L.Completing) else x;
        (Put(t, e, Settled(s.groups, y)), o)
  }

  function Fail(s: RtState, e: nat, f: Failure): (RtState, Outcome) {
    if e in s.executions && s.executions[e].lifecycle == L.Failed then (s, Done(0))
    else
      var (t, o) := Move(s, e, L.Failed);
      if o.Thrown? then (t, o) else FailureBytes(Put(t, e, t.executions[e].(failure := Some(f))), e)
  }

  /** failed_bytes(element_byte_count()), whose argument may throw. */
  function FailureBytes(s: RtState, e: nat): (RtState, Outcome)
    requires e in s.executions
  {
    var bytes := ElementBytes(s.executions[e].descriptor);
    if bytes.None? then (s, Thrown(ArithmeticOverflow)) else Booked(s, A.FailedBytes(bytes.value), 0)
  }

  function Abort(s: RtState, e: nat): (RtState, Outcome) {
    var (t, o) := Move(s, e, L.Aborted);
    if o.Thrown? then (t, o) else Booked(t, A.Aborted, 0)
  }

  function Cancel(s: RtState, e: nat): (RtState, Outcome) { Move(s, e, L.Cancelled) }

  function MarkStale(s: RtState, e: nat): (RtState, Outcome) { Move(s, e, L.Stale) }

  function Ingest(s: RtState, id: nat, m: Measurement): (RtState, Outcome) {
    (s.(measurements := s.measurements[id := m]), Done(0))
  }

  // ---------------------------------------------------------------- execute_collective

  /** The checks before the engine, then the locked move to RUNNING. */
  function Begin(s: RtState, e: nat, d: Descriptor, g: Option<CollectiveGroup>, inputs: seq<seq<byte>>): (RtState, bool) {
    if g.None? || |g.value.participants| >= U64_LIMIT || !InputsOk(d, |g.value.participants|, inputs) then (s, false)
    else
      var (t, o) := Move(s, e, L.Running);
      (t, o.Done?)
  }

  function Ranks(n: u64): (rs: set<u64>)
    ensures forall r: u64 :: r in rs <==> r < n
  {
    if n == 0 then {} else Ranks(n - 1) + {n - 1}
  }

  /** The first half of a commit: every rank done, the outputs, the quorum. */
  function Stored(s: RtState, e: nat, n: u64, outputs: seq<seq<byte>>): RtState
    requires e in s.executions
  {
    var x := s.executions[e].(completions := s.executions[e].completions + Ranks(n), outputs := outputs);
    Put(s, e, Settled(s.groups, Tried(x, L.Completing)))
  }

  /** The second half: the measurement and the accounting, which may throw. */
  function Measured(s: RtState, e: nat, n: u64): (RtState, Outcome)
    requires e in s.executions
  {
    var d, id := s.executions[e].descriptor, s.nextId;
    var bytes := ElementBytes(d);
    if bytes.None? then (s.(nextId := id + 1), Thrown(ArithmeticOverflow))
    else
      var product := CheckedMul(bytes.value, n);
      var logical := if product.Some? then product.value else 0;
      var plan := s.executions[e].plan;
      var m := Measurement(d.collectiveId, d.collectiveGeneration, d.groupGeneration, plan.algorithm, plan.backend,
                           n, bytes.value, logical, true);
      var t := Put(s, e, s.executions[e].(measurement := Some(id)))
               .(nextId := id + 1, measurements := s.measurements[id := m]);
      var (u, o) := Booked(t, A.Completed, id);
      if o.Thrown? then (u, o) else Booked(u, A.CompletedBytes(logical), id)
  }

  /** The commit after the engine returned. */
  function Commit(s: RtState, e: nat, n: u64, outputs: seq<seq<byte>>): (RtState, Outcome) {
    if e !in s.executions then (s, Thrown(NotFound)) else Measured(Stored(s, e, n, outputs), e, n)
  }

  /** The failure execute_collective records, whatever was thrown. */
  function ExecutionFailure(d: Descriptor): Failure {
    Failure(UNKNOWN_FAILURE, None, None, d.collectiveId, d.collectiveGeneration, 0, 0, true, false, false, false)
  }

  /** The commit after anything threw. */
  function CommitFailure(s: RtState, e: nat): (RtState, Outcome) {
    if e !in s.executions then (s, Thrown(NotFound))
    else
      var x := s.executions[e];
      FailureBytes(Put(s, e, Tried(x, L.Failed).(failure := Some(ExecutionFailure(x.descriptor)))), e)
  }

  function EngineRun(pf: E.Platform, d: Descriptor, n: u64, inputs: seq<seq<byte>>): E.EngineResult
    requires E.Defined(d.kind, Payload(d), d.root, n, inputs)
  {
    E.Executed(pf, d.kind, d.reduction, d.element, d.elements, d.root, n, inputs)
  }

  /** The engine's own result decides which commit follows. */
  function Finish(pf: E.Platform, s: RtState, e: nat, d: Descriptor, n: u64, inputs: seq<seq<byte>>): (RtState, Outcome)
    requires E.Defined(d.kind, Payload(d), d.root, n, inputs)
  {
    match EngineRun(pf, d, n, inputs)
    case Outputs(bytes) => Commit(s, e, n, bytes)
    case Failed(_) => CommitFailure(s, e)
  }

  function FoundGroup(s: RtState, d: Descriptor): Option<CollectiveGroup> {
    if GroupKey(d) in s.groups then Some(s.groups[GroupKey(d)]) else None
  }

  /** The engine is not asked for something it leaves undefined. */
  predicate EngineReady(s: RtState, e: nat, inputs: seq<seq<byte>>) {
    e in s.executions ==>
      var d := s.executions[e].descriptor;
      var g := FoundGroup(s, d);
      g.Some? && |g.value.participants| < U64_LIMIT && InputsOk(d, |g.value.participants|, inputs)
      && L.Allowed(s.executions[e].lifecycle, L.Running) ==>
        E.Defined(d.kind, Payload(d), d.root, |g.value.participants|, inputs)
  }

  /** A whole execute_collective with nothing in between. */
  function ExecuteCollective(pf: E.Platform, s: RtState, e: nat, inputs: seq<seq<byte>>): (RtState, Outcome)
    requires EngineReady(s, e, inputs)
  {
    if e !in s.executions then (s, Done(0))
    else
      var d := s.executions[e].descriptor;
      var (t, ok) := Begin(s, e, d, FoundGroup(s, d), inputs);
      if ok then Finish(pf, t, e, d, |FoundGroup(s, d).value.participants|, inputs) else CommitFailure(t, e)
  }

  // ---------------------------------------------------------------- planner input

  /** The caller's part of a planner input; the descriptor is the execution's. */
  datatype PlannerInput = PlannerInput(
    ranks: Option<u64>, topologyNodes: Option<nat>, backend: Option<(u64, P.Capabilities)>,
    bandwidth: Option<u64>, latency: Option<u64>)

  function BackendOf(input: PlannerInput): u64 {
    if input.backend.Some? then input.backend.value.0 else 0
  }

  function RequestOf(d: Descriptor, input: PlannerInput): Option<P.Request> {
    if input.ranks.None? || input.backend.None? then None
    else
      Some(P.Request(d.kind, d.reduction, d.element, d.elements, d.hostInput, input.ranks.value, input.topologyNodes,
                     input.backend.value.1, input.bandwidth, input.latency))
  }

  // ---------------------------------------------------------------- the object

  class Runtime {
    var groups: map<(u64, u64), CollectiveGroup>
    var executions: map<nat, Execution>
    var measurements: map<nat, Measurement>
    var nextId: nat
    const accounting: A.Accounting

    ghost function State(): RtState
      reads this, accounting
    {
      RtState(groups, executions, measurements, accounting.Snapshot(), nextId)
    }

    constructor ()
      ensures State() == INITIAL && fresh(accounting)
    {
      groups, executions, measurements, nextId := map[], map[], map[], 1;
      accounting := new A.Accounting();
    }

    method TransitionTo(e: nat, to: L.State) returns (o: Outcome)
      modifies this
      ensures (State(), o) == Move(old(State()), e, to)
    {
      if e !in executions {
        return Thrown(NotFound);
      }
      if !L.Allowed(executions[e].lifecycle, to) {
        return Thrown(ErrorCode.Lifecycle);
      }
      executions := executions[e := executions[e].(lifecycle := to)];
      o := Done(0);
    }

    method AddGroup(g: CollectiveGroup) returns (o: Outcome)
      modifies this
      ensures (State(), o) == RegisterGroup(old(State()), g)
    {
      if (g.id, g.generation) in groups {
        return Thrown(AlreadyExists);
      }
      groups := groups[(g.id, g.generation) := g];
      o := Done(0);
    }

    method CreateCollective(d: Descriptor) returns (o: Outcome)
      modifies this
      ensures (State(), o) == Create(old(State()), d)
    {
      if d.groupId == 0 || d.groupGeneration == 0 {
        return Thrown(Validation);
      }
      if GroupKey(d) !in groups {
        return Thrown(Validation);
      }
      var fault := Fault(d);
      if fault.Some? {
        return Thrown(fault.value);
      }
      var id := nextId;
      nextId := nextId + 1;
      var x := Execution(d, UNPLANNED, L.Created, nextId, 0, 0, {}, None, None, []);
      nextId := nextId + 1;
      executions := executions[id := x];
      o := Done(id);
    }

    /** The planner is asked about the execution's own descriptor, after the move. */
    method PlanCollective(e: nat, input: PlannerInput) returns (o: Outcome, ghost answer: P.Selection)
      requires input.ranks.Some? ==> input.ranks.value <= 0x8000_0000_0000_0000
      modifies this
      ensures (State(), o) == Plan(old(State()), e, answer, BackendOf(input))
      ensures e in old(executions) && L.Allowed(old(executions)[e].lifecycle, L.Planned) ==>
                P.Answers(RequestOf(old(executions)[e].descriptor, input), answer)
    {
      answer := P.NoPlan(Validation);
      o := TransitionTo(e, L.Planned);
      if o.Thrown? {
        return;
      }
      var selection := P.Plan(RequestOf(executions[e].descriptor, input));
      answer := selection;
      match selection {
        case NoPlan(code) =>
          o := Thrown(code);
        case Selected(algorithm, steps, movement) =>
          executions := executions[e := executions[e].(plan := PlanRecord(algorithm, BackendOf(input), steps, movement))];
      }
    }

    method ReserveCollective(e: nat) returns (o: Outcome)
      modifies this, accounting
      ensures (State(), o) == Reserve(old(State()), e)
    {
      o := TransitionTo(e, L.Reserved);
      if o.Thrown? {
        return;
      }
      var bytes := ElementBytes(executions[e].descriptor);
      if bytes.None? {
        return Thrown(ArithmeticOverflow);
      }
      var id := nextId;
      nextId := nextId + 1;
      executions := executions[e := executions[e].(reservation := id)];
      var a := accounting.ReserveBytes(id, bytes.value);
      if a != A.Ok {
        return Thrown(ErrorOf(a));
      }
      accounting.CollectiveStarted();
      o := Done(id);
    }

    method DispatchCollective(e: nat) returns (o: Outcome)
      modifies this
      ensures (State(), o) == Dispatch(old(State()), e)
    {
      o := TransitionTo(e, L.Dispatched);
      if o.Done? {
        o := Done(nextId);
        executions := executions[e := executions[e].(dispatch := nextId)];
        nextId := nextId + 1;
      }
    }

    /** apply_quorum_unlocked counts the participants whose rank is recorded. */
    method ApplyQuorum(e: nat)
      requires e in executions
      modifies this`executions
      ensures executions == old(executions)[e := Settled(groups, old(executions)[e])]
    {
      var x := executions[e];
      if GroupKey(x.descriptor) !in groups {
        executions := executions[e := Tried(x, L.Failed)];
        return;
      }
      var ps := groups[GroupKey(x.descriptor)].participants;
      var done := 0;
      for i := 0 to |ps|
        invariant done <= i
        invariant done == i <==> AllReported(ps[..i], x.completions)
      {
        assert ps[..i + 1] == ps[..i] + [ps[i]];
        if ps[i].rank in x.completions {
          done := done + 1;
        } else {
          assert ps[..i + 1][i] == ps[i];
        }
      }
      assert ps[..|ps|] == ps;
      if done == |ps| && x.lifecycle == L.Completing {
        executions := executions[e := Tried(x, L.Succeeded)];
      }
    }

    method ReportRank(e: nat, r: u64) returns (o: Outcome)
      modifies this, accounting
      ensures (State(), o) == CompleteRank(old(State()), e, r)
    {
      if e !in executions {
        return Thrown(NotFound);
      }
      if r in executions[e].completions {
        return Thrown(Conflict);
      }
      executions := executions[e := executions[e].(completions := executions[e].completions + {r})];
      ghost var x := executions[e];
      var a := accounting.RankContributionComplete();
      if a != A.Ok {
        return Thrown(ErrorOf(a));
      }
      if executions[e].lifecycle == L.Running {
        executions := executions[e := Tried(executions[e], L.Completing)];
      }
      ghost var y := executions[e];
      ApplyQuorum(e);
      assert executions == old(executions)[e := x][e := Settled(groups, y)];
      o := Done(0);
    }

    method FailCollective(e: nat, f: Failure) returns (o: Outcome)
      modifies this, accounting
      ensures (State(), o) == Fail(old(State()), e, f)
    {
      if e in executions && executions[e].lifecycle == L.Failed {
        return Done(0);
      }
      o := TransitionTo(e, L.Failed);
      if o.Done? {
        executions := executions[e := executions[e].(failure := Some(f))];
        o := CountFailure(e);
      }
    }

    method CountFailure(e: nat) returns (o: Outcome)
      requires e in executions
      modifies accounting
      ensures (State(), o) == FailureBytes(old(State()), e)
    {
      var bytes := ElementBytes(executions[e].descriptor);
      if bytes.None? {
        return Thrown(ArithmeticOverflow);
      }
      accounting.AddFailedBytes(bytes.value);
      o := Done(0);
    }

    method AbortCollective(e: nat) returns (o: Outcome)
      modifies this, accounting
      ensures (State(), o) == Abort(old(State()), e)
    {
      o := TransitionTo(e, L.Aborted);
      if o.Done? {
        var a := accounting.CollectiveAborted();
        o := if a == A.Ok then Done(0) else Thrown(ErrorOf(a));
      }
    }

    method CancelCollective(e: nat) returns (o: Outcome)
      modifies this
      ensures (State(), o) == Cancel(old(State()), e)
    {
      o := TransitionTo(e, L.Cancelled);
    }

    method MarkStaleCollective(e: nat) returns (o: Outcome)
      modifies this
      ensures (State(), o) == MarkStale(old(State()), e)
    {
      o := TransitionTo(e, L.Stale);
    }

    /** The size check of every rank's input. */
    static method CheckInputs(d: Descriptor, n: u64, inputs: seq<seq<byte>>) returns (ok: bool)
      ensures ok == InputsOk(d, n, inputs)
    {
      if |inputs| < n {
        return false;
      }
      var expected := PerRankBytes(d, n);
      if expected.None? {
        return false;
      }
      for r := 0 to n
        invariant forall k :: 0 <= k < r ==> |inputs[k]| == expected.value
      {
        if |inputs[r]| != expected.value {
          assert inputs[..n][r] == inputs[r];
          return false;
        }
      }
      ok := true;
    }

    method StoreOutputs(e: nat, n: u64, outputs: seq<seq<byte>>)
      requires e in executions
      modifies this
      ensures State() == Stored(old(State()), e, n, outputs)
    {
      var completions := executions[e].completions;
      for r := 0 to n
        invariant completions == executions[e].completions + Ranks(r)
      {
        completions := completions + {r};
      }
      executions := executions[e := executions[e].(completions := completions, outputs := outputs)];
      executions := executions[e := Tried(executions[e], L.Completing)];
      ApplyQuorum(e);
      assert executions == old(executions)[e := executions[e]];
    }

    method Measure(e: nat, n: u64) returns (o: Outcome)
      requires e in executions
      modifies this, accounting
      ensures (State(), o) == Measured(old(State()), e, n)
    {
      var d, id := executions[e].descriptor, nextId;
      nextId := nextId + 1;
      var bytes := ElementBytes(d);
      if bytes.None? {
        return Thrown(ArithmeticOverflow);
      }
      var product := CheckedMul(bytes.value, n);
      var logical := if product.Some? then product.value else 0;
      var plan := executions[e].plan;
      measurements := measurements[id := Measurement(d.collectiveId, d.collectiveGeneration, d.groupGeneration,
                                                     plan.algorithm, plan.backend, n, bytes.value, logical, true)];
      executions := executions[e := executions[e].(measurement := Some(id))];
      var a := accounting.CollectiveCompleted();
      if a != A.Ok {
        return Thrown(ErrorOf(a));
      }
      accounting.AddCompletedBytes(logical);
      o := Done(id);
    }

    method CommitOutputs(e: nat, n: u64, outputs: seq<seq<byte>>) returns (o: Outcome)
      requires e in executions
      modifies this, accounting
      ensures (State(), o) == Commit(old(State()), e, n, outputs)
    {
      StoreOutputs(e, n, outputs);
      o := Measure(e, n);
    }

    method RecordFailure(e: nat) returns (o: Outcome)
      requires e in executions
      modifies this, accounting
      ensures (State(), o) == CommitFailure(old(State()), e)
    {
      executions := executions[e := Tried(executions[e], L.Failed)];
      executions := executions[e := executions[e].(failure := Some(ExecutionFailure(executions[e].descriptor)))];
      assert executions == old(executions)[e := executions[e]];
      o := CountFailure(e);
    }

    /** execute_collective called with nobody else at work. */
    method Execute(pf: E.Platform, e: nat, inputs: seq<seq<byte>>) returns (o: Outcome)
      requires EngineReady(State(), e, inputs)
      modifies this, accounting
      ensures (State(), o) == ExecuteCollective(pf, old(State()), e, inputs)
    {
      if e !in executions {
        return Done(0);
      }
      var d := executions[e].descriptor;
      if GroupKey(d) !in groups || |groups[GroupKey(d)].participants| >= U64_LIMIT {
        o := RecordFailure(e);
        return;
      }
      var n := |groups[GroupKey(d)].participants|;
      var ok := CheckInputs(d, n, inputs);
      if ok {
        var moved := TransitionTo(e, L.Running);
        ok := moved.Done?;
      }
      if !ok {
        o := RecordFailure(e);
        return;
      }
      var result := E.Execute(pf, d.kind, d.reduction, d.element, d.elements, d.root, n, inputs);
      match result {
        case Outputs(bytes) => o := CommitOutputs(e, n, bytes);
        case Failed(_) => o := RecordFailure(e);
      }
    }
  }
}
