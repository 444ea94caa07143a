/** Every section of the runtime in plain terms: which lifecycles it starts from, what it leaves, what
    it answers and what it books. */
module RuntimeEffects {
  import opened Bytes
  import opened Foundation
  import opened Group
  import opened Runtime
  import opened RuntimeRuns
  import opened RuntimeLaws
  import L = Lifecycle
  import A = Accounting
  import E = ReferenceEngine
  import EM = EngineMeaning
  import P = Planner
  import PL = PlannerLaws
  import PC = PlannerCosts

  const UNSETTLED: set<L.State> := {L.Created, L.Planned, L.Reserved, L.Dispatched, L.Running, L.Completing}
  const ABORTABLE: set<L.State> := {L.Created, L.Dispatched, L.Running, L.Completing}
  const CANCELLABLE: set<L.State> := {L.Created, L.Planned, L.Reserved, L.Dispatched, L.Running}
  const RETIRABLE: set<L.State> := {L.Succeeded, L.Failed}

  /** The execution is known and in one of these states. */
  predicate Stands(s: RtState, e: nat, ls: set<L.State>) { e in s.executions && s.executions[e].lifecycle in ls }

  /** How a guarded move is refused. */
  function Refusal(s: RtState, e: nat): Outcome {
    if e in s.executions then Thrown(ErrorCode.Lifecycle) else Thrown(NotFound)
  }

  /** The state with one execution replaced. */
  function With(s: RtState, e: nat, x: Execution): RtState { s.(executions := s.executions[e := x]) }

  /** One rank's payload in bytes. */
  function Size(d: Descriptor): nat { Mul(d.elements, Width(d.element)) }

  // ---------------------------------------------------------------- sections

  /** The guarded move. */
  lemma MoveExactly(s: RtState, e: nat, to: L.State, from: set<L.State>)
    requires forall l :: L.Allowed(l, to) <==> l in from
    ensures Move(s, e, to) ==
            if Stands(s, e, from) then (With(s, e, s.executions[e].(lifecycle := to)), Done(0)) else (s, Refusal(s, e))
  {
  }

  /** The states each move of the table starts from. */
  lemma Origins(l: L.State)
    ensures L.Allowed(l, L.Planned) <==> l == L.Created
    ensures L.Allowed(l, L.Reserved) <==> l == L.Planned
    ensures L.Allowed(l, L.Dispatched) <==> l == L.Reserved
    ensures L.Allowed(l, L.Running) <==> l == L.Dispatched
    ensures L.Allowed(l, L.Completing) <==> l == L.Running
    ensures L.Allowed(l, L.Succeeded) <==> l == L.Completing
    ensures L.Allowed(l, L.Failed) <==> l in UNSETTLED
    ensures L.Allowed(l, L.Aborted) <==> l in ABORTABLE
    ensures L.Allowed(l, L.Cancelled) <==> l in CANCELLABLE
    ensures L.Allowed(l, L.Stale) <==> l in RETIRABLE
    ensures !L.Allowed(l, L.Created)
    ensures L.Terminal(l) <==> l !in UNSETTLED
  {
    hide L.Allowed, L.Terminal;
    OnwardOrigins(l);
    EndOrigins(l);
  }

  lemma OnwardOrigins(l: L.State)
    ensures L.Allowed(l, L.Planned) <==> l == L.Created
    ensures L.Allowed(l, L.Reserved) <==> l == L.Planned
    ensures L.Allowed(l, L.Dispatched) <==> l == L.Reserved
    ensures L.Allowed(l, L.Running) <==> l == L.Dispatched
    ensures L.Allowed(l, L.Completing) <==> l == L.Running
    ensures L.Allowed(l, L.Succeeded) <==> l == L.Completing
    ensures !L.Allowed(l, L.Created)
  {
  }

  lemma EndOrigins(l: L.State)
    ensures L.Allowed(l, L.Failed) <==> l in UNSETTLED
    ensures L.Allowed(l, L.Aborted) <==> l in ABORTABLE
    ensures L.Allowed(l, L.Cancelled) <==> l in CANCELLABLE
    ensures L.Allowed(l, L.Stale) <==> l in RETIRABLE
    ensures L.Terminal(l) <==> l !in UNSETTLED
  {
  }

  lemma BytesExactly(d: Descriptor)
    ensures ElementBytes(d) == if Size(d) < U64_LIMIT then Some(Size(d)) else None
  {
  }

  lemma RegisterExactly(s: RtState, g: CollectiveGroup)
    ensures RegisterGroup(s, g) ==
            if (g.id, g.generation) in s.groups then (s, Thrown(AlreadyExists))
            else (s.(groups := s.groups[(g.id, g.generation) := g]), Done(0))
  {
  }

  /** A new execution gets two ids in a row: its own, which is returned, and its attempt's. */
  lemma CreateExactly(s: RtState, d: Descriptor)
    ensures var key := (d.groupId, d.groupGeneration);
            Create(s, d) ==
            if d.groupId == 0 || d.groupGeneration == 0 || key !in s.groups || !ReductionFits(d) then (s, Thrown(Validation))
            else if d.kind != Barrier && Size(d) >= U64_LIMIT then (s, Thrown(ArithmeticOverflow))
            else if d.kind != Barrier && (Size(d) == 0 || (!d.hasRoot && (d.kind == Broadcast || d.kind == Reduce))) then
              (s, Thrown(Validation))
            else
              (With(s, s.nextId, Execution(d, PlanRecord(P.UnknownAlgorithm, 0, 0, 0), L.Created, s.nextId + 1, 0, 0,
                                           {}, None, None, [])).(nextId := s.nextId + 2),
               Done(s.nextId))
  {
    hide Fault;
    ValidExactly(d);
  }

  lemma PlanExactly(s: RtState, e: nat, answer: P.Selection, backend: u64)
    ensures Plan(s, e, answer, backend) ==
            if !Stands(s, e, {L.Created}) then (s, Refusal(s, e))
            else
              var x := s.executions[e].(lifecycle := L.Planned);
              match answer
              case NoPlan(code) => (With(s, e, x), Thrown(code))
              case Selected(algorithm, steps, movement) =>
                (With(s, e, x.(plan := PlanRecord(algorithm, backend, steps, movement))), Done(0))
  {
    if Stands(s, e, {L.Created}) && answer.Selected? {
      var x := s.executions[e].(lifecycle := L.Planned);
      Overwritten(s.executions, e, x, x.(plan := PlanRecord(answer.algorithm, backend, answer.steps, answer.movement)));
    }
  }

  /** A reservation of one rank's payload under a fresh id, which is returned, and one start. */
  lemma ReserveExactly(s: RtState, e: nat)
    ensures Reserve(s, e) ==
            if !Stands(s, e, {L.Planned}) then (s, Refusal(s, e))
            else
              var x, id := s.executions[e].(lifecycle := L.Reserved), s.nextId;
              var c := s.accounting;
              if Size(x.descriptor) >= U64_LIMIT then (With(s, e, x), Thrown(ArithmeticOverflow))
              else
                var t := With(s, e, x.(reservation := id)).(nextId := id + 1);
                if id in c.reservations then (t, Thrown(AlreadyExists))
                else
                  (t.(accounting := c.(reservations := c.reservations[id := Size(x.descriptor)],
                                       reserved := (c.reserved + Size(x.descriptor)) % U64_LIMIT,
                                       active := (c.active + 1) % U64_LIMIT, submitted := (c.submitted + 1) % U64_LIMIT)),
                   Done(id))
  {
    hide ElementBytes, L.Allowed, Size, Move;
    forall l ensures L.Allowed(l, L.Reserved) <==> l in {L.Planned} { Origins(l); }
    MoveExactly(s, e, L.Reserved, {L.Planned});
    if Stands(s, e, {L.Planned}) {
      var x := s.executions[e].(lifecycle := L.Reserved);
      BytesExactly(x.descriptor);
      Overwritten(s.executions, e, x, x.(reservation := s.nextId));
    }
  }

  lemma Overwritten(m: map<nat, Execution>, e: nat, x: Execution, y: Execution)
    ensures m[e := x][e := y] == m[e := y]
  {
  }

  lemma DispatchExactly(s: RtState, e: nat)
    ensures Dispatch(s, e) ==
            if !Stands(s, e, {L.Reserved}) then (s, Refusal(s, e))
            else
              (With(s, e, s.executions[e].(lifecycle := L.Dispatched, dispatch := s.nextId)).(nextId := s.nextId + 1),
               Done(s.nextId))
  {
    if Stands(s, e, {L.Reserved}) {
      var x := s.executions[e].(lifecycle := L.Dispatched);
      Overwritten(s.executions, e, x, x.(dispatch := s.nextId));
    }
  }

  /** The move to RUNNING, for inputs the runtime accepts. */
  lemma StartExactly(s: RtState, e: nat, d: Descriptor, g: Option<CollectiveGroup>, inputs: seq<seq<byte>>)
    ensures Begin(s, e, d, g, inputs) ==
            if g.Some? && |g.value.participants| < U64_LIMIT && InputsOk(d, |g.value.participants|, inputs)
               && Stands(s, e, {L.Dispatched}) then
              (With(s, e, s.executions[e].(lifecycle := L.Running)), true)
            else (s, false)
  {
    hide InputsOk;
  }

  predicate EveryoneIn(ps: seq<Participant>, completions: set<u64>) {
    forall i :: 0 <= i < |ps| ==> ps[i].rank in completions
  }

  /** The rank is recorded even when the accounting throws; else the execution moves on, to SUCCEEDED
      with the last member's rank. */
  lemma ReportExactly(s: RtState, e: nat, r: u64)
    requires e in s.executions ==> GroupKey(s.executions[e].descriptor) in s.groups
    ensures CompleteRank(s, e, r) ==
            if e !in s.executions then (s, Thrown(NotFound))
            else if r in s.executions[e].completions then (s, Thrown(Conflict))
            else
              var x := s.executions[e].(completions := s.executions[e].completions + {r});
              var ps := s.groups[(x.descriptor.groupId, x.descriptor.groupGeneration)].participants;
              var c := s.accounting;
              if c.activeRanks == 0 then (With(s, e, x), Thrown(Validation))
              else
                var l := if x.lifecycle !in {L.Running, L.Completing} then x.lifecycle
                         else if EveryoneIn(ps, x.completions) then L.Succeeded
                         else L.Completing;
                (With(s, e, x.(lifecycle := l)).(accounting := c.(activeRanks := c.activeRanks - 1)), Done(0))
  {
    hide Settled, L.Allowed, EveryoneIn;
    if e in s.executions && r !in s.executions[e].completions {
      var x := s.executions[e].(completions := s.executions[e].completions + {r});
      var y := if x.lifecycle == L.Running then x.(lifecycle := L.Completing) else x;
      Origins(x.lifecycle);
      QuorumExactly(s.groups, y);
      Overwritten(s.executions, e, x, Settled(s.groups, y));
    }
  }

  /** Failing twice is failing once; otherwise the given failure is recorded and one rank's payload is
      counted as failed. */
  lemma FailExactly(s: RtState, e: nat, f: Failure)
    ensures Fail(s, e, f) ==
            if Stands(s, e, {L.Failed}) then (s, Done(0))
            else if !Stands(s, e, UNSETTLED) then (s, Refusal(s, e))
            else FailedWith(s, e, s.executions[e].(lifecycle := L.Failed, failure := Some(f)))
  {
    hide L.Allowed, Move, FailureBytes, FailedWith;
    forall l ensures L.Allowed(l, L.Failed) <==> l in UNSETTLED { Origins(l); }
    MoveExactly(s, e, L.Failed, UNSETTLED);
    if Stands(s, e, UNSETTLED) {
      var x := s.executions[e].(lifecycle := L.Failed);
      Overwritten(s.executions, e, x, x.(failure := Some(f)));
      FailureBytesExactly(s, e, x.(failure := Some(f)));
    }
  }

  lemma FailureBytesExactly(s: RtState, e: nat, x: Execution)
    ensures FailureBytes(Put(s, e, x), e) == FailedWith(s, e, x)
  {
    hide ElementBytes, Size;
    BytesExactly(x.descriptor);
  }

  /** The payload is counted unless it does not fit. */
  function FailedWith(s: RtState, e: nat, x: Execution): (RtState, Outcome) {
    if Size(x.descriptor) >= U64_LIMIT then (With(s, e, x), Thrown(ArithmeticOverflow))
    else
      var c := s.accounting;
      (With(s, e, x).(accounting := c.(failedBytes := (c.failedBytes + Size(x.descriptor)) % U64_LIMIT)), Done(0))
  }

  lemma AbortExactly(s: RtState, e: nat)
    ensures Abort(s, e) ==
            if !Stands(s, e, ABORTABLE) then (s, Refusal(s, e))
            else
              var t, c := With(s, e, s.executions[e].(lifecycle := L.Aborted)), s.accounting;
              if c.active == 0 then (t, Thrown(Validation))
              else (t.(accounting := c.(active := c.active - 1, aborted := (c.aborted + 1) % U64_LIMIT)), Done(0))
  {
  }

  lemma CancelExactly(s: RtState, e: nat)
    ensures Cancel(s, e) ==
            if !Stands(s, e, CANCELLABLE) then (s, Refusal(s, e))
            else (With(s, e, s.executions[e].(lifecycle := L.Cancelled)), Done(0))
  {
  }

  lemma RetireExactly(s: RtState, e: nat)
    ensures MarkStale(s, e) ==
            if !Stands(s, e, RETIRABLE) then (s, Refusal(s, e))
            else (With(s, e, s.executions[e].(lifecycle := L.Stale)), Done(0))
  {
  }

  /** An execution whose group has vanished fails at its quorum; otherwise nothing but the last rank of
      a COMPLETING execution moves it. */
  lemma QuorumExactly(groups: map<(u64, u64), CollectiveGroup>, x: Execution)
    ensures var key := (x.descriptor.groupId, x.descriptor.groupGeneration);
            Settled(groups, x) ==
            if key !in groups then (if x.lifecycle in UNSETTLED then x.(lifecycle := L.Failed) else x)
            else if x.lifecycle == L.Completing && EveryoneIn(groups[key].participants, x.completions) then
              x.(lifecycle := L.Succeeded)
            else x
  {
  }

  /** The commit after the engine's outputs: every rank recorded, the outputs stored, a success
      measured under a fresh id, which is returned; and then one collective is closed and the payload
      of all ranks counted as completed, unless none was open. */
  lemma CommitExactly(s: RtState, e: nat, n: u64, outputs: seq<seq<byte>>)
    requires GroupsOk(s) && e in s.executions && Members(s, s.executions[e].descriptor, n)
    requires Size(s.executions[e].descriptor) < U64_LIMIT
    ensures var x, id, c := s.executions[e], s.nextId, s.accounting;
            var d, all := x.descriptor, Mul(Size(x.descriptor), n);
            var total := if all < U64_LIMIT then all else 0;
            var y := x.(lifecycle := if x.lifecycle in {L.Running, L.Completing} then L.Succeeded else x.lifecycle,
                        completions := x.completions + Ranks(n), outputs := outputs, measurement := Some(id));
            var m := Measurement(d.collectiveId, d.collectiveGeneration, d.groupGeneration, x.plan.algorithm, x.plan.backend,
                                 n, Size(d), total, true);
            var t := With(s, e, y).(nextId := id + 1, measurements := s.measurements[id := m]);
            Commit(s, e, n, outputs) ==
            if c.active == 0 then (t, Thrown(Validation))
            else
              (t.(accounting := c.(active := c.active - 1, completedBytes := (c.completedBytes + total) % U64_LIMIT)), Done(id))
  {
    hide Stored, Measured, Ranks, Size, Mul;
    StoredSettles(s, e, n, outputs);
    StoredElsewhere(s, e, n, outputs);
    var u := Stored(s, e, n, outputs);
    MeasuredExactly(u, e, n);
    Overwritten(s.executions, e, u.executions[e], u.executions[e].(measurement := Some(s.nextId)));
  }

  lemma MeasuredExactly(s: RtState, e: nat, n: u64)
    requires e in s.executions && Size(s.executions[e].descriptor) < U64_LIMIT
    ensures var x, id, c := s.executions[e], s.nextId, s.accounting;
            var d, all := x.descriptor, Mul(Size(x.descriptor), n);
            var total := if all < U64_LIMIT then all else 0;
            var m := Measurement(d.collectiveId, d.collectiveGeneration, d.groupGeneration, x.plan.algorithm, x.plan.backend,
                                 n, Size(d), total, true);
            var t := With(s, e, x.(measurement := Some(id))).(nextId := id + 1, measurements := s.measurements[id := m]);
            Measured(s, e, n) ==
            if c.active == 0 then (t, Thrown(Validation))
            else
              (t.(accounting := c.(active := c.active - 1, completedBytes := (c.completedBytes + total) % U64_LIMIT)), Done(id))
  {
    hide ElementBytes, Size, Mul;
    BytesExactly(s.executions[e].descriptor);
  }

  /** The commit after anything threw: an unknown failure is recorded, with side effects possible, and
      an unsettled execution fails. */
  lemma FailureExactly(s: RtState, e: nat)
    ensures CommitFailure(s, e) ==
            if e !in s.executions then (s, Thrown(NotFound))
            else
              var x := s.executions[e];
              var d := x.descriptor;
              FailedWith(s, e, x.(lifecycle := if x.lifecycle in UNSETTLED then L.Failed else x.lifecycle,
                                  failure := Some(Failure(18, None, None, d.collectiveId, d.collectiveGeneration, 0, 0,
                                                          true, false, false, false))))
  {
    hide FailureBytes, FailedWith, L.Allowed;
    if e in s.executions {
      Origins(s.executions[e].lifecycle);
      FailureBytesExactly(s, e, Tried(s.executions[e], L.Failed).(failure := Some(ExecutionFailure(s.executions[e].descriptor))));
    }
  }

  /** A call that finds its execution anywhere but in DISPATCHED, or its group or inputs not as they
      should be, fails it; an unknown execution is left alone. */
  lemma ExecuteRefused(pf: E.Platform, s: RtState, e: nat, inputs: seq<seq<byte>>)
    requires GroupsOk(s) && EngineReady(s, e, inputs)
    ensures e !in s.executions ==> ExecuteCollective(pf, s, e, inputs) == (s, Done(0))
    ensures e in s.executions ==>
              var d := s.executions[e].descriptor;
              && (s.executions[e].lifecycle != L.Dispatched || GroupKey(d) !in s.groups
                  || !InputsOk(d, |s.groups[GroupKey(d)].participants|, inputs) ==>
                    ExecuteCollective(pf, s, e, inputs) == CommitFailure(s, e))
  {
    hide EngineRun, InputsOk, E.Defined, Commit, CommitFailure;
    if e in s.executions {
      var d := s.executions[e].descriptor;
      StartExactly(s, e, d, FoundGroup(s, d), inputs);
      if GroupKey(d) in s.groups {
        assert Constructible(s.groups[GroupKey(d)]);
      }
    }
  }

  // ---------------------------------------------------------------- what an execution delivers

  /** Every rank holds what the descriptor promises it for these inputs: nothing for a barrier, the root's
      bytes for a broadcast, everyone's bytes for an all-gather, and for the reductions the ranks'
      elements combined by the descriptor's operation in rank order. */
  ghost predicate Delivers(pf: E.Platform, d: Descriptor, n: nat, inputs: seq<seq<byte>>, outputs: seq<seq<byte>>) {
    |outputs| == n && forall r :: 0 <= r < n ==> DeliversAt(pf, d, n, inputs, r, outputs[r])
  }

  ghost predicate DeliversAt(pf: E.Platform, d: Descriptor, n: nat, inputs: seq<seq<byte>>, r: nat, out: seq<byte>) {
    && (d.kind != Barrier && d.kind != Broadcast ==> 1 <= n <= |inputs|)
    && EM.Receives(pf, d.kind, d.reduction, d.element, d.elements, d.root, n, inputs, r, out)
  }

  lemma EngineDelivers(pf: E.Platform, d: Descriptor, n: u64, inputs: seq<seq<byte>>)
    requires E.Defined(d.kind, Payload(d), d.root, n, inputs) && EngineRun(pf, d, n, inputs).Outputs?
    ensures Delivers(pf, d, n, inputs, EngineRun(pf, d, n, inputs).bytes)
  {
    hide E.Executed, E.Defined, EM.Receives;
    var outputs := EngineRun(pf, d, n, inputs).bytes;
    EngineCounts(pf, d, n, inputs);
    forall r | 0 <= r < n
      ensures DeliversAt(pf, d, n, inputs, r, outputs[r])
    {
      EM.EveryRankReceives(pf, d.kind, d.reduction, d.element, d.elements, d.root, n, inputs, r);
    }
  }

  lemma EngineCounts(pf: E.Platform, d: Descriptor, n: u64, inputs: seq<seq<byte>>)
    requires E.Defined(d.kind, Payload(d), d.root, n, inputs) && EngineRun(pf, d, n, inputs).Outputs?
    ensures |EngineRun(pf, d, n, inputs).bytes| == n
  {
    hide E.Reduced, E.Concat, Mul;
  }

  /** An undisturbed call that succeeds leaves its execution holding exactly that. */
  lemma ExecuteDelivers(pf: E.Platform, s: RtState, e: nat, inputs: seq<seq<byte>>)
    requires GroupsOk(s) && ExecutionsOk(s) && EngineReady(s, e, inputs)
    requires e in s.executions && s.executions[e].lifecycle == L.Dispatched
    requires var d := s.executions[e].descriptor;
             var n := |MembersOf(s, d)|;
             n < U64_LIMIT && Succeeds(d, n, inputs)
    ensures var t, d := ExecuteCollective(pf, s, e, inputs).0, s.executions[e].descriptor;
            e in t.executions && Delivers(pf, d, |MembersOf(s, d)|, inputs, t.executions[e].outputs)
  {
    hide ExecuteCollective, E.Defined, EngineRun, Succeeds, Delivers, EngineReady;
    assert ExecutionOk(s, e);
    ExecuteSucceedsIff(pf, s, e, inputs);
    EngineDelivers(pf, s.executions[e].descriptor, |MembersOf(s, s.executions[e].descriptor)|, inputs);
  }

  /** The members of the descriptor's group, or nobody. */
  function MembersOf(s: RtState, d: Descriptor): seq<Participant> {
    if GroupKey(d) in s.groups then s.groups[GroupKey(d)].participants else []
  }

  /** In every run, whatever interleaves: a committed execution holds, at every rank of its group, what its
      descriptor promises for the inputs of one of the calls made on it. */
  lemma CommittedDelivers(pf: E.Platform, run: seq<Action>, e: nat) returns (c: nat)
    requires var s := Reach(pf, run).rt; e in s.executions && s.executions[e].measurement.Some?
    ensures var sys := Reach(pf, run);
            var x := sys.rt.executions[e];
            && c in sys.calls && sys.calls[c].e == e
            && Delivers(pf, x.descriptor, |MembersOf(sys.rt, x.descriptor)|, sys.calls[c].inputs, x.outputs)
  {
    hide Reach, E.Defined, EngineRun, InputsOk, Delivers;
    c := OutputsAreTheEngines(pf, run, e);
    var sys := Reach(pf, run);
    EngineDelivers(pf, sys.rt.executions[e].descriptor, sys.calls[c].stage.n, sys.calls[c].inputs);
  }

  // ---------------------------------------------------------------- every lifecycle move

  /** The lifecycle of e after a section. */
  function NextBySection(s: RtState, op: Op, e: nat): L.State
    requires e in s.executions && GroupKey(s.executions[e].descriptor) in s.groups
  {
    var x, l := s.executions[e], s.executions[e].lifecycle;
    match op
    case Planning(k, _, _) => if k == e && l == L.Created then L.Planned else l
    case Reserving(k) => if k == e && l == L.Planned then L.Reserved else l
    case Dispatching(k) => if k == e && l == L.Reserved then L.Dispatched else l
    case Failing(k, _) => if k == e && l in UNSETTLED then L.Failed else l
    case Aborting(k) => if k == e && l in ABORTABLE then L.Aborted else l
    case Cancelling(k) => if k == e && l in CANCELLABLE then L.Cancelled else l
    case Retiring(k) => if k == e && l in RETIRABLE then L.Stale else l
    case Reporting(k, r) =>
      if k != e || r in x.completions || s.accounting.activeRanks == 0 || l !in {L.Running, L.Completing} then l
      else if Quorate(s, x.(completions := x.completions + {r})) then L.Succeeded
      else L.Completing
    case _ => l
  }

  /** The lifecycle of e after any step. */
  function Next(pf: E.Platform, sys: System, a: Action, e: nat): L.State
    requires e in sys.rt.executions && GroupKey(sys.rt.executions[e].descriptor) in sys.rt.groups
  {
    var l := sys.rt.executions[e].lifecycle;
    match a
    case Section(op) => NextBySection(sys.rt, op, e)
    case Start(c) => if Starts(sys, c, e) && l == L.Dispatched then L.Running else l
    case Conclude(c) =>
      if Commits(pf, sys, c) && sys.calls[c].e == e && l in {L.Running, L.Completing} then L.Succeeded
      else if Breaks(pf, sys, c) && sys.calls[c].e == e && l in UNSETTLED then L.Failed
      else l
    case _ => l
  }

  /** A call on e that has found its group and brings acceptable inputs. */
  predicate Starts(sys: System, c: nat, e: nat) {
    && c in sys.calls && sys.calls[c].e == e && sys.calls[c].stage.Grouped? && sys.calls[c].stage.g.Some?
    && var call, n := sys.calls[c], |sys.calls[c].stage.g.value.participants|;
    n < U64_LIMIT && InputsOk(call.stage.d, n, call.inputs)
  }

  /** A call whose checks, move or engine threw. */
  predicate Breaks(pf: E.Platform, sys: System, c: nat) {
    c in sys.calls && (sys.calls[c].stage.Doomed?
                       || (sys.calls[c].stage.Engaged? && Ready(sys.calls[c]) && Result(pf, sys.calls[c]).Failed?))
  }

  /** All that ever moves an execution: planning, reserving, dispatching and starting each from their one
      predecessor; a commit from RUNNING and COMPLETING; a counted report likewise, to COMPLETING or
      with the last member's rank to SUCCEEDED; failing, aborting, cancelling and retiring from
      exactly the states listed for them. */
  lemma LifecycleExactly(pf: E.Platform, run: seq<Action>, a: Action, e: nat)
    requires e in Reach(pf, run).rt.executions
    ensures var sys := Reach(pf, run);
            && GroupKey(sys.rt.executions[e].descriptor) in sys.rt.groups
            && e in Step(pf, sys, a).rt.executions
            && Step(pf, sys, a).rt.executions[e].lifecycle == Next(pf, sys, a, e)
  {
    hide Step, Inv, Next, Forward;
    ReachKeeps(pf, run);
    StepKeeps(pf, Reach(pf, run), a);
    KnownForward(pf, Reach(pf, run), Step(pf, Reach(pf, run), a), e);
    StepMoves(pf, Reach(pf, run), a, e);
  }

  lemma KnownForward(pf: E.Platform, sys: System, now: System, e: nat)
    requires Inv(pf, sys) && Forward(sys.rt, now.rt) && e in sys.rt.executions
    ensures e in now.rt.executions && GroupKey(sys.rt.executions[e].descriptor) in sys.rt.groups
  {
    hide CallsOk, OneEntered, OutputsOwned;
    assert ExecutionOk(sys.rt, e);
  }

  lemma StepMoves(pf: E.Platform, sys: System, a: Action, e: nat)
    requires Inv(pf, sys) && e in sys.rt.executions && GroupKey(sys.rt.executions[e].descriptor) in sys.rt.groups
    requires e in Step(pf, sys, a).rt.executions
    ensures Step(pf, sys, a).rt.executions[e].lifecycle == Next(pf, sys, a, e)
  {
    hide Applied, Started, Concluded, Commits, Breaks, Starts, Inv, NextBySection;
    match a
    case Section(op) => SectionMoves(pf, sys, op, e);
    case Invoke(c, k, inputs) =>
    case LookUp(c) =>
    case Start(c) => StartMoves(sys, c, e);
    case Conclude(c) => ConcludeMoves(pf, sys, c, e);
  }

  lemma SectionMoves(pf: E.Platform, sys: System, op: Op, e: nat)
    requires Inv(pf, sys) && e in sys.rt.executions && GroupKey(sys.rt.executions[e].descriptor) in sys.rt.groups
    requires e in Applied(sys.rt, op).0.executions
    ensures Applied(sys.rt, op).0.executions[e].lifecycle == NextBySection(sys.rt, op, e)
  {
    hide Create, Plan, Reserve, Dispatch, CompleteRank, Fail, Abort, Cancel, MarkStale, CallsOk, OneEntered, OutputsOwned,
      A.Record, Quorate, ExecutionOk;
    var s := sys.rt;
    match op
    case Registering(g) =>
    case Creating(d) => CreateMoves(s, d, e);
    case Planning(k, answer, backend) => PlanMoves(s, k, answer, backend, e);
    case Reserving(k) => ReserveMoves(s, k, e);
    case Dispatching(k) => DispatchExactly(s, k);
    case Reporting(k, r) => ReportMoves(s, k, r, e);
    case Failing(k, f) => FailMoves(s, k, f, e);
    case Aborting(k) => AbortMoves(s, k, e);
    case Cancelling(k) => CancelExactly(s, k);
    case Retiring(k) => RetireExactly(s, k);
    case Ingesting(id, m) =>
    case Booking(entry) =>
  }

  lemma CreateMoves(s: RtState, d: Descriptor, e: nat)
    requires ExecutionsOk(s) && e in s.executions
    ensures e in Create(s, d).0.executions && Create(s, d).0.executions[e].lifecycle == s.executions[e].lifecycle
  {
    hide Create, Size, ReductionFits;
    CreateExactly(s, d);
    NextIdIsNew(s, e);
  }

  lemma PlanMoves(s: RtState, k: nat, answer: P.Selection, backend: u64, e: nat)
    requires e in s.executions
    ensures var t, l := Plan(s, k, answer, backend).0, s.executions[e].lifecycle;
            e in t.executions && t.executions[e].lifecycle == if k == e && l == L.Created then L.Planned else l
  {
    hide Plan;
    PlanExactly(s, k, answer, backend);
  }

  lemma ReserveMoves(s: RtState, k: nat, e: nat)
    requires e in s.executions
    ensures var t, l := Reserve(s, k).0, s.executions[e].lifecycle;
            e in t.executions && t.executions[e].lifecycle == if k == e && l == L.Planned then L.Reserved else l
  {
    hide Reserve, Size;
    ReserveExactly(s, k);
  }

  lemma FailMoves(s: RtState, k: nat, f: Failure, e: nat)
    requires e in s.executions
    ensures var t, l := Fail(s, k, f).0, s.executions[e].lifecycle;
            e in t.executions && t.executions[e].lifecycle == if k == e && l in UNSETTLED then L.Failed else l
  {
    hide Fail, Size;
    FailExactly(s, k, f);
  }

  lemma AbortMoves(s: RtState, k: nat, e: nat)
    requires e in s.executions
    ensures var t, l := Abort(s, k).0, s.executions[e].lifecycle;
            e in t.executions && t.executions[e].lifecycle == if k == e && l in ABORTABLE then L.Aborted else l
  {
    hide Abort;
    AbortExactly(s, k);
  }

  lemma ReportMoves(s: RtState, k: nat, r: u64, e: nat)
    requires ExecutionsOk(s) && e in s.executions && GroupKey(s.executions[e].descriptor) in s.groups
    ensures e in CompleteRank(s, k, r).0.executions
    ensures CompleteRank(s, k, r).0.executions[e].lifecycle == NextBySection(s, Reporting(k, r), e)
  {
    hide CompleteRank, ExecutionOk, Quorate, EveryoneIn;
    if k in s.executions {
      ExecutionKnown(s, k);
      QuorateExactly(s, s.executions[k].(completions := s.executions[k].completions + {r}));
    }
    ReportExactly(s, k, r);
  }

  lemma ExecutionKnown(s: RtState, k: nat)
    requires ExecutionsOk(s) && k in s.executions
    ensures GroupKey(s.executions[k].descriptor) in s.groups
  {
    assert ExecutionOk(s, k);
  }

  lemma QuorateExactly(s: RtState, x: Execution)
    requires GroupKey(x.descriptor) in s.groups
    ensures Quorate(s, x) <==> EveryoneIn(s.groups[GroupKey(x.descriptor)].participants, x.completions)
  {
  }

  lemma StartMoves(sys: System, c: nat, e: nat)
    requires e in sys.rt.executions && e in Step0(sys, c).rt.executions
    ensures Step0(sys, c).rt.executions[e].lifecycle ==
            if Starts(sys, c, e) && sys.rt.executions[e].lifecycle == L.Dispatched then L.Running
            else sys.rt.executions[e].lifecycle
  {
    hide InputsOk, Begin;
    if c in sys.calls && sys.calls[c].stage.Grouped? {
      var call := sys.calls[c];
      StartExactly(sys.rt, call.e, call.stage.d, call.stage.g, call.inputs);
    }
  }

  /** A start, if there is one. */
  function Step0(sys: System, c: nat): System {
    if c in sys.calls && sys.calls[c].stage.Grouped? then Started(sys, c) else sys
  }

  lemma ConcludeMoves(pf: E.Platform, sys: System, c: nat, e: nat)
    requires Inv(pf, sys) && e in sys.rt.executions && GroupKey(sys.rt.executions[e].descriptor) in sys.rt.groups
    requires e in Step(pf, sys, Conclude(c)).rt.executions
    ensures Step(pf, sys, Conclude(c)).rt.executions[e].lifecycle == Next(pf, sys, Conclude(c), e)
  {
    hide EngineRun, E.Defined, InputsOk, Commit, CommitFailure, Ranks, ElementBytes, Quorate, CallsOk, CallOk, OneEntered,
      OutputsOwned, Size, GroupsOk, ExecutionsOk, ExecutionOk;
    if Commits(pf, sys, c) {
      var call := sys.calls[c];
      EngagedFacts(pf, sys, c);
      CommitEffect(sys.rt, call.e, call.stage.n, Result(pf, call).bytes);
    } else if c in sys.calls {
      FailureExactly(sys.rt, sys.calls[c].e);
    }
  }

  // ---------------------------------------------------------------- what planning stores

  /** The backend can do what the descriptor asks for. */
  predicate Accepts(c: P.Capabilities, d: Descriptor, ranks: u64) {
    && d.kind in c.kinds && d.element in c.datatypes
    && (d.kind in {Reduce, AllReduce, ReduceScatter} ==> d.reduction in c.reductions)
    && c.hostTransport && c.hostBuffers && d.hostInput
    && (c.maximumRanks.Some? ==> ranks <= c.maximumRanks.value)
  }

  /** The bytes the planner charges for. */
  function Charged(d: Descriptor, ranks: nat): nat {
    if d.kind in {Broadcast, Reduce, AllReduce} then Size(d) else Mul(Size(d), ranks)
  }

  predicate NoBandwidth(input: PlannerInput) { input.bandwidth.None? || input.bandwidth == Some(0) }

  predicate ChargeFits(d: Descriptor, ranks: nat) { Size(d) < U64_LIMIT && Charged(d, ranks) < U64_LIMIT }

  /** What planning an execution answers and stores: a refusal without group or backend, for a payload
      that does not fit, and for a backend that does not accept the request; otherwise that backend,
      the algorithm of the closed form for the execution's kind and the group's size, and its cost,
      where k is the exponent of the least power of two that reaches the size. */
  lemma PlanStores(s: RtState, e: nat, input: PlannerInput, answer: P.Selection, k: nat)
    requires Stands(s, e, {L.Created}) && P.Answers(RequestOf(s.executions[e].descriptor, input), answer)
    requires input.ranks.Some? ==> input.ranks.value <= 0x8000_0000_0000_0000 && PC.LeastExponent(input.ranks.value, k)
    ensures var d := s.executions[e].descriptor;
            var (t, o) := Plan(s, e, answer, BackendOf(input));
            && e in t.executions
            && if input.ranks.None? || input.backend.None? then o == Thrown(Validation)
               else if !ChargeFits(d, input.ranks.value) then o == Thrown(ArithmeticOverflow)
               else if !Accepts(input.backend.value.1, d, input.ranks.value) then o == Thrown(Unsupported)
               else
                 var n, plan := input.ranks.value, t.executions[e].plan;
                 && o == Done(0) && plan.backend == input.backend.value.0
                 && (NoBandwidth(input) ==> plan.algorithm == PL.ClosedForm(d.kind, n))
                 && (!NoBandwidth(input) && input.latency.None? && Charged(d, n) > 0 && PC.NothingCapped(d.kind, n, k, Charged(d, n)) ==>
                       plan.algorithm == PC.LightForm(d.kind, n))
                 && plan.steps == PC.StepCount(d.kind, plan.algorithm, n, k)
                 && plan.movement == PC.Capped(Mul(Charged(d, n), PC.Loads(d.kind, plan.algorithm, n, k)))
  {
    hide Plan, P.Steps, P.Movement, P.IsChoice, P.IsMeasuredChoice, P.Rejection, P.Scan, PC.LeastExponent, PC.NothingCapped,
      PL.ClosedForm, PC.LightForm, PC.Loads, PC.StepCount, PC.Capped, Size, Mul;
    PlanExactly(s, e, answer, BackendOf(input));
    var d := s.executions[e].descriptor;
    if input.ranks.Some? && input.backend.Some? {
      var q := RequestOf(d, input).value;
      RequestFacts(d, input);
      if ChargeFits(d, q.ranks) {
        var p := Charged(d, q.ranks);
        PL.NeverDelegates(q, p);
        if answer.Selected? {
          ChosenIsReal(q, p, answer.algorithm);
          SelectedForm(q, p, k, answer.algorithm);
          PC.CostsExactly(q.kind, answer.algorithm, q.ranks, p, k);
        }
      }
    }
  }

  lemma RequestFacts(d: Descriptor, input: PlannerInput)
    requires input.ranks.Some? && input.backend.Some?
    ensures var q := RequestOf(d, input).value;
            && q.kind == d.kind && q.ranks == input.ranks.value
            && q.topologyNodes == input.topologyNodes && q.bandwidth == input.bandwidth && q.latency == input.latency
            && P.Payload(q) == (if ChargeFits(d, q.ranks) then Some(Charged(d, q.ranks)) else None)
            && (P.BackendAccepts(q) <==> Accepts(input.backend.value.1, d, input.ranks.value))
  {
    hide Mul;
    PC.PayloadExactly(RequestOf(d, input).value);
  }

  lemma ChosenIsReal(q: P.Request, p: u64, a: P.Algorithm)
    requires if P.Measured(q) then P.IsMeasuredChoice(q, p, a) else P.IsChoice(q, p, a)
    ensures P.BackendAccepts(q)
  {
    hide P.Steps, P.Movement, P.Better, P.Time, P.Preferred, P.TimesApart;
    PL.NeverDelegates(q, p);
  }

  lemma SelectedForm(q: P.Request, p: u64, k: nat, a: P.Algorithm)
    requires q.ranks <= 0x8000_0000_0000_0000 && PC.LeastExponent(q.ranks, k) && P.BackendAccepts(q)
    requires if P.Measured(q) then P.IsMeasuredChoice(q, p, a) else P.IsChoice(q, p, a)
    ensures q.bandwidth.None? || q.bandwidth == Some(0) ==> a == PL.ClosedForm(q.kind, q.ranks)
    ensures q.bandwidth.Some? && q.bandwidth.value > 0 && q.latency.None? && p > 0 && PC.NothingCapped(q.kind, q.ranks, k, p) ==>
              a == PC.LightForm(q.kind, q.ranks)
  {
    hide P.IsChoice, P.IsMeasuredChoice, P.BackendAccepts, PC.LeastExponent, PC.NothingCapped, PL.ClosedForm, PC.LightForm;
    if q.bandwidth.None? || q.bandwidth == Some(0) {
      if q.latency.Some? {
        PL.LatencyChangesNothing(q, p, a);
      } else {
        PL.SelectionClosedForm(q, p, a);
      }
    } else if q.latency.None? && p > 0 && PC.NothingCapped(q.kind, q.ranks, k, p) {
      PC.BandwidthClosedForm(q, p, k, a);
    }
  }
}
