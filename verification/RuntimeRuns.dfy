/** Runs of the runtime under concurrency.

    A run interleaves, in any order, whole locked sections with the four steps of any number of
    execute_collective calls: look up the descriptor, look up the group, move to RUNNING, and
    commit once the engine has returned. */
module RuntimeRuns {
  import opened Bytes
  import opened Foundation
  import opened Group
  import opened Runtime
  import L = Lifecycle
  import A = Accounting
  import E = ReferenceEngine
  import P = Planner

  // ---------------------------------------------------------------- steps

  /** The sections anyone may run at any moment. */
  datatype Op =
    | Registering(g: CollectiveGroup) | Creating(d: Descriptor)
    | Planning(e: nat, answer: P.Selection, backend: u64) | Reserving(e: nat) | Dispatching(e: nat)
    | Reporting(e: nat, r: u64) | Failing(e: nat, f: Failure) | Aborting(e: nat) | Cancelling(e: nat) | Retiring(e: nat)
    | Ingesting(id: nat, m: Measurement) | Booking(entry: A.Entry)

  /** The groups that exist: built ones, or empty ones from the bare constructor. */
  ghost predicate Constructible(g: CollectiveGroup) {
    |g.participants| < U64_LIMIT && DenselyRanked(g.participants)
  }

  ghost function Applied(s: RtState, op: Op): (RtState, Outcome) {
    match op
    case Registering(g) => if Constructible(g) then RegisterGroup(s, g) else (s, Thrown(Validation))
    case Creating(d) => Create(s, d)
    case Planning(e, answer, backend) => Plan(s, e, answer, backend)
    case Reserving(e) => Reserve(s, e)
    case Dispatching(e) => Dispatch(s, e)
    case Reporting(e, r) => CompleteRank(s, e, r)
    case Failing(e, f) => Fail(s, e, f)
    case Aborting(e) => Abort(s, e)
    case Cancelling(e) => Cancel(s, e)
    case Retiring(e) => MarkStale(s, e)
    case Ingesting(id, m) => Ingest(s, id, m)
    case Booking(entry) => Booked(s, entry, 0)
  }

  /** Where an execute_collective call stands. */
  datatype Stage =
    | Described(d: Descriptor)
    | Grouped(d: Descriptor, g: Option<CollectiveGroup>)
    | Doomed
    | Engaged(d: Descriptor, n: u64)
    | Committed(d: Descriptor, n: u64)
    | Ended

  datatype Call = Call(e: nat, inputs: seq<seq<byte>>, stage: Stage)

  datatype System = System(rt: RtState, calls: map<nat, Call>)

  datatype Action = Section(op: Op) | Invoke(c: nat, e: nat, inputs: seq<seq<byte>>) | LookUp(c: nat) | Start(c: nat) | Conclude(c: nat)

  function At(sys: System, c: nat, stage: Stage): System
    requires c in sys.calls
  {
    sys.(calls := sys.calls[c := sys.calls[c].(stage := stage)])
  }

  /** One step; an action that does not apply leaves everything as it is. */
  ghost function Step(pf: E.Platform, sys: System, a: Action): System {
    match a
    case Section(op) => sys.(rt := Applied(sys.rt, op).0)
    case Invoke(c, e, inputs) =>
      if c in sys.calls then sys
      else
        var stage := if e in sys.rt.executions then Described(sys.rt.executions[e].descriptor) else Ended;
        sys.(calls := sys.calls[c := Call(e, inputs, stage)])
    case LookUp(c) =>
      if c in sys.calls && sys.calls[c].stage.Described? then
        At(sys, c, Grouped(sys.calls[c].stage.d, FoundGroup(sys.rt, sys.calls[c].stage.d)))
      else sys
    case Start(c) =>
      if c in sys.calls && sys.calls[c].stage.Grouped? then Started(sys, c) else sys
    case Conclude(c) =>
      if c in sys.calls then Concluded(pf, sys, c) else sys
  }

  function Started(sys: System, c: nat): System
    requires c in sys.calls && sys.calls[c].stage.Grouped?
  {
    var call := sys.calls[c];
    var (t, ok) := Begin(sys.rt, call.e, call.stage.d, call.stage.g, call.inputs);
    At(sys.(rt := t), c, if ok then Engaged(call.stage.d, |call.stage.g.value.participants|) else Doomed)
  }

  /** The engine call of an engaged call is defined. */
  predicate Ready(call: Call)
    requires call.stage.Engaged?
  {
    E.Defined(call.stage.d.kind, Payload(call.stage.d), call.stage.d.root, call.stage.n, call.inputs)
  }

  function Result(pf: E.Platform, call: Call): E.EngineResult
    requires call.stage.Engaged? && Ready(call)
  {
    EngineRun(pf, call.stage.d, call.stage.n, call.inputs)
  }

  function Concluded(pf: E.Platform, sys: System, c: nat): System
    requires c in sys.calls
  {
    var call := sys.calls[c];
    if call.stage.Doomed? then At(sys.(rt := CommitFailure(sys.rt, call.e).0), c, Ended)
    else if call.stage.Engaged? && Ready(call) then
      match Result(pf, call)
      case Outputs(bytes) =>
        At(sys.(rt := Commit(sys.rt, call.e, call.stage.n, bytes).0), c, Committed(call.stage.d, call.stage.n))
      case Failed(_) => At(sys.(rt := CommitFailure(sys.rt, call.e).0), c, Ended)
    else sys
  }

  ghost function Reach(pf: E.Platform, run: seq<Action>): System {
    if run == [] then System(INITIAL, map[])
    else Step(pf, Reach(pf, run[..|run| - 1]), run[|run| - 1])
  }

  // ---------------------------------------------------------------- invariant

  ghost predicate GroupsOk(s: RtState) {
    forall k :: k in s.groups ==> Constructible(s.groups[k])
  }

  predicate Quorate(s: RtState, x: Execution) {
    GroupKey(x.descriptor) in s.groups && AllReported(s.groups[GroupKey(x.descriptor)].participants, x.completions)
  }

  /** A committed execution is settled; an uncommitted one has no outputs; success has its quorum. */
  predicate ExecutionOk(s: RtState, e: nat)
    requires e in s.executions
  {
    var x := s.executions[e];
    && e < s.nextId
    && GroupKey(x.descriptor) in s.groups && Fault(x.descriptor).None?
    && (x.lifecycle == L.Succeeded ==> Quorate(s, x))
    && (x.measurement.None? ==> x.outputs == [])
    && (x.measurement.Some? ==> L.Terminal(x.lifecycle))
  }

  ghost predicate ExecutionsOk(s: RtState) {
    forall e :: e in s.executions ==> ExecutionOk(s, e)
  }

  predicate OfExecution(s: RtState, call: Call, d: Descriptor) {
    && call.e in s.executions && s.executions[call.e].descriptor == d
    && GroupKey(d) in s.groups
  }

  predicate Members(s: RtState, d: Descriptor, n: u64) {
    GroupKey(d) in s.groups && |s.groups[GroupKey(d)].participants| == n
  }

  ghost predicate CallOk(pf: E.Platform, s: RtState, call: Call) {
    match call.stage
    case Described(d) => OfExecution(s, call, d)
    case Grouped(d, g) => OfExecution(s, call, d) && g == Some(s.groups[GroupKey(d)])
    case Doomed => call.e in s.executions
    case Engaged(d, n) =>
      && OfExecution(s, call, d) && Members(s, d, n) && InputsOk(d, n, call.inputs)
      && s.executions[call.e].measurement.None? && L.Height(s.executions[call.e].lifecycle) <= 3
    case Committed(d, n) =>
      && OfExecution(s, call, d) && Members(s, d, n) && InputsOk(d, n, call.inputs)
      && s.executions[call.e].measurement.Some?
      && E.Defined(d.kind, Payload(d), d.root, n, call.inputs)
      && EngineRun(pf, d, n, call.inputs) == E.Outputs(s.executions[call.e].outputs)
    case Ended => true
  }

  predicate Entered(call: Call) { call.stage.Engaged? || call.stage.Committed? }

  /** At most one call per execution has ever got past the move to RUNNING and not failed. */
  ghost predicate OneEntered(sys: System) {
    forall b, c :: b in sys.calls && c in sys.calls ==> Entered(sys.calls[b]) && Entered(sys.calls[c]) ==>
      sys.calls[b].e == sys.calls[c].e ==> b == c
  }

  predicate Owns(sys: System, c: nat, e: nat) {
    c in sys.calls && sys.calls[c].e == e && sys.calls[c].stage.Committed?
  }

  ghost predicate OutputsOwned(sys: System) {
    forall e :: e in sys.rt.executions && sys.rt.executions[e].measurement.Some? ==> exists c :: Owns(sys, c, e)
  }

  ghost predicate CallsOk(pf: E.Platform, sys: System) {
    forall c :: c in sys.calls ==> CallOk(pf, sys.rt, sys.calls[c])
  }

  ghost predicate Inv(pf: E.Platform, sys: System) {
    GroupsOk(sys.rt) && ExecutionsOk(sys.rt) && CallsOk(pf, sys) && OneEntered(sys) && OutputsOwned(sys)
  }

  // ---------------------------------------------------------------- what steps may change

  /** What every step may do to an execution: its descriptor stays, its lifecycle moves forward,
      ranks are only added, and what a commit wrote is final. */
  predicate ForwardExecution(x: Execution, y: Execution) {
    && y.descriptor == x.descriptor && L.Later(x.lifecycle, y.lifecycle)
    && x.completions <= y.completions && (x.failure.Some? ==> y.failure.Some?)
    && (x.measurement.Some? ==> y.measurement == x.measurement && y.outputs == x.outputs)
  }

  /** Groups and executions are never removed, and groups never changed. */
  ghost predicate Forward(s: RtState, t: RtState) {
    && (forall k :: k in s.groups ==> k in t.groups && t.groups[k] == s.groups[k])
    && (forall e :: e in s.executions ==> e in t.executions && ForwardExecution(s.executions[e], t.executions[e]))
    && s.nextId <= t.nextId
  }

  lemma ForwardTransitive(s: RtState, t: RtState, u: RtState)
    requires Forward(s, t) && Forward(t, u)
    ensures Forward(s, u)
  {
    forall e | e in s.executions
      ensures e in u.executions && ForwardExecution(s.executions[e], u.executions[e])
    {
      L.LaterTransitive(s.executions[e].lifecycle, t.executions[e].lifecycle, u.executions[e].lifecycle);
    }
  }

  /** A step that commits nothing: outputs and measurements stay, success needs its quorum. */
  predicate QuietExecution(s: RtState, x: Execution, y: Execution) {
    && ForwardExecution(x, y) && y.measurement == x.measurement && y.outputs == x.outputs
    && (y.lifecycle == L.Succeeded ==> x.lifecycle == L.Succeeded || Quorate(s, y))
  }

  predicate Newborn(s: RtState, t: RtState, e: nat)
    requires e in t.executions
  {
    var y := t.executions[e];
    && s.nextId <= e < t.nextId && GroupKey(y.descriptor) in s.groups && Fault(y.descriptor).None?
    && y.lifecycle == L.Created && y.measurement.None? && y.outputs == [] && y.completions == {}
  }

  ghost predicate Quiet(s: RtState, t: RtState) {
    && (forall k :: k in s.groups ==> k in t.groups && t.groups[k] == s.groups[k])
    && (forall e :: e in s.executions ==> e in t.executions && QuietExecution(s, s.executions[e], t.executions[e]))
    && (forall e :: e in t.executions && e !in s.executions ==> Newborn(s, t, e))
    && s.nextId <= t.nextId
  }

  lemma QuietIsForward(s: RtState, t: RtState)
    requires Quiet(s, t)
    ensures Forward(s, t)
  {
  }

  /** A change to one execution. */
  lemma LocalQuiet(s: RtState, t: RtState, e: nat)
    requires e in s.executions && t.groups == s.groups && s.nextId <= t.nextId
    requires e in t.executions && t.executions == s.executions[e := t.executions[e]]
    requires QuietExecution(s, s.executions[e], t.executions[e])
    ensures Quiet(s, t)
  {
  }

  lemma MoveQuiet(s: RtState, e: nat, to: L.State)
    requires to != L.Succeeded
    ensures Quiet(s, Move(s, e, to).0)
  {
    if Move(s, e, to).1.Done? {
      L.AllowedIsLater(s.executions[e].lifecycle, to);
      LocalQuiet(s, Move(s, e, to).0, e);
    }
  }

  lemma SettledQuiet(s: RtState, x: Execution, y: Execution)
    requires QuietExecution(s, x, y) && GroupKey(x.descriptor) in s.groups
    ensures QuietExecution(s, x, Settled(s.groups, y))
  {
    var z := Settled(s.groups, y);
    if z != y {
      L.AllowedIsLater(y.lifecycle, z.lifecycle);
      L.LaterTransitive(x.lifecycle, y.lifecycle, z.lifecycle);
    }
  }

  lemma ReserveQuiet(s: RtState, e: nat)
    ensures Quiet(s, Reserve(s, e).0)
  {
    hide Quiet, A.Record, ElementBytes;
    MoveQuiet(s, e, L.Reserved);
    if Move(s, e, L.Reserved).1.Done? {
      L.AllowedIsLater(s.executions[e].lifecycle, L.Reserved);
      LocalQuiet(s, Reserve(s, e).0, e);
    }
  }

  lemma DispatchQuiet(s: RtState, e: nat)
    ensures Quiet(s, Dispatch(s, e).0)
  {
    hide Quiet, A.Record, ElementBytes;
    MoveQuiet(s, e, L.Dispatched);
    if Move(s, e, L.Dispatched).1.Done? {
      L.AllowedIsLater(s.executions[e].lifecycle, L.Dispatched);
      LocalQuiet(s, Dispatch(s, e).0, e);
    }
  }

  lemma FailQuiet(s: RtState, e: nat, f: Failure)
    ensures Quiet(s, Fail(s, e, f).0)
  {
    hide Quiet, A.Record, ElementBytes;
    MoveQuiet(s, e, L.Failed);
    if Move(s, e, L.Failed).1.Done? {
      L.AllowedIsLater(s.executions[e].lifecycle, L.Failed);
      LocalQuiet(s, Fail(s, e, f).0, e);
    }
  }

  lemma AbortQuiet(s: RtState, e: nat)
    ensures Quiet(s, Abort(s, e).0)
  {
    hide Quiet, A.Record, ElementBytes;
    MoveQuiet(s, e, L.Aborted);
    if Move(s, e, L.Aborted).1.Done? {
      L.AllowedIsLater(s.executions[e].lifecycle, L.Aborted);
      LocalQuiet(s, Abort(s, e).0, e);
    }
  }

  lemma CommitFailureQuiet(s: RtState, e: nat)
    requires e in s.executions
    ensures Quiet(s, CommitFailure(s, e).0)
  {
    hide Quiet, A.Record, ElementBytes;
    if L.Allowed(s.executions[e].lifecycle, L.Failed) {
      L.AllowedIsLater(s.executions[e].lifecycle, L.Failed);
    }
    LocalQuiet(s, CommitFailure(s, e).0, e);
  }

  /** A report that is not a duplicate changes one execution and the contribution counter. */
  lemma ReportShape(s: RtState, e: nat, r: u64)
    requires e in s.executions && r !in s.executions[e].completions
    ensures var t, x := CompleteRank(s, e, r).0, s.executions[e];
            var y := x.(completions := x.completions + {r});
            var z := if x.lifecycle == L.Running then Tried(y, L.Completing) else y;
            && e in t.executions
            && t == s.(executions := s.executions[e := t.executions[e]], accounting := t.accounting)
            && t.accounting.active == s.accounting.active && t.accounting.reservations == s.accounting.reservations
            && (t.executions[e] == y || t.executions[e] == Settled(s.groups, z))
  {
    hide Settled, Tried;
  }

  lemma QuietReflexive(s: RtState)
    ensures Quiet(s, s)
  {
  }

  lemma CompleteRankQuiet(s: RtState, e: nat, r: u64)
    requires ExecutionsOk(s)
    ensures Quiet(s, CompleteRank(s, e, r).0)
  {
    hide CompleteRank, Settled, Quorate, Quiet;
    if e in s.executions && r !in s.executions[e].completions {
      assert ExecutionOk(s, e);
      var x := s.executions[e];
      var y := x.(completions := x.completions + {r});
      var z := if x.lifecycle == L.Running then Tried(y, L.Completing) else y;
      SettledQuiet(s, x, z);
      ReportShape(s, e, r);
      LocalQuiet(s, CompleteRank(s, e, r).0, e);
    } else {
      NoReportEffect(s, e, r);
      QuietReflexive(s);
    }
  }

  lemma NoReportEffect(s: RtState, e: nat, r: u64)
    requires e in s.executions ==> r in s.executions[e].completions
    ensures CompleteRank(s, e, r).0 == s
  {
  }

  lemma PlanQuiet(s: RtState, e: nat, answer: P.Selection, backend: u64)
    ensures Quiet(s, Plan(s, e, answer, backend).0)
  {
    hide Quiet;
    MoveQuiet(s, e, L.Planned);
    if Move(s, e, L.Planned).1.Done? {
      L.AllowedIsLater(s.executions[e].lifecycle, L.Planned);
      LocalQuiet(s, Plan(s, e, answer, backend).0, e);
    }
  }

  lemma RegisterQuiet(s: RtState, g: CollectiveGroup)
    ensures Quiet(s, RegisterGroup(s, g).0)
  {
  }

  /** Measurements and counters are not part of any execution. */
  lemma AsideQuiet(s: RtState, t: RtState)
    requires t == s.(measurements := t.measurements, accounting := t.accounting)
    ensures Quiet(s, t)
  {
  }

  lemma AppliedQuiet(s: RtState, op: Op)
    requires ExecutionsOk(s)
    ensures Quiet(s, Applied(s, op).0)
  {
    hide Quiet, Create, Plan, Move, Reserve, Dispatch, CompleteRank, Fail, Abort, RegisterGroup, A.Record;
    match op
    case Registering(g) => RegisterQuiet(s, g); AsideQuiet(s, s);
    case Creating(d) => CreateQuiet(s, d);
    case Planning(e, answer, backend) => PlanQuiet(s, e, answer, backend);
    case Reserving(e) => ReserveQuiet(s, e);
    case Dispatching(e) => DispatchQuiet(s, e);
    case Reporting(e, r) => CompleteRankQuiet(s, e, r);
    case Failing(e, f) => FailQuiet(s, e, f);
    case Aborting(e) => AbortQuiet(s, e);
    case Cancelling(e) => MoveQuiet(s, e, L.Cancelled);
    case Retiring(e) => MoveQuiet(s, e, L.Stale);
    case Ingesting(id, m) => AsideQuiet(s, Applied(s, op).0);
    case Booking(entry) => AsideQuiet(s, Applied(s, op).0);
  }

  lemma CreateQuiet(s: RtState, d: Descriptor)
    requires ExecutionsOk(s)
    ensures Quiet(s, Create(s, d).0)
  {
    hide Fault, L.Allowed;
    forall e | e in s.executions
      ensures e < s.nextId
    {
      assert ExecutionOk(s, e);
    }
  }

  lemma AppliedGroups(s: RtState, op: Op)
    requires GroupsOk(s)
    ensures GroupsOk(Applied(s, op).0)
  {
  }

  // ---------------------------------------------------------------- quiet steps keep the invariant

  lemma QuietKeepsExecutions(s: RtState, t: RtState)
    requires ExecutionsOk(s) && Quiet(s, t)
    ensures ExecutionsOk(t)
  {
    forall e | e in t.executions
      ensures ExecutionOk(t, e)
    {
      if e in s.executions {
        assert ExecutionOk(s, e) && QuietExecution(s, s.executions[e], t.executions[e]);
      } else {
        assert Newborn(s, t, e);
      }
    }
  }

  lemma QuietKeepsCall(pf: E.Platform, s: RtState, t: RtState, call: Call)
    requires CallOk(pf, s, call) && Quiet(s, t)
    ensures CallOk(pf, t, call)
  {
    hide EngineRun, E.Defined, InputsOk, QuietExecution;
    if call.e in s.executions {
      QuietFacts(s, s.executions[call.e], t.executions[call.e]);
    }
  }

  lemma QuietFacts(s: RtState, x: Execution, y: Execution)
    requires QuietExecution(s, x, y)
    ensures y.descriptor == x.descriptor && y.measurement == x.measurement && y.outputs == x.outputs
    ensures L.Height(y.lifecycle) <= L.Height(x.lifecycle)
  {
  }

  lemma QuietKeeps(pf: E.Platform, sys: System, t: RtState)
    requires Inv(pf, sys) && Quiet(sys.rt, t) && GroupsOk(t)
    ensures Inv(pf, sys.(rt := t))
  {
    hide CallOk, QuietExecution, ExecutionOk;
    QuietKeepsExecutions(sys.rt, t);
    var now := sys.(rt := t);
    forall c | c in now.calls
      ensures CallOk(pf, t, now.calls[c])
    {
      QuietKeepsCall(pf, sys.rt, t, sys.calls[c]);
    }
    forall e | e in t.executions && t.executions[e].measurement.Some?
      ensures exists c :: Owns(now, c, e)
    {
      QuietMeasurement(sys.rt, t, e);
      var c :| Owns(sys, c, e);
      assert Owns(now, c, e);
    }
  }

  lemma QuietMeasurement(s: RtState, t: RtState, e: nat)
    requires Quiet(s, t) && e in t.executions && t.executions[e].measurement.Some?
    ensures e in s.executions && s.executions[e].measurement == t.executions[e].measurement
  {
  }

  /** A call that has not entered may move to any stage that fits the state. */
  lemma RestageKeeps(pf: E.Platform, sys: System, c: nat, call: Call)
    requires Inv(pf, sys) && (c in sys.calls ==> !Entered(sys.calls[c])) && !Entered(call) && CallOk(pf, sys.rt, call)
    ensures Inv(pf, sys.(calls := sys.calls[c := call]))
  {
    hide CallOk, ExecutionOk;
    var now := sys.(calls := sys.calls[c := call]);
    forall e | e in now.rt.executions && now.rt.executions[e].measurement.Some?
      ensures exists b :: Owns(now, b, e)
    {
      var b :| Owns(sys, b, e);
      assert Owns(now, b, e);
    }
  }

  // ---------------------------------------------------------------- the move to RUNNING

  lemma BeginQuiet(s: RtState, e: nat, d: Descriptor, g: Option<CollectiveGroup>, inputs: seq<seq<byte>>)
    ensures Quiet(s, Begin(s, e, d, g, inputs).0)
  {
    hide InputsOk;
    MoveQuiet(s, e, L.Running);
  }

  /** The execution was DISPATCHED, so no call had entered and nothing was committed. */
  lemma NoneEntered(pf: E.Platform, sys: System, e: nat, b: nat)
    requires Inv(pf, sys) && e in sys.rt.executions && sys.rt.executions[e].lifecycle == L.Dispatched
    requires b in sys.calls && sys.calls[b].e == e
    ensures !Entered(sys.calls[b])
  {
    hide EngineRun, E.Defined, InputsOk;
    assert CallOk(pf, sys.rt, sys.calls[b]) && ExecutionOk(sys.rt, e);
  }

  lemma StartKeeps(pf: E.Platform, sys: System, c: nat)
    requires Inv(pf, sys) && c in sys.calls && sys.calls[c].stage.Grouped?
    ensures Inv(pf, Started(sys, c)) && Forward(sys.rt, Started(sys, c).rt)
  {
    hide InputsOk, CallOk, Quiet, Inv;
    var call := sys.calls[c];
    var (t, ok) := Begin(sys.rt, call.e, call.stage.d, call.stage.g, call.inputs);
    BeginQuiet(sys.rt, call.e, call.stage.d, call.stage.g, call.inputs);
    QuietIsForward(sys.rt, t);
    BeginGroups(sys.rt, call.e, call.stage.d, call.stage.g, call.inputs);
    InvParts(pf, sys);
    QuietKeeps(pf, sys, t);
    var mid := sys.(rt := t);
    InvParts(pf, mid);
    if ok {
      EngageKeeps(pf, sys, mid, c);
    } else {
      GroupedExecution(pf, t, call);
      RestageKeeps(pf, mid, c, call.(stage := Doomed));
    }
  }

  lemma InvParts(pf: E.Platform, sys: System)
    requires Inv(pf, sys)
    ensures GroupsOk(sys.rt) && CallsOk(pf, sys)
  {
  }

  lemma BeginGroups(s: RtState, e: nat, d: Descriptor, g: Option<CollectiveGroup>, inputs: seq<seq<byte>>)
    ensures Begin(s, e, d, g, inputs).0.groups == s.groups
  {
  }

  lemma GroupedExecution(pf: E.Platform, s: RtState, call: Call)
    requires CallOk(pf, s, call) && call.stage.Grouped?
    ensures CallOk(pf, s, call.(stage := Doomed))
  {
  }

  lemma EngagedCallOk(pf: E.Platform, sys: System, c: nat)
    requires Inv(pf, sys) && c in sys.calls && sys.calls[c].stage.Grouped?
    requires var call := sys.calls[c]; Begin(sys.rt, call.e, call.stage.d, call.stage.g, call.inputs).1
    ensures var now := Started(sys, c); CallOk(pf, now.rt, now.calls[c]) && now.calls[c].stage.Engaged?
    ensures sys.calls[c].e in sys.rt.executions && sys.rt.executions[sys.calls[c].e].lifecycle == L.Dispatched
  {
    hide E.Defined, EngineRun, InputsOk, Quorate, OneEntered, OutputsOwned, GroupsOk, Fault;
    var call := sys.calls[c];
    assert CallOk(pf, sys.rt, call);
    assert ExecutionOk(sys.rt, call.e);
  }

  lemma EngageKeeps(pf: E.Platform, sys: System, mid: System, c: nat)
    requires Inv(pf, sys) && Inv(pf, mid) && c in sys.calls && sys.calls[c].stage.Grouped?
    requires var call := sys.calls[c];
             var (t, ok) := Begin(sys.rt, call.e, call.stage.d, call.stage.g, call.inputs);
             ok && mid == sys.(rt := t)
    ensures Inv(pf, Started(sys, c))
  {
    hide CallOk, ExecutionOk, Begin;
    var call, now := sys.calls[c], Started(sys, c);
    EngagedCallOk(pf, sys, c);
    forall b | b in sys.calls && sys.calls[b].e == call.e
      ensures !Entered(sys.calls[b])
    {
      NoneEntered(pf, sys, call.e, b);
    }
    forall e | e in now.rt.executions && now.rt.executions[e].measurement.Some?
      ensures exists b :: Owns(now, b, e)
    {
      var b :| Owns(mid, b, e);
      assert Owns(now, b, e);
    }
  }

  // ---------------------------------------------------------------- the commit

  lemma RanksCover(ps: seq<Participant>, completions: set<u64>)
    requires |ps| < U64_LIMIT && DenselyRanked(ps)
    ensures AllReported(ps, completions + Ranks(|ps|))
  {
  }

  /** A commit reaches the quorum: it settles a running or completing execution as succeeded and
      moves no other. */
  lemma StoredSettles(s: RtState, e: nat, n: u64, outputs: seq<seq<byte>>)
    requires GroupsOk(s) && e in s.executions && Members(s, s.executions[e].descriptor, n)
    ensures var x, y := s.executions[e], Stored(s, e, n, outputs).executions[e];
            && y == x.(lifecycle := y.lifecycle, completions := x.completions + Ranks(n), outputs := outputs)
            && y.lifecycle == (if x.lifecycle == L.Running || x.lifecycle == L.Completing then L.Succeeded else x.lifecycle)
            && Quorate(s, y)
  {
    var g := s.groups[GroupKey(s.executions[e].descriptor)];
    assert Constructible(g);
    RanksCover(g.participants, s.executions[e].completions);
  }

  /** Everything a commit does to groups, executions and measurements. */
  lemma CommitEffect(s: RtState, e: nat, n: u64, outputs: seq<seq<byte>>)
    requires GroupsOk(s) && e in s.executions && Members(s, s.executions[e].descriptor, n)
    requires ElementBytes(s.executions[e].descriptor).Some?
    ensures var t := Commit(s, e, n, outputs).0;
            var x, l := s.executions[e], s.executions[e].lifecycle;
            && t.groups == s.groups && t.nextId == s.nextId + 1
            && t.executions == s.executions[e := x.(
                 lifecycle := if l == L.Running || l == L.Completing then L.Succeeded else l,
                 completions := x.completions + Ranks(n), outputs := outputs, measurement := Some(s.nextId))]
            && Quorate(t, t.executions[e])
            && s.nextId in t.measurements && t.measurements[s.nextId].success
            && t.measurements == s.measurements[s.nextId := t.measurements[s.nextId]]
  {
    hide Stored, A.Record, Ranks;
    StoredSettles(s, e, n, outputs);
    StoredElsewhere(s, e, n, outputs);
  }

  lemma StoredElsewhere(s: RtState, e: nat, n: u64, outputs: seq<seq<byte>>)
    requires e in s.executions
    ensures var t := Stored(s, e, n, outputs);
            e in t.executions && t == s.(executions := s.executions[e := t.executions[e]])
  {
  }

  lemma CommitForward(s: RtState, t: RtState, e: nat)
    requires e in s.executions && e in t.executions && t.groups == s.groups && t.nextId == s.nextId + 1
    requires t.executions == s.executions[e := t.executions[e]]
    requires ForwardExecution(s.executions[e], t.executions[e])
    ensures Forward(s, t)
  {
  }

  lemma CommitKeepsOthers(pf: E.Platform, s: RtState, t: RtState, call: Call, e: nat)
    requires CallOk(pf, s, call) && e in s.executions && e in t.executions
    requires t.groups == s.groups && t.executions == s.executions[e := t.executions[e]]
    requires t.executions[e].descriptor == s.executions[e].descriptor
    requires call.e == e ==> !Entered(call)
    ensures CallOk(pf, t, call)
  {
    hide EngineRun, E.Defined, InputsOk;
  }

  lemma InputsOkBytes(d: Descriptor, n: u64, inputs: seq<seq<byte>>)
    requires InputsOk(d, n, inputs)
    ensures ElementBytes(d).Some?
  {
  }

  /** now is sys after call c committed. */
  ghost predicate CommitShape(pf: E.Platform, sys: System, now: System, c: nat)
    requires c in sys.calls && sys.calls[c].stage.Engaged?
  {
    var call := sys.calls[c];
    && call.e in sys.rt.executions && call.e in now.rt.executions
    && now.calls == sys.calls[c := call.(stage := Committed(call.stage.d, call.stage.n))]
    && now.rt.groups == sys.rt.groups && now.rt.nextId == sys.rt.nextId + 1
    && now.rt.executions == sys.rt.executions[call.e := now.rt.executions[call.e]]
    && ForwardExecution(sys.rt.executions[call.e], now.rt.executions[call.e])
    && ExecutionOk(now.rt, call.e)
    && CallOk(pf, now.rt, now.calls[c])
  }

  /** The committed execution and its call, given what a commit does. */
  lemma AfterCommit(pf: E.Platform, s: RtState, t: RtState, call: Call, outputs: seq<seq<byte>>)
    requires call.stage.Engaged? && CallOk(pf, s, call) && ExecutionOk(s, call.e)
    requires Ready(call) && Result(pf, call) == E.Outputs(outputs)
    requires var x, l := s.executions[call.e], s.executions[call.e].lifecycle;
             && t.groups == s.groups && t.nextId == s.nextId + 1
             && t.executions == s.executions[call.e := x.(
                  lifecycle := if l == L.Running || l == L.Completing then L.Succeeded else l,
                  completions := x.completions + Ranks(call.stage.n), outputs := outputs, measurement := Some(s.nextId))]
             && Quorate(t, t.executions[call.e])
    ensures ForwardExecution(s.executions[call.e], t.executions[call.e])
    ensures ExecutionOk(t, call.e) && CallOk(pf, t, call.(stage := Committed(call.stage.d, call.stage.n)))
  {
    hide InputsOk, E.Defined, EngineRun, Ranks, Fault, Quorate;
  }

  lemma CommitShaped(pf: E.Platform, sys: System, c: nat)
    requires Inv(pf, sys) && c in sys.calls && sys.calls[c].stage.Engaged? && Ready(sys.calls[c])
    requires Result(pf, sys.calls[c]).Outputs?
    ensures CommitShape(pf, sys, Concluded(pf, sys, c), c)
  {
    hide Commit, InputsOk, E.Defined, EngineRun, Ranks, ElementBytes, Quorate, OneEntered, OutputsOwned, CallOk, ExecutionOk,
      ForwardExecution;
    var call, now := sys.calls[c], Concluded(pf, sys, c);
    EngagedFacts(pf, sys, c);
    CommitEffect(sys.rt, call.e, call.stage.n, Result(pf, call).bytes);
    AfterCommit(pf, sys.rt, now.rt, call, Result(pf, call).bytes);
  }

  lemma EngagedFacts(pf: E.Platform, sys: System, c: nat)
    requires Inv(pf, sys) && c in sys.calls && sys.calls[c].stage.Engaged?
    ensures var call := sys.calls[c];
            && CallOk(pf, sys.rt, call) && call.e in sys.rt.executions && ExecutionOk(sys.rt, call.e)
            && call.stage.d == sys.rt.executions[call.e].descriptor && Members(sys.rt, call.stage.d, call.stage.n)
            && ElementBytes(call.stage.d).Some?
  {
    hide InputsOk, E.Defined, EngineRun, ElementBytes, Quorate, OneEntered, OutputsOwned, ExecutionOk;
    var call := sys.calls[c];
    assert CallOk(pf, sys.rt, call);
    InputsOkBytes(call.stage.d, call.stage.n, call.inputs);
  }

  lemma CommitKeeps(pf: E.Platform, sys: System, c: nat)
    requires Inv(pf, sys) && c in sys.calls && sys.calls[c].stage.Engaged? && Ready(sys.calls[c])
    requires Result(pf, sys.calls[c]).Outputs?
    ensures Inv(pf, Concluded(pf, sys, c)) && Forward(sys.rt, Concluded(pf, sys, c).rt)
  {
    hide Concluded, Inv, Forward, ForwardExecution, ExecutionOk, CallOk, Ready, Result;
    var now := Concluded(pf, sys, c);
    CommitShaped(pf, sys, c);
    CommitForward(sys.rt, now.rt, sys.calls[c].e);
    CommitInv(pf, sys, now, c);
  }

  lemma CommitInv(pf: E.Platform, sys: System, now: System, c: nat)
    requires Inv(pf, sys) && c in sys.calls && sys.calls[c].stage.Engaged? && CommitShape(pf, sys, now, c)
    ensures Inv(pf, now)
  {
    hide CallOk, ExecutionOk, GroupsOk, OneEntered;
    CommitKeepsRest(pf, sys, now, c);
    CommitKeepsOne(pf, sys, now, c);
    var e := sys.calls[c].e;
    forall k | k in now.rt.executions && now.rt.executions[k].measurement.Some?
      ensures exists b :: Owns(now, b, k)
    {
      if k == e {
        assert Owns(now, c, k);
      } else {
        var b :| Owns(sys, b, k);
        assert Owns(now, b, k);
      }
    }
  }

  lemma CommitKeepsOne(pf: E.Platform, sys: System, now: System, c: nat)
    requires Inv(pf, sys) && c in sys.calls && sys.calls[c].stage.Engaged? && CommitShape(pf, sys, now, c)
    ensures GroupsOk(now.rt) && OneEntered(now)
  {
    hide CallOk, ExecutionOk, ForwardExecution;
  }

  lemma CommitKeepsRest(pf: E.Platform, sys: System, now: System, c: nat)
    requires Inv(pf, sys) && c in sys.calls && sys.calls[c].stage.Engaged? && CommitShape(pf, sys, now, c)
    ensures ExecutionsOk(now.rt) && CallsOk(pf, now)
  {
    hide CallOk;
    var e := sys.calls[c].e;
    forall k | k in now.rt.executions
      ensures ExecutionOk(now.rt, k)
    {
      if k != e {
        assert ExecutionOk(sys.rt, k);
      }
    }
    hide ExecutionOk;
    forall b | b in now.calls
      ensures CallOk(pf, now.rt, now.calls[b])
    {
      if b != c {
        CommitKeepsOthers(pf, sys.rt, now.rt, sys.calls[b], e);
      }
    }
  }

  // ---------------------------------------------------------------- runs

  lemma ConcludeKeeps(pf: E.Platform, sys: System, c: nat)
    requires Inv(pf, sys) && c in sys.calls
    ensures Inv(pf, Concluded(pf, sys, c)) && Forward(sys.rt, Concluded(pf, sys, c).rt)
  {
    hide Commit, InputsOk, E.Defined, EngineRun, Inv, ForwardExecution;
    var call := sys.calls[c];
    InvParts(pf, sys);
    if call.stage.Engaged? && Ready(call) && Result(pf, call).Outputs? {
      CommitKeeps(pf, sys, c);
    } else if call.stage.Doomed? || (call.stage.Engaged? && Ready(call)) {
      assert CallOk(pf, sys.rt, call);
      FailureKeeps(pf, sys, c);
    } else {
      ForwardReflexive(sys.rt);
    }
  }

  lemma ForwardReflexive(s: RtState)
    ensures Forward(s, s)
  {
  }

  lemma FailureKeeps(pf: E.Platform, sys: System, c: nat)
    requires Inv(pf, sys) && c in sys.calls && sys.calls[c].e in sys.rt.executions
    requires sys.calls[c].stage.Doomed? || sys.calls[c].stage.Engaged?
    ensures var t := CommitFailure(sys.rt, sys.calls[c].e).0;
            Inv(pf, At(sys.(rt := t), c, Ended)) && Forward(sys.rt, t)
  {
    hide CallOk, Quiet, ExecutionOk;
    var s, e := sys.rt, sys.calls[c].e;
    var t := CommitFailure(s, e).0;
    CommitFailureQuiet(s, e);
    QuietIsForward(s, t);
    FailureGroups(s, e);
    hide CommitFailure;
    QuietKeeps(pf, sys, t);
    LeaveKeeps(pf, sys.(rt := t), c);
  }

  lemma FailureGroups(s: RtState, e: nat)
    ensures CommitFailure(s, e).0.groups == s.groups
  {
  }

  /** A call without a commit to its name may end. */
  lemma LeaveKeeps(pf: E.Platform, sys: System, c: nat)
    requires Inv(pf, sys) && c in sys.calls && !sys.calls[c].stage.Committed?
    ensures Inv(pf, At(sys, c, Ended))
  {
    hide ExecutionOk, EngineRun, E.Defined, InputsOk;
    var now := At(sys, c, Ended);
    forall e | e in now.rt.executions && now.rt.executions[e].measurement.Some?
      ensures exists b :: Owns(now, b, e)
    {
      var b :| Owns(sys, b, e);
      assert Owns(now, b, e);
    }
  }

  lemma SectionKeeps(pf: E.Platform, sys: System, op: Op)
    requires Inv(pf, sys)
    ensures Inv(pf, sys.(rt := Applied(sys.rt, op).0)) && Forward(sys.rt, Applied(sys.rt, op).0)
  {
    hide Applied, Quiet, CallsOk, ExecutionOk, OneEntered, OutputsOwned;
    AppliedQuiet(sys.rt, op);
    AppliedGroups(sys.rt, op);
    QuietIsForward(sys.rt, Applied(sys.rt, op).0);
    QuietKeeps(pf, sys, Applied(sys.rt, op).0);
  }

  lemma InvokeKeeps(pf: E.Platform, sys: System, c: nat, e: nat, inputs: seq<seq<byte>>)
    requires Inv(pf, sys)
    ensures Inv(pf, Step(pf, sys, Invoke(c, e, inputs)))
  {
    if c !in sys.calls {
      var stage := if e in sys.rt.executions then Described(sys.rt.executions[e].descriptor) else Ended;
      if e in sys.rt.executions {
        assert ExecutionOk(sys.rt, e);
      }
      RestageKeeps(pf, sys, c, Call(e, inputs, stage));
    }
  }

  lemma LookUpKeeps(pf: E.Platform, sys: System, c: nat)
    requires Inv(pf, sys)
    ensures Inv(pf, Step(pf, sys, LookUp(c)))
  {
    if c in sys.calls && sys.calls[c].stage.Described? {
      var call := sys.calls[c];
      assert CallOk(pf, sys.rt, call);
      RestageKeeps(pf, sys, c, call.(stage := Grouped(call.stage.d, FoundGroup(sys.rt, call.stage.d))));
    }
  }

  lemma StepKeeps(pf: E.Platform, sys: System, a: Action)
    requires Inv(pf, sys)
    ensures Inv(pf, Step(pf, sys, a)) && Forward(sys.rt, Step(pf, sys, a).rt)
  {
    hide Applied, Inv, Concluded, Started, Forward, FoundGroup;
    ForwardReflexive(sys.rt);
    match a
    case Section(op) => SectionKeeps(pf, sys, op);
    case Invoke(c, e, inputs) => InvokeKeeps(pf, sys, c, e, inputs);
    case LookUp(c) => LookUpKeeps(pf, sys, c);
    case Start(c) =>
      if c in sys.calls && sys.calls[c].stage.Grouped? {
        StartKeeps(pf, sys, c);
      }
    case Conclude(c) =>
      if c in sys.calls {
        ConcludeKeeps(pf, sys, c);
      }
  }

  lemma {:induction false} ReachKeeps(pf: E.Platform, run: seq<Action>)
    ensures Inv(pf, Reach(pf, run))
  {
    hide Step, Inv;
    if run == [] {
      InitialInv(pf);
    } else {
      ReachKeeps(pf, run[..|run| - 1]);
      StepKeeps(pf, Reach(pf, run[..|run| - 1]), run[|run| - 1]);
    }
  }

  lemma InitialInv(pf: E.Platform)
    ensures Inv(pf, System(INITIAL, map[]))
  {
  }

  /** The forward relation holds between any two moments of any run. */
  lemma {:induction false} RunForward(pf: E.Platform, run: seq<Action>, i: nat)
    requires i <= |run|
    ensures Forward(Reach(pf, run[..i]).rt, Reach(pf, run).rt)
    decreases |run|
  {
    hide Step, Inv, Forward;
    if i == |run| {
      assert run[..i] == run;
      ForwardReflexive(Reach(pf, run).rt);
    } else {
      var front := run[..|run| - 1];
      RunForward(pf, front, i);
      assert front[..i] == run[..i];
      ReachKeeps(pf, front);
      StepKeeps(pf, Reach(pf, front), run[|run| - 1]);
      ForwardTransitive(Reach(pf, run[..i]).rt, Reach(pf, front).rt, Reach(pf, run).rt);
    }
  }

  // ---------------------------------------------------------------- at most once

  function Life(s: RtState, e: nat): Option<L.State> {
    if e in s.executions then Some(s.executions[e].lifecycle) else None
  }

  /** The moves the execution can still make; 8 counts its creation. */
  function Left(s: RtState, e: nat): nat {
    if e in s.executions then L.Height(s.executions[e].lifecycle) else 8
  }

  /** How many steps of the run changed the execution's lifecycle. */
  ghost function Changes(pf: E.Platform, run: seq<Action>, e: nat): nat {
    if run == [] then 0
    else
      var before, after := Reach(pf, run[..|run| - 1]).rt, Reach(pf, run).rt;
      Changes(pf, run[..|run| - 1], e) + (if Life(before, e) != Life(after, e) then 1 else 0)
  }

  /** How many steps of the run took the execution from one state to another. */
  ghost function Passages(pf: E.Platform, run: seq<Action>, e: nat, from: L.State, to: L.State): nat {
    if run == [] then 0
    else
      var before, after := Reach(pf, run[..|run| - 1]).rt, Reach(pf, run).rt;
      Passages(pf, run[..|run| - 1], e, from, to)
      + (if Life(before, e) == Some(from) && Life(after, e) == Some(to) then 1 else 0)
  }

  lemma ForwardLowers(s: RtState, t: RtState, e: nat)
    requires Forward(s, t)
    ensures Left(t, e) <= Left(s, e)
    ensures Life(s, e) != Life(t, e) ==> Left(t, e) < Left(s, e)
  {
  }

  lemma StepForward(pf: E.Platform, run: seq<Action>)
    requires run != []
    ensures Forward(Reach(pf, run[..|run| - 1]).rt, Reach(pf, run).rt)
  {
    RunForward(pf, run, |run| - 1);
  }

  /** Creation and at most seven lifecycle moves, in any run. */
  lemma {:induction false} AtMostSevenMoves(pf: E.Platform, run: seq<Action>, e: nat)
    ensures Changes(pf, run, e) + Left(Reach(pf, run).rt, e) <= 8
  {
    hide Step, Forward;
    if run != [] {
      AtMostSevenMoves(pf, run[..|run| - 1], e);
      StepForward(pf, run);
      ForwardLowers(Reach(pf, run[..|run| - 1]).rt, Reach(pf, run).rt, e);
    }
  }

  /** No move is ever repeated; in particular an execution goes from DISPATCHED to RUNNING at most
      once, whatever calls compete for it. */
  lemma {:induction false} MoveAtMostOnce(pf: E.Platform, run: seq<Action>, e: nat, from: L.State, to: L.State)
    requires from != to
    ensures Passages(pf, run, e, from, to) <= 1
    ensures Passages(pf, run, e, from, to) == 1 ==> Left(Reach(pf, run).rt, e) < L.Height(from)
  {
    hide Step, Forward;
    if run != [] {
      MoveAtMostOnce(pf, run[..|run| - 1], e, from, to);
      StepForward(pf, run);
      ForwardLowers(Reach(pf, run[..|run| - 1]).rt, Reach(pf, run).rt, e);
    }
  }

  /** A settled lifecycle: nothing leads out of ABORTED, CANCELLED and STALE, and only retirement
      out of SUCCEEDED and FAILED. */
  lemma SettledForGood(pf: E.Platform, run: seq<Action>, i: nat, e: nat)
    requires i <= |run|
    requires e in Reach(pf, run[..i]).rt.executions
    ensures e in Reach(pf, run).rt.executions
    ensures var was := Reach(pf, run[..i]).rt.executions[e].lifecycle;
            var now := Reach(pf, run).rt.executions[e].lifecycle;
            L.Terminal(was) ==> now == was || ((was == L.Succeeded || was == L.Failed) && now == L.Stale)
  {
    hide Step;
    RunForward(pf, run, i);
  }

  /** Outputs are written by at most one commit: from then on outputs, measurement and descriptor
      never change, and recorded ranks and registered groups are never lost. */
  lemma CommittedForGood(pf: E.Platform, run: seq<Action>, i: nat, e: nat)
    requires i <= |run|
    requires e in Reach(pf, run[..i]).rt.executions
    ensures e in Reach(pf, run).rt.executions
    ensures var was, now := Reach(pf, run[..i]).rt.executions[e], Reach(pf, run).rt.executions[e];
            && now.descriptor == was.descriptor && was.completions <= now.completions
            && (was.measurement.Some? ==> now.measurement == was.measurement && now.outputs == was.outputs)
            && (now.measurement.None? ==> now.outputs == [])
            && FoundGroup(Reach(pf, run).rt, now.descriptor) == FoundGroup(Reach(pf, run[..i]).rt, was.descriptor)
  {
    hide Reach, Inv, Forward;
    RunForward(pf, run, i);
    ReachKeeps(pf, run);
    ReachKeeps(pf, run[..i]);
    CommittedKept(pf, Reach(pf, run[..i]), Reach(pf, run), e);
  }

  lemma CommittedKept(pf: E.Platform, a: System, b: System, e: nat)
    requires Inv(pf, a) && Inv(pf, b) && Forward(a.rt, b.rt) && e in a.rt.executions
    ensures e in b.rt.executions
    ensures var was, now := a.rt.executions[e], b.rt.executions[e];
            && now.descriptor == was.descriptor && was.completions <= now.completions
            && (was.measurement.Some? ==> now.measurement == was.measurement && now.outputs == was.outputs)
            && (now.measurement.None? ==> now.outputs == [])
            && FoundGroup(b.rt, now.descriptor) == FoundGroup(a.rt, was.descriptor)
  {
    hide CallsOk, OneEntered, OutputsOwned, Quorate, Fault;
    assert ExecutionOk(b.rt, e);
    assert ExecutionOk(a.rt, e);
  }

  ghost predicate CommittedBy(pf: E.Platform, sys: System, c: nat, e: nat) {
    && Owns(sys, c, e) && e in sys.rt.executions
    && var x, call := sys.rt.executions[e], sys.calls[c];
    && call.stage.d == x.descriptor && Members(sys.rt, x.descriptor, call.stage.n)
    && InputsOk(x.descriptor, call.stage.n, call.inputs)
    && E.Defined(x.descriptor.kind, Payload(x.descriptor), x.descriptor.root, call.stage.n, call.inputs)
    && EngineRun(pf, x.descriptor, call.stage.n, call.inputs) == E.Outputs(x.outputs)
  }

  /** In every reachable state, the outputs of a committed execution are the engine's result on the
      inputs of one call, with the registered rank count, and no other call got past its move to
      RUNNING without failing. */
  lemma OutputsAreTheEngines(pf: E.Platform, run: seq<Action>, e: nat) returns (c: nat)
    requires var s := Reach(pf, run).rt; e in s.executions && s.executions[e].measurement.Some?
    ensures var sys := Reach(pf, run);
            && CommittedBy(pf, sys, c, e)
            && forall b :: b in sys.calls && sys.calls[b].e == e && Entered(sys.calls[b]) ==> b == c
  {
    hide Step, EngineRun, E.Defined, InputsOk;
    ReachKeeps(pf, run);
    var sys := Reach(pf, run);
    c :| Owns(sys, c, e);
    assert CallOk(pf, sys.rt, sys.calls[c]);
  }

  /** No success without the quorum: in every reachable state, a SUCCEEDED execution has a recorded
      completion for every participant of its registered group generation. */
  lemma SucceededHasQuorum(pf: E.Platform, run: seq<Action>, e: nat)
    requires var s := Reach(pf, run).rt; e in s.executions && s.executions[e].lifecycle == L.Succeeded
    ensures var s := Reach(pf, run).rt;
            var x := s.executions[e];
            && GroupKey(x.descriptor) in s.groups
            && var ps := s.groups[GroupKey(x.descriptor)].participants;
            forall r: u64 :: r < |ps| ==> ps[r].rank == r && r in x.completions
  {
    hide Step, CallsOk, OneEntered, OutputsOwned;
    ReachKeeps(pf, run);
    var s := Reach(pf, run).rt;
    assert ExecutionOk(s, e);
    var ps := s.groups[GroupKey(s.executions[e].descriptor)].participants;
    assert Constructible(s.groups[GroupKey(s.executions[e].descriptor)]);
    forall r: u64 | r < |ps|
      ensures ps[r].rank == r && r in s.executions[e].completions
    {
    }
  }
}
