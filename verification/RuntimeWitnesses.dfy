/** Runs from the initial runtime that end where its comments say it never does. */
module RuntimeWitnesses {
  import opened Bytes
  import opened Foundation
  import opened Group
  import opened Runtime
  import opened RuntimeRuns
  import opened RuntimeLaws
  import opened RuntimeDrain
  import L = Lifecycle
  import A = Accounting
  import E = ReferenceEngine
  import P = Planner
  import PlannerLaws
  import PlannerCosts

  // ---------------------------------------------------------------- following a run

  ghost function After(pf: E.Platform, sys: System, actions: seq<Action>): System
    decreases |actions|
  {
    if actions == [] then sys else After(pf, Step(pf, sys, actions[0]), actions[1..])
  }

  lemma {:induction false} ReachAfter(pf: E.Platform, run: seq<Action>, actions: seq<Action>)
    ensures Reach(pf, run + actions) == After(pf, Reach(pf, run), actions)
    decreases |actions|
  {
    hide Step;
    if actions == [] {
      assert run + actions == run;
    } else {
      var next := run + [actions[0]];
      assert next[..|run|] == run;
      ReachAfter(pf, next, actions[1..]);
      assert next + actions[1..] == run + actions;
    }
  }

  lemma RunAfter(pf: E.Platform, actions: seq<Action>)
    ensures Reach(pf, actions) == After(pf, System(INITIAL, map[]), actions)
  {
    hide Step;
    ReachAfter(pf, [], actions);
    assert [] + actions == actions;
  }

  lemma {:induction false} AfterTogether(pf: E.Platform, sys: System, some: seq<Action>, more: seq<Action>)
    ensures After(pf, sys, some + more) == After(pf, After(pf, sys, some), more)
    decreases |some|
  {
    hide Step;
    if some == [] {
      assert some + more == more;
    } else {
      AfterTogether(pf, Step(pf, sys, some[0]), some[1..], more);
      assert (some + more)[1..] == some[1..] + more;
    }
  }

  lemma AfterOne(pf: E.Platform, sys: System, a: Action)
    ensures After(pf, sys, [a]) == Step(pf, sys, a)
  {
    hide Step;
    assert [a][1..] == [];
  }

  lemma AfterTwo(pf: E.Platform, sys: System, a: Action, b: Action)
    ensures After(pf, sys, [a, b]) == Step(pf, Step(pf, sys, a), b)
  {
    hide Step;
    AfterOne(pf, sys, a);
    AfterOne(pf, Step(pf, sys, a), b);
    AfterTogether(pf, sys, [a], [b]);
    assert [a, b] == [a] + [b];
  }

  lemma OneSection(pf: E.Platform, run: seq<Action>, a: Op)
    ensures Reach(pf, run + [Section(a)]) == Reach(pf, run).(rt := Applied(Reach(pf, run).rt, a).0)
  {
    hide Applied;
    ReachAfter(pf, run, [Section(a)]);
    AfterOne(pf, Reach(pf, run), Section(a));
  }

  lemma TwoSections(pf: E.Platform, run: seq<Action>, a: Op, b: Op)
    ensures Reach(pf, run + [Section(a), Section(b)])
         == Reach(pf, run).(rt := Applied(Applied(Reach(pf, run).rt, a).0, b).0)
  {
    hide Applied, Reach;
    OneSection(pf, run, a);
    OneSection(pf, run + [Section(a)], b);
    assert run + [Section(a), Section(b)] == run + [Section(a)] + [Section(b)];
  }

  // ---------------------------------------------------------------- one pair, one collective

  const PAIR := CollectiveGroup(1, 1, 1, 1, 0, 0, 0,
    [Participant(1, 1, 1, 0, 0, 0, 0, true), Participant(2, 2, 2, 0, 0, 1, 0, true)])

  const SUM4 := Descriptor(7, 1, 1, 1, AllReduce, Sum, UInt32, 4, 0, false, true)
  const GATHER4 := Descriptor(8, 1, 1, 1, AllGather, NoReduction, UInt32, 4, 0, false, true)

  /** Descriptors of the pair with sixteen bytes a rank. */
  predicate Sixteen(d: Descriptor) {
    d == SUM4 || d == GATHER4
  }

  lemma SixteenBytes(d: Descriptor)
    requires Sixteen(d)
    ensures ElementBytes(d) == Some(16) && Payload(d) == 16 && Fault(d).None? && GroupKey(d) == (1, 1)
  {
    hide Fault;
    assert Mul(4, 4) == 16;
    ValidExactly(d);
  }

  /** Bytes the planner charges for: the gathered total, or one rank's payload. */
  function Moved(d: Descriptor): nat { if d.kind == AllGather then 32 else 16 }

  function AnswerFor(d: Descriptor): P.Selection { P.Selected(P.Ring, 1, Moved(d)) }

  function PlanFor(d: Descriptor): PlanRecord { PlanRecord(P.Ring, 1, 1, Moved(d)) }

  /** A backend, number 1, that takes both collectives; no topology and nothing measured. */
  const PAIR_INPUT := PlannerInput(Some(2), None,
    Some((1, P.Capabilities({AllReduce, AllGather}, {UInt32}, {Sum}, true, true, None))), None, None)

  /** These are the planner's own answers. */
  lemma PlannersAnswer(d: Descriptor)
    requires Sixteen(d)
    ensures RequestOf(d, PAIR_INPUT).Some? && P.Answers(RequestOf(d, PAIR_INPUT), AnswerFor(d))
  {
    hide P.IsChoice, P.BackendAccepts, P.Scan;
    var q := RequestOf(d, PAIR_INPUT).value;
    SixteenBytes(d);
    assert Mul(16, 2) == 32 && Mul(16, 1) == 16 && Mul(32, 1) == 32;
    PairAccepted(d);
    assert P.Payload(q) == Some(Moved(d));
    PlannerLaws.ClosedFormIsChoice(q, Moved(d));
    PlannerLaws.ClosedFormReal(q);
    PlannerCosts.ScanEndsWithChoice(q, Moved(d), P.Ring);
  }

  lemma PairAccepted(d: Descriptor)
    requires Sixteen(d)
    ensures P.BackendAccepts(RequestOf(d, PAIR_INPUT).value)
  {
  }

  function ExecutionAt(d: Descriptor, plan: PlanRecord, l: L.State, dispatch: nat, reservation: nat): Execution {
    Execution(d, plan, l, 2, dispatch, reservation, {}, None, None, [])
  }

  const ONE_ACTIVE := A.Counters(1, 0, 16, 1, 0, 0, 0, map[3 := 16])

  /** The pair and one execution of it, as number 1. */
  function Lone(x: Execution, c: A.Counters, next: nat): RtState {
    RtState(map[(1, 1) := PAIR], map[1 := x], map[], c, next)
  }

  /** Register, create, plan, reserve and dispatch. */
  function Opening(d: Descriptor): seq<Action> {
    [Section(Registering(PAIR)), Section(Creating(d))] + ([Section(Planning(1, AnswerFor(d), 1)), Section(Reserving(1))]
    + [Section(Dispatching(1))])
  }

  lemma OpeningCreates(pf: E.Platform, d: Descriptor)
    requires Sixteen(d)
    ensures var t := Applied(Applied(INITIAL, Registering(PAIR)).0, Creating(d)).0;
            t == Lone(ExecutionAt(d, UNPLANNED, L.Created, 0, 0), A.ZERO, 3)
  {
    SixteenBytes(d);
  }

  lemma OpeningPlans(d: Descriptor)
    ensures Applied(Lone(ExecutionAt(d, UNPLANNED, L.Created, 0, 0), A.ZERO, 3), Planning(1, AnswerFor(d), 1)).0
         == Lone(ExecutionAt(d, PlanFor(d), L.Planned, 0, 0), A.ZERO, 3)
  {
  }

  lemma OpeningReserves(d: Descriptor)
    requires Sixteen(d)
    ensures Applied(Lone(ExecutionAt(d, PlanFor(d), L.Planned, 0, 0), A.ZERO, 3), Reserving(1)).0
         == Lone(ExecutionAt(d, PlanFor(d), L.Reserved, 0, 3), ONE_ACTIVE, 4)
  {
    hide ElementBytes, Fault;
    SixteenBytes(d);
  }

  lemma OpeningReaches(pf: E.Platform, d: Descriptor)
    requires Sixteen(d)
    ensures After(pf, System(INITIAL, map[]), Opening(d))
         == System(Lone(ExecutionAt(d, PlanFor(d), L.Dispatched, 4, 3), ONE_ACTIVE, 5), map[])
  {
    var sys := System(INITIAL, map[]);
    var a, b := [Section(Registering(PAIR)), Section(Creating(d))], [Section(Planning(1, AnswerFor(d), 1)), Section(Reserving(1))];
    var c := [Section(Dispatching(1))];
    OpeningCreates(pf, d);
    OpeningPlans(d);
    OpeningReserves(d);
    AfterTogether(pf, sys, a, b + c);
    AfterTwo(pf, sys, a[0], a[1]);
    AfterTogether(pf, After(pf, sys, a), b, c);
    AfterTwo(pf, After(pf, sys, a), b[0], b[1]);
    AfterOne(pf, After(pf, After(pf, sys, a), b), c[0]);
    DispatchReaches(d);
  }

  lemma DispatchReaches(d: Descriptor)
    ensures Applied(Lone(ExecutionAt(d, PlanFor(d), L.Reserved, 0, 3), ONE_ACTIVE, 4), Dispatching(1)).0
         == Lone(ExecutionAt(d, PlanFor(d), L.Dispatched, 4, 3), ONE_ACTIVE, 5)
  {
  }

  // ---------------------------------------------------------------- calls

  /** A call on a known execution of a registered group, up to its two look-ups. */
  lemma CallLooksUp(pf: E.Platform, sys: System, c: nat, e: nat, inputs: seq<seq<byte>>)
    requires c !in sys.calls && e in sys.rt.executions && GroupKey(sys.rt.executions[e].descriptor) in sys.rt.groups
    ensures var d := sys.rt.executions[e].descriptor;
            After(pf, sys, [Invoke(c, e, inputs), LookUp(c)])
            == sys.(calls := sys.calls[c := Call(e, inputs, Grouped(d, Some(sys.rt.groups[GroupKey(d)])))])
  {
    AfterTwo(pf, sys, Invoke(c, e, inputs), LookUp(c));
  }

  lemma StartEngages(pf: E.Platform, sys: System, c: nat)
    requires c in sys.calls && sys.calls[c].stage.Grouped? && sys.calls[c].stage.g.Some?
    requires sys.calls[c].e in sys.rt.executions && sys.rt.executions[sys.calls[c].e].lifecycle == L.Dispatched
    requires var call := sys.calls[c];
             && |call.stage.g.value.participants| < U64_LIMIT
             && InputsOk(call.stage.d, |call.stage.g.value.participants|, call.inputs)
    ensures var call := sys.calls[c];
            var x, n := sys.rt.executions[call.e], |call.stage.g.value.participants|;
            Step(pf, sys, Start(c)) == System(Put(sys.rt, call.e, x.(lifecycle := L.Running)),
                                              sys.calls[c := call.(stage := Engaged(call.stage.d, n))])
  {
    hide InputsOk;
  }

  /** And its move to RUNNING. */
  lemma CallStarts(pf: E.Platform, sys: System, c: nat, e: nat, inputs: seq<seq<byte>>)
    requires c !in sys.calls && e in sys.rt.executions && sys.rt.executions[e].lifecycle == L.Dispatched
    requires var d := sys.rt.executions[e].descriptor;
             && GroupKey(d) in sys.rt.groups && |sys.rt.groups[GroupKey(d)].participants| < U64_LIMIT
             && InputsOk(d, |sys.rt.groups[GroupKey(d)].participants|, inputs)
    ensures var x := sys.rt.executions[e];
            var n := |sys.rt.groups[GroupKey(x.descriptor)].participants|;
            After(pf, sys, [Invoke(c, e, inputs), LookUp(c)] + [Start(c)])
            == System(Put(sys.rt, e, x.(lifecycle := L.Running)), sys.calls[c := Call(e, inputs, Engaged(x.descriptor, n))])
  {
    hide InputsOk, After, Step;
    CallLooksUp(pf, sys, c, e, inputs);
    AfterTogether(pf, sys, [Invoke(c, e, inputs), LookUp(c)], [Start(c)]);
    AfterOne(pf, After(pf, sys, [Invoke(c, e, inputs), LookUp(c)]), Start(c));
    StartEngages(pf, After(pf, sys, [Invoke(c, e, inputs), LookUp(c)]), c);
  }

  function Zeros(n: nat): (z: seq<byte>)
    ensures |z| == n
  {
    seq(n, _ => 0)
  }

  /** Sixteen bytes from each rank of the pair for the all-reduce, thirty-two for the all-gather. */
  function InputsFor(d: Descriptor): seq<seq<byte>> {
    if d.kind == AllGather then [Zeros(32), Zeros(32)] else [Zeros(16), Zeros(16)]
  }

  lemma InputsAccepted(pf: E.Platform, d: Descriptor)
    requires Sixteen(d)
    ensures InputsOk(d, 2, InputsFor(d)) && E.Defined(d.kind, Payload(d), d.root, 2, InputsFor(d))
    ensures EngineRun(pf, d, 2, InputsFor(d)).Outputs? <==> d == SUM4
  {
    hide EngineRun;
    SixteenBytes(d);
    assert Mul(16, 2) == 32;
    assert InputsFor(d)[..2] == InputsFor(d);
    AcceptedCompletes(pf, d, 2, InputsFor(d));
  }

  function Engaging(d: Descriptor): seq<Action> {
    [Invoke(0, 1, InputsFor(d)), LookUp(0)] + [Start(0)]
  }

  function Running(d: Descriptor): Execution { ExecutionAt(d, PlanFor(d), L.Running, 4, 3) }

  function EngagedCall(d: Descriptor): Call { Call(1, InputsFor(d), Engaged(d, 2)) }

  /** The opening and a first call that is now in the engine. */
  lemma RunningReaches(pf: E.Platform, d: Descriptor)
    requires Sixteen(d)
    ensures Reach(pf, Opening(d) + Engaging(d)) == System(Lone(Running(d), ONE_ACTIVE, 5), map[0 := EngagedCall(d)])
  {
    hide InputsOk, Step, After, Reach, Opening, Payload, ElementBytes, Fault;
    SixteenBytes(d);
    RunAfter(pf, Opening(d) + Engaging(d));
    AfterTogether(pf, System(INITIAL, map[]), Opening(d), Engaging(d));
    OpeningReaches(pf, d);
    InputsAccepted(pf, d);
    CallStarts(pf, System(Lone(ExecutionAt(d, PlanFor(d), L.Dispatched, 4, 3), ONE_ACTIVE, 5), map[]), 0, 1, InputsFor(d));
  }

  lemma FirstCallReady(pf: E.Platform)
    ensures Ready(EngagedCall(SUM4)) && Result(pf, EngagedCall(SUM4)).Outputs?
  {
    hide EngineRun, InputsOk, E.Defined;
    InputsAccepted(pf, SUM4);
  }

  // ---------------------------------------------------------------- a rival call

  /** Two calls on one collective: the second one's refusal fails it, and the first one's outputs
      and success measurement are stored in the failed execution. */
  lemma RivalFailsARun(pf: E.Platform)
    ensures var run := Opening(SUM4) + Engaging(SUM4) + [Invoke(1, 1, InputsFor(SUM4)), LookUp(1)];
            var s := Reach(pf, run + [Start(1)] + [Conclude(1)] + [Conclude(0)]).rt;
            && 1 in s.executions && s.executions[1].lifecycle == L.Failed && s.executions[1].failure.Some?
            && s.executions[1].outputs == Result(pf, EngagedCall(SUM4)).bytes
            && s.executions[1].measurement.Some? && s.executions[1].measurement.value in s.measurements
            && s.measurements[s.executions[1].measurement.value].success
  {
    hide Step, EngineRun, InputsOk, E.Defined;
    var before := Opening(SUM4) + Engaging(SUM4);
    var rival := [Invoke(1, 1, InputsFor(SUM4)), LookUp(1)];
    RunningReaches(pf, SUM4);
    FirstCallReady(pf);
    ReachAfter(pf, before, rival);
    CallLooksUp(pf, Reach(pf, before), 1, 1, InputsFor(SUM4));
    RivalFailsTheRun(pf, before + rival, 0, 1);
  }

  // ---------------------------------------------------------------- reports

  /** Both members report while no contribution is counted active: both reports throw, both ranks
      are recorded, and the collective is left RUNNING with a full quorum. */
  lemma ReportsLost(pf: E.Platform)
    ensures var s := Reach(pf, Opening(SUM4) + Engaging(SUM4) + [Section(Reporting(1, 0)), Section(Reporting(1, 1))]).rt;
            && s == Lone(Running(SUM4).(completions := {0, 1}), ONE_ACTIVE, 5)
            && Quorate(s, s.executions[1])
  {
    hide Step, Reach, Applied;
    RunningReaches(pf, SUM4);
    TwoSections(pf, Opening(SUM4) + Engaging(SUM4), Reporting(1, 0), Reporting(1, 1));
    ReportThrows(Running(SUM4), 0);
    ReportThrows(Running(SUM4).(completions := {0}), 1);
    assert {} + {0} == {0} && {0} + {1} == {0, 1};
    PairReported(Running(SUM4).(completions := {0, 1}));
  }

  lemma PairReported(x: Execution)
    requires x.descriptor == SUM4 && x.completions == {0, 1}
    ensures Quorate(Lone(x, ONE_ACTIVE, 5), x)
  {
  }

  lemma ReportThrows(x: Execution, r: u64)
    requires r !in x.completions
    ensures var s := Lone(x, ONE_ACTIVE, 5);
            Applied(s, Reporting(1, r)) == (Lone(x.(completions := x.completions + {r}), ONE_ACTIVE, 5), Thrown(Validation))
  {
    var y := x.(completions := x.completions + {r});
    assert map[1 := x][1 := y] == map[1 := y];
  }

  /** ... from which the report of a rank that belongs to nobody takes it to SUCCEEDED. */
  lemma ForeignRankSettles(pf: E.Platform)
    ensures var run := Opening(SUM4) + Engaging(SUM4) + [Section(Reporting(1, 0)), Section(Reporting(1, 1))];
            var s := Reach(pf, run + [Section(Booking(A.RankStarted)), Section(Reporting(1, 99))]).rt;
            && 1 in s.executions && s.executions[1].lifecycle == L.Succeeded
            && s.executions[1].measurement.None? && s.executions[1].outputs == []
  {
    hide Step, Reach, Applied, Quorate;
    var run := Opening(SUM4) + Engaging(SUM4) + [Section(Reporting(1, 0)), Section(Reporting(1, 1))];
    ReportsLost(pf);
    TwoSections(pf, run, Booking(A.RankStarted), Reporting(1, 99));
    BookedThenReported(Running(SUM4).(completions := {0, 1}), 99);
  }

  lemma BookedThenReported(x: Execution, r: u64)
    requires x.descriptor == SUM4 && x.lifecycle == L.Running && x.completions == {0, 1} && r > 1
    ensures var t := Applied(Applied(Lone(x, ONE_ACTIVE, 5), Booking(A.RankStarted)).0, Reporting(1, r)).0;
            1 in t.executions && t.executions[1] == x.(lifecycle := L.Succeeded, completions := {0, 1, r})
  {
  }

  /** With contributions counted, the members' reports alone take the collective to SUCCEEDED while
      the engine is still at work: it has neither outputs nor a measurement. */
  lemma SucceededWithoutOutputs(pf: E.Platform)
    ensures var s := Reach(pf, Opening(SUM4) + Engaging(SUM4)
                               + [Section(Booking(A.RankStarted)), Section(Booking(A.RankStarted))]
                               + [Section(Reporting(1, 0)), Section(Reporting(1, 1))]).rt;
            && 1 in s.executions && s.executions[1].lifecycle == L.Succeeded
            && s.executions[1].measurement.None? && s.executions[1].outputs == []
  {
    hide Step, Reach, Applied;
    var before := Opening(SUM4) + Engaging(SUM4);
    RunningReaches(pf, SUM4);
    TwoSections(pf, before, Booking(A.RankStarted), Booking(A.RankStarted));
    TwoCounted(Running(SUM4));
    TwoSections(pf, before + [Section(Booking(A.RankStarted)), Section(Booking(A.RankStarted))], Reporting(1, 0), Reporting(1, 1));
    TwoReported(Running(SUM4));
  }

  lemma TwoCounted(x: Execution)
    ensures var s := Lone(x, ONE_ACTIVE, 5);
            Applied(Applied(s, Booking(A.RankStarted)).0, Booking(A.RankStarted)).0
            == Lone(x, ONE_ACTIVE.(activeRanks := 2), 5)
  {
  }

  lemma TwoReported(x: Execution)
    requires x == Running(SUM4)
    ensures var s := Lone(x, ONE_ACTIVE.(activeRanks := 2), 5);
            var t := Applied(Applied(s, Reporting(1, 0)).0, Reporting(1, 1)).0;
            1 in t.executions && t.executions[1] == x.(lifecycle := L.Succeeded, completions := {0, 1})
  {
    hide Applied;
    FirstReported(x);
    SecondReported(x.(lifecycle := L.Completing, completions := {0}));
  }

  lemma SecondReported(x: Execution)
    requires x.descriptor == SUM4 && x.lifecycle == L.Completing && x.completions == {0}
    ensures var t := Applied(Lone(x, ONE_ACTIVE.(activeRanks := 1), 5), Reporting(1, 1)).0;
            1 in t.executions && t.executions[1] == x.(lifecycle := L.Succeeded, completions := {0, 1})
  {
    assert {0} + {1} == {0, 1};
  }

  lemma FirstReported(x: Execution)
    requires x == Running(SUM4)
    ensures Applied(Lone(x, ONE_ACTIVE.(activeRanks := 2), 5), Reporting(1, 0)).0
         == Lone(x.(lifecycle := L.Completing, completions := {0}), ONE_ACTIVE.(activeRanks := 1), 5)
  {
    assert PAIR.participants[1].rank == 1;
    var y, z := x.(completions := {} + {0}), x.(lifecycle := L.Completing, completions := {0});
    assert {} + {0} == {0};
    assert map[1 := x][1 := y][1 := z] == map[1 := z];
  }

  // ---------------------------------------------------------------- an all-gather

  /** A two-rank all-gather whose inputs the runtime accepts ends FAILED with no outputs. */
  lemma AllGatherFails(pf: E.Platform)
    ensures var run := Opening(GATHER4) + Engaging(GATHER4);
            && 0 in Reach(pf, run).calls && Reach(pf, run).calls[0].stage.Engaged?
            && var s := Reach(pf, run + [Conclude(0)]).rt;
            && 1 in s.executions && s.executions[1].lifecycle == L.Failed
            && s.executions[1].outputs == [] && s.executions[1].measurement.None?
  {
    hide Reach, Step;
    var run := Opening(GATHER4) + Engaging(GATHER4);
    RunningReaches(pf, GATHER4);
    ReachAfter(pf, run, [Conclude(0)]);
    AfterOne(pf, Reach(pf, run), Conclude(0));
    GatherConcludes(pf);
  }

  lemma GatherConcludes(pf: E.Platform)
    ensures var s := Step(pf, System(Lone(Running(GATHER4), ONE_ACTIVE, 5), map[0 := EngagedCall(GATHER4)]), Conclude(0)).rt;
            && 1 in s.executions && s.executions[1].lifecycle == L.Failed
            && s.executions[1].outputs == [] && s.executions[1].measurement.None?
  {
    hide EngineRun, InputsOk, E.Defined, CommitFailure;
    var s := Lone(Running(GATHER4), ONE_ACTIVE, 5);
    InputsAccepted(pf, GATHER4);
    assert Ready(EngagedCall(GATHER4)) && !Result(pf, EngagedCall(GATHER4)).Outputs?;
    FailureEffect(s, 1);
  }

  // ---------------------------------------------------------------- counters that do not drain

  /** A failed collective stays counted as active: everything is settled, yet the counter is not
      zero. */
  lemma FailedStaysCounted(pf: E.Platform, f: Failure)
    ensures var s := Reach(pf, Opening(SUM4) + [Section(Failing(1, f))]).rt;
            && s.executions.Keys == {1} && s.executions[1].lifecycle == L.Failed
            && s.accounting.active == 1
  {
    hide Step, Reach, Applied;
    RunAfter(pf, Opening(SUM4));
    OpeningReaches(pf, SUM4);
    OneSection(pf, Opening(SUM4), Failing(1, f));
    FailingFirst(Reach(pf, Opening(SUM4)).rt, f);
  }

  lemma FailingFirst(s: RtState, f: Failure)
    requires s == Lone(ExecutionAt(SUM4, PlanFor(SUM4), L.Dispatched, 4, 3), ONE_ACTIVE, 5)
    ensures var t := Applied(s, Failing(1, f)).0;
            && t.executions.Keys == {1} && t.executions[1].lifecycle == L.Failed
            && t.accounting.active == s.accounting.active
  {
  }

  function Second(l: L.State): Execution { Execution(SUM4, UNPLANNED, l, 6, 0, 0, {}, None, None, []) }

  function Both(x: Execution, y: Execution, c: A.Counters, next: nat): RtState {
    RtState(map[(1, 1) := PAIR], map[1 := x, 5 := y], map[], c, next)
  }

  const SECOND_ABORTED := [Section(Creating(SUM4)), Section(Aborting(5))]

  lemma AbortingSecond(x: Execution)
    ensures var s := Lone(x, ONE_ACTIVE, 5);
            Applied(Applied(s, Creating(SUM4)).0, Aborting(5)).0
            == Both(x, Second(L.Aborted), ONE_ACTIVE.(active := 0, aborted := 1), 7)
  {
    SixteenBytes(SUM4);
  }

  /** Aborting a collective that was never started uncounts another one: the counter is zero while
      the first is still dispatched. */
  lemma AbortUncountsAnother(pf: E.Platform)
    ensures Reach(pf, Opening(SUM4) + SECOND_ABORTED)
         == System(Both(ExecutionAt(SUM4, PlanFor(SUM4), L.Dispatched, 4, 3), Second(L.Aborted),
                        ONE_ACTIVE.(active := 0, aborted := 1), 7), map[])
  {
    hide Step, Reach, Applied;
    RunAfter(pf, Opening(SUM4));
    OpeningReaches(pf, SUM4);
    TwoSections(pf, Opening(SUM4), Creating(SUM4), Aborting(5));
    AbortingSecond(ExecutionAt(SUM4, PlanFor(SUM4), L.Dispatched, 4, 3));
  }

  /** After which the first one's execute_collective succeeds, stores everything, and throws. */
  lemma SuccessThrows(pf: E.Platform)
    ensures var run := Opening(SUM4) + SECOND_ABORTED + Engaging(SUM4);
            var sys, last := Reach(pf, run), Reach(pf, run + [Conclude(0)]).rt;
            && Commits(pf, sys, 0)
            && Commit(sys.rt, 1, 2, Result(pf, sys.calls[0]).bytes).1 == Thrown(Validation)
            && 1 in last.executions && last.executions[1].lifecycle == L.Succeeded
            && last.executions[1].measurement.Some? && last.executions[1].outputs == Result(pf, sys.calls[0]).bytes
  {
    hide Step, EngineRun, InputsOk, E.Defined, Commit;
    var run := Opening(SUM4) + SECOND_ABORTED;
    AbortUncountsAnother(pf);
    SixteenBytes(SUM4);
    InputsAccepted(pf, SUM4);
    FirstCallReady(pf);
    ReachAfter(pf, run, Engaging(SUM4));
    CallStarts(pf, Reach(pf, run), 0, 1, InputsFor(SUM4));
    var sys := Reach(pf, run + Engaging(SUM4));
    CommitAnswer(sys.rt, 1, 2, Result(pf, sys.calls[0]).bytes);
    ConcludeEffect(pf, run + Engaging(SUM4), 0);
  }

  // ---------------------------------------------------------------- one start closed twice

  const SECOND_RESERVED := [Section(Creating(SUM4)), Section(Planning(5, AnswerFor(SUM4), 1))] + [Section(Reserving(5))]

  const TWO_ACTIVE := A.Counters(2, 0, 32, 2, 0, 0, 0, map[3 := 16, 7 := 16])

  lemma SecondPlanned(x: Execution)
    ensures Applied(Applied(Lone(x, ONE_ACTIVE, 5), Creating(SUM4)).0, Planning(5, AnswerFor(SUM4), 1)).0
         == Both(x, Second(L.Planned).(plan := PlanFor(SUM4)), ONE_ACTIVE, 7)
  {
    SixteenBytes(SUM4);
  }

  lemma SecondReserved(x: Execution)
    ensures Applied(Both(x, Second(L.Planned).(plan := PlanFor(SUM4)), ONE_ACTIVE, 7), Reserving(5)).0
         == Both(x, Second(L.Reserved).(plan := PlanFor(SUM4), reservation := 7), TWO_ACTIVE, 8)
  {
    SixteenBytes(SUM4);
    assert map[3 := 16][7 := 16] == map[3 := 16, 7 := 16];
  }

  lemma TwoReserved(pf: E.Platform)
    ensures var y := Second(L.Reserved).(plan := PlanFor(SUM4), reservation := 7);
            Reach(pf, Opening(SUM4) + SECOND_RESERVED)
            == System(Both(ExecutionAt(SUM4, PlanFor(SUM4), L.Dispatched, 4, 3), y, TWO_ACTIVE, 8), map[])
  {
    hide Step, Reach, Applied;
    var run := Opening(SUM4);
    RunAfter(pf, run);
    OpeningReaches(pf, SUM4);
    TwoSections(pf, run, Creating(SUM4), Planning(5, AnswerFor(SUM4), 1));
    OneSection(pf, run + [Section(Creating(SUM4)), Section(Planning(5, AnswerFor(SUM4), 1))], Reserving(5));
    SecondPlanned(ExecutionAt(SUM4, PlanFor(SUM4), L.Dispatched, 4, 3));
    SecondReserved(ExecutionAt(SUM4, PlanFor(SUM4), L.Dispatched, 4, 3));
    assert run + SECOND_RESERVED == run + [Section(Creating(SUM4)), Section(Planning(5, AnswerFor(SUM4), 1))] + [Section(Reserving(5))];
  }

  lemma FirstAborted(pf: E.Platform)
    ensures var y := Second(L.Reserved).(plan := PlanFor(SUM4), reservation := 7);
            Reach(pf, Opening(SUM4) + SECOND_RESERVED + Engaging(SUM4) + [Section(Aborting(1))])
            == System(Both(Running(SUM4).(lifecycle := L.Aborted), y, TWO_ACTIVE.(active := 1, aborted := 1), 8),
                      map[0 := EngagedCall(SUM4)])
  {
    hide Step, Reach, Applied, Opening;
    FirstEngaged(pf);
    OneSection(pf, Opening(SUM4) + SECOND_RESERVED + Engaging(SUM4), Aborting(1));
    AbortingFirst();
  }

  lemma FirstEngaged(pf: E.Platform)
    ensures var y := Second(L.Reserved).(plan := PlanFor(SUM4), reservation := 7);
            Reach(pf, Opening(SUM4) + SECOND_RESERVED + Engaging(SUM4))
            == System(Both(Running(SUM4), y, TWO_ACTIVE, 8), map[0 := EngagedCall(SUM4)])
  {
    hide Step, Reach, After, Applied, InputsOk, Opening, Payload, ElementBytes, Fault;
    TwoReserved(pf);
    ReachAfter(pf, Opening(SUM4) + SECOND_RESERVED, Engaging(SUM4));
    FirstStarts(pf);
  }

  lemma FirstStarts(pf: E.Platform)
    ensures var y := Second(L.Reserved).(plan := PlanFor(SUM4), reservation := 7);
            var x := ExecutionAt(SUM4, PlanFor(SUM4), L.Dispatched, 4, 3);
            After(pf, System(Both(x, y, TWO_ACTIVE, 8), map[]), Engaging(SUM4))
            == System(Both(Running(SUM4), y, TWO_ACTIVE, 8), map[0 := EngagedCall(SUM4)])
  {
    hide Step, After, InputsOk, Payload, ElementBytes, Fault;
    var x, y := ExecutionAt(SUM4, PlanFor(SUM4), L.Dispatched, 4, 3), Second(L.Reserved).(plan := PlanFor(SUM4), reservation := 7);
    InputsAccepted(pf, SUM4);
    CallStarts(pf, System(Both(x, y, TWO_ACTIVE, 8), map[]), 0, 1, InputsFor(SUM4));
    FirstReplaced(x, Running(SUM4), y);
  }

  lemma FirstReplaced(x: Execution, z: Execution, y: Execution)
    ensures map[1 := x, 5 := y][1 := z] == map[1 := z, 5 := y]
  {
  }

  /** A collective aborted while the engine runs and then committed closes its one start twice: the
      counter is zero while the other collective is still reserved. */
  lemma AbortThenCommit(pf: E.Platform)
    ensures var run := Opening(SUM4) + SECOND_RESERVED + Engaging(SUM4) + [Section(Aborting(1))];
            var before, after := Reach(pf, run), Reach(pf, run + [Conclude(0)]).rt;
            && before.rt.accounting.active == 1 && CountsHeld(before.rt) && !Disciplined(pf, before, Conclude(0))
            && 5 in after.executions && after.executions[5].lifecycle == L.Reserved
            && 1 in after.executions && after.executions[1].lifecycle == L.Aborted && after.executions[1].measurement.Some?
            && after.accounting.active == 0
  {
    hide Step, Reach, EngineRun, InputsOk, E.Defined, Commit, Concluded, CountsHeld;
    var run := Opening(SUM4) + SECOND_RESERVED + Engaging(SUM4) + [Section(Aborting(1))];
    FirstAborted(pf);
    FirstCallReady(pf);
    ConcludeEffect(pf, run, 0);
    ReachAfter(pf, run, [Conclude(0)]);
    AfterOne(pf, Reach(pf, run), Conclude(0));
    ConcludeTwice(pf, Reach(pf, run));
  }

  lemma AbortingFirst()
    ensures var y := Second(L.Reserved).(plan := PlanFor(SUM4), reservation := 7);
            Applied(Both(Running(SUM4), y, TWO_ACTIVE, 8), Aborting(1)).0
            == Both(Running(SUM4).(lifecycle := L.Aborted), y, TWO_ACTIVE.(active := 1, aborted := 1), 8)
  {
  }

  lemma ConcludeTwice(pf: E.Platform, sys: System)
    requires var y := Second(L.Reserved).(plan := PlanFor(SUM4), reservation := 7);
             sys == System(Both(Running(SUM4).(lifecycle := L.Aborted), y, TWO_ACTIVE.(active := 1, aborted := 1), 8),
                           map[0 := EngagedCall(SUM4)])
    ensures Commits(pf, sys, 0) && CountsHeld(sys.rt)
    ensures var t := Step(pf, sys, Conclude(0)).rt;
            && 5 in t.executions && t.executions[5].lifecycle == L.Reserved && t.accounting.active == 0
  {
    hide EngineRun, InputsOk, E.Defined, Commit, Ranks;
    FirstCallReady(pf);
    SixteenBytes(SUM4);
    CommitBooks(sys.rt, 1, 2, Result(pf, EngagedCall(SUM4)).bytes);
    CommitElsewhere(sys.rt, 1, 2, Result(pf, EngagedCall(SUM4)).bytes, 5);
    assert HeldSet(sys.rt) == {5};
  }

  lemma CommitElsewhere(s: RtState, e: nat, n: u64, outputs: seq<seq<byte>>, k: nat)
    requires e in s.executions && k in s.executions && k != e
    ensures var t := Commit(s, e, n, outputs).0;
            k in t.executions && t.executions[k] == s.executions[k]
  {
    hide Ranks, ElementBytes;
    StoredElsewhere(s, e, n, outputs);
  }
}
