/** What single calls of the runtime achieve, exactly, in any reachable state. */
module RuntimeLaws {
  import opened Bytes
  import opened Foundation
  import opened Group
  import opened Runtime
  import opened RuntimeRuns
  import L = Lifecycle
  import A = Accounting
  import E = ReferenceEngine
  import P = Planner

  /** A reduction kind names its operation; a barrier and a broadcast name none. */
  predicate ReductionFits(d: Descriptor) {
    && (d.kind == Reduce || d.kind == AllReduce || d.kind == ReduceScatter ==> d.reduction != NoReduction)
    && (d.kind == Barrier || d.kind == Broadcast ==> d.reduction == NoReduction)
  }

  /** Exactly the descriptors that pass validation, and the error of those that do not. */
  lemma ValidExactly(d: Descriptor)
    ensures Fault(d).None? <==>
            && ReductionFits(d)
            && (d.kind != Barrier ==> 0 < Mul(d.elements, Width(d.element)) < U64_LIMIT)
            && (d.kind == Broadcast || d.kind == Reduce ==> d.hasRoot)
    ensures Fault(d) == Some(ArithmeticOverflow) <==>
            ReductionFits(d) && d.kind != Barrier && Mul(d.elements, Width(d.element)) >= U64_LIMIT
    ensures Fault(d).Some? ==> Fault(d) == Some(Validation) || Fault(d) == Some(ArithmeticOverflow)
  {
    if d.elements == 0 {
      assert Payload(d) == 0;
    } else {
      assert Payload(d) == d.elements * Width(d.element) > 0;
    }
  }

  // ---------------------------------------------------------------- which executions can succeed

  /** What the engine asks for beyond the runtime's own input checks. */
  predicate Completes(d: Descriptor, n: u64, inputs: seq<seq<byte>>)
    requires InputsOk(d, n, inputs)
  {
    var per := ElementBytes(d).value;
    && Mul(per, n) < U64_LIMIT
    && match d.kind
       case Barrier => true
       case Broadcast => d.root < |inputs| && |inputs[d.root]| == per
       case Reduce => d.element != Byte
       case AllReduce => d.element != Byte
       case AllGather => n <= 1
       case ReduceScatter => d.element != Byte || n == 0
  }

  lemma PayloadPositive(d: Descriptor)
    requires Fault(d).None? && d.kind != Barrier
    ensures ElementBytes(d).Some? && ElementBytes(d).value > 0
  {
    hide Fault;
    ValidExactly(d);
  }

  lemma AggregateDiffers(per: nat, n: nat)
    requires per > 0
    ensures Mul(per, n) == per <==> n == 1
  {
    if n == 0 {
      assert per * n == 0;
    } else if n > 1 {
      assert per * n == per + per * (n - 1);
      assert per * (n - 1) > 0;
    }
  }

  /** Inputs that pass the runtime's checks are accepted by the engine exactly under Completes. */
  lemma AcceptedCompletes(pf: E.Platform, d: Descriptor, n: u64, inputs: seq<seq<byte>>)
    requires Fault(d).None? && InputsOk(d, n, inputs) && E.Defined(d.kind, Payload(d), d.root, n, inputs)
    ensures EngineRun(pf, d, n, inputs).Outputs? <==> Completes(d, n, inputs)
  {
    hide E.Reduced, E.Scattered, E.Concat, Mul;
    if d.kind == AllGather {
      GatherCompletes(pf, d, n, inputs);
    }
  }

  lemma GatherCompletes(pf: E.Platform, d: Descriptor, n: u64, inputs: seq<seq<byte>>)
    requires Fault(d).None? && InputsOk(d, n, inputs) && E.Defined(d.kind, Payload(d), d.root, n, inputs)
    requires d.kind == AllGather
    ensures EngineRun(pf, d, n, inputs).Outputs? <==> Completes(d, n, inputs)
  {
    hide E.Reduced, E.Scattered, E.Concat, Mul;
    PayloadPositive(d);
    AggregateDiffers(ElementBytes(d).value, n);
    if n > 1 {
      assert |inputs[..n][0]| == PerRankBytes(d, n).value;
    }
  }

  /** An all-gather over two or more ranks never commits: the runtime asks every rank for an
      aggregate-sized input and the engine then refuses it. */
  lemma AllGatherNeverCommits(pf: E.Platform, run: seq<Action>, e: nat)
    requires var s := Reach(pf, run).rt;
             && e in s.executions && s.executions[e].descriptor.kind == AllGather
             && FoundGroup(s, s.executions[e].descriptor).Some?
             && |FoundGroup(s, s.executions[e].descriptor).value.participants| >= 2
    ensures var x := Reach(pf, run).rt.executions[e]; x.measurement.None? && x.outputs == []
  {
    hide Step, EngineRun, InputsOk, CallOk;
    var s := Reach(pf, run).rt;
    ReachKeeps(pf, run);
    assert ExecutionOk(s, e);
    if s.executions[e].measurement.Some? {
      var c := OutputsAreTheEngines(pf, run, e);
      var call := Reach(pf, run).calls[c];
      AcceptedCompletes(pf, call.stage.d, call.stage.n, call.inputs);
      assert false;
    }
  }

  /** What the runtime asks of a call's inputs: one for every rank, each of one rank's payload, or of
      n times that for an all-gather and a reduce-scatter, and the size has to fit in 64 bits. */
  lemma InputsOkExactly(d: Descriptor, n: u64, inputs: seq<seq<byte>>)
    ensures InputsOk(d, n, inputs) <==>
            var per := Mul(d.elements, Width(d.element));
            var want := if d.kind == AllGather || d.kind == ReduceScatter then Mul(per, n) else per;
            && n <= |inputs| && per < U64_LIMIT && want < U64_LIMIT
            && forall r :: 0 <= r < n ==> |inputs[r]| == want
  {
    if n <= |inputs| {
      assert forall r :: 0 <= r < n ==> inputs[..n][r] == inputs[r];
    }
  }

  /** The calls that succeed, kind by kind: the sizes that make both the runtime and the engine
      content. */
  predicate Succeeds(d: Descriptor, n: u64, inputs: seq<seq<byte>>) {
    var per := Mul(d.elements, Width(d.element));
    && n <= |inputs| && per < U64_LIMIT && Mul(per, n) < U64_LIMIT
    && match d.kind
       case Barrier => forall r :: 0 <= r < n ==> |inputs[r]| == per
       case Broadcast => (forall r :: 0 <= r < n ==> |inputs[r]| == per) && d.root < |inputs| && |inputs[d.root]| == per
       case Reduce | AllReduce => (forall r :: 0 <= r < n ==> |inputs[r]| == per) && d.element != Byte
       case AllGather => n == 0 || (n == 1 && |inputs[0]| == per)
       case ReduceScatter => n == 0 || ((forall r :: 0 <= r < n ==> |inputs[r]| == Mul(per, n)) && d.element != Byte)
  }

  lemma SucceedsExactly(d: Descriptor, n: u64, inputs: seq<seq<byte>>)
    ensures Succeeds(d, n, inputs) <==> InputsOk(d, n, inputs) && Completes(d, n, inputs)
  {
    hide InputsOk, Mul;
    InputsOkExactly(d, n, inputs);
    TimesOne(Mul(d.elements, Width(d.element)));
  }

  lemma TimesOne(per: nat)
    ensures Mul(per, 0) == 0 && Mul(per, 1) == per
  {
  }

  /** Called alone on a dispatched collective, execute_collective succeeds exactly for these inputs,
      and otherwise fails it; a success stores the engine's outputs, and the call itself returns
      exactly when some collective was counted active. */
  lemma ExecuteSucceedsIff(pf: E.Platform, s: RtState, e: nat, inputs: seq<seq<byte>>)
    requires GroupsOk(s) && ExecutionsOk(s) && EngineReady(s, e, inputs)
    requires e in s.executions && s.executions[e].lifecycle == L.Dispatched
    ensures var d := s.executions[e].descriptor;
            var n := |s.groups[GroupKey(d)].participants|;
            var (t, o) := ExecuteCollective(pf, s, e, inputs);
            if n < U64_LIMIT && Succeeds(d, n, inputs) then
              && E.Defined(d.kind, Payload(d), d.root, n, inputs)
              && e in t.executions && t.executions[e].lifecycle == L.Succeeded
              && EngineRun(pf, d, n, inputs) == E.Outputs(t.executions[e].outputs)
              && o == (if s.accounting.active > 0 then Done(s.nextId) else Thrown(Validation))
            else
              && e in t.executions && t.executions[e].lifecycle == L.Failed && t.executions[e].failure == Some(ExecutionFailure(d))
              && t.executions[e].outputs == s.executions[e].outputs
  {
    hide EngineRun, InputsOk, Completes, Succeeds, E.Defined, Ranks;
    assert ExecutionOk(s, e);
    var d := s.executions[e].descriptor;
    var g := s.groups[GroupKey(d)];
    var n := |g.participants|;
    assert Constructible(g);
    SucceedsExactly(d, n, inputs);
    if InputsOk(d, n, inputs) {
      AcceptedCompletes(pf, d, n, inputs);
      var t := Move(s, e, L.Running).0;
      if EngineRun(pf, d, n, inputs).Outputs? {
        InputsOkBytes(d, n, inputs);
        CommitEffect(t, e, n, EngineRun(pf, d, n, inputs).bytes);
        CommitAnswer(t, e, n, EngineRun(pf, d, n, inputs).bytes);
      } else {
        FailureEffect(t, e);
      }
    } else {
      FailureEffect(s, e);
    }
  }

  lemma CommitAnswer(s: RtState, e: nat, n: u64, outputs: seq<seq<byte>>)
    requires e in s.executions && ElementBytes(s.executions[e].descriptor).Some?
    ensures Commit(s, e, n, outputs).1 ==
            if s.accounting.active > 0 then Done(s.nextId) else Thrown(Validation)
  {
    hide Ranks;
    StoredElsewhere(s, e, n, outputs);
    assert Stored(s, e, n, outputs).executions[e].descriptor == s.executions[e].descriptor;
  }

  lemma FailureEffect(s: RtState, e: nat)
    requires e in s.executions
    ensures var t, x := CommitFailure(s, e).0, s.executions[e];
            t.executions == s.executions[e := x.(failure := Some(ExecutionFailure(x.descriptor)),
              lifecycle := if L.Allowed(x.lifecycle, L.Failed) then L.Failed else x.lifecycle)]
  {
  }

  // ---------------------------------------------------------------- commits that come late

  /** Whatever happened meanwhile, a returning engine's outputs are stored and measured as a
      success; the lifecycle moves to SUCCEEDED exactly from RUNNING or COMPLETING. */
  lemma ConcludeEffect(pf: E.Platform, run: seq<Action>, c: nat)
    requires var sys := Reach(pf, run);
             c in sys.calls && sys.calls[c].stage.Engaged? && Ready(sys.calls[c]) && Result(pf, sys.calls[c]).Outputs?
    ensures var sys := Reach(pf, run);
            var call, t := sys.calls[c], Reach(pf, run + [Conclude(c)]).rt;
            && call.e in sys.rt.executions && call.e in t.executions
            && var x, y := sys.rt.executions[call.e], t.executions[call.e];
            && x.measurement.None? && y.measurement == Some(sys.rt.nextId)
            && y.outputs == Result(pf, call).bytes
            && sys.rt.nextId in t.measurements && t.measurements[sys.rt.nextId].success
            && y.lifecycle == (if x.lifecycle == L.Running || x.lifecycle == L.Completing then L.Succeeded else x.lifecycle)
  {
    hide EngineRun, E.Defined, InputsOk, Commit, Ranks, ElementBytes, Quorate, Inv, CallOk;
    var sys := Reach(pf, run);
    var call := sys.calls[c];
    ReachKeeps(pf, run);
    EngagedFacts(pf, sys, c);
    EngagedUncommitted(pf, sys, c);
    InvParts(pf, sys);
    CommitEffect(sys.rt, call.e, call.stage.n, Result(pf, call).bytes);
    assert (run + [Conclude(c)])[..|run|] == run;
  }

  lemma EngagedUncommitted(pf: E.Platform, sys: System, c: nat)
    requires Inv(pf, sys) && c in sys.calls && sys.calls[c].stage.Engaged?
    ensures sys.calls[c].e in sys.rt.executions && sys.rt.executions[sys.calls[c].e].measurement.None?
  {
    hide EngineRun, E.Defined, InputsOk;
    assert CallOk(pf, sys.rt, sys.calls[c]);
  }

  /** A second call on a running execution is refused and its refusal fails the execution under the
      first call, whose outputs and success measurement are stored all the same. */
  lemma RivalFailsTheRun(pf: E.Platform, run: seq<Action>, b: nat, c: nat)
    requires var sys := Reach(pf, run);
             && b in sys.calls && c in sys.calls && sys.calls[b].e == sys.calls[c].e
             && sys.calls[b].stage.Engaged? && Ready(sys.calls[b]) && Result(pf, sys.calls[b]).Outputs?
             && sys.calls[c].stage.Grouped?
             && sys.calls[b].e in sys.rt.executions && sys.rt.executions[sys.calls[b].e].lifecycle == L.Running
    ensures var sys, last := Reach(pf, run), Reach(pf, run + [Start(c)] + [Conclude(c)] + [Conclude(b)]).rt;
            var e := sys.calls[b].e;
            && e in last.executions && last.executions[e].lifecycle == L.Failed && last.executions[e].failure.Some?
            && last.executions[e].outputs == Result(pf, sys.calls[b]).bytes
            && last.executions[e].measurement.Some?
            && last.executions[e].measurement.value in last.measurements
            && last.measurements[last.executions[e].measurement.value].success
  {
    hide Reach, Step, Result, Ready, CommitFailure;
    var sys := Reach(pf, run);
    var e := sys.calls[b].e;
    var run1 := run + [Start(c)];
    var run2 := run1 + [Conclude(c)];
    OneMore(pf, run, Start(c));
    OneMore(pf, run1, Conclude(c));
    RivalRefused(pf, sys, b, c);
    FailureEffect(sys.rt, e);
    ConcludeEffect(pf, run2, b);
    RunForward(pf, run2 + [Conclude(b)], |run2|);
    assert (run2 + [Conclude(b)])[..|run2|] == run2;
  }

  lemma OneMore(pf: E.Platform, run: seq<Action>, a: Action)
    ensures Reach(pf, run + [a]) == Step(pf, Reach(pf, run), a)
  {
    hide Step;
    assert (run + [a])[..|run|] == run;
  }

  /** The rival is turned away at its move to RUNNING and then records its failure. */
  lemma RivalRefused(pf: E.Platform, sys: System, b: nat, c: nat)
    requires b in sys.calls && c in sys.calls && sys.calls[b].e == sys.calls[c].e
    requires sys.calls[b].stage.Engaged? && sys.calls[c].stage.Grouped?
    requires sys.calls[b].e in sys.rt.executions && sys.rt.executions[sys.calls[b].e].lifecycle == L.Running
    ensures var next := Step(pf, Step(pf, sys, Start(c)), Conclude(c));
            && next.rt == CommitFailure(sys.rt, sys.calls[b].e).0
            && b in next.calls && next.calls[b] == sys.calls[b]
  {
    hide InputsOk, CommitFailure;
    assert Step(pf, sys, Start(c)) == At(sys, c, Doomed);
  }

  // ---------------------------------------------------------------- rank reports

  /** A report answers Conflict exactly for a rank already recorded.  Otherwise the rank is recorded
      in any case; but only when a contribution was counted active does the report also drive the
      lifecycle, to SUCCEEDED exactly when it completes the quorum of a running or completing
      execution. */
  lemma ReportEffect(s: RtState, e: nat, r: u64)
    requires e in s.executions && GroupKey(s.executions[e].descriptor) in s.groups
    ensures var (t, o) := CompleteRank(s, e, r);
            var x := s.executions[e];
            && e in t.executions
            && t.executions[e] == x.(lifecycle := t.executions[e].lifecycle, completions := x.completions + {r})
            && (o == Done(0) || o == Thrown(Conflict) || o == Thrown(Validation))
            && (o == Thrown(Conflict) <==> r in x.completions)
            && (o == Thrown(Validation) <==> r !in x.completions && s.accounting.activeRanks == 0)
            && t.executions[e].lifecycle ==
               if o.Thrown? || (x.lifecycle != L.Running && x.lifecycle != L.Completing) then x.lifecycle
               else if Quorate(s, t.executions[e]) then L.Succeeded
               else L.Completing
  {
  }

  // ---------------------------------------------------------------- what leads to SUCCEEDED

  predicate Commits(pf: E.Platform, sys: System, c: nat) {
    && c in sys.calls && sys.calls[c].stage.Engaged? && Ready(sys.calls[c])
    && Result(pf, sys.calls[c]).Outputs?
  }

  predicate Underway(l: L.State) { l == L.Running || l == L.Completing }

  predicate CommitSettles(pf: E.Platform, sys: System, a: Action, e: nat)
    requires e in sys.rt.executions
  {
    a.Conclude? && Commits(pf, sys, a.c) && sys.calls[a.c].e == e && Underway(sys.rt.executions[e].lifecycle)
  }

  /** Nothing here asks whether r is the rank of a member. */
  predicate ReportSettles(s: RtState, a: Action, e: nat)
    requires e in s.executions
  {
    var x := s.executions[e];
    && a.Section? && a.op.Reporting? && a.op.e == e
    && a.op.r !in x.completions && s.accounting.activeRanks > 0 && Underway(x.lifecycle)
    && Quorate(s, x.(completions := x.completions + {a.op.r}))
  }

  /** In a reachable state exactly two kinds of step take an execution to SUCCEEDED: the commit of
      its engaged call, and a report, by any rank at all, after which the members' ranks are all
      recorded. */
  lemma SucceedsBy(pf: E.Platform, run: seq<Action>, a: Action, e: nat)
    requires e in Reach(pf, run).rt.executions && Reach(pf, run).rt.executions[e].lifecycle != L.Succeeded
    ensures var sys := Reach(pf, run);
            var t := Step(pf, sys, a).rt;
            && e in t.executions
            && (t.executions[e].lifecycle == L.Succeeded <==>
                  CommitSettles(pf, sys, a, e) || ReportSettles(sys.rt, a, e))
  {
    hide Step, Inv, CommitSettles, ReportSettles;
    ReachKeeps(pf, run);
    StepKeeps(pf, Reach(pf, run), a);
    StepSucceeds(pf, Reach(pf, run), a, e);
  }

  lemma StepSucceeds(pf: E.Platform, sys: System, a: Action, e: nat)
    requires Inv(pf, sys) && e in sys.rt.executions && sys.rt.executions[e].lifecycle != L.Succeeded
    ensures var t := Step(pf, sys, a).rt;
            e in t.executions ==>
              (t.executions[e].lifecycle == L.Succeeded <==>
                 CommitSettles(pf, sys, a, e) || ReportSettles(sys.rt, a, e))
  {
    hide Applied, Started, Concluded, Commits, ReportSettles, CommitSettles, Inv;
    match a
    case Section(op) => SectionSucceeds(pf, sys, op, e);
    case Invoke(c, k, inputs) => NoReport(pf, sys, a, e);
    case LookUp(c) => NoReport(pf, sys, a, e);
    case Start(c) =>
      NoReport(pf, sys, a, e);
      if c in sys.calls && sys.calls[c].stage.Grouped? {
        StartNeverSucceeds(sys, c, e);
      }
    case Conclude(c) =>
      if Commits(pf, sys, c) {
        CommitSucceeds(pf, sys, c, e);
        CommitsCalled(pf, sys, c);
      } else {
        NoReport(pf, sys, a, e);
        if c in sys.calls {
          FailureNeverSucceeds(pf, sys, c, e);
        }
      }
  }

  lemma CommitsCalled(pf: E.Platform, sys: System, c: nat)
    requires Commits(pf, sys, c)
    ensures c in sys.calls
  {
  }

  lemma StartNeverSucceeds(sys: System, c: nat, e: nat)
    requires c in sys.calls && sys.calls[c].stage.Grouped?
    requires e in sys.rt.executions && sys.rt.executions[e].lifecycle != L.Succeeded
    ensures var t := Started(sys, c).rt; e in t.executions && t.executions[e].lifecycle != L.Succeeded
  {
    hide InputsOk;
  }

  lemma FailureNeverSucceeds(pf: E.Platform, sys: System, c: nat, e: nat)
    requires c in sys.calls && !Commits(pf, sys, c)
    requires e in sys.rt.executions && sys.rt.executions[e].lifecycle != L.Succeeded
    ensures var t := Concluded(pf, sys, c).rt; e in t.executions && t.executions[e].lifecycle != L.Succeeded
  {
    hide EngineRun, E.Defined, CommitFailure, Commit;
    if sys.calls[c].e in sys.rt.executions {
      FailureEffect(sys.rt, sys.calls[c].e);
    } else {
      NoFailure(sys.rt, sys.calls[c].e);
    }
  }

  lemma NoFailure(s: RtState, e: nat)
    requires e !in s.executions
    ensures CommitFailure(s, e).0 == s
  {
  }

  /** Only a report settles by a report, and only a commit by a commit. */
  lemma NoReport(pf: E.Platform, sys: System, a: Action, e: nat)
    requires e in sys.rt.executions
    ensures ReportSettles(sys.rt, a, e) ==> a.Section? && a.op.Reporting?
    ensures CommitSettles(pf, sys, a, e) ==> a.Conclude? && Commits(pf, sys, a.c)
  {
    hide EngineRun, E.Defined;
  }

  lemma SectionSucceeds(pf: E.Platform, sys: System, op: Op, e: nat)
    requires Inv(pf, sys) && e in sys.rt.executions && sys.rt.executions[e].lifecycle != L.Succeeded
    ensures var t := Applied(sys.rt, op).0;
            e in t.executions ==>
              (t.executions[e].lifecycle == L.Succeeded <==>
                 CommitSettles(pf, sys, Section(op), e) || ReportSettles(sys.rt, Section(op), e))
  {
    hide CompleteRank, Applied, CallsOk, OneEntered, OutputsOwned;
    assert ExecutionOk(sys.rt, e);
    if op.Reporting? && op.e == e {
      ReportEffect(sys.rt, e, op.r);
      ReportApplied(sys.rt, e, op.r);
    } else {
      OtherSectionNeverSucceeds(sys.rt, op, e);
    }
  }

  lemma ReportApplied(s: RtState, e: nat, r: u64)
    ensures Applied(s, Reporting(e, r)) == CompleteRank(s, e, r)
  {
    hide CompleteRank;
  }

  lemma OtherSectionNeverSucceeds(s: RtState, op: Op, e: nat)
    requires ExecutionsOk(s) && e in s.executions && s.executions[e].lifecycle != L.Succeeded
    requires !(op.Reporting? && op.e == e)
    ensures var t := Applied(s, op).0; e in t.executions && t.executions[e].lifecycle != L.Succeeded
  {
    hide A.Record, ElementBytes, Fault, ExecutionOk, Move, Reserve, CompleteRank, Fail, FailureBytes;
    match op
    case Creating(d) => NextIdIsNew(s, e);
    case Planning(k, answer, backend) => MoveNeverSucceeds(s, k, L.Planned, e);
    case Reserving(k) => ReserveNeverSucceeds(s, k, e);
    case Dispatching(k) => MoveNeverSucceeds(s, k, L.Dispatched, e);
    case Reporting(k, r) =>
      if k in s.executions && r !in s.executions[k].completions {
        ReportShape(s, k, r);
      } else {
        NoReportEffect(s, k, r);
      }
    case Failing(k, f) => FailNeverSucceeds(s, k, f, e);
    case Aborting(k) => MoveNeverSucceeds(s, k, L.Aborted, e);
    case Cancelling(k) => MoveNeverSucceeds(s, k, L.Cancelled, e);
    case Retiring(k) => MoveNeverSucceeds(s, k, L.Stale, e);
    case _ =>
  }

  lemma MoveNeverSucceeds(s: RtState, k: nat, to: L.State, e: nat)
    requires e in s.executions && s.executions[e].lifecycle != L.Succeeded && to != L.Succeeded
    ensures var (t, o) := Move(s, k, to);
            && e in t.executions && t.executions[e].lifecycle != L.Succeeded
            && (o.Done? ==> k in t.executions) && t.groups == s.groups
  {
  }

  lemma FailNeverSucceeds(s: RtState, k: nat, f: Failure, e: nat)
    requires e in s.executions && s.executions[e].lifecycle != L.Succeeded
    ensures var t := Fail(s, k, f).0; e in t.executions && t.executions[e].lifecycle != L.Succeeded
  {
    hide ElementBytes, A.Record;
  }

  lemma ReserveNeverSucceeds(s: RtState, k: nat, e: nat)
    requires e in s.executions && s.executions[e].lifecycle != L.Succeeded
    ensures var t := Reserve(s, k).0; e in t.executions && t.executions[e].lifecycle != L.Succeeded
  {
    hide A.Record, ElementBytes;
  }

  lemma NextIdIsNew(s: RtState, e: nat)
    requires ExecutionsOk(s) && e in s.executions
    ensures e < s.nextId
  {
    assert ExecutionOk(s, e);
  }

  lemma CommitSucceeds(pf: E.Platform, sys: System, c: nat, e: nat)
    requires Inv(pf, sys) && Commits(pf, sys, c) && e in sys.rt.executions
    requires sys.rt.executions[e].lifecycle != L.Succeeded
    ensures var t := Concluded(pf, sys, c).rt;
            e in t.executions ==>
              (t.executions[e].lifecycle == L.Succeeded <==>
                 CommitSettles(pf, sys, Conclude(c), e) || ReportSettles(sys.rt, Conclude(c), e))
  {
    hide EngineRun, E.Defined, InputsOk, Commit, Ranks, ElementBytes, Quorate, CallsOk, CallOk, OneEntered, OutputsOwned;
    var call := sys.calls[c];
    EngagedFacts(pf, sys, c);
    CommitEffect(sys.rt, call.e, call.stage.n, Result(pf, call).bytes);
  }

  /** A full quorum is kept by every continuation of the run. */
  lemma QuorumStays(pf: E.Platform, run: seq<Action>, i: nat, e: nat)
    requires i <= |run| && e in Reach(pf, run[..i]).rt.executions
    requires Quorate(Reach(pf, run[..i]).rt, Reach(pf, run[..i]).rt.executions[e])
    ensures e in Reach(pf, run).rt.executions && Quorate(Reach(pf, run).rt, Reach(pf, run).rt.executions[e])
    ensures FoundGroup(Reach(pf, run).rt, Reach(pf, run).rt.executions[e].descriptor)
         == FoundGroup(Reach(pf, run[..i]).rt, Reach(pf, run[..i]).rt.executions[e].descriptor)
  {
    hide Step, Inv;
    CommittedForGood(pf, run, i, e);
  }

  /** Reports lost to the accounting stay lost: from the moment every member's rank is recorded,
      a member's report answers Conflict and changes nothing, in every continuation of the run; and
      an execution that has not succeeded by then does so only by a commit or by the report of a
      rank that belongs to no member. */
  lemma LostReportsStayLost(pf: E.Platform, run: seq<Action>, i: nat, e: nat, r: u64, a: Action)
    requires i <= |run| && e in Reach(pf, run[..i]).rt.executions
    requires Quorate(Reach(pf, run[..i]).rt, Reach(pf, run[..i]).rt.executions[e])
    ensures var s := Reach(pf, run).rt;
            && e in s.executions && GroupKey(s.executions[e].descriptor) in s.groups
            && var n := |s.groups[GroupKey(s.executions[e].descriptor)].participants|;
            && (r < n ==> CompleteRank(s, e, r) == (s, Thrown(Conflict)))
            && (s.executions[e].lifecycle != L.Succeeded ==>
                  var t := Step(pf, Reach(pf, run), a).rt;
                  && e in t.executions
                  && (t.executions[e].lifecycle == L.Succeeded ==>
                        CommitSettles(pf, Reach(pf, run), a, e)
                        || (a.Section? && a.op.Reporting? && a.op.e == e && a.op.r >= n)))
  {
    hide Step, Inv, CommitSettles;
    QuorumStays(pf, run, i, e);
    ReachKeeps(pf, run);
    var sys := Reach(pf, run);
    if r < |sys.rt.groups[GroupKey(sys.rt.executions[e].descriptor)].participants| {
      MembersRecorded(pf, sys, e, r);
    }
    if sys.rt.executions[e].lifecycle != L.Succeeded {
      SucceedsBy(pf, run, a, e);
      if ReportSettles(sys.rt, a, e) && a.op.r < |sys.rt.groups[GroupKey(sys.rt.executions[e].descriptor)].participants| {
        MembersRecorded(pf, sys, e, a.op.r);
      }
    }
  }

  /** And the report of any such rank does settle it, once a contribution is counted active. */
  lemma ForeignReportSettles(s: RtState, e: nat, r: u64)
    requires e in s.executions && Underway(s.executions[e].lifecycle) && Quorate(s, s.executions[e])
    requires r !in s.executions[e].completions && s.accounting.activeRanks > 0
    ensures CompleteRank(s, e, r).1 == Done(0)
    ensures e in CompleteRank(s, e, r).0.executions && CompleteRank(s, e, r).0.executions[e].lifecycle == L.Succeeded
  {
    hide CompleteRank;
    ReportEffect(s, e, r);
    assert ReportSettles(s, Section(Reporting(e, r)), e);
  }

  lemma MembersRecorded(pf: E.Platform, sys: System, e: nat, r: u64)
    requires Inv(pf, sys) && e in sys.rt.executions
    requires var x := sys.rt.executions[e];
             Quorate(sys.rt, x) && r < |sys.rt.groups[GroupKey(x.descriptor)].participants|
    ensures r in sys.rt.executions[e].completions
  {
    hide CallsOk, OneEntered, OutputsOwned;
    var g := sys.rt.groups[GroupKey(sys.rt.executions[e].descriptor)];
    assert Constructible(g);
    assert g.participants[r].rank == r;
  }

  predicate Records(s: RtState, a: Action, e: nat, r: u64) {
    a == Section(Reporting(e, r)) && e in s.executions && CompleteRank(s, e, r).1 != Thrown(Conflict)
  }

  /** How many reports of the rank the run recorded. */
  ghost function Recorded(pf: E.Platform, run: seq<Action>, e: nat, r: u64): nat {
    if run == [] then 0
    else
      var front, last := run[..|run| - 1], run[|run| - 1];
      Recorded(pf, front, e, r) + (if Records(Reach(pf, front).rt, last, e, r) then 1 else 0)
  }

  predicate HasRank(s: RtState, e: nat, r: u64) { e in s.executions && r in s.executions[e].completions }

  /** Only a recorded report or a commit adds a rank. */
  lemma StepAddsRank(pf: E.Platform, sys: System, a: Action, e: nat, r: u64)
    requires Inv(pf, sys) && HasRank(Step(pf, sys, a).rt, e, r) && !HasRank(sys.rt, e, r)
    ensures Records(sys.rt, a, e, r) || Step(pf, sys, a).rt.executions[e].measurement.Some?
  {
    hide InputsOk, E.Defined, EngineRun, CallsOk, OneEntered, OutputsOwned, ExecutionOk;
    match a
    case Section(op) => SectionAddsRank(sys.rt, op, e, r);
    case Invoke(c, k, inputs) =>
    case LookUp(c) =>
    case Start(c) =>
    case Conclude(c) =>
      if c in sys.calls && sys.calls[c].stage.Engaged? && Ready(sys.calls[c]) && Result(pf, sys.calls[c]).Outputs? {
        ConcludeAddsRank(pf, sys, c, e, r);
      }
  }

  lemma SectionAddsRank(s: RtState, op: Op, e: nat, r: u64)
    requires HasRank(Applied(s, op).0, e, r) && !HasRank(s, e, r)
    ensures Records(s, Section(op), e, r)
  {
    hide ElementBytes, A.Record, Fault, L.Allowed;
    match op
    case Reporting(k, q) => ReportAddsRank(s, k, q, e, r);
    case Reserving(k) => ReserveAddsNoRank(s, k, e, r);
    case _ =>
  }

  lemma ReserveAddsNoRank(s: RtState, k: nat, e: nat, r: u64)
    ensures HasRank(Reserve(s, k).0, e, r) ==> HasRank(s, e, r)
  {
    hide ElementBytes, A.Record, L.Allowed;
  }

  lemma ReportAddsRank(s: RtState, k: nat, q: u64, e: nat, r: u64)
    requires HasRank(CompleteRank(s, k, q).0, e, r) && !HasRank(s, e, r)
    ensures Records(s, Section(Reporting(k, q)), e, r) && k == e && q == r
  {
    hide A.Record, L.Allowed, AllReported;
  }

  lemma ConcludeAddsRank(pf: E.Platform, sys: System, c: nat, e: nat, r: u64)
    requires Inv(pf, sys) && c in sys.calls && sys.calls[c].stage.Engaged? && Ready(sys.calls[c])
    requires Result(pf, sys.calls[c]).Outputs?
    requires HasRank(Concluded(pf, sys, c).rt, e, r) && !HasRank(sys.rt, e, r)
    ensures Concluded(pf, sys, c).rt.executions[e].measurement.Some?
  {
    hide EngineRun, E.Defined, InputsOk, Commit, Ranks, ElementBytes, Quorate;
    var call := sys.calls[c];
    assert CallOk(pf, sys.rt, call);
    InputsOkBytes(call.stage.d, call.stage.n, call.inputs);
    CommitEffect(sys.rt, call.e, call.stage.n, Result(pf, call).bytes);
  }

  /** A rank's completion is recorded by at most one report, however many race; and every recorded
      completion of an execution without a commit comes from such a report. */
  lemma {:induction false} CompletionsHaveOneCause(pf: E.Platform, run: seq<Action>, e: nat, r: u64)
    ensures Recorded(pf, run, e, r) <= 1
    ensures Recorded(pf, run, e, r) == 1 ==> HasRank(Reach(pf, run).rt, e, r)
    ensures HasRank(Reach(pf, run).rt, e, r) ==>
              Recorded(pf, run, e, r) == 1 || Reach(pf, run).rt.executions[e].measurement.Some?
  {
    hide Step, Inv, Records, Forward;
    if run != [] {
      var front, last := run[..|run| - 1], run[|run| - 1];
      CompletionsHaveOneCause(pf, front, e, r);
      ReachKeeps(pf, front);
      StepForward(pf, run);
      RankKept(Reach(pf, front).rt, Reach(pf, run).rt, e, r);
      RecordsOnce(pf, Reach(pf, front), last, e, r);
      if HasRank(Reach(pf, run).rt, e, r) && !HasRank(Reach(pf, front).rt, e, r) {
        StepAddsRank(pf, Reach(pf, front), last, e, r);
      }
    }
  }

  lemma RankKept(s: RtState, t: RtState, e: nat, r: u64)
    requires Forward(s, t)
    ensures HasRank(s, e, r) ==> HasRank(t, e, r)
    ensures HasRank(s, e, r) && s.executions[e].measurement.Some? ==> t.executions[e].measurement.Some?
  {
  }

  lemma RecordsOnce(pf: E.Platform, sys: System, a: Action, e: nat, r: u64)
    ensures Records(sys.rt, a, e, r) ==> !HasRank(sys.rt, e, r) && HasRank(Step(pf, sys, a).rt, e, r)
  {
  }

  // ---------------------------------------------------------------- accounting over runs

  /** A reserve that returned, or a start booked from outside. */
  predicate Opens(s: RtState, a: Action) {
    match a
    case Section(Reserving(e)) => Reserve(s, e).1.Done?
    case Section(Booking(entry)) => entry == A.Started
    case _ => false
  }

  /** A commit or an abort that returned, or one booked from outside. */
  predicate Closes(pf: E.Platform, sys: System, a: Action) {
    match a
    case Section(Aborting(e)) => Abort(sys.rt, e).1.Done?
    case Section(Booking(entry)) =>
      (entry == A.Completed || entry == A.Aborted) && A.Record(sys.rt.accounting, entry).1 == A.Ok
    case Conclude(c) => Commits(pf, sys, c) && Commit(sys.rt, sys.calls[c].e, sys.calls[c].stage.n, Result(pf, sys.calls[c]).bytes).1.Done?
    case _ => false
  }

  ghost function Opened(pf: E.Platform, run: seq<Action>): nat {
    if run == [] then 0
    else Opened(pf, run[..|run| - 1]) + (if Opens(Reach(pf, run[..|run| - 1]).rt, run[|run| - 1]) then 1 else 0)
  }

  ghost function Closed(pf: E.Platform, run: seq<Action>): nat {
    if run == [] then 0
    else Closed(pf, run[..|run| - 1]) + (if Closes(pf, Reach(pf, run[..|run| - 1]), run[|run| - 1]) then 1 else 0)
  }

  /** What booking one entry does to the active counter. */
  lemma BookedActive(s: RtState, entry: A.Entry, id: nat)
    requires s.accounting.active < U64_LIMIT - 1
    ensures Booked(s, entry, id).0.accounting.active == s.accounting.active + A.Delta(entry, A.Record(s.accounting, entry).1)
    ensures entry == A.Started ==> Booked(s, entry, id).1 == Done(id)
  {
    A.RecordActive(s.accounting, entry);
  }

  lemma ReserveActive(s: RtState, e: nat)
    requires s.accounting.active < U64_LIMIT - 1
    ensures Reserve(s, e).0.accounting.active == s.accounting.active + (if Reserve(s, e).1.Done? then 1 else 0)
  {
    hide A.Record, Booked, L.Allowed;
    var (t, o) := Move(s, e, L.Reserved);
    if o.Done? && ElementBytes(t.executions[e].descriptor).Some? {
      var id := t.nextId;
      var entry := A.Reserve(id, ElementBytes(t.executions[e].descriptor).value);
      var u := Put(t, e, t.executions[e].(reservation := id)).(nextId := id + 1);
      BookedActive(u, entry, id);
      BookedActive(Booked(u, entry, id).0, A.Started, id);
    }
  }

  lemma QuietSectionActive(s: RtState, op: Op)
    requires s.accounting.active < U64_LIMIT - 1
    requires !op.Reserving? && !op.Aborting? && !op.Booking?
    ensures Applied(s, op).0.accounting.active == s.accounting.active
  {
    hide ElementBytes, Fault, Settled;
  }

  lemma AbortActive(s: RtState, e: nat)
    ensures Abort(s, e).0.accounting.active == s.accounting.active - (if Abort(s, e).1.Done? then 1 else 0)
  {
  }

  lemma SectionActive(pf: E.Platform, sys: System, op: Op)
    requires sys.rt.accounting.active < U64_LIMIT - 1
    ensures Applied(sys.rt, op).0.accounting.active == sys.rt.accounting.active
            + (if Opens(sys.rt, Section(op)) then 1 else 0) - (if Closes(pf, sys, Section(op)) then 1 else 0)
  {
    hide A.Record, Reserve, Abort, Booked, Create, Plan, Dispatch, CompleteRank, Fail, Move, Commit, InputsOk, E.Defined;
    match op
    case Reserving(e) => ReserveActive(sys.rt, e);
    case Aborting(e) => AbortActive(sys.rt, e);
    case Booking(entry) =>
      BookedActive(sys.rt, entry, 0);
      A.RecordStarted(sys.rt.accounting);
    case _ => QuietSectionActive(sys.rt, op);
  }

  lemma CommitActive(s: RtState, e: nat, n: u64, outputs: seq<seq<byte>>)
    ensures Commit(s, e, n, outputs).0.accounting.active
            == s.accounting.active - (if Commit(s, e, n, outputs).1.Done? then 1 else 0)
  {
    hide ElementBytes, Ranks;
  }

  lemma FailureActive(s: RtState, e: nat)
    ensures CommitFailure(s, e).0.accounting.active == s.accounting.active
  {
    hide ElementBytes;
  }

  lemma StepActive(pf: E.Platform, sys: System, a: Action)
    requires sys.rt.accounting.active < U64_LIMIT - 1
    ensures Step(pf, sys, a).rt.accounting.active ==
            sys.rt.accounting.active + (if Opens(sys.rt, a) then 1 else 0) - (if Closes(pf, sys, a) then 1 else 0)
  {
    hide InputsOk, EngineRun, E.Defined, Commit, Applied, ElementBytes, A.Record;
    match a
    case Section(op) => SectionActive(pf, sys, op);
    case Conclude(c) =>
      if Commits(pf, sys, c) {
        CommitActive(sys.rt, sys.calls[c].e, sys.calls[c].stage.n, Result(pf, sys.calls[c]).bytes);
      } else if c in sys.calls {
        FailureActive(sys.rt, sys.calls[c].e);
      }
    case _ =>
  }

  /** The active counter is exactly the reserves minus the commits and aborts that returned.  So a
      run drains it to zero exactly when as many closed as opened: failing, cancelling and retiring
      close nothing. */
  lemma {:induction false} ActiveIsOpenedMinusClosed(pf: E.Platform, run: seq<Action>)
    requires |run| < U64_LIMIT
    ensures Reach(pf, run).rt.accounting.active == Opened(pf, run) - Closed(pf, run)
    ensures Opened(pf, run) <= |run|
  {
    hide Step, Opens, Closes;
    if run != [] {
      ActiveIsOpenedMinusClosed(pf, run[..|run| - 1]);
      StepActive(pf, Reach(pf, run[..|run| - 1]), run[|run| - 1]);
    }
  }

  predicate Holds(s: RtState, id: nat, bytes: u64) {
    id in s.accounting.reservations && s.accounting.reservations[id] == bytes
  }

  lemma RecordHolds(c: A.Counters, entry: A.Entry, id: nat)
    requires id in c.reservations && entry != A.Release(id)
    ensures var d := A.Record(c, entry).0; id in d.reservations && d.reservations[id] == c.reservations[id]
  {
  }

  lemma BookedHolds(s: RtState, entry: A.Entry, answer: nat, id: nat, bytes: u64)
    requires Holds(s, id, bytes) && entry != A.Release(id)
    ensures Holds(Booked(s, entry, answer).0, id, bytes)
  {
    RecordHolds(s.accounting, entry, id);
  }

  lemma ReserveHolds(s: RtState, e: nat, id: nat, bytes: u64)
    requires Holds(s, id, bytes)
    ensures Holds(Reserve(s, e).0, id, bytes)
  {
    hide A.Record, Booked;
    var (t, o) := Move(s, e, L.Reserved);
    if o.Done? && ElementBytes(t.executions[e].descriptor).Some? {
      var entry := A.Reserve(t.nextId, ElementBytes(t.executions[e].descriptor).value);
      var u := Put(t, e, t.executions[e].(reservation := t.nextId)).(nextId := t.nextId + 1);
      BookedHolds(u, entry, t.nextId, id, bytes);
      BookedHolds(Booked(u, entry, t.nextId).0, A.Started, t.nextId, id, bytes);
    }
  }

  lemma FailureHolds(s: RtState, e: nat, id: nat, bytes: u64)
    requires Holds(s, id, bytes) && e in s.executions
    ensures Holds(FailureBytes(s, e).0, id, bytes)
  {
    hide A.Record;
    var b := ElementBytes(s.executions[e].descriptor);
    if b.Some? {
      BookedHolds(s, A.FailedBytes(b.value), 0, id, bytes);
    }
  }

  lemma ReportHolds(s: RtState, e: nat, r: u64, id: nat, bytes: u64)
    requires Holds(s, id, bytes)
    ensures Holds(CompleteRank(s, e, r).0, id, bytes)
  {
    hide A.Record, Settled;
    RecordHolds(s.accounting, A.RankComplete, id);
  }

  lemma CommitHolds(s: RtState, e: nat, n: u64, outputs: seq<seq<byte>>, id: nat, bytes: u64)
    requires Holds(s, id, bytes)
    ensures Holds(Commit(s, e, n, outputs).0, id, bytes)
  {
    hide Stored, A.Record;
    if e in s.executions {
      StoredElsewhere(s, e, n, outputs);
      MeasuredHolds(Stored(s, e, n, outputs), e, n, id, bytes);
    }
  }

  lemma MeasuredHolds(s: RtState, e: nat, n: u64, id: nat, bytes: u64)
    requires Holds(s, id, bytes) && e in s.executions
    ensures Holds(Measured(s, e, n).0, id, bytes)
  {
    hide A.Record;
    RecordHolds(s.accounting, A.Completed, id);
    var c := A.Record(s.accounting, A.Completed).0;
    var payload := ElementBytes(s.executions[e].descriptor);
    if payload.Some? {
      var product := CheckedMul(payload.value, n);
      RecordHolds(c, A.CompletedBytes(if product.Some? then product.value else 0), id);
    }
  }

  lemma SectionHolds(s: RtState, op: Op, id: nat, bytes: u64)
    requires Holds(s, id, bytes) && op != Booking(A.Release(id))
    ensures Holds(Applied(s, op).0, id, bytes)
  {
    hide A.Record, Reserve, CompleteRank, FailureBytes, Fault, L.Allowed;
    match op
    case Reserving(e) => ReserveHolds(s, e, id, bytes);
    case Reporting(e, r) => ReportHolds(s, e, r, id, bytes);
    case Failing(e, f) =>
      var (t, o) := Move(s, e, L.Failed);
      if o.Done? {
        FailureHolds(Put(t, e, t.executions[e].(failure := Some(f))), e, id, bytes);
      }
    case Aborting(e) => RecordHolds(s.accounting, A.Aborted, id);
    case Booking(entry) => RecordHolds(s.accounting, entry, id);
    case _ =>
  }

  lemma StepHolds(pf: E.Platform, sys: System, a: Action, id: nat, bytes: u64)
    requires Holds(sys.rt, id, bytes) && !Releases(a, id)
    ensures Holds(Step(pf, sys, a).rt, id, bytes)
  {
    hide Applied, EngineRun, E.Defined, InputsOk, Commit, FailureBytes;
    match a
    case Section(op) => SectionHolds(sys.rt, op, id, bytes);
    case Conclude(c) =>
      if Commits(pf, sys, c) {
        CommitHolds(sys.rt, sys.calls[c].e, sys.calls[c].stage.n, Result(pf, sys.calls[c]).bytes, id, bytes);
      } else if c in sys.calls && sys.calls[c].e in sys.rt.executions {
        var e, x := sys.calls[c].e, sys.rt.executions[sys.calls[c].e];
        FailureHolds(Put(sys.rt, e, Tried(x, L.Failed).(failure := Some(ExecutionFailure(x.descriptor)))), e, id, bytes);
      }
    case _ =>
  }

  predicate Releases(a: Action, id: nat) { a == Section(Booking(A.Release(id))) }

  /** The runtime itself never releases a reservation: whatever becomes of the execution, its bytes
      stay reserved until someone else releases that id. */
  lemma {:induction false} ReservationsStay(pf: E.Platform, run: seq<Action>, i: nat, id: nat, bytes: u64)
    requires i <= |run| && Holds(Reach(pf, run[..i]).rt, id, bytes)
    requires forall k :: i <= k < |run| ==> !Releases(run[k], id)
    ensures Holds(Reach(pf, run).rt, id, bytes)
    decreases |run|
  {
    hide Step, Holds;
    if i == |run| {
      assert run[..i] == run;
    } else {
      var front := run[..|run| - 1];
      assert front[..i] == run[..i];
      ReservationsStay(pf, front, i, id, bytes);
      assert !Releases(run[|run| - 1], id);
      StepHolds(pf, Reach(pf, front), run[|run| - 1], id, bytes);
    }
  }
}
