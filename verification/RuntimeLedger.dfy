/** The runtime's accounting object is the ledger of what its steps book: amounts included. */
module RuntimeLedger {
  import opened Bytes
  import opened Foundation
  import opened Runtime
  import opened RuntimeRuns
  import opened RuntimeLaws
  import opened RuntimeEffects
  import L = Lifecycle
  import A = Accounting
  import E = ReferenceEngine

  // ---------------------------------------------------------------- what steps book

  /** One rank's payload, if it fits. */
  function FailureEntries(d: Descriptor): seq<A.Entry> {
    if Size(d) < U64_LIMIT then [A.FailedBytes(Size(d))] else []
  }

  /** A reserve books one rank's payload under the next id and a start; a new rank's report one
      completed contribution; a failure one rank's payload as failed; an abort itself. */
  function SectionBooks(s: RtState, op: Op): seq<A.Entry> {
    match op
    case Reserving(k) =>
      if Stands(s, k, {L.Planned}) && Size(s.executions[k].descriptor) < U64_LIMIT then
        [A.Reserve(s.nextId, Size(s.executions[k].descriptor))] + (if s.nextId in s.accounting.reservations then [] else [A.Started])
      else []
    case Reporting(k, r) => if k in s.executions && r !in s.executions[k].completions then [A.RankComplete] else []
    case Failing(k, _) => if Stands(s, k, UNSETTLED) then FailureEntries(s.executions[k].descriptor) else []
    case Aborting(k) => if Stands(s, k, ABORTABLE) then [A.Aborted] else []
    case Booking(entry) => [entry]
    case _ => []
  }

  /** A commit books one completion and, if that returns, all ranks' payload as completed, or 0 when
      it does not fit in 64 bits. */
  function CommitEntries(s: RtState, d: Descriptor, n: u64): seq<A.Entry> {
    var all := Mul(Size(d), n);
    [A.Completed] + (if s.accounting.active == 0 then [] else [A.CompletedBytes(if all < U64_LIMIT then all else 0)])
  }

  function Books(pf: E.Platform, sys: System, a: Action): seq<A.Entry> {
    match a
    case Section(op) => SectionBooks(sys.rt, op)
    case Conclude(c) =>
      if Commits(pf, sys, c) then CommitEntries(sys.rt, sys.calls[c].stage.d, sys.calls[c].stage.n)
      else if Breaks(pf, sys, c) && sys.calls[c].e in sys.rt.executions then FailureEntries(sys.rt.executions[sys.calls[c].e].descriptor)
      else []
    case _ => []
  }

  function RecordAll(c: A.Counters, entries: seq<A.Entry>): A.Counters
    decreases |entries|
  {
    if entries == [] then c else RecordAll(A.Record(c, entries[0]).0, entries[1..])
  }

  lemma RecordOne(c: A.Counters, e: A.Entry)
    ensures RecordAll(c, [e]) == A.Record(c, e).0
  {
    assert [e][1..] == [];
  }

  lemma RecordTwo(c: A.Counters, e: A.Entry, f: A.Entry)
    ensures RecordAll(c, [e, f]) == A.Record(A.Record(c, e).0, f).0
  {
    assert [e, f][1..] == [f];
    RecordOne(A.Record(c, e).0, f);
  }

  lemma {:induction false} LedgerConcat(x: seq<A.Entry>, y: seq<A.Entry>)
    ensures A.Ledger(x + y) == RecordAll(A.Ledger(x), y)
    decreases |y|
  {
    hide A.Record;
    if y == [] {
      assert x + y == x;
    } else {
      var next := x + [y[0]];
      assert next[..|next| - 1] == x && x + y == next + y[1..];
      LedgerConcat(next, y[1..]);
    }
  }

  // ---------------------------------------------------------------- steps

  lemma ReserveBooks(s: RtState, k: nat)
    ensures Reserve(s, k).0.accounting == RecordAll(s.accounting, SectionBooks(s, Reserving(k)))
  {
    hide Reserve, Size, RecordAll;
    ReserveExactly(s, k);
    if Stands(s, k, {L.Planned}) && Size(s.executions[k].descriptor) < U64_LIMIT {
      var e := A.Reserve(s.nextId, Size(s.executions[k].descriptor));
      RecordOne(s.accounting, e);
      RecordTwo(s.accounting, e, A.Started);
      assert [e] + [] == [e] && [e] + [A.Started] == [e, A.Started];
    } else {
      RecordNone(s.accounting);
    }
  }

  lemma RecordNone(c: A.Counters)
    ensures RecordAll(c, []) == c
  {
  }

  lemma ReportBooks(s: RtState, k: nat, r: u64)
    requires k in s.executions ==> GroupKey(s.executions[k].descriptor) in s.groups
    ensures CompleteRank(s, k, r).0.accounting == RecordAll(s.accounting, SectionBooks(s, Reporting(k, r)))
  {
    hide CompleteRank, RecordAll;
    ReportExactly(s, k, r);
    RecordNone(s.accounting);
    RecordOne(s.accounting, A.RankComplete);
  }

  lemma FailureBooks(s: RtState, e: nat, x: Execution)
    ensures FailedWith(s, e, x).0.accounting == RecordAll(s.accounting, FailureEntries(x.descriptor))
  {
    hide Size, RecordAll;
    RecordNone(s.accounting);
    if Size(x.descriptor) < U64_LIMIT {
      RecordOne(s.accounting, A.FailedBytes(Size(x.descriptor)));
    }
  }

  lemma FailBooks(s: RtState, k: nat, f: Failure)
    ensures Fail(s, k, f).0.accounting == RecordAll(s.accounting, SectionBooks(s, Failing(k, f)))
  {
    hide Fail, RecordAll, FailedWith, FailureEntries;
    FailExactly(s, k, f);
    RecordNone(s.accounting);
    if Stands(s, k, UNSETTLED) {
      FailureBooks(s, k, s.executions[k].(lifecycle := L.Failed, failure := Some(f)));
    }
  }

  lemma AbortBooks(s: RtState, k: nat)
    ensures Abort(s, k).0.accounting == RecordAll(s.accounting, SectionBooks(s, Aborting(k)))
  {
    hide Abort, RecordAll;
    AbortExactly(s, k);
    RecordNone(s.accounting);
    RecordOne(s.accounting, A.Aborted);
  }

  lemma SilentSections(s: RtState, op: Op)
    requires !op.Reserving? && !op.Reporting? && !op.Failing? && !op.Aborting? && !op.Booking?
    ensures Applied(s, op).0.accounting == s.accounting
  {
    hide Fault;
  }

  lemma SectionBooked(s: RtState, op: Op)
    requires ExecutionsOk(s)
    ensures Applied(s, op).0.accounting == RecordAll(s.accounting, SectionBooks(s, op))
  {
    hide Create, Plan, Reserve, Dispatch, CompleteRank, Fail, Abort, Move, ExecutionOk, RecordAll, A.Record, FailureEntries, Size;
    match op
    case Reserving(k) => ReserveBooks(s, k);
    case Reporting(k, r) =>
      if k in s.executions {
        ReportedKnown(s, k);
      }
      ReportBooks(s, k, r);
    case Failing(k, f) => FailBooks(s, k, f);
    case Aborting(k) => AbortBooks(s, k);
    case Booking(entry) => RecordOne(s.accounting, entry);
    case _ =>
      SilentSections(s, op);
      RecordNone(s.accounting);
  }

  lemma ReportedKnown(s: RtState, k: nat)
    requires ExecutionsOk(s) && k in s.executions
    ensures GroupKey(s.executions[k].descriptor) in s.groups
  {
    assert ExecutionOk(s, k);
  }

  lemma CommitBooked(s: RtState, e: nat, n: u64, outputs: seq<seq<byte>>)
    requires GroupsOk(s) && e in s.executions && Members(s, s.executions[e].descriptor, n)
    requires Size(s.executions[e].descriptor) < U64_LIMIT
    ensures Commit(s, e, n, outputs).0.accounting == RecordAll(s.accounting, CommitEntries(s, s.executions[e].descriptor, n))
  {
    hide Commit, Ranks, RecordAll, Size, Mul;
    CommitExactly(s, e, n, outputs);
    var all := Mul(Size(s.executions[e].descriptor), n);
    var entry := A.CompletedBytes(if all < U64_LIMIT then all else 0);
    RecordOne(s.accounting, A.Completed);
    RecordTwo(s.accounting, A.Completed, entry);
    assert [A.Completed] + [] == [A.Completed] && [A.Completed] + [entry] == [A.Completed, entry];
  }

  lemma StepBooked(pf: E.Platform, sys: System, a: Action)
    requires Inv(pf, sys)
    ensures Step(pf, sys, a).rt.accounting == RecordAll(sys.rt.accounting, Books(pf, sys, a))
  {
    hide Applied, Inv, RecordAll, SectionBooks, Commits, Breaks, Concluded, Begin, FailureEntries, CommitEntries;
    RecordNone(sys.rt.accounting);
    match a
    case Section(op) =>
      InvExecutions(pf, sys);
      SectionBooked(sys.rt, op);
    case Invoke(c, e, inputs) =>
    case LookUp(c) =>
    case Start(c) =>
      if c in sys.calls && sys.calls[c].stage.Grouped? {
        StartSilent(sys, c);
      }
    case Conclude(c) => ConcludeBooked(pf, sys, c);
  }

  lemma InvExecutions(pf: E.Platform, sys: System)
    requires Inv(pf, sys)
    ensures ExecutionsOk(sys.rt) && GroupsOk(sys.rt)
  {
  }

  lemma StartSilent(sys: System, c: nat)
    requires c in sys.calls && sys.calls[c].stage.Grouped?
    ensures Started(sys, c).rt.accounting == sys.rt.accounting
  {
    hide InputsOk;
  }

  lemma ConcludeBooked(pf: E.Platform, sys: System, c: nat)
    requires Inv(pf, sys)
    ensures Step(pf, sys, Conclude(c)).rt.accounting == RecordAll(sys.rt.accounting, Books(pf, sys, Conclude(c)))
  {
    hide RecordAll, Inv, Commit, CommitFailure, EngineRun, E.Defined, FailureEntries, CommitEntries, FailedWith, Size;
    RecordNone(sys.rt.accounting);
    if Commits(pf, sys, c) {
      var call := sys.calls[c];
      InvExecutions(pf, sys);
      EngagedFacts(pf, sys, c);
      BytesExactly(call.stage.d);
      CommitBooked(sys.rt, call.e, call.stage.n, Result(pf, call).bytes);
    } else if c in sys.calls {
      var e := sys.calls[c].e;
      FailureExactly(sys.rt, e);
      if e in sys.rt.executions {
        var x := CommitFailed(sys.rt.executions[e]);
        FailureBooks(sys.rt, e, x);
      }
    }
  }

  /** The execution as the failing commit leaves it. */
  function CommitFailed(x: Execution): Execution {
    x.(lifecycle := if x.lifecycle in UNSETTLED then L.Failed else x.lifecycle,
       failure := Some(Failure(18, None, None, x.descriptor.collectiveId, x.descriptor.collectiveGeneration, 0, 0,
                               true, false, false, false)))
  }

  // ---------------------------------------------------------------- runs

  /** Everything a run books, in order. */
  ghost function BookedBy(pf: E.Platform, run: seq<Action>): seq<A.Entry> {
    if run == [] then []
    else BookedBy(pf, run[..|run| - 1]) + Books(pf, Reach(pf, run[..|run| - 1]), run[|run| - 1])
  }

  /** In every run the accounting object holds exactly the ledger of these entries.  So its laws hold of
      the runtime: in particular the reserved bytes are the outstanding reservations' total. */
  lemma {:induction false} AccountingIsLedger(pf: E.Platform, run: seq<Action>)
    ensures Reach(pf, run).rt.accounting == A.Ledger(BookedBy(pf, run))
    ensures A.Balanced(Reach(pf, run).rt.accounting)
    decreases |run|
  {
    hide Step, Books, Inv, RecordAll, A.Balanced, A.Record;
    A.LedgerBalanced(BookedBy(pf, run));
    if run == [] {
      assert A.Ledger([]) == A.ZERO;
    } else {
      var front, last := run[..|run| - 1], run[|run| - 1];
      AccountingIsLedger(pf, front);
      ReachKeeps(pf, front);
      StepBooked(pf, Reach(pf, front), last);
      LedgerConcat(BookedBy(pf, front), Books(pf, Reach(pf, front), last));
    }
  }
}
