/** Resource accounting of include/collectivefabric/accounting.hpp.  Counters are 64-bit and wrap. */
module Accounting {
  import opened Bytes
  import opened Foundation

  datatype Counters = Counters(
    active: u64, activeRanks: u64, reserved: u64, submitted: u64,
    completedBytes: u64, failedBytes: u64, aborted: u64, reservations: map<nat, u64>)

  const ZERO := Counters(0, 0, 0, 0, 0, 0, 0, map[])

  datatype Entry =
    | Started | Completed | Aborted | RankStarted | RankComplete
    | Reserve(id: nat, bytes: u64) | Release(id: nat) | CompletedBytes(n: u64) | FailedBytes(n: u64)

  /** What a call answers: it returns, or throws and changes nothing. */
  datatype Answer = Ok | Underflow | DuplicateId | UnknownId

  function Plus(a: u64, b: u64): u64 { (a + b) % U64_LIMIT }

  function Record(c: Counters, e: Entry): (Counters, Answer) {
    match e
    case Started => (c.(active := Plus(c.active, 1), submitted := Plus(c.submitted, 1)), Ok)
    case Completed =>
      if c.active == 0 then (c, Underflow) else (c.(active := c.active - 1), Ok)
    case Aborted =>
      if c.active == 0 then (c, Underflow) else (c.(active := c.active - 1, aborted := Plus(c.aborted, 1)), Ok)
    case RankStarted => (c.(activeRanks := Plus(c.activeRanks, 1)), Ok)
    case RankComplete =>
      if c.activeRanks == 0 then (c, Underflow) else (c.(activeRanks := c.activeRanks - 1), Ok)
    case Reserve(id, bytes) =>
      if id in c.reservations then (c, DuplicateId)
      else (c.(reservations := c.reservations[id := bytes], reserved := Plus(c.reserved, bytes)), Ok)
    case Release(id) =>
      if id !in c.reservations then (c, UnknownId)
      else if c.reservations[id] > c.reserved then (c, Underflow)
      else (c.(reserved := c.reserved - c.reservations[id], reservations := c.reservations - {id}), Ok)
    case CompletedBytes(n) => (c.(completedBytes := Plus(c.completedBytes, n)), Ok)
    case FailedBytes(n) => (c.(failedBytes := Plus(c.failedBytes, n)), Ok)
  }

  function Ledger(entries: seq<Entry>): Counters {
    if entries == [] then ZERO else Record(Ledger(entries[..|entries| - 1]), entries[|entries| - 1]).0
  }

  // ---------------------------------------------------------------- reservations

  ghost function Total(m: map<nat, u64>): nat {
    if m == map[] then 0
    else
      var k :| k in m;
      m[k] + Total(m - {k})
  }

  lemma {:induction false} TotalWithout(m: map<nat, u64>, k: nat)
    requires k in m
    ensures Total(m) == m[k] + Total(m - {k})
    decreases |m|
  {
    var j :| j in m && Total(m) == m[j] + Total(m - {j});
    if j != k {
      TotalWithout(m - {j}, k);
      TotalWithout(m - {k}, j);
      assert m - {j} - {k} == m - {k} - {j};
    }
  }

  lemma TotalWith(m: map<nat, u64>, k: nat, v: u64)
    requires k !in m
    ensures Total(m[k := v]) == v + Total(m)
  {
    TotalWithout(m[k := v], k);
    assert m[k := v] - {k} == m;
  }

  /** Reserved bytes are the outstanding reservations' total, modulo 2^64. */
  ghost predicate Balanced(c: Counters) { c.reserved == Total(c.reservations) % U64_LIMIT }

  lemma RecordKeepsBalance(c: Counters, e: Entry)
    requires Balanced(c)
    ensures Balanced(Record(c, e).0)
  {
    match e
    case Reserve(id, bytes) =>
      if id !in c.reservations {
        TotalWith(c.reservations, id, bytes);
        WrapAdd(Total(c.reservations), bytes);
      }
    case Release(id) =>
      if id in c.reservations && c.reservations[id] <= c.reserved {
        TotalWithout(c.reservations, id);
        WrapSub(Total(c.reservations - {id}), c.reservations[id]);
      }
    case _ =>
  }

  lemma WrapAdd(t: nat, b: u64)
    ensures (t % U64_LIMIT + b) % U64_LIMIT == (b + t) % U64_LIMIT
  {
  }

  lemma WrapSub(t: nat, b: u64)
    ensures (b + t) % U64_LIMIT >= b ==> (b + t) % U64_LIMIT - b == t % U64_LIMIT
  {
  }

  /** In every reachable ledger. */
  lemma {:induction false} LedgerBalanced(entries: seq<Entry>)
    ensures Balanced(Ledger(entries))
  {
    if entries == [] {
      assert Total(map[]) == 0;
    } else {
      LedgerBalanced(entries[..|entries| - 1]);
      RecordKeepsBalance(Ledger(entries[..|entries| - 1]), entries[|entries| - 1]);
    }
  }

  /** Releasing every listed reservation in turn, and whether each release returned. */
  function ReleaseAll(c: Counters, order: seq<nat>): (Counters, bool)
    decreases |order|
  {
    if order == [] then (c, true)
    else
      var (d, answer) := Record(c, Release(order[0]));
      var (last, ok) := ReleaseAll(d, order[1..]);
      (last, ok && answer == Ok)
  }

  ghost predicate Lists(order: seq<nat>, m: map<nat, u64>) {
    && (forall k :: k in order <==> k in m)
    && forall i, j :: 0 <= i < j < |order| ==> order[i] != order[j]
  }

  lemma ListsRest(order: seq<nat>, m: map<nat, u64>)
    requires order != [] && Lists(order, m)
    ensures order[0] in m && Lists(order[1..], m - {order[0]})
  {
    assert order == [order[0]] + order[1..];
  }

  lemma ListsNothing(m: map<nat, u64>)
    requires Lists([], m)
    ensures m == map[]
  {
    assert forall k :: k in m <==> k in [];
    assert m.Keys == {};
  }

  lemma ReleaseStep(c: Counters, k: nat)
    requires Balanced(c) && Total(c.reservations) < U64_LIMIT && k in c.reservations
    ensures var d := Record(c, Release(k)).0;
            && Record(c, Release(k)).1 == Ok && Balanced(d) && Total(d.reservations) < U64_LIMIT
            && d == c.(reserved := d.reserved, reservations := c.reservations - {k})
  {
    TotalWithout(c.reservations, k);
    RecordKeepsBalance(c, Release(k));
  }

  lemma {:induction false} SmallTotalReleases(c: Counters, order: seq<nat>)
    requires Balanced(c) && Total(c.reservations) < U64_LIMIT && Lists(order, c.reservations)
    ensures ReleaseAll(c, order) == (c.(reserved := 0, reservations := map[]), true)
    decreases |order|
  {
    if order == [] {
      ListsNothing(c.reservations);
      assert Total(map[]) == 0;
    } else {
      hide Lists, Balanced, Total;
      ListsRest(order, c.reservations);
      ReleaseStep(c, order[0]);
      SmallTotalReleases(Record(c, Release(order[0])).0, order[1..]);
    }
  }

  /** If every release returns, each has been taken off the counter, so it held their total. */
  lemma {:induction false} ReleasedWasReserved(c: Counters, order: seq<nat>)
    requires Lists(order, c.reservations) && ReleaseAll(c, order).1
    ensures c.reserved >= Total(c.reservations)
    decreases |order|
  {
    if order == [] {
      ListsNothing(c.reservations);
      assert Total(map[]) == 0;
    } else {
      hide Lists, Total;
      ListsRest(order, c.reservations);
      TotalWithout(c.reservations, order[0]);
      ReleasedWasReserved(Record(c, Release(order[0])).0, order[1..]);
    }
  }

  /** Teardown: releasing every outstanding reservation once, in any order, succeeds each time if and
      only if their total fits in 64 bits; and then it closes the reserved bytes to zero. */
  lemma TeardownClosesToZero(c: Counters, order: seq<nat>)
    requires Balanced(c) && Lists(order, c.reservations)
    ensures ReleaseAll(c, order).1 <==> Total(c.reservations) < U64_LIMIT
    ensures ReleaseAll(c, order).1 ==> ReleaseAll(c, order).0 == c.(reserved := 0, reservations := map[])
  {
    if Total(c.reservations) < U64_LIMIT {
      SmallTotalReleases(c, order);
    }
    if ReleaseAll(c, order).1 {
      ReleasedWasReserved(c, order);
    }
  }

  /** Two reservations of 2^63 bytes wrap the counter to zero, and then a release of an outstanding
      reservation is refused as an underflow. */
  lemma WrappedReleaseRefused()
    ensures var half := 0x8000_0000_0000_0000;
            var c := Ledger([Reserve(1, half), Reserve(2, half)]);
            c.reserved == 0 && 1 in c.reservations && Record(c, Release(1)).1 == Underflow
  {
    var half := 0x8000_0000_0000_0000;
    var e := [Reserve(1, half), Reserve(2, half)];
    assert e[..1] == [Reserve(1, half)] && e[..1][..0] == [];
    assert Ledger(e[..1]) == Record(ZERO, Reserve(1, half)).0;
  }

  // ---------------------------------------------------------------- active collectives

  /** What an entry does to the number of open collectives, given how it was answered. */
  function Delta(e: Entry, answer: Answer): int {
    if e == Started then 1 else if (e == Completed || e == Aborted) && answer == Ok then -1 else 0
  }

  /** Starts that returned, minus completions and aborts that returned. */
  function Open(entries: seq<Entry>): int {
    if entries == [] then 0
    else
      var front, last := entries[..|entries| - 1], entries[|entries| - 1];
      Open(front) + Delta(last, Record(Ledger(front), last).1)
  }

  lemma RecordActive(c: Counters, e: Entry)
    requires c.active < U64_LIMIT - 1
    ensures Record(c, e).0.active == c.active + Delta(e, Record(c, e).1)
  {
  }

  lemma RecordStarted(c: Counters)
    ensures Record(c, Started).1 == Ok
  {
  }

  /** The active counter is exactly that difference, and so is never negative, whatever calls are
      made in whatever order. */
  lemma {:induction false} ActiveIsOpen(entries: seq<Entry>)
    requires |entries| < U64_LIMIT
    ensures Ledger(entries).active == Open(entries) <= |entries|
  {
    hide Record;
    if entries != [] {
      var front, last := entries[..|entries| - 1], entries[|entries| - 1];
      ActiveIsOpen(front);
      RecordActive(Ledger(front), last);
    }
  }

  // ---------------------------------------------------------------- every counter

  /** When a call throws, and what: a close without an open one, a reservation id that is outstanding
      already, a release of one that is not.  A call that throws changes nothing. */
  lemma AnswerExactly(c: Counters, e: Entry)
    ensures Record(c, e).1 == Underflow <==>
            || ((e == Completed || e == Aborted) && c.active == 0)
            || (e == RankComplete && c.activeRanks == 0)
            || (e.Release? && e.id in c.reservations && c.reservations[e.id] > c.reserved)
    ensures Record(c, e).1 == DuplicateId <==> e.Reserve? && e.id in c.reservations
    ensures Record(c, e).1 == UnknownId <==> e.Release? && e.id !in c.reservations
    ensures Record(c, e).1 != Ok ==> Record(c, e).0 == c
  {
  }

  /** What one entry adds to each counter that only goes up. */
  datatype Rise = Rise(submitted: nat, completedBytes: nat, failedBytes: nat, aborted: nat)

  function RiseOf(e: Entry, answer: Answer): Rise {
    match e
    case Started => Rise(1, 0, 0, 0)
    case CompletedBytes(n) => Rise(0, n, 0, 0)
    case FailedBytes(n) => Rise(0, 0, n, 0)
    case Aborted => Rise(0, 0, 0, if answer == Ok then 1 else 0)
    case _ => Rise(0, 0, 0, 0)
  }

  function PlusRise(a: Rise, b: Rise): Rise {
    Rise(a.submitted + b.submitted, a.completedBytes + b.completedBytes, a.failedBytes + b.failedBytes, a.aborted + b.aborted)
  }

  /** The last of the entries and its answer. */
  function LastAnswer(entries: seq<Entry>): Answer
    requires entries != []
  {
    Record(Ledger(entries[..|entries| - 1]), entries[|entries| - 1]).1
  }

  function Risen(entries: seq<Entry>): Rise {
    if entries == [] then Rise(0, 0, 0, 0)
    else PlusRise(Risen(entries[..|entries| - 1]), RiseOf(entries[|entries| - 1], LastAnswer(entries)))
  }

  /** Rank contributions started, minus those completed by a call that returned. */
  function OpenRanks(entries: seq<Entry>): int {
    if entries == [] then 0
    else
      var last := entries[|entries| - 1];
      OpenRanks(entries[..|entries| - 1])
      + (if last == RankStarted then 1 else if last == RankComplete && LastAnswer(entries) == Ok then -1 else 0)
  }

  /** The bytes under an id: those of its last reserve that returned, if no release returned since. */
  function Under(entries: seq<Entry>, id: nat): Option<u64> {
    if entries == [] then None
    else
      var last := entries[|entries| - 1];
      if LastAnswer(entries) == Ok && last.Reserve? && last.id == id then Some(last.bytes)
      else if LastAnswer(entries) == Ok && last == Release(id) then None
      else Under(entries[..|entries| - 1], id)
  }

  function Entered(c: Counters, id: nat): Option<u64> {
    if id in c.reservations then Some(c.reservations[id]) else None
  }

  /** Each counter is the sum of its own entries modulo 2^64, the contributions are those still open,
      and the table holds exactly what was reserved and not released. */
  lemma {:induction false} CountersAddUp(entries: seq<Entry>, id: nat)
    requires |entries| < U64_LIMIT
    ensures var c, r := Ledger(entries), Risen(entries);
            && c.submitted == r.submitted % U64_LIMIT && c.completedBytes == r.completedBytes % U64_LIMIT
            && c.failedBytes == r.failedBytes % U64_LIMIT && c.aborted == r.aborted % U64_LIMIT
    ensures Ledger(entries).activeRanks == OpenRanks(entries) <= |entries|
    ensures Entered(Ledger(entries), id) == Under(entries, id)
  {
    hide Record;
    if entries != [] {
      var front, last := entries[..|entries| - 1], entries[|entries| - 1];
      CountersAddUp(front, id);
      RecordRises(Ledger(front), last, Risen(front));
      RecordRanks(Ledger(front), last);
      RecordEnters(Ledger(front), last, id);
    }
  }

  lemma RecordRises(c: Counters, e: Entry, r: Rise)
    requires c.submitted == r.submitted % U64_LIMIT && c.completedBytes == r.completedBytes % U64_LIMIT
    requires c.failedBytes == r.failedBytes % U64_LIMIT && c.aborted == r.aborted % U64_LIMIT
    ensures var d, t := Record(c, e).0, PlusRise(r, RiseOf(e, Record(c, e).1));
            && d.submitted == t.submitted % U64_LIMIT && d.completedBytes == t.completedBytes % U64_LIMIT
            && d.failedBytes == t.failedBytes % U64_LIMIT && d.aborted == t.aborted % U64_LIMIT
  {
    match e
    case Started => WrapAdd(r.submitted, 1);
    case CompletedBytes(n) => WrapAdd(r.completedBytes, n);
    case FailedBytes(n) => WrapAdd(r.failedBytes, n);
    case Aborted => WrapAdd(r.aborted, 1);
    case _ =>
  }

  lemma RecordRanks(c: Counters, e: Entry)
    requires c.activeRanks < U64_LIMIT - 1
    ensures Record(c, e).0.activeRanks ==
            c.activeRanks + if e == RankStarted then 1 else if e == RankComplete && Record(c, e).1 == Ok then -1 else 0
  {
  }

  lemma RecordEnters(c: Counters, e: Entry, id: nat)
    ensures Entered(Record(c, e).0, id) ==
            if Record(c, e).1 == Ok && e.Reserve? && e.id == id then Some(e.bytes)
            else if Record(c, e).1 == Ok && e == Release(id) then None
            else Entered(c, id)
  {
  }

  // ---------------------------------------------------------------- the object

  class Accounting {
    var active: u64
    var activeRanks: u64
    var reserved: u64
    var submitted: u64
    var completedBytes: u64
    var failedBytes: u64
    var aborted: u64
    var reservations: map<nat, u64>

    ghost function Snapshot(): Counters
      reads this
    {
      Counters(active, activeRanks, reserved, submitted, completedBytes, failedBytes, aborted, reservations)
    }

    constructor ()
      ensures Snapshot() == ZERO
    {
      active, activeRanks, reserved, submitted, completedBytes, failedBytes, aborted := 0, 0, 0, 0, 0, 0, 0;
      reservations := map[];
    }

    method CollectiveStarted()
      modifies this
      ensures Snapshot() == Record(old(Snapshot()), Started).0
    {
      active := Plus(active, 1);
      submitted := Plus(submitted, 1);
    }

    method CollectiveCompleted() returns (a: Answer)
      modifies this
      ensures (Snapshot(), a) == Record(old(Snapshot()), Completed)
    {
      if active == 0 {
        return Underflow;
      }
      active := active - 1;
      a := Ok;
    }

    method CollectiveAborted() returns (a: Answer)
      modifies this
      ensures (Snapshot(), a) == Record(old(Snapshot()), Aborted)
    {
      if active == 0 {
        return Underflow;
      }
      active := active - 1;
      aborted := Plus(aborted, 1);
      a := Ok;
    }

    method ActiveRankContribution()
      modifies this
      ensures Snapshot() == Record(old(Snapshot()), RankStarted).0
    {
      activeRanks := Plus(activeRanks, 1);
    }

    method RankContributionComplete() returns (a: Answer)
      modifies this
      ensures (Snapshot(), a) == Record(old(Snapshot()), RankComplete)
    {
      if activeRanks == 0 {
        return Underflow;
      }
      activeRanks := activeRanks - 1;
      a := Ok;
    }

    method ReserveBytes(id: nat, bytes: u64) returns (a: Answer)
      modifies this
      ensures (Snapshot(), a) == Record(old(Snapshot()), Reserve(id, bytes))
    {
      if id in reservations {
        return DuplicateId;
      }
      reservations := reservations[id := bytes];
      reserved := Plus(reserved, bytes);
      a := Ok;
    }

    method ReleaseBytes(id: nat) returns (a: Answer)
      modifies this
      ensures (Snapshot(), a) == Record(old(Snapshot()), Release(id))
    {
      if id !in reservations {
        return UnknownId;
      }
      if reservations[id] > reserved {
        return Underflow;
      }
      reserved := reserved - reservations[id];
      reservations := reservations - {id};
      a := Ok;
    }

    method AddCompletedBytes(n: u64)
      modifies this
      ensures Snapshot() == Record(old(Snapshot()), CompletedBytes(n)).0
    {
      completedBytes := Plus(completedBytes, n);
    }

    method AddFailedBytes(n: u64)
      modifies this
      ensures Snapshot() == Record(old(Snapshot()), FailedBytes(n)).0
    {
      failedBytes := Plus(failedBytes, n);
    }
  }
}
