/** Closed forms of the planner's choice, for every rank count. */
module PlannerLaws {
  import opened Bytes
  import opened Foundation
  import opened Planner

  lemma BetterExcludes(x: Candidate, y: Candidate)
    requires Better(x, y)
    ensures !Better(y, x)
  {
  }

  /** There is only one choice. */
  lemma ChoiceUnique(q: Request, p: u64, a: Algorithm, b: Algorithm)
    requires IsChoice(q, p, a) && IsChoice(q, p, b)
    ensures a == b
  {
    hide Better, Steps, Movement, Rejection;
    if a != b {
      BetterExcludes(CandidateOf(q, p, a), CandidateOf(q, p, b));
    }
  }

  lemma {:induction false} HalvingsSmallCases(n: nat)
    ensures n <= 1 ==> Halvings(n) == 0
    ensures n == 2 ==> Halvings(n) == 1
    ensures 3 <= n <= 4 ==> Halvings(n) == 2
    ensures 5 <= n <= 8 ==> Halvings(n) == 3
    ensures 9 <= n <= 16 ==> Halvings(n) == 4
    ensures 17 <= n <= 32 ==> Halvings(n) == 5
  {
    if 1 < n <= 32 {
      HalvingsSmallCases((n + 1) / 2);
    }
  }

  /** Doubling the logarithm still undercuts the ring from ten ranks on. */
  lemma {:induction false} LogBelowRing(n: nat)
    requires n >= 10
    ensures 2 * Halvings(n) < n - 1
  {
    if n < 20 {
      HalvingsSmallCases(n);
    } else {
      LogBelowRing((n + 1) / 2);
    }
  }

  lemma SatDouble(s: u64)
    ensures s <= SatMul(s, 2)
  {
    var t: nat := s;
    assert Mul(s, 2) == t + t;
  }

  lemma DoubleFits(x: u64)
    requires x < 0x8000_0000_0000_0000
    ensures SatMul(2, x) == 2 * x
  {
    assert Mul(2, x) == 2 * x;
  }

  /** The algorithm the source ends up with, as a function of the kind and the rank count alone. */
  function ClosedForm(kind: CollectiveKind, n: u64): Algorithm {
    match kind
    case Barrier => Tree
    case Broadcast => if n <= 1 then Ring else Direct
    case Reduce => if n <= 1 then Ring else Direct
    case AllReduce => if n <= 3 then Ring else RecursiveDoubling
    case AllGather => if n <= 3 then Ring else RecursiveDoubling
    case ReduceScatter => if n <= 7 || n == 9 then Ring else Tree
  }

  lemma ClosedFormReal(q: Request)
    requires BackendAccepts(q)
    ensures Real(q, ClosedForm(q.kind, q.ranks))
    ensures forall a :: Real(q, a) ==> Applicable(q.kind, a) && a != BackendDefault
  {
  }

  ghost predicate Beats(kind: CollectiveKind, n: u64, p: u64, a: Algorithm, b: Algorithm) {
    Better(Candidate(a, None, Steps(kind, a, n), Movement(kind, a, n, p)),
           Candidate(b, None, Steps(kind, b, n), Movement(kind, b, n, p)))
  }

  lemma ClosedFormBeats(kind: CollectiveKind, n: u64, p: u64, b: Algorithm)
    requires n <= 0x8000_0000_0000_0000
    requires Applicable(kind, b) && b != BackendDefault && b != ClosedForm(kind, n)
    ensures Beats(kind, n, p, ClosedForm(kind, n), b)
  {
    match kind
    case Barrier =>
    case Broadcast => RootedBeats(kind, n, p, b);
    case Reduce => RootedBeats(kind, n, p, b);
    case AllReduce => EveryoneBeats(kind, n, p, b);
    case AllGather => EveryoneBeats(kind, n, p, b);
    case ReduceScatter => ScatterBeats(n, p, b);
  }

  lemma RootedBeats(kind: CollectiveKind, n: u64, p: u64, b: Algorithm)
    requires n <= 0x8000_0000_0000_0000 && (kind == Broadcast || kind == Reduce)
    requires Applicable(kind, b) && b != BackendDefault && b != ClosedForm(kind, n)
    ensures Beats(kind, n, p, ClosedForm(kind, n), b)
  {
    hide Halvings, SatMul;
    Logarithms(n);
    HopsDouble(n);
    if n <= 1 {
      assert Steps(kind, Ring, n) == 0;
    } else if n == 2 {
      assert Steps(kind, Direct, n) == 1;
    } else {
      assert Steps(kind, b, n) >= 2;
    }
  }

  lemma EveryoneBeats(kind: CollectiveKind, n: u64, p: u64, b: Algorithm)
    requires n <= 0x8000_0000_0000_0000 && (kind == AllReduce || kind == AllGather)
    requires Applicable(kind, b) && b != BackendDefault && b != ClosedForm(kind, n)
    ensures Beats(kind, n, p, ClosedForm(kind, n), b)
  {
    hide Halvings, SatMul;
    Logarithms(n);
    HopsDouble(n);
    SatDouble(SatMul(p, Halvings(n)));
  }

  lemma ScatterBeats(n: u64, p: u64, b: Algorithm)
    requires n <= 0x8000_0000_0000_0000
    requires Applicable(ReduceScatter, b) && b != BackendDefault && b != ClosedForm(ReduceScatter, n)
    ensures Beats(ReduceScatter, n, p, ClosedForm(ReduceScatter, n), b)
  {
    hide Halvings, SatMul;
    Logarithms(n);
  }

  lemma Logarithms(n: u64)
    requires n <= 0x8000_0000_0000_0000
    ensures n <= 1 ==> Halvings(n) == 0
    ensures n == 2 ==> Halvings(n) == 1
    ensures 3 <= n <= 4 ==> Halvings(n) == 2
    ensures 5 <= n <= 8 ==> Halvings(n) == 3
    ensures n == 9 ==> Halvings(n) == 4
    ensures n >= 10 ==> 2 * Halvings(n) < n - 1 && Halvings(n) >= 2
    ensures Halvings(n) <= n && SatMul(2, Halvings(n)) == 2 * Halvings(n)
  {
    HalvingsSmallCases(n);
    HalvingsSmall(n);
    if n >= 10 {
      LogBelowRing(n);
      var m := (n + 1) / 2;
      assert Halvings(n) == 1 + Halvings(m) && Halvings(m) == 1 + Halvings((m + 1) / 2);
    }
    DoubleFits(Halvings(n));
  }

  lemma HopsDouble(n: u64)
    requires n <= 0x8000_0000_0000_0000
    ensures n > 0 ==> SatMul(2, n - 1) == 2 * (n - 1)
    ensures SatMul(2, 0) == 0
  {
    DoubleFits(0);
    if n > 0 {
      DoubleFits(n - 1);
    }
  }

  /** With nothing measured and a backend that accepts the request, selection is this closed form
      for every rank count and every payload, whatever the topology says. */
  lemma SelectionClosedForm(q: Request, p: u64, a: Algorithm)
    requires q.ranks <= 0x8000_0000_0000_0000 && BackendAccepts(q) && IsChoice(q, p, a)
    ensures a == ClosedForm(q.kind, q.ranks)
  {
    hide Better, Steps, Movement, Rejection, ClosedForm;
    var c := ClosedForm(q.kind, q.ranks);
    ClosedFormReal(q);
    if a != c {
      ClosedFormBeats(q.kind, q.ranks, p, a);
      BetterExcludes(CandidateOf(q, p, c), CandidateOf(q, p, a));
    }
  }

  /** And the closed form is a choice, so it is the choice. */
  lemma ClosedFormIsChoice(q: Request, p: u64)
    requires q.ranks <= 0x8000_0000_0000_0000 && BackendAccepts(q)
    ensures IsChoice(q, p, ClosedForm(q.kind, q.ranks))
  {
    hide Better, Steps, Movement, Rejection, ClosedForm;
    var c := ClosedForm(q.kind, q.ranks);
    ClosedFormReal(q);
    forall b | Real(q, b) && b != c
      ensures Better(CandidateOf(q, p, c), CandidateOf(q, p, b))
    {
      ClosedFormBeats(q.kind, q.ranks, p, b);
    }
  }

  /** BACKEND_DEFAULT is documented as the fallback when no real algorithm is feasible; but every
      request whose delegation is feasible also has a feasible tree, so it is never selected, and
      the planner refuses exactly the requests the backend does not accept. */
  lemma NeverDelegates(q: Request, p: u64)
    ensures !IsChoice(q, p, BackendDefault) && !IsMeasuredChoice(q, p, BackendDefault)
    ensures (forall a :: !Feasible(q, a)) <==> !BackendAccepts(q)
  {
    hide Better, Steps, Movement;
    if BackendAccepts(q) {
      assert Real(q, Tree);
    }
    if Feasible(q, BackendDefault) {
      assert Real(q, Tree);
    }
  }

  // ---------------------------------------------------------------- measured rankings

  /** With separated estimates there is only one choice. */
  lemma MeasuredChoiceUnique(q: Request, p: u64, a: Algorithm, b: Algorithm)
    requires Measured(q) && Separated(q, p) && IsMeasuredChoice(q, p, a) && IsMeasuredChoice(q, p, b)
    ensures a == b
  {
    hide Time, Steps, Movement, Rejection;
    if a != b && exists c :: Real(q, c) {
      assert Preferred(q, CandidateOf(q, p, a), CandidateOf(q, p, b));
      assert Preferred(q, CandidateOf(q, p, b), CandidateOf(q, p, a));
      BetterExcludes(CandidateOf(q, p, a), CandidateOf(q, p, b));
    }
  }

  function LatencyCost(steps: nat, l: nat): (t: real) { steps as real * l as real }

  lemma LatencyTime(q: Request, c: Candidate)
    requires q.latency.Some? && (q.bandwidth.Some? ==> q.bandwidth.value == 0)
    ensures Time(q, c) == LatencyCost(c.steps, q.latency.value)
  {
    hide LatencyCost;
    assert Time(q, c) == 0.0 + c.steps as real * q.latency.value as real;
    LatencyProduct(c.steps, q.latency.value);
  }

  lemma LatencyProduct(steps: nat, l: nat)
    ensures LatencyCost(steps, l) == steps as real * l as real
  {
  }

  lemma StepGap(s: nat, t: nat, l: nat)
    ensures s < t && l > 0 ==> LatencyCost(s, l) + 1.0 <= LatencyCost(t, l)
    ensures s == t || l == 0 ==> LatencyCost(s, l) == LatencyCost(t, l)
  {
    if s < t && l > 0 {
      assert (t - s) * l >= 1;
      assert t * l == s * l + (t - s) * l;
    }
  }

  /** Times that come from latency alone order candidates as their steps do. */
  lemma LatencyOrdersSteps(q: Request, c: Candidate, d: Candidate)
    requires q.latency.Some? && (q.bandwidth.Some? ==> q.bandwidth.value == 0)
    ensures TimesApart(q, c, d) && (Preferred(q, c, d) <==> Better(c, d))
  {
    hide Time, LatencyCost;
    LatencyTime(q, c);
    LatencyTime(q, d);
    StepGap(c.steps, d.steps, q.latency.value);
    StepGap(d.steps, c.steps, q.latency.value);
  }

  /** Measuring latency, but no bandwidth, never changes the choice: the closed form stands. */
  lemma LatencyChangesNothing(q: Request, p: u64, a: Algorithm)
    requires q.latency.Some? && (q.bandwidth.Some? ==> q.bandwidth.value == 0)
    requires q.ranks <= 0x8000_0000_0000_0000 && BackendAccepts(q) && IsMeasuredChoice(q, p, a)
    ensures a == ClosedForm(q.kind, q.ranks)
  {
    hide Better, Steps, Movement, Rejection, ClosedForm, Time, Preferred, TimesApart;
    forall b, c
      ensures TimesApart(q, CandidateOf(q, p, b), CandidateOf(q, p, c))
      ensures Preferred(q, CandidateOf(q, p, b), CandidateOf(q, p, c)) <==> Better(CandidateOf(q, p, b), CandidateOf(q, p, c))
    {
      LatencyOrdersSteps(q, CandidateOf(q, p, b), CandidateOf(q, p, c));
    }
    assert IsChoice(q, p, a);
    SelectionClosedForm(q, p, a);
  }

  // ---------------------------------------------------------------- bandwidth alone

  predicate BandwidthOnly(q: Request) { q.latency.None? && q.bandwidth.Some? && q.bandwidth.value > 0 }

  /** Fewer bytes, then fewer steps, then the smaller enumeration value. */
  predicate Lighter(c: Candidate, d: Candidate) {
    if c.movement != d.movement then c.movement < d.movement else Better(c, d)
  }

  function TransferCost(movement: nat, bandwidth: nat): (t: real)
    requires bandwidth > 0
  {
    movement as real / bandwidth as real * 1_000_000_000.0
  }

  lemma TransferTime(q: Request, c: Candidate)
    requires BandwidthOnly(q)
    ensures Time(q, c) == TransferCost(c.movement, q.bandwidth.value)
  {
    hide TransferCost;
    assert Time(q, c) == c.movement as real / q.bandwidth.value as real * 1_000_000_000.0 + 0.0;
    TransferQuotient(c.movement, q.bandwidth.value);
  }

  lemma TransferQuotient(movement: nat, bandwidth: nat)
    requires bandwidth > 0
    ensures TransferCost(movement, bandwidth) == movement as real / bandwidth as real * 1_000_000_000.0
  {
  }

  /** One byte takes at least 10^9 / 2^64 nanoseconds, well above the tolerance. */
  lemma ByteGap(m: nat, n: nat, bandwidth: u64)
    requires bandwidth > 0 && m < n
    ensures TransferCost(m, bandwidth) < TransferCost(n, bandwidth) - TOLERANCE
  {
    var b := bandwidth as real;
    QuotientGap(m as real, n as real, b);
    LeastByte(b);
  }

  lemma QuotientGap(m: real, n: real, b: real)
    requires b > 0.0 && m + 1.0 <= n
    ensures m / b + 1.0 / b <= n / b
  {
    assert n / b - m / b == (n - m) / b;
    assert (n - m) / b == 1.0 / b + (n - m - 1.0) / b;
    assert (n - m - 1.0) / b >= 0.0;
  }

  lemma LeastByte(b: real)
    requires 0.0 < b < 18446744073709551616.0
    ensures 1.0 / b * 1_000_000_000.0 > TOLERANCE
  {
    var u := 1.0 / b;
    assert u * b == 1.0;
    if u <= 0.000_000_000_000_000_000_001 {
      SmallProduct(u, b);
      assert false;
    }
  }

  lemma SmallProduct(u: real, b: real)
    requires 0.0 < b < 18446744073709551616.0 && u <= 0.000_000_000_000_000_000_001
    ensures u * b < 1.0
  {
    assert u * b <= 0.000_000_000_000_000_000_001 * b;
  }

  /** Times that come from bandwidth alone are never blurred, and order candidates by bytes first. */
  lemma BandwidthOrdersBytes(q: Request, c: Candidate, d: Candidate)
    requires BandwidthOnly(q)
    ensures TimesApart(q, c, d) && (Preferred(q, c, d) <==> Lighter(c, d))
  {
    hide Time, TransferCost, Better;
    TransferTime(q, c);
    TransferTime(q, d);
    if c.movement < d.movement {
      ByteGap(c.movement, d.movement, q.bandwidth.value);
    } else if d.movement < c.movement {
      ByteGap(d.movement, c.movement, q.bandwidth.value);
    }
  }

  /** With bandwidth but no latency measured the selection is exactly the feasible algorithm with the
      least bytes moved, then steps, then code; it is the only one, at every rank count and payload. */
  lemma BandwidthSelectsLightest(q: Request, p: u64, a: Algorithm)
    requires BandwidthOnly(q) && BackendAccepts(q)
    ensures IsMeasuredChoice(q, p, a) <==>
            Real(q, a) && forall b :: Real(q, b) && b != a ==> Lighter(CandidateOf(q, p, a), CandidateOf(q, p, b))
  {
    hide Steps, Movement, Rejection, Time, Preferred, TimesApart, Lighter;
    ClosedFormReal(q);
    forall b, c
      ensures TimesApart(q, CandidateOf(q, p, b), CandidateOf(q, p, c))
      ensures Preferred(q, CandidateOf(q, p, b), CandidateOf(q, p, c)) <==> Lighter(CandidateOf(q, p, b), CandidateOf(q, p, c))
      ensures Preferred(q, CandidateOf(q, p, b), CandidateOf(q, p, c)) ==>
                Time(q, CandidateOf(q, p, b)) <= Time(q, CandidateOf(q, p, c)) + 8.0 * TOLERANCE
    {
      BandwidthOrdersBytes(q, CandidateOf(q, p, b), CandidateOf(q, p, c));
      PreferredIsNear(q, CandidateOf(q, p, b), CandidateOf(q, p, c));
    }
    assert Separated(q, p);
  }

  lemma PreferredIsNear(q: Request, c: Candidate, d: Candidate)
    requires Measured(q)
    ensures Preferred(q, c, d) ==> Time(q, c) <= Time(q, d) + 8.0 * TOLERANCE
  {
    hide Time, Better;
  }
}
