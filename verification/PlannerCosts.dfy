/** The planner's numbers in plain arithmetic, and what they select when something is measured. */
module PlannerCosts {
  import opened Bytes
  import opened Foundation
  import opened Planner
  import opened PlannerLaws

  // ---------------------------------------------------------------- costs

  /** k is the exponent of the least power of two that reaches n. */
  predicate LeastExponent(n: nat, k: nat) { n <= Pow2(k) && (k > 0 ==> Pow2(k - 1) < n) }

  function Hops(n: nat): nat { if n == 0 then 0 else n - 1 }

  /** Steps on the critical path. */
  function StepCount(kind: CollectiveKind, a: Algorithm, n: nat, k: nat): nat {
    match a
    case Direct | BackendDefault => 1
    case Ring => Hops(n)
    case Tree => if kind == Broadcast || kind == Reduce then k else k + k
    case RecursiveDoubling => k
    case ReduceBroadcast => Hops(n) + Hops(n)
    case Hierarchical => k + k
    case UnknownAlgorithm => 0
  }

  /** How many payloads travel. */
  function Loads(kind: CollectiveKind, a: Algorithm, n: nat, k: nat): nat {
    match a
    case Direct | Ring => Hops(n)
    case Tree => if kind == Broadcast || kind == Reduce then k else k + k
    case RecursiveDoubling | Hierarchical => k + k
    case ReduceBroadcast => Hops(n) + Hops(n)
    case BackendDefault => 1
    case UnknownAlgorithm => 0
  }

  /** What does not fit in 64 bits is reported as the largest number that does. */
  function Capped(v: nat): nat { if v < U64_LIMIT then v else U64_LIMIT - 1 }

  lemma ExponentIsHalvings(n: nat, k: nat)
    requires LeastExponent(n, k)
    ensures Halvings(n) == k
  {
    hide Pow2;
    HalvingsIsCeilLog2(n);
    ExponentUnique(n, k, Halvings(n));
  }

  lemma CappedTwice(p: u64, k: u64)
    ensures SatMul(SatMul(p, k), 2) == Capped(Mul(p, k + k))
  {
    assert p * (k + k) == p * k * 2;
  }

  lemma SatMulCaps(a: u64, b: u64)
    ensures SatMul(a, b) == Capped(Mul(a, b))
  {
  }

  /** The cost of every algorithm for every kind, rank count and payload: so many steps, so many
      payloads, capped at 64 bits. */
  lemma CostsExactly(kind: CollectiveKind, a: Algorithm, n: u64, p: u64, k: nat)
    requires n <= 0x8000_0000_0000_0000 && LeastExponent(n, k)
    ensures Steps(kind, a, n) == StepCount(kind, a, n, k)
    ensures Movement(kind, a, n, p) == Capped(Mul(p, Loads(kind, a, n, k)))
  {
    hide LeastExponent, Halvings, SatMul, Mul, Capped, Steps, StepCount, Loads;
    StepsExactly(kind, a, n, k);
    match a
    case Direct =>
      SatMulCaps(p, Hops(n));
      DirectLoads(kind, n, p, k);
    case RecursiveDoubling =>
      ExponentIsHalvings(n, k);
      Logarithms(n);
      CappedTwice(p, k);
      DoublingLoads(kind, n, k);
    case BackendDefault => PayloadTimes(p); DelegatedLoads(kind, n, k);
    case UnknownAlgorithm => PayloadTimes(p); DelegatedLoads(kind, n, k);
    case _ =>
      SatMulCaps(p, Steps(kind, a, n));
      StepwiseLoads(kind, a, n, k);
  }

  lemma StepsExactly(kind: CollectiveKind, a: Algorithm, n: u64, k: nat)
    requires n <= 0x8000_0000_0000_0000 && LeastExponent(n, k)
    ensures Steps(kind, a, n) == StepCount(kind, a, n, k)
  {
    hide LeastExponent, Halvings, SatMul;
    ExponentIsHalvings(n, k);
    Logarithms(n);
    HopsDouble(n);
  }

  lemma DirectLoads(kind: CollectiveKind, n: u64, p: u64, k: nat)
    ensures Loads(kind, Direct, n, k) == Hops(n)
    ensures Movement(kind, Direct, n, p) == SatMul(p, Hops(n))
  {
    hide SatMul;
  }

  lemma DoublingLoads(kind: CollectiveKind, n: nat, k: nat)
    ensures Loads(kind, RecursiveDoubling, n, k) == k + k
  {
  }

  lemma DelegatedLoads(kind: CollectiveKind, n: nat, k: nat)
    ensures Loads(kind, BackendDefault, n, k) == 1 && Loads(kind, UnknownAlgorithm, n, k) == 0
  {
  }

  /** The others move one payload a step. */
  lemma StepwiseLoads(kind: CollectiveKind, a: Algorithm, n: nat, k: nat)
    requires a in {Ring, Tree, ReduceBroadcast, Hierarchical}
    ensures Loads(kind, a, n, k) == StepCount(kind, a, n, k)
  {
  }

  lemma PayloadTimes(p: u64)
    ensures Capped(Mul(p, 1)) == p && Capped(Mul(p, 0)) == 0
  {
  }

  /** The payload charged for: one rank's, or all ranks' together where every rank ends up with, or
      starts from, everyone's; refused as an overflow exactly when a product does not fit. */
  lemma PayloadExactly(q: Request)
    ensures var per := Mul(q.elements, Width(q.elementType));
            var all := if q.kind == Broadcast || q.kind == Reduce || q.kind == AllReduce then per else Mul(per, q.ranks);
            Payload(q) == if per < U64_LIMIT && all < U64_LIMIT then Some(all) else None
  {
  }

  // ---------------------------------------------------------------- candidates

  /** The algorithms that can do a kind at all. */
  function Doers(kind: CollectiveKind): set<Algorithm> {
    match kind
    case Barrier => {Tree, BackendDefault}
    case Broadcast => {Direct, Ring, Tree, BackendDefault}
    case Reduce => {Direct, Ring, Tree, ReduceBroadcast, BackendDefault}
    case AllReduce => {Ring, Tree, RecursiveDoubling, ReduceBroadcast, Hierarchical, BackendDefault}
    case AllGather => {Ring, Tree, RecursiveDoubling, Hierarchical, BackendDefault}
    case ReduceScatter => {Ring, Tree, Hierarchical, BackendDefault}
  }

  /** The reasons, in the order they are looked for. */
  const REASONS: seq<RejectReason> :=
    [NotApplicable, KindUnsupported, DatatypeUnsupported, ReductionUnsupported, NoHostTransport, TooManyRanks,
     PlacementUnsupported, NoInterNodeBoundary]

  /** Whether a reason speaks against an algorithm, whatever the other reasons say. */
  predicate SpeaksAgainst(q: Request, a: Algorithm, r: RejectReason) {
    match r
    case NotApplicable => a !in Doers(q.kind)
    case KindUnsupported => q.kind !in q.backend.kinds
    case DatatypeUnsupported => q.elementType !in q.backend.datatypes
    case ReductionUnsupported => q.kind in {Reduce, AllReduce, ReduceScatter} && q.reduction !in q.backend.reductions
    case NoHostTransport => !q.backend.hostTransport
    case TooManyRanks => q.backend.maximumRanks.Some? && q.ranks > q.backend.maximumRanks.value
    case PlacementUnsupported => !q.hostPlacement || !q.backend.hostBuffers
    case NoInterNodeBoundary => a == Hierarchical && q.topologyNodes.Some? && q.topologyNodes.value < 2
  }

  lemma DoersExactly(kind: CollectiveKind, a: Algorithm)
    ensures Applicable(kind, a) <==> a in Doers(kind)
  {
  }

  /** An algorithm is rejected for the first reason that speaks against it, and for none only if none
      does. */
  lemma FirstReason(q: Request, a: Algorithm, i: nat)
    requires i < |REASONS|
    ensures Rejection(q, a) == Some(REASONS[i]) <==>
            SpeaksAgainst(q, a, REASONS[i]) && forall j :: 0 <= j < i ==> !SpeaksAgainst(q, a, REASONS[j])
    ensures Rejection(q, a) == None <==> forall j :: 0 <= j < |REASONS| ==> !SpeaksAgainst(q, a, REASONS[j])
  {
    hide Applicable;
    DoersExactly(q.kind, a);
    hide Doers;
    assert REASONS[0] == NotApplicable && REASONS[1] == KindUnsupported && REASONS[2] == DatatypeUnsupported
        && REASONS[3] == ReductionUnsupported && REASONS[4] == NoHostTransport && REASONS[5] == TooManyRanks
        && REASONS[6] == PlacementUnsupported && REASONS[7] == NoInterNodeBoundary;
  }

  // ---------------------------------------------------------------- bandwidth alone

  /** The algorithm selected when bandwidth alone is measured: fewer payloads count before fewer
      steps, so the ring holds out longer and the tree replaces the direct exchange. */
  function LightForm(kind: CollectiveKind, n: nat): Algorithm {
    match kind
    case Barrier => Tree
    case Broadcast | Reduce => if n <= 1 then Ring else if n <= 3 then Direct else Tree
    case AllReduce | AllGather => if n <= 6 then Ring else RecursiveDoubling
    case ReduceScatter => if n <= 7 || n == 9 then Ring else Tree
  }

  predicate NothingCapped(kind: CollectiveKind, n: nat, k: nat, p: nat) {
    forall a :: a in Doers(kind) ==> Mul(p, Loads(kind, a, n, k)) < U64_LIMIT
  }

  predicate FewerLoads(kind: CollectiveKind, n: nat, k: nat, a: Algorithm, b: Algorithm) {
    || Loads(kind, a, n, k) < Loads(kind, b, n, k)
    || (Loads(kind, a, n, k) == Loads(kind, b, n, k)
        && (StepCount(kind, a, n, k) < StepCount(kind, b, n, k)
            || (StepCount(kind, a, n, k) == StepCount(kind, b, n, k) && Code(a) < Code(b))))
  }

  lemma ExponentFacts(n: u64, k: nat)
    requires n <= 0x8000_0000_0000_0000 && LeastExponent(n, k)
    ensures n <= 1 ==> k == 0
    ensures n == 2 ==> k == 1
    ensures 3 <= n <= 4 ==> k == 2
    ensures 5 <= n <= 8 ==> k == 3
    ensures n == 9 ==> k == 4
    ensures n >= 10 ==> k >= 2 && k + k < n - 1
  {
    hide LeastExponent, Halvings, SatMul;
    ExponentIsHalvings(n, k);
    Logarithms(n);
  }

  lemma LightFormFewer(kind: CollectiveKind, n: u64, k: nat, b: Algorithm)
    requires n <= 0x8000_0000_0000_0000 && LeastExponent(n, k)
    requires b in Doers(kind) && b != BackendDefault && b != LightForm(kind, n)
    ensures FewerLoads(kind, n, k, LightForm(kind, n), b)
  {
    hide LeastExponent;
    ExponentFacts(n, k);
  }

  lemma LoadsOrder(p: nat, v: nat, w: nat)
    requires p > 0
    ensures v < w ==> Mul(p, v) < Mul(p, w)
  {
    if v < w {
      assert p * w == p * v + p * (w - v);
      assert p * (w - v) > 0;
    }
  }

  lemma LightFormReal(q: Request)
    requires BackendAccepts(q)
    ensures Real(q, LightForm(q.kind, q.ranks))
    ensures forall b :: Real(q, b) ==> b in Doers(q.kind) && b != BackendDefault
  {
  }

  lemma LightFormLighter(q: Request, p: u64, k: nat, b: Algorithm)
    requires q.ranks <= 0x8000_0000_0000_0000 && LeastExponent(q.ranks, k)
    requires p > 0 && NothingCapped(q.kind, q.ranks, k, p) && BackendAccepts(q)
    requires Real(q, b) && b != LightForm(q.kind, q.ranks)
    ensures Lighter(CandidateOf(q, p, LightForm(q.kind, q.ranks)), CandidateOf(q, p, b))
  {
    hide LeastExponent, Steps, Movement, Rejection, Loads, StepCount, Mul, LightForm;
    var a := LightForm(q.kind, q.ranks);
    LightFormReal(q);
    LightFormFewer(q.kind, q.ranks, k, b);
    CostsExactly(q.kind, a, q.ranks, p, k);
    CostsExactly(q.kind, b, q.ranks, p, k);
    LoadsOrder(p, Loads(q.kind, a, q.ranks, k), Loads(q.kind, b, q.ranks, k));
  }

  lemma LighterExcludes(c: Candidate, d: Candidate)
    requires Lighter(c, d)
    ensures !Lighter(d, c)
  {
  }

  /** With bandwidth but no latency measured, selection is this closed form for every rank count and
      every payload whose movements fit in 64 bits; without payload it is the unmeasured one. */
  lemma BandwidthClosedForm(q: Request, p: u64, k: nat, a: Algorithm)
    requires q.ranks <= 0x8000_0000_0000_0000 && LeastExponent(q.ranks, k)
    requires BandwidthOnly(q) && BackendAccepts(q)
    ensures p > 0 && NothingCapped(q.kind, q.ranks, k, p) ==>
              (IsMeasuredChoice(q, p, a) <==> a == LightForm(q.kind, q.ranks))
    ensures p == 0 ==> (IsMeasuredChoice(q, p, a) <==> a == ClosedForm(q.kind, q.ranks))
  {
    hide LeastExponent, NothingCapped, Steps, Movement, Rejection, IsMeasuredChoice, Lighter, LightForm, ClosedForm, BandwidthOnly;
    BandwidthSelectsLightest(q, p, a);
    if p > 0 && NothingCapped(q.kind, q.ranks, k, p) {
      LightFormReal(q);
      forall b | Real(q, b) && b != LightForm(q.kind, q.ranks)
        ensures Lighter(CandidateOf(q, p, LightForm(q.kind, q.ranks)), CandidateOf(q, p, b))
        ensures !Lighter(CandidateOf(q, p, b), CandidateOf(q, p, LightForm(q.kind, q.ranks)))
      {
        LightFormLighter(q, p, k, b);
        LighterExcludes(CandidateOf(q, p, LightForm(q.kind, q.ranks)), CandidateOf(q, p, b));
      }
    } else if p == 0 {
      ClosedFormReal(q);
      forall b | Real(q, b) && b != ClosedForm(q.kind, q.ranks)
        ensures Lighter(CandidateOf(q, p, ClosedForm(q.kind, q.ranks)), CandidateOf(q, p, b))
        ensures !Lighter(CandidateOf(q, p, b), CandidateOf(q, p, ClosedForm(q.kind, q.ranks)))
      {
        NothingMoves(q, k, b);
        NothingMoves(q, k, ClosedForm(q.kind, q.ranks));
        ClosedFormBeats(q.kind, q.ranks, p, b);
        EquallyHeavy(CandidateOf(q, p, ClosedForm(q.kind, q.ranks)), CandidateOf(q, p, b));
        LighterExcludes(CandidateOf(q, p, ClosedForm(q.kind, q.ranks)), CandidateOf(q, p, b));
      }
    }
  }

  lemma NothingMoves(q: Request, k: nat, a: Algorithm)
    requires q.ranks <= 0x8000_0000_0000_0000 && LeastExponent(q.ranks, k)
    ensures CandidateOf(q, 0, a).movement == 0
  {
    hide LeastExponent, Steps, Movement, Rejection, Loads, StepCount;
    CostsExactly(q.kind, a, q.ranks, 0, k);
    assert Mul(0, Loads(q.kind, a, q.ranks, k)) == 0;
  }

  lemma EquallyHeavy(c: Candidate, d: Candidate)
    requires c.movement == d.movement && Better(c, d)
    ensures Lighter(c, d)
  {
  }

  // ---------------------------------------------------------------- bandwidth and latency

  predicate BothMeasured(q: Request) { q.latency.Some? && q.bandwidth.Some? && q.bandwidth.value > 0 }

  /** The estimated time in units of one bandwidth-th of a nanosecond: a whole number. */
  function Cost(c: Candidate, bandwidth: nat, latency: nat): nat {
    Mul(c.movement, 1_000_000_000) + Mul(Mul(c.steps, latency), bandwidth)
  }

  lemma TimeIsCost(q: Request, c: Candidate)
    requires BothMeasured(q)
    ensures Time(q, c) == Cost(c, q.bandwidth.value, q.latency.value) as real / q.bandwidth.value as real
  {
    var b, l := q.bandwidth.value as real, q.latency.value as real;
    var m, s := c.movement as real, c.steps as real;
    CostAsReal(c, q.bandwidth.value, q.latency.value);
    Distribute(m, s, l, b);
    assert Time(q, c) == m / b * 1_000_000_000.0 + s * l;
  }

  lemma CostAsReal(c: Candidate, bandwidth: nat, latency: nat)
    ensures Cost(c, bandwidth, latency) as real
         == c.movement as real * 1_000_000_000.0 + c.steps as real * latency as real * bandwidth as real
  {
    ProductAsReal(c.steps, latency);
    ProductAsReal(Mul(c.steps, latency), bandwidth);
    ProductAsReal(c.movement, 1_000_000_000);
  }

  lemma ProductAsReal(x: nat, y: nat)
    ensures Mul(x, y) as real == x as real * y as real
  {
  }

  lemma Distribute(m: real, s: real, l: real, b: real)
    requires b > 0.0
    ensures m / b * 1_000_000_000.0 + s * l == (m * 1_000_000_000.0 + s * l * b) / b
  {
    var r := m / b;
    assert r * b == m;
    assert (r * 1_000_000_000.0 + s * l) * b == m * 1_000_000_000.0 + s * l * b;
    Cancel(r * 1_000_000_000.0 + s * l, b);
  }

  lemma Cancel(x: real, b: real)
    requires b > 0.0
    ensures x * b / b == x
  {
  }

  /** Least cost, then fewest steps, bytes and the smallest code. */
  predicate CostsLess(q: Request, c: Candidate, d: Candidate)
    requires BothMeasured(q)
  {
    var x, y := Cost(c, q.bandwidth.value, q.latency.value), Cost(d, q.bandwidth.value, q.latency.value);
    if x != y then x < y else Better(c, d)
  }

  /** Below 10^12 bytes a second one unit of cost is more than the tolerance. */
  lemma UnitGap(x: nat, y: nat, bandwidth: nat)
    requires 0 < bandwidth < 1_000_000_000_000 && x < y
    ensures x as real / bandwidth as real < y as real / bandwidth as real - TOLERANCE
  {
    var b := bandwidth as real;
    QuotientGap(x as real, y as real, b);
    var u := 1.0 / b;
    assert u * b == 1.0;
    if u <= TOLERANCE {
      UnitProduct(u, b);
      assert false;
    }
  }

  lemma UnitProduct(u: real, b: real)
    requires 0.0 < b < 1_000_000_000_000.0 && u <= 0.000_000_000_001
    ensures u * b < 1.0
  {
    assert u * b <= 0.000_000_000_001 * b;
  }

  lemma CostOrders(q: Request, c: Candidate, d: Candidate)
    requires BothMeasured(q) && q.bandwidth.value < 1_000_000_000_000
    ensures TimesApart(q, c, d) && (Preferred(q, c, d) <==> CostsLess(q, c, d))
  {
    hide Time, Cost, Better;
    var b, l := q.bandwidth.value, q.latency.value;
    TimeIsCost(q, c);
    TimeIsCost(q, d);
    if Cost(c, b, l) < Cost(d, b, l) {
      UnitGap(Cost(c, b, l), Cost(d, b, l), b);
    } else if Cost(d, b, l) < Cost(c, b, l) {
      UnitGap(Cost(d, b, l), Cost(c, b, l), b);
    }
  }

  /** With both measured, and less than 10^12 bytes a second, the selection is exactly the feasible
      algorithm of least movement * 10^9 + steps * latency * bandwidth, ties broken by steps, bytes and
      code: no two estimates are blurred. */
  lemma BothSelectCheapest(q: Request, p: u64, a: Algorithm)
    requires BothMeasured(q) && q.bandwidth.value < 1_000_000_000_000 && BackendAccepts(q)
    ensures IsMeasuredChoice(q, p, a) <==>
            Real(q, a) && forall b :: Real(q, b) && b != a ==> CostsLess(q, CandidateOf(q, p, a), CandidateOf(q, p, b))
  {
    hide Steps, Movement, Rejection, Time, Preferred, TimesApart, CostsLess;
    ClosedFormReal(q);
    forall b, c
      ensures TimesApart(q, CandidateOf(q, p, b), CandidateOf(q, p, c))
      ensures Preferred(q, CandidateOf(q, p, b), CandidateOf(q, p, c)) <==> CostsLess(q, CandidateOf(q, p, b), CandidateOf(q, p, c))
      ensures Preferred(q, CandidateOf(q, p, b), CandidateOf(q, p, c)) ==>
                Time(q, CandidateOf(q, p, b)) <= Time(q, CandidateOf(q, p, c)) + 8.0 * TOLERANCE
    {
      CostOrders(q, CandidateOf(q, p, b), CandidateOf(q, p, c));
      PreferredIsNear(q, CandidateOf(q, p, b), CandidateOf(q, p, c));
    }
    assert Separated(q, p);
  }

  // ---------------------------------------------------------------- blurred estimates

  /** A candidate preferred to every other real one, none of which is preferred to it, comes out of the
      scan. */
  lemma {:induction false} ScanFinds(q: Request, p: u64, a: Algorithm, i: nat)
    requires i <= 8 && Real(q, a)
    requires forall b :: Real(q, b) && b != a ==> Preferred(q, CandidateOf(q, p, a), CandidateOf(q, p, b))
                                                  && !Preferred(q, CandidateOf(q, p, b), CandidateOf(q, p, a))
    ensures i > Code(a) ==> Scan(q, p, i) == Some(a)
  {
    hide Rejection, Steps, Movement, Preferred;
    if i > 0 {
      ScanFinds(q, p, a, i - 1);
      CodeAt(i - 1);
      AlgorithmAt(a);
    }
  }

  /** With nothing measured the scan ends with the choice. */
  lemma ScanEndsWithChoice(q: Request, p: u64, a: Algorithm)
    requires !Measured(q) && Real(q, a) && IsChoice(q, p, a)
    ensures Scan(q, p, 8) == Some(a)
  {
    hide Rejection, Steps, Movement, Better;
    forall b | Real(q, b) && b != a
      ensures Preferred(q, CandidateOf(q, p, a), CandidateOf(q, p, b)) && !Preferred(q, CandidateOf(q, p, b), CandidateOf(q, p, a))
    {
      BetterExcludes(CandidateOf(q, p, a), CandidateOf(q, p, b));
    }
    ScanFinds(q, p, a, 8);
  }

  /** Costs that differ by less than 10^-12 nanoseconds' worth leave the decision to steps, bytes and
      code; a whole nanosecond never does. */
  lemma CostsBlur(q: Request, c: Candidate, d: Candidate)
    requires BothMeasured(q)
    ensures var x, y := Cost(c, q.bandwidth.value, q.latency.value), Cost(d, q.bandwidth.value, q.latency.value);
            && (y <= x && Mul(x - y, 1_000_000_000_000) < q.bandwidth.value ==>
                  (Preferred(q, c, d) <==> Better(c, d)) && (Preferred(q, d, c) <==> Better(d, c)))
            && (y + q.bandwidth.value <= x ==> !Preferred(q, c, d) && Preferred(q, d, c))
  {
    hide Time, Cost, Better;
    var b := q.bandwidth.value;
    var x, y := Cost(c, b, q.latency.value), Cost(d, b, q.latency.value);
    TimeIsCost(q, c);
    TimeIsCost(q, d);
    if y <= x {
      QuotientDifference(x, y, b);
    }
  }

  lemma QuotientDifference(x: nat, y: nat, b: nat)
    requires b > 0 && y <= x
    ensures var d := x as real / b as real - y as real / b as real;
            && d >= 0.0
            && (Mul(x - y, 1_000_000_000_000) < b ==> d < 0.000_000_000_001)
            && (y + b <= x ==> d >= 1.0)
  {
    var r, n := b as real, (x - y) as real;
    var d := n / r;
    assert d == x as real / r - y as real / r;
    if Mul(x - y, 1_000_000_000_000) < b {
      assert n * 1_000_000_000_000.0 < r;
      SmallQuotient(n, r, 0.000_000_000_001);
    }
    if y + b <= x {
      LargeQuotient(n, r);
    }
  }

  lemma SmallQuotient(n: real, r: real, t: real)
    requires r > 0.0 && n < t * r
    ensures n / r < t
  {
    var d := n / r;
    assert d * r == n;
    assert (t - d) * r > 0.0;
  }

  lemma LargeQuotient(n: real, r: real)
    requires r > 0.0 && n >= r
    ensures n / r >= 1.0
  {
    var d := n / r;
    assert d * r == n;
    assert (d - 1.0) * r >= 0.0;
  }

  /** An all-reduce of 10^6 bytes over four ranks, at 10^15 - 1 bytes a second and one nanosecond. */
  const BLURRED := Request(AllReduce, Sum, UInt32, 250_000, true, 4, None,
    Capabilities({AllReduce}, {UInt32}, {Sum}, true, true, None), Some(999_999_999_999_999), Some(1))

  /** The fastest estimate does not always win: here the ring's is smaller by 10^-15 nanoseconds, and
      recursive doubling is selected for its fewer steps. */
  lemma FastestLoses()
    ensures BackendAccepts(BLURRED) && Payload(BLURRED) == Some(1_000_000)
    ensures Real(BLURRED, Ring)
    ensures Time(BLURRED, CandidateOf(BLURRED, 1_000_000, Ring)) < Time(BLURRED, CandidateOf(BLURRED, 1_000_000, RecursiveDoubling))
    ensures Scan(BLURRED, 1_000_000, 8) == Some(RecursiveDoubling)
  {
    hide Time, Preferred, Scan, Steps, Movement, Cost;
    assert Mul(250_000, 4) == 1_000_000;
    var ring, rd := CandidateOf(BLURRED, 1_000_000, Ring), CandidateOf(BLURRED, 1_000_000, RecursiveDoubling);
    FourRanks(Ring);
    FourRanks(RecursiveDoubling);
    assert Mul(1, 1_000_000_000_000) == 1_000_000_000_000;
    TimeIsCost(BLURRED, ring);
    TimeIsCost(BLURRED, rd);
    forall b | Real(BLURRED, b) && b != RecursiveDoubling
      ensures Preferred(BLURRED, rd, CandidateOf(BLURRED, 1_000_000, b))
      ensures !Preferred(BLURRED, CandidateOf(BLURRED, 1_000_000, b), rd)
    {
      FourRanks(b);
      CostsBlur(BLURRED, rd, CandidateOf(BLURRED, 1_000_000, b));
      CostsBlur(BLURRED, CandidateOf(BLURRED, 1_000_000, b), rd);
    }
    ScanFinds(BLURRED, 1_000_000, RecursiveDoubling, 8);
  }

  /** The candidates of that request in numbers. */
  lemma FourRanks(a: Algorithm)
    requires Real(BLURRED, a)
    ensures var c := CandidateOf(BLURRED, 1_000_000, a);
            && c.algorithm == a && a in {Ring, Tree, RecursiveDoubling, ReduceBroadcast, Hierarchical}
            && c.steps == StepCount(AllReduce, a, 4, 2)
            && Cost(c, 999_999_999_999_999, 1) ==
               Loads(AllReduce, a, 4, 2) * 1_000_000_000_000_000 + StepCount(AllReduce, a, 4, 2) * 999_999_999_999_999
  {
    hide Steps, Movement;
    assert Pow2(1) == 2 && Pow2(2) == 4;
    CostsExactly(AllReduce, a, 4, 1_000_000, 2);
  }
}
