/** Algorithm selection of src/planner.cpp.  Estimated times are real numbers; their rounding in
    double precision is not modelled. */
module Planner {
  import opened Bytes
  import opened Foundation

  datatype Algorithm =
    | Direct | Ring | Tree | RecursiveDoubling | ReduceBroadcast | Hierarchical | BackendDefault | UnknownAlgorithm

  const ALGORITHMS: seq<Algorithm> :=
    [Direct, Ring, Tree, RecursiveDoubling, ReduceBroadcast, Hierarchical, BackendDefault, UnknownAlgorithm]

  /** The enumeration's underlying value. */
  function Code(a: Algorithm): nat {
    match a
    case Direct => 0
    case Ring => 1
    case Tree => 2
    case RecursiveDoubling => 3
    case ReduceBroadcast => 4
    case Hierarchical => 5
    case BackendDefault => 6
    case UnknownAlgorithm => 7
  }

  datatype Capabilities = Capabilities(
    kinds: set<CollectiveKind>, datatypes: set<Datatype>, reductions: set<ReductionOp>,
    hostTransport: bool, hostBuffers: bool, maximumRanks: Option<u64>)

  datatype Request = Request(
    kind: CollectiveKind, reduction: ReductionOp, elementType: Datatype, elements: u64, hostPlacement: bool,
    ranks: u64, topologyNodes: Option<nat>, backend: Capabilities, bandwidth: Option<u64>, latency: Option<u64>)

  datatype RejectReason =
    | NotApplicable | KindUnsupported | DatatypeUnsupported | ReductionUnsupported
    | NoHostTransport | TooManyRanks | PlacementUnsupported | NoInterNodeBoundary

  datatype Candidate = Candidate(algorithm: Algorithm, rejected: Option<RejectReason>, steps: nat, movement: nat)

  datatype Selection = Selected(algorithm: Algorithm, steps: nat, movement: nat) | NoPlan(code: ErrorCode)

  // ---------------------------------------------------------------- cost model

  function Pow2(n: nat): nat { if n == 0 then 1 else 2 * Pow2(n - 1) }

  /** Halvings, rounding up, until one rank is left. */
  function Halvings(n: nat): nat { if n <= 1 then 0 else 1 + Halvings((n + 1) / 2) }

  lemma {:induction false} Pow2Grows(a: nat, b: nat)
    requires a <= b
    ensures Pow2(a) <= Pow2(b)
  {
    if a < b {
      Pow2Grows(a, b - 1);
    }
  }

  /** Halvings(n) is the exponent of the least power of two that reaches n. */
  lemma {:induction false} HalvingsIsCeilLog2(n: nat)
    ensures n <= Pow2(Halvings(n))
    ensures Halvings(n) > 0 ==> Pow2(Halvings(n) - 1) < n
  {
    if n > 1 {
      HalvingsIsCeilLog2((n + 1) / 2);
    }
  }

  /** ceil_log2; above 2^63 the shift drops the only bit and the loop never ends. */
  method CeilLog2(n: u64) returns (s: nat)
    requires n <= 0x8000_0000_0000_0000
    ensures s == Halvings(n)
  {
    hide Pow2, Halvings;
    HalvingsIsCeilLog2(n);
    PowerStep(0);
    s := 0;
    var x: u64 := 1;
    while x < n
      invariant x == Pow2(s) && 1 <= x <= 0x8000_0000_0000_0000 && (s > 0 ==> Pow2(s - 1) < n)
      decreases n - x
    {
      PowerStep(s);
      PowersSkip(s);
      x := (2 * x) % U64_LIMIT;
      s := s + 1;
    }
    ExponentUnique(n, s, Halvings(n));
  }

  lemma PowerStep(s: nat)
    ensures Pow2(0) == 1 && Pow2(s + 1) == 2 * Pow2(s)
  {
  }

  lemma PowersSkip(s: nat)
    requires Pow2(s) < 0x8000_0000_0000_0000
    ensures Pow2(s + 1) <= 0x8000_0000_0000_0000
  {
    if s >= 63 {
      Pow2Grows(63, s);
      Pow2At63();
    } else {
      Pow2Grows(s + 1, 63);
      Pow2At63();
    }
  }

  lemma Pow2At63()
    ensures Pow2(63) == 0x8000_0000_0000_0000
  {
    assert Pow2(8) == 0x100;
    assert Pow2(16) == 0x1_0000;
    assert Pow2(24) == 0x100_0000;
    assert Pow2(32) == 0x1_0000_0000;
    assert Pow2(40) == 0x100_0000_0000;
    assert Pow2(48) == 0x1_0000_0000_0000;
    assert Pow2(56) == 0x100_0000_0000_0000;
  }

  lemma ExponentUnique(n: nat, s: nat, t: nat)
    requires n <= Pow2(s) && (s > 0 ==> Pow2(s - 1) < n)
    requires n <= Pow2(t) && (t > 0 ==> Pow2(t - 1) < n)
    ensures s == t
  {
    if s < t {
      Pow2Grows(s, t - 1);
    } else if t < s {
      Pow2Grows(t, s - 1);
    }
  }

  /** sat_mul */
  function SatMul(a: u64, b: u64): (r: u64)
    ensures r == if Mul(a, b) < U64_LIMIT then Mul(a, b) else U64_LIMIT - 1
  {
    var r := CheckedMul(a, b);
    if r.Some? then r.value else U64_LIMIT - 1
  }

  function Steps(kind: CollectiveKind, a: Algorithm, n: u64): u64 {
    HalvingsSmall(n);
    var hops := if n > 0 then n - 1 else 0;
    match a
    case Direct => 1
    case Ring => hops
    case Tree => if kind == Broadcast || kind == Reduce then Halvings(n) else SatMul(2, Halvings(n))
    case RecursiveDoubling => Halvings(n)
    case ReduceBroadcast => SatMul(2, hops)
    case Hierarchical => SatMul(2, Halvings(n))
    case BackendDefault => 1
    case UnknownAlgorithm => 0
  }

  function Movement(kind: CollectiveKind, a: Algorithm, n: u64, p: u64): u64 {
    HalvingsSmall(n);
    match a
    case Direct => SatMul(p, if n > 0 then n - 1 else 0)
    case RecursiveDoubling => SatMul(SatMul(p, Halvings(n)), 2)
    case BackendDefault => p
    case UnknownAlgorithm => 0
    case _ => SatMul(p, Steps(kind, a, n))
  }

  lemma {:induction false} HalvingsSmall(n: nat)
    ensures Halvings(n) <= n
  {
    if n > 1 {
      HalvingsSmall((n + 1) / 2);
    }
  }

  /** model_path */
  method ModelPath(kind: CollectiveKind, a: Algorithm, n: u64, p: u64) returns (steps: u64, movement: u64)
    requires n <= 0x8000_0000_0000_0000
    ensures steps == Steps(kind, a, n) && movement == Movement(kind, a, n, p)
  {
    HalvingsSmall(n);
    var logn := CeilLog2(n);
    var hops: u64 := if n > 0 then n - 1 else 0;
    match a {
      case Direct =>
        steps, movement := 1, SatMul(p, hops);
      case Ring =>
        steps := hops;
        movement := SatMul(p, steps);
      case Tree =>
        steps := if kind == Broadcast || kind == Reduce then logn else SatMul(2, logn);
        movement := SatMul(p, steps);
      case RecursiveDoubling =>
        steps := logn;
        movement := SatMul(SatMul(p, logn), 2);
      case ReduceBroadcast =>
        steps := SatMul(2, hops);
        movement := SatMul(p, steps);
      case Hierarchical =>
        steps := SatMul(2, logn);
        movement := SatMul(p, steps);
      case BackendDefault =>
        steps, movement := 1, p;
      case UnknownAlgorithm =>
        steps, movement := 0, 0;
    }
  }

  // ---------------------------------------------------------------- candidates

  predicate Applicable(kind: CollectiveKind, a: Algorithm) {
    match a
    case Direct => kind == Broadcast || kind == Reduce
    case Ring => kind != Barrier
    case Tree => true
    case RecursiveDoubling => kind == AllReduce || kind == AllGather
    case ReduceBroadcast => kind == AllReduce || kind == Reduce
    case Hierarchical => kind == AllReduce || kind == AllGather || kind == ReduceScatter
    case BackendDefault => true
    case UnknownAlgorithm => false
  }

  predicate ReduceFamily(kind: CollectiveKind) { kind == Reduce || kind == AllReduce || kind == ReduceScatter }

  /** The first hard constraint that eliminates an algorithm. */
  function Rejection(q: Request, a: Algorithm): Option<RejectReason> {
    if !Applicable(q.kind, a) then Some(NotApplicable)
    else if q.kind !in q.backend.kinds then Some(KindUnsupported)
    else if q.elementType !in q.backend.datatypes then Some(DatatypeUnsupported)
    else if ReduceFamily(q.kind) && q.reduction !in q.backend.reductions then Some(ReductionUnsupported)
    else if !q.backend.hostTransport then Some(NoHostTransport)
    else if q.backend.maximumRanks.Some? && q.ranks > q.backend.maximumRanks.value then Some(TooManyRanks)
    else if !(q.hostPlacement && q.backend.hostBuffers) then Some(PlacementUnsupported)
    else if a == Hierarchical && q.topologyNodes.Some? && q.topologyNodes.value < 2 then Some(NoInterNodeBoundary)
    else None
  }

  predicate Feasible(q: Request, a: Algorithm) { Rejection(q, a).None? }

  /** A backend accepts the request when every constraint that is not about the algorithm holds. */
  predicate BackendAccepts(q: Request) {
    && q.kind in q.backend.kinds && q.elementType in q.backend.datatypes
    && (ReduceFamily(q.kind) ==> q.reduction in q.backend.reductions)
    && q.backend.hostTransport && q.hostPlacement && q.backend.hostBuffers
    && (q.backend.maximumRanks.Some? ==> q.ranks <= q.backend.maximumRanks.value)
  }

  /** The payload the cost model charges for, or overflow. */
  function Payload(q: Request): Option<u64> {
    var per := CheckedMul(q.elements, Width(q.elementType));
    if per.None? || q.kind == Broadcast || q.kind == Reduce || q.kind == AllReduce then per
    else CheckedMul(per.value, q.ranks)
  }

  function CandidateOf(q: Request, p: u64, a: Algorithm): Candidate {
    if Feasible(q, a) then Candidate(a, None, Steps(q.kind, a, q.ranks), Movement(q.kind, a, q.ranks, p))
    else Candidate(a, Rejection(q, a), 0, 0)
  }

  ghost predicate IsCandidateList(q: Request, p: u64, cands: seq<Candidate>) {
    |cands| == 8 && forall i :: 0 <= i < 8 ==> cands[i] == CandidateOf(q, p, ALGORITHMS[i])
  }

  /** A planner input without descriptor, group or backend has no candidates. */
  method Candidates(input: Option<Request>) returns (out: Option<seq<Candidate>>)
    requires input.Some? ==> input.value.ranks <= 0x8000_0000_0000_0000
    ensures input.None? ==> out == Some([])
    ensures input.Some? ==> (out.None? <==> Payload(input.value).None?)
    ensures input.Some? && out.Some? ==> IsCandidateList(input.value, Payload(input.value).value, out.value)
  {
    hide Rejection, Steps, Movement;
    if input.None? {
      return Some([]);
    }
    var q := input.value;
    var payload := Payload(q);
    if payload.None? {
      return None;
    }
    var p, list := payload.value, [];
    for i := 0 to 8
      invariant |list| == i && forall k :: 0 <= k < i ==> list[k] == CandidateOf(q, p, ALGORITHMS[k])
    {
      var a := ALGORITHMS[i];
      var rejected := Rejection(q, a);
      var steps: u64, movement: u64 := 0, 0;
      if rejected.None? {
        steps, movement := ModelPath(q.kind, a, q.ranks, p);
      }
      list := list + [Candidate(a, rejected, steps, movement)];
    }
    out := Some(list);
  }

  // ---------------------------------------------------------------- selection

  /** The tie-break order: fewer steps, then fewer bytes, then the smaller enumeration value. */
  predicate Better(c: Candidate, b: Candidate) {
    if c.steps != b.steps then c.steps < b.steps
    else if c.movement != b.movement then c.movement < b.movement
    else Code(c.algorithm) < Code(b.algorithm)
  }

  predicate Real(q: Request, a: Algorithm) { a != BackendDefault && Feasible(q, a) }

  const TOLERANCE: real := 0.000_000_000_001

  /** Something was measured that the ranking uses. */
  predicate Measured(q: Request) { (q.bandwidth.Some? && q.bandwidth.value > 0) || q.latency.Some? }

  /** est_time, in nanoseconds. */
  function Time(q: Request, c: Candidate): real {
    (if q.bandwidth.Some? && q.bandwidth.value > 0 then c.movement as real / q.bandwidth.value as real * 1_000_000_000.0 else 0.0)
    + (if q.latency.Some? then c.steps as real * q.latency.value as real else 0.0)
  }

  /** The comparison of the first pass: clearly faster, or as fast within the tolerance and better. */
  predicate Preferred(q: Request, c: Candidate, b: Candidate) {
    if Measured(q) then
      var tc, tb := Time(q, c), Time(q, b);
      tc < tb - TOLERANCE || (-TOLERANCE < tc - tb < TOLERANCE && Better(c, b))
    else Better(c, b)
  }

  /** What selection promises with nothing measured: a feasible real algorithm that no other one
      beats; delegation to the backend only when there is none. */
  ghost predicate IsChoice(q: Request, p: u64, a: Algorithm) {
    if exists b :: Real(q, b) then
      Real(q, a) && forall b :: Real(q, b) && b != a ==> Better(CandidateOf(q, p, a), CandidateOf(q, p, b))
    else a == BackendDefault && Feasible(q, a)
  }

  /** No two estimates are so close that the tolerance blurs them. */
  ghost predicate Separated(q: Request, p: u64) {
    forall a, b :: Real(q, a) && Real(q, b) ==> TimesApart(q, CandidateOf(q, p, a), CandidateOf(q, p, b))
  }

  predicate TimesApart(q: Request, c: Candidate, d: Candidate) {
    Time(q, c) == Time(q, d) || Time(q, c) < Time(q, d) - TOLERANCE || Time(q, d) < Time(q, c) - TOLERANCE
  }

  /** What selection promises when something is measured: an estimate within eight tolerances of the
      least; and the best by time, steps, bytes and code whenever estimates are separated. */
  ghost predicate IsMeasuredChoice(q: Request, p: u64, a: Algorithm) {
    if exists b :: Real(q, b) then
      && Real(q, a)
      && (forall b :: Real(q, b) ==> Time(q, CandidateOf(q, p, a)) <= Time(q, CandidateOf(q, p, b)) + 8.0 * TOLERANCE)
      && (Separated(q, p) ==> forall b :: Real(q, b) && b != a ==> Preferred(q, CandidateOf(q, p, a), CandidateOf(q, p, b)))
    else a == BackendDefault && Feasible(q, a)
  }

  lemma AlgorithmAt(a: Algorithm)
    ensures ALGORITHMS[Code(a)] == a
  {
  }

  lemma CodeAt(i: nat)
    requires i < 8
    ensures Code(ALGORITHMS[i]) == i
  {
  }

  lemma BetterOrUnbeaten(x: Candidate, y: Candidate, z: Candidate)
    ensures Better(x, y) && Better(y, z) ==> Better(x, z)
    ensures Code(x.algorithm) != Code(y.algorithm) ==> Better(x, y) || Better(y, x)
  {
  }

  /** What the planner may answer: a refusal for its one reason, or a choice with its costs. */
  ghost predicate Answers(input: Option<Request>, r: Selection) {
    if input.None? then r == NoPlan(Validation)
    else
      var q := input.value;
      match Payload(q)
      case None => r == NoPlan(ArithmeticOverflow)
      case Some(p) =>
        || (r == NoPlan(Unsupported) && forall a :: !Feasible(q, a))
        || (r.Selected? && (Scan(q, p, 8).Some? ==> r.algorithm == Scan(q, p, 8).value)
            && (if Measured(q) then IsMeasuredChoice(q, p, r.algorithm) else IsChoice(q, p, r.algorithm))
            && r.steps == Steps(q.kind, r.algorithm, q.ranks)
            && r.movement == Movement(q.kind, r.algorithm, q.ranks, p))
  }

  /** The two selection passes of Planner::plan. */
  method Plan(input: Option<Request>) returns (r: Selection)
    requires input.Some? ==> input.value.ranks <= 0x8000_0000_0000_0000
    ensures Answers(input, r)
  {
    hide Rejection, Steps, Movement, Better, Time, Measured;
    if input.None? {
      return NoPlan(Validation);
    }
    var q := input.value;
    var payload := Payload(q);
    if payload.None? {
      return NoPlan(ArithmeticOverflow);
    }
    var p := payload.value;
    var found := Candidates(input);
    var cands := found.value;
    var best := BestReal(q, p, cands);
    if best == 8 {
      NoneReal(q, cands, p);
      best := Fallback(q, p, cands);
      if best == 8 {
        NoneFeasible(q, cands, p);
        return NoPlan(Unsupported);
      }
    } else {
      ChoiceMade(q, p, cands, best);
    }
    var steps, movement := ModelPath(q.kind, cands[best].algorithm, q.ranks, p);
    r := Selected(cands[best].algorithm, steps, movement);
  }

  /** The first pass as it goes: the best of the first i algorithms, each compared with the best so far. */
  function Scan(q: Request, p: u64, i: nat): (best: Option<Algorithm>)
    requires i <= 8
    ensures best.Some? ==> Real(q, best.value)
    ensures best.None? ==> forall k :: 0 <= k < i ==> !Real(q, ALGORITHMS[k])
  {
    if i == 0 then None
    else
      var a, before := ALGORITHMS[i - 1], Scan(q, p, i - 1);
      if Real(q, a) && (before.None? || Preferred(q, CandidateOf(q, p, a), CandidateOf(q, p, before.value))) then Some(a)
      else before
  }

  predicate Considered(c: Candidate) { c.rejected.None? && c.algorithm != BackendDefault }

  ghost predicate SeparatedList(q: Request, cands: seq<Candidate>) {
    forall i, j :: 0 <= i < |cands| && 0 <= j < |cands| && Considered(cands[i]) && Considered(cands[j]) ==>
                     TimesApart(q, cands[i], cands[j])
  }

  ghost predicate BestUpTo(q: Request, cands: seq<Candidate>, best: nat, n: nat)
    requires best < |cands| && n <= |cands|
  {
    && Considered(cands[best])
    && (Measured(q) ==> forall k :: 0 <= k < n && Considered(cands[k]) ==> Near(q, cands[best], cands[k], n))
    && (!Measured(q) || SeparatedList(q, cands) ==>
          forall k :: 0 <= k < n && k != best && Considered(cands[k]) ==> Preferred(q, cands[best], cands[k]))
  }

  predicate Near(q: Request, c: Candidate, b: Candidate, n: nat) {
    Time(q, c) <= Time(q, b) + n as real * TOLERANCE
  }

  /** First pass; 8 stands for "none yet". */
  method BestReal(q: Request, p: u64, cands: seq<Candidate>) returns (best: nat)
    requires IsCandidateList(q, p, cands)
    ensures best <= 8
    ensures best == 8 ==> forall k :: 0 <= k < 8 ==> !Considered(cands[k])
    ensures best < 8 ==> BestUpTo(q, cands, best, 8)
    ensures Scan(q, p, 8) == if best == 8 then None else Some(cands[best].algorithm)
  {
    hide Rejection, Steps, Movement, Preferred, BestUpTo;
    best := 8;
    for i := 0 to 8
      invariant best == 8 || best < i
      invariant best == 8 ==> forall k :: 0 <= k < i ==> !Considered(cands[k])
      invariant best < 8 ==> BestUpTo(q, cands, best, i)
      invariant Scan(q, p, i) == if best == 8 then None else Some(cands[best].algorithm)
    {
      assert cands[i] == CandidateOf(q, p, ALGORITHMS[i]);
      if Considered(cands[i]) {
        if best == 8 {
          FirstConsidered(q, cands, i);
          best := i;
        } else {
          CodeAt(best);
          CodeAt(i);
          NextConsidered(q, cands, best, i);
          if Preferred(q, cands[i], cands[best]) {
            best := i;
          }
        }
      } else if best < 8 {
        NotConsidered(q, cands, best, i);
      }
    }
  }

  lemma NotConsidered(q: Request, cands: seq<Candidate>, best: nat, i: nat)
    requires best < i < |cands| && !Considered(cands[i]) && BestUpTo(q, cands, best, i)
    ensures BestUpTo(q, cands, best, i + 1)
  {
    hide Time, Preferred, SeparatedList, Measured;
  }

  lemma FirstConsidered(q: Request, cands: seq<Candidate>, i: nat)
    requires i < |cands| && Considered(cands[i]) && forall k :: 0 <= k < i ==> !Considered(cands[k])
    ensures BestUpTo(q, cands, i, i + 1)
  {
    hide Time, Preferred, SeparatedList, Measured;
  }

  /** One round of the comparison against the best so far. */
  lemma NextConsidered(q: Request, cands: seq<Candidate>, best: nat, i: nat)
    requires best < i < |cands| && Considered(cands[i]) && BestUpTo(q, cands, best, i)
    requires Code(cands[i].algorithm) != Code(cands[best].algorithm)
    ensures BestUpTo(q, cands, if Preferred(q, cands[i], cands[best]) then i else best, i + 1)
  {
    hide Time, Better, Preferred, Measured;
    var now := if Preferred(q, cands[i], cands[best]) then i else best;
    forall k | 0 <= k < i + 1 && Considered(cands[k])
      ensures Measured(q) ==> Near(q, cands[now], cands[k], i + 1)
      ensures (!Measured(q) || SeparatedList(q, cands)) && k != now ==> Preferred(q, cands[now], cands[k])
    {
      if Measured(q) {
        OneTolerance(q, cands[i], cands[best], cands[k], i);
      }
      if !Measured(q) || SeparatedList(q, cands) {
        PreferredOrder(q, cands[i], cands[best], cands[k]);
      }
    }
  }

  /** Keeping or replacing the best moves its time by less than one tolerance. */
  lemma OneTolerance(q: Request, x: Candidate, best: Candidate, k: Candidate, n: nat)
    requires Measured(q) && (Near(q, best, k, n) || k == x)
    ensures Near(q, if Preferred(q, x, best) then x else best, k, n + 1)
  {
    hide Time, Better;
    assert (n + 1) as real * TOLERANCE == n as real * TOLERANCE + TOLERANCE && n as real * TOLERANCE >= 0.0;
  }

  /** Without blurred times the comparison is a strict total order. */
  lemma PreferredOrder(q: Request, x: Candidate, y: Candidate, z: Candidate)
    requires !Measured(q) || (TimesApart(q, x, y) && TimesApart(q, y, z) && TimesApart(q, x, z))
    ensures Preferred(q, x, y) && Preferred(q, y, z) ==> Preferred(q, x, z)
    ensures Code(x.algorithm) != Code(y.algorithm) ==> Preferred(q, x, y) || Preferred(q, y, x)
  {
    hide Time, Better;
    BetterOrUnbeaten(x, y, z);
  }

  predicate Cheaper(c: Candidate, b: Candidate) {
    c.steps < b.steps || (c.steps == b.steps && c.movement < b.movement)
  }

  /** Second pass, reached only when nothing real is feasible: the first of the cheapest. */
  method Fallback(q: Request, p: u64, cands: seq<Candidate>) returns (best: nat)
    requires IsCandidateList(q, p, cands)
    ensures best <= 8
    ensures best == 8 ==> forall k :: 0 <= k < 8 ==> cands[k].rejected.Some?
    ensures best < 8 ==> cands[best].rejected.None?
    ensures best < 8 ==> forall k :: 0 <= k < 8 && cands[k].rejected.None? ==>
              !Cheaper(cands[k], cands[best]) && (k < best ==> Cheaper(cands[best], cands[k]))
  {
    hide Rejection, Steps, Movement;
    best := 8;
    for i := 0 to 8
      invariant best == 8 || best < i
      invariant best == 8 ==> forall k :: 0 <= k < i ==> cands[k].rejected.Some?
      invariant best < 8 ==> cands[best].rejected.None?
      invariant best < 8 ==> forall k :: 0 <= k < i && cands[k].rejected.None? ==>
                  !Cheaper(cands[k], cands[best]) && (k < best ==> Cheaper(cands[best], cands[k]))
    {
      if cands[i].rejected.None? && (best == 8 || Cheaper(cands[i], cands[best])) {
        best := i;
      }
    }
  }

  lemma NoneReal(q: Request, cands: seq<Candidate>, p: u64)
    requires IsCandidateList(q, p, cands)
    requires forall k :: 0 <= k < 8 ==> !Considered(cands[k])
    ensures forall a :: !Real(q, a)
    ensures forall k :: 0 <= k < 8 && cands[k].rejected.None? ==> cands[k].algorithm == BackendDefault
  {
    hide Rejection, Steps, Movement;
    forall a
      ensures !Real(q, a)
    {
      AlgorithmAt(a);
      assert !Considered(cands[Code(a)]);
    }
  }

  lemma NoneFeasible(q: Request, cands: seq<Candidate>, p: u64)
    requires IsCandidateList(q, p, cands)
    requires forall k :: 0 <= k < 8 ==> cands[k].rejected.Some?
    ensures forall a :: !Feasible(q, a)
  {
    hide Rejection, Steps, Movement;
    forall a
      ensures !Feasible(q, a)
    {
      AlgorithmAt(a);
      assert cands[Code(a)].rejected.Some?;
    }
  }

  lemma ChoiceMade(q: Request, p: u64, cands: seq<Candidate>, best: nat)
    requires IsCandidateList(q, p, cands)
    requires best < 8 && BestUpTo(q, cands, best, 8)
    ensures if Measured(q) then IsMeasuredChoice(q, p, cands[best].algorithm) else IsChoice(q, p, cands[best].algorithm)
  {
    hide Rejection, Steps, Movement, Better, Time, Measured, TimesApart;
    var a := cands[best].algorithm;
    CodeAt(best);
    assert Real(q, a);
    if Measured(q) && Separated(q, p) {
      ListSeparated(q, p, cands);
    }
    forall b | Real(q, b)
      ensures Considered(cands[Code(b)]) && cands[Code(b)] == CandidateOf(q, p, b) && (b != a ==> Code(b) != best)
    {
      AlgorithmAt(b);
    }
  }

  lemma ListSeparated(q: Request, p: u64, cands: seq<Candidate>)
    requires IsCandidateList(q, p, cands) && Separated(q, p)
    ensures SeparatedList(q, cands)
  {
    hide Rejection, Steps, Movement, Time, TimesApart;
    forall i, j | 0 <= i < |cands| && 0 <= j < |cands| && Considered(cands[i]) && Considered(cands[j])
      ensures TimesApart(q, cands[i], cands[j])
    {
      assert Real(q, ALGORITHMS[i]) && Real(q, ALGORITHMS[j]);
    }
  }
}
