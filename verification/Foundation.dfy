/** Enumerations, error codes, checked arithmetic and generations shared by the runtime
    (include/collectivefabric/foundation). */
module Foundation {
  import opened Bytes

  datatype Option<+T> = None | Some(value: T)

  datatype ErrorCode =
    | Validation | ArithmeticOverflow | Conflict | NotFound | AlreadyExists | Unsupported | Lifecycle

  datatype CollectiveKind = Barrier | Broadcast | Reduce | AllReduce | AllGather | ReduceScatter

  datatype ReductionOp = Sum | Product | Min | Max | NoReduction

  datatype Datatype = Int32 | UInt32 | Int64 | Float32 | Float64 | Byte

  function Width(dt: Datatype): (w: nat)
    ensures w == 1 || w == 4 || w == 8
    ensures (w == 1 <==> dt == Byte) && (w == 8 <==> dt == Int64 || dt == Float64)
  {
    match dt
    case Int32 => 4
    case UInt32 => 4
    case Int64 => 8
    case Float32 => 4
    case Float64 => 8
    case Byte => 1
  }

  /** a * b, named so that proofs can keep it folded. */
  function Mul(a: nat, b: nat): nat { a * b }

  /** checked_mul: a quotient test, no product is formed until it is known to fit.  It refuses
      exactly the products that do not fit. */
  function CheckedMul(a: u64, b: u64): (r: Option<nat>)
    ensures r == if Mul(a, b) < U64_LIMIT then Some(Mul(a, b)) else None
  {
    QuotientTest(a, b);
    if a == 0 || b == 0 then Some(0)
    else if a > (U64_LIMIT - 1) / b then None
    else Some(a * b)
  }

  lemma QuotientTest(a: u64, b: u64)
    ensures a == 0 || b == 0 ==> Mul(a, b) == 0
    ensures b > 0 ==> (a > (U64_LIMIT - 1) / b <==> Mul(a, b) >= U64_LIMIT)
  {
    if a > 0 && b > 0 {
      var q := (U64_LIMIT - 1) / b;
      var r := (U64_LIMIT - 1) % b;
      assert U64_LIMIT - 1 == b * q + r && 0 <= r < b;
      MulMonotone(q + 1, a, b);
      MulMonotone(a, q, b);
      assert Mul(q, b) == b * q && Mul(q + 1, b) == b * q + b;
    } else {
      assert a * b == 0;
    }
  }

  lemma MulMonotone(a: nat, c: nat, b: nat)
    ensures a <= c ==> Mul(a, b) <= Mul(c, b)
  {
    if a <= c {
      assert c * b == a * b + (c - a) * b;
      assert (c - a) * b >= 0;
    }
  }

  /** Generation::next, which saturates instead of wrapping. */
  function NextGeneration(g: u64): (n: u64)
    ensures n == if g < U64_LIMIT - 1 then g + 1 else g
  {
    if g == 0 then 1 else if g == U64_LIMIT - 1 then g else g + 1
  }
}
