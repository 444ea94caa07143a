/** The in-process reference engine of include/collectivefabric/reference/engine.hpp.

    Buffers are byte sequences; `reinterpret_cast` to an element type is the little-endian word
    view.  What C++ leaves to the hardware (floating-point results) or leaves undefined (signed
    overflow) is one function parameter, `Platform`, on bit patterns. */
module ReferenceEngine {
  import opened Bytes
  import opened Foundation

  type Platform = (Datatype, ReductionOp, nat, nat) -> nat

  datatype EngineResult = Outputs(bytes: seq<seq<byte>>) | Failed(code: ErrorCode)

  // ---------------------------------------------------------------- elements

  function FromLE(bs: seq<byte>): (v: nat)
    ensures v < Pow256(|bs|)
  {
    if bs == [] then 0 else bs[0] + 256 * FromLE(bs[1..])
  }

  function ToLE(v: nat, n: nat): (bs: seq<byte>)
    ensures |bs| == n
  {
    if n == 0 then [] else [v % 256] + ToLE(v / 256, n - 1)
  }

  /** Two's complement reading of a bit pattern below `modulus`. */
  function Signed(x: nat, modulus: nat): int {
    if 2 * x >= modulus then x - modulus else x
  }

  function Unsigned(v: int, modulus: nat): int
  {
    if v < 0 then v + modulus else v
  }

  predicate Fits(v: int, modulus: nat) { 0 <= 2 * v + modulus && 2 * v < modulus }

  /** One application of reduce_i32, reduce_u32, reduce_i64, reduce_f32 or reduce_f64. */
  function Combine(pf: Platform, dt: Datatype, op: ReductionOp, x: nat, y: nat): nat {
    var m := Pow256(Width(dt));
    match dt
    case UInt32 =>
      (match op
       case Sum => (x + y) % m
       case Product => (x * y) % m
       case Min => if x < y then x else y
       case Max => if x > y then x else y
       case NoReduction => y)
    case Float32 | Float64 | Byte =>
      if op == NoReduction then y else pf(dt, op, x, y) % m
    case Int32 | Int64 =>
      var a, b := Signed(x, m), Signed(y, m);
      match op
      case Sum => if Fits(a + b, m) then Unsigned(a + b, m) % m else pf(dt, op, x, y) % m
      case Product => if Fits(a * b, m) then Unsigned(a * b, m) % m else pf(dt, op, x, y) % m
      case Min => if a < b then x else y
      case Max => if a > b then x else y
      case NoReduction => y
  }

  function Combiner(pf: Platform, dt: Datatype, op: ReductionOp): (nat, nat) -> nat {
    (x: nat, y: nat) => Combine(pf, dt, op, x, y)
  }

  predicate IsWidth(w: nat) { w == 1 || w == 4 || w == 8 }

  /** The buffer seen as elements of w bytes. */
  function Words(bs: seq<byte>, w: nat): (ws: seq<nat>)
    requires IsWidth(w)
    ensures |ws| == |bs| / w
    decreases |bs|
  {
    if |bs| < w then []
    else
      assert |bs| / w == (|bs| - w) / w + 1 by { DivStepDown(|bs|, w); }
      [FromLE(bs[..w])] + Words(bs[w..], w)
  }

  lemma DivStepDown(n: nat, w: nat)
    requires n >= w && IsWidth(w)
    ensures n / w == (n - w) / w + 1
  {
    if w == 1 {
    } else if w == 4 {
    } else {
      assert w == 8;
    }
  }

  function BytesOf(ws: seq<nat>, w: nat): seq<byte> {
    if ws == [] then [] else ToLE(ws[0], w) + BytesOf(ws[1..], w)
  }

  // ---------------------------------------------------------------- specification

  /** Left fold in rank order: op(...op(op(x0, x1), x2)..., xn). */
  function Fold(f: (nat, nat) -> nat, xs: seq<nat>): nat
    requires xs != []
  {
    if |xs| == 1 then xs[0] else f(Fold(f, xs[..|xs| - 1]), xs[|xs| - 1])
  }

  ghost predicate SameLength(rows: seq<seq<nat>>, len: nat) {
    forall r :: 0 <= r < |rows| ==> |rows[r]| == len
  }

  /** Element i of every rank, in rank order. */
  function Column(rows: seq<seq<nat>>, i: nat): (c: seq<nat>)
    requires forall r :: 0 <= r < |rows| ==> i < |rows[r]|
    ensures |c| == |rows| && forall r :: 0 <= r < |c| ==> c[r] == rows[r][i]
  {
    seq(|rows|, r requires 0 <= r < |rows| => rows[r][i])
  }

  function FoldColumns(f: (nat, nat) -> nat, rows: seq<seq<nat>>, len: nat): (ws: seq<nat>)
    requires rows != [] && forall r :: 0 <= r < |rows| ==> |rows[r]| == len
    ensures |ws| == len && forall i :: 0 <= i < len ==> ws[i] == Fold(f, Column(rows, i))
  {
    seq(len, i requires 0 <= i < len => Fold(f, Column(rows, i)))
  }

  function AllWords(inputs: seq<seq<byte>>, w: nat): (rows: seq<seq<nat>>)
    requires IsWidth(w)
    ensures |rows| == |inputs| && forall r :: 0 <= r < |rows| ==> rows[r] == Words(inputs[r], w)
  {
    seq(|inputs|, r requires 0 <= r < |inputs| => Words(inputs[r], w))
  }

  predicate AllSized(inputs: seq<seq<byte>>, size: nat) {
    forall r :: 0 <= r < |inputs| ==> |inputs[r]| == size
  }

  /** The reduction of equally long rank buffers. */
  function Reduced(pf: Platform, dt: Datatype, op: ReductionOp, inputs: seq<seq<byte>>, size: nat): seq<byte>
    requires inputs != [] && AllSized(inputs, size)
  {
    BytesOf(FoldColumns(Combiner(pf, dt, op), AllWords(inputs, Width(dt)), size / Width(dt)), Width(dt))
  }

  function Copies(n: nat, b: seq<byte>): (s: seq<seq<byte>>)
    ensures |s| == n && forall r :: 0 <= r < n ==> s[r] == b
  {
    seq(n, _ => b)
  }

  function Concat(bs: seq<seq<byte>>): seq<byte> {
    if bs == [] then [] else bs[0] + Concat(bs[1..])
  }

  /** k * n as a repeated sum. */
  function Times(k: nat, n: nat): nat { if n == 0 then 0 else k + Times(k, n - 1) }

  lemma {:induction false} TimesIsProduct(k: nat, n: nat)
    ensures Times(k, n) == Mul(k, n)
  {
    if n > 0 {
      TimesIsProduct(k, n - 1);
      assert k * n == k + k * (n - 1);
    }
  }

  lemma {:induction false} TimesMonotone(k: nat, m: nat, n: nat)
    requires m <= n
    ensures Times(k, m) <= Times(k, n)
  {
    if m > 0 {
      TimesMonotone(k, m - 1, n - 1);
    }
  }

  /** Block b of a buffer cut into blocks of the given size. */
  function Slice(s: seq<byte>, b: nat, size: nat): (t: seq<byte>)
    requires |s| >= Times(size, b + 1)
    ensures |t| == size
    decreases b
  {
    if b == 0 then s[..size] else Slice(s[size..], b - 1, size)
  }

  lemma {:induction false} SliceAt(s: seq<byte>, b: nat, size: nat)
    requires |s| >= Times(size, b + 1)
    ensures Times(size, b) + size <= |s| && Slice(s, b, size) == s[Times(size, b)..Times(size, b) + size]
    decreases b
  {
    if b > 0 {
      SliceAt(s[size..], b - 1, size);
    }
  }

  /** Block b of every rank's buffer. */
  function Block(inputs: seq<seq<byte>>, b: nat, size: nat): (s: seq<seq<byte>>)
    requires forall r :: 0 <= r < |inputs| ==> |inputs[r]| >= Times(size, b + 1)
    ensures |s| == |inputs| && AllSized(s, size)
    ensures forall r :: 0 <= r < |s| ==> s[r] == Slice(inputs[r], b, size)
  {
    seq(|inputs|, r requires 0 <= r < |inputs| => Slice(inputs[r], b, size))
  }

  predicate LongEnough(inputs: seq<seq<byte>>, size: nat) {
    forall r :: 0 <= r < |inputs| ==> |inputs[r]| >= size
  }

  /** checksize: enough inputs, the first n of the given size. */
  predicate Contributed(inputs: seq<seq<byte>>, size: nat, n: nat) { n <= |inputs| && AllSized(inputs[..n], size) }

  /** What the engine demands of its caller and does not check, once the sizes are known to fit:
      reduce and all_reduce write to an output they take to exist; all_gather and reduce_scatter go
      through the ranks until one has the wrong size, and all_gather copies `per` bytes from every
      rank before it has looked at any but the first. */
  predicate Defined(kind: CollectiveKind, per: nat, root: nat, n: nat, inputs: seq<seq<byte>>) {
    per < U64_LIMIT && Mul(per, n) < U64_LIMIT ==>
      match kind
      case Reduce => Contributed(inputs, per, n) ==> root < n
      case AllReduce => n >= 1
      case AllGather =>
        n > 0 ==> |inputs| > 0 && (|inputs[0]| == per ==> n <= |inputs| && LongEnough(inputs[..n], per))
      case ReduceScatter => n <= |inputs| || !AllSized(inputs, Mul(per, n))
      case Barrier => true
      case Broadcast => true
  }

  /** The outputs of reduce_scatter: rank b gets the reduction of everyone's block b. */
  function Scattered(pf: Platform, dt: Datatype, op: ReductionOp, inputs: seq<seq<byte>>,
                     per: nat, n: nat): (s: seq<seq<byte>>)
    requires n > 0 ==> inputs != []
    requires AllSized(inputs, Times(per, n))
    ensures |s| == n
  {
    seq(n, b requires 0 <= b < n => BlockReduced(pf, dt, op, inputs, per, n, b))
  }

  function BlockReduced(pf: Platform, dt: Datatype, op: ReductionOp, inputs: seq<seq<byte>>,
                        per: nat, n: nat, b: nat): seq<byte>
    requires b < n && inputs != [] && AllSized(inputs, Times(per, n))
  {
    TimesMonotone(per, b + 1, n);
    Reduced(pf, dt, op, Block(inputs, b, per), per)
  }

  /** ReferenceEngine::execute */
  function Executed(pf: Platform, kind: CollectiveKind, op: ReductionOp, dt: Datatype,
                    count: u64, root: nat, n: u64, inputs: seq<seq<byte>>): EngineResult
    requires Defined(kind, Mul(count, Width(dt)), root, n, inputs)
  {
    var p := CheckedMul(count, Width(dt));
    if p.None? then Failed(ArithmeticOverflow)
    else
      var per := p.value;
      var total := CheckedMul(per, n);
      if total.None? then Failed(ArithmeticOverflow)
      else
        match kind
        case Barrier => Outputs(Copies(n, []))
        case Broadcast =>
          if root >= |inputs| || |inputs[root]| != per then Failed(Validation)
          else Outputs(Copies(n, inputs[root]))
        case Reduce =>
          if !Contributed(inputs, per, n) || dt == Byte then Failed(Validation)
          else Outputs(Copies(n, [])[root := Reduced(pf, dt, op, inputs[..n], per)])
        case AllReduce =>
          if !Contributed(inputs, per, n) || dt == Byte then Failed(Validation)
          else Outputs(Copies(n, Reduced(pf, dt, op, inputs[..n], per)))
        case AllGather =>
          if !Contributed(inputs, per, n) then Failed(Validation)
          else Outputs(Copies(n, Concat(inputs[..n])))
        case ReduceScatter =>
          if !Contributed(inputs, total.value, n) || (dt == Byte && n > 0) then Failed(Validation)
          else
            TimesIsProduct(per, n);
            Outputs(Scattered(pf, dt, op, inputs[..n], per, n))
  }

  // ---------------------------------------------------------------- implementation

  /** One pass of the inner loop: every element is combined with the source element at its place. */
  method FoldRow(f: (nat, nat) -> nat, row: seq<nat>, dst: array<nat>)
    requires |row| == dst.Length
    modifies dst
    ensures forall k :: 0 <= k < dst.Length ==> dst[k] == f(old(dst[k]), row[k])
  {
    for i := 0 to dst.Length
      invariant forall k :: 0 <= k < i ==> dst[k] == f(old(dst[k]), row[k])
      invariant forall k :: i <= k < dst.Length ==> dst[k] == old(dst[k])
    {
      dst[i] := f(dst[i], row[i]);
    }
  }

  /** The in-place loops: rank 0 is copied, every later rank is folded in element by element. */
  method DoReduce(f: (nat, nat) -> nat, rows: seq<seq<nat>>, dst: array<nat>)
    requires rows != [] && SameLength(rows, dst.Length)
    modifies dst
    ensures dst[..] == FoldColumns(f, rows, dst.Length)
  {
    var n := dst.Length;
    for i := 0 to n
      invariant forall k :: 0 <= k < i ==> dst[k] == rows[0][k]
    {
      dst[i] := rows[0][i];
    }
    var r := 1;
    FirstColumn(f, rows, n);
    while r < |rows|
      invariant 1 <= r <= |rows|
      invariant SameLength(rows[..r], n)
      invariant forall k :: 0 <= k < n ==> dst[k] == Fold(f, Column(rows[..r], k))
    {
      NextColumn(f, rows, r, n);
      FoldRow(f, rows[r], dst);
      r := r + 1;
    }
    assert rows[..r] == rows;
  }

  lemma FirstColumn(f: (nat, nat) -> nat, rows: seq<seq<nat>>, n: nat)
    requires rows != [] && SameLength(rows, n)
    ensures forall k :: 0 <= k < n ==> Fold(f, Column(rows[..1], k)) == rows[0][k]
  {
  }

  lemma NextColumn(f: (nat, nat) -> nat, rows: seq<seq<nat>>, r: nat, n: nat)
    requires 1 <= r < |rows| && SameLength(rows, n)
    ensures forall k :: 0 <= k < n ==>
              Fold(f, Column(rows[..r + 1], k)) == f(Fold(f, Column(rows[..r], k)), rows[r][k])
  {
    forall k | 0 <= k < n
      ensures Fold(f, Column(rows[..r + 1], k)) == f(Fold(f, Column(rows[..r], k)), rows[r][k])
    {
      var c := Column(rows[..r + 1], k);
      assert c[..|c| - 1] == Column(rows[..r], k);
    }
  }

  /** reduce_into: the buffers viewed as elements, folded, and written back as bytes. */
  method ReduceInto(pf: Platform, dt: Datatype, op: ReductionOp, inputs: seq<seq<byte>>, size: nat)
    returns (ok: bool, out: seq<byte>)
    requires inputs != [] && AllSized(inputs, size)
    ensures ok == (dt != Byte)
    ensures ok ==> out == Reduced(pf, dt, op, inputs, size)
  {
    if dt == Byte {
      return false, [];
    }
    var dst := new nat[size / Width(dt)];
    DoReduce(Combiner(pf, dt, op), AllWords(inputs, Width(dt)), dst);
    return true, BytesOf(dst[..], Width(dt));
  }

  method Execute(pf: Platform, kind: CollectiveKind, op: ReductionOp, dt: Datatype,
                 count: u64, root: nat, n: u64, inputs: seq<seq<byte>>) returns (res: EngineResult)
    requires Defined(kind, Mul(count, Width(dt)), root, n, inputs)
    ensures res == Executed(pf, kind, op, dt, count, root, n, inputs)
  {
    var p := CheckedMul(count, Width(dt));
    if p.None? {
      return Failed(ArithmeticOverflow);
    }
    var per := p.value;
    if CheckedMul(per, n).None? {
      return Failed(ArithmeticOverflow);
    }
    match kind {
      case Barrier =>
        res := Outputs(Copies(n, []));
      case Broadcast =>
        res := BroadcastFrom(inputs, per, root, n);
      case Reduce =>
        res := ReduceTo(pf, dt, op, inputs, per, root, n);
      case AllReduce =>
        res := AllReduceOf(pf, dt, op, inputs, per, n);
      case AllGather =>
        res := Gather(inputs, per, n);
      case ReduceScatter =>
        TimesIsProduct(per, n);
        res := Scatter(pf, dt, op, inputs, per, n);
    }
  }

  method BroadcastFrom(inputs: seq<seq<byte>>, per: nat, root: nat, n: nat) returns (res: EngineResult)
    ensures res == if root >= |inputs| || |inputs[root]| != per then Failed(Validation)
                   else Outputs(Copies(n, inputs[root]))
  {
    if root >= |inputs| || |inputs[root]| != per {
      return Failed(Validation);
    }
    var outputs := Copies(n, []);
    for r := 0 to n
      invariant |outputs| == n && forall k :: 0 <= k < r ==> outputs[k] == inputs[root]
    {
      outputs := outputs[r := inputs[root]];
    }
    assert outputs == Copies(n, inputs[root]);
    res := Outputs(outputs);
  }

  /** checksize */
  method CheckSizes(inputs: seq<seq<byte>>, per: nat, n: nat) returns (ok: bool)
    ensures ok <==> Contributed(inputs, per, n)
  {
    if |inputs| < n {
      return false;
    }
    for r := 0 to n
      invariant forall k :: 0 <= k < r ==> |inputs[k]| == per
    {
      if |inputs[r]| != per {
        assert inputs[..n][r] == inputs[r];
        return false;
      }
    }
    ok := true;
  }

  method ReduceTo(pf: Platform, dt: Datatype, op: ReductionOp, inputs: seq<seq<byte>>,
                  per: nat, root: nat, n: nat) returns (res: EngineResult)
    requires Contributed(inputs, per, n) ==> root < n
    ensures res == if !Contributed(inputs, per, n) || dt == Byte then Failed(Validation)
                   else Outputs(Copies(n, [])[root := Reduced(pf, dt, op, inputs[..n], per)])
  {
    var ok := CheckSizes(inputs, per, n);
    if !ok {
      return Failed(Validation);
    }
    var outputs := Copies(n, []);
    var out;
    ok, out := ReduceInto(pf, dt, op, inputs[..n], per);
    if !ok {
      return Failed(Validation);
    }
    res := Outputs(outputs[root := out]);
  }

  method AllReduceOf(pf: Platform, dt: Datatype, op: ReductionOp, inputs: seq<seq<byte>>,
                     per: nat, n: nat) returns (res: EngineResult)
    requires n >= 1
    ensures res == if !Contributed(inputs, per, n) || dt == Byte then Failed(Validation)
                   else Outputs(Copies(n, Reduced(pf, dt, op, inputs[..n], per)))
  {
    var ok := CheckSizes(inputs, per, n);
    if !ok {
      return Failed(Validation);
    }
    var outputs := Copies(n, []);
    var out;
    ok, out := ReduceInto(pf, dt, op, inputs[..n], per);
    if !ok {
      return Failed(Validation);
    }
    outputs := outputs[0 := out];
    for r := 1 to n
      invariant |outputs| == n && forall k :: 0 <= k < r ==> outputs[k] == out
    {
      outputs := outputs[r := outputs[0]];
    }
    assert outputs == Copies(n, out);
    res := Outputs(outputs);
  }

  /** Every rank's turn checks that rank's size and copies `per` bytes from all ranks. */
  method Gather(inputs: seq<seq<byte>>, per: nat, n: nat) returns (res: EngineResult)
    requires n > 0 ==> |inputs| > 0 && (|inputs[0]| == per ==> n <= |inputs| && LongEnough(inputs[..n], per))
    ensures res == if !Contributed(inputs, per, n) then Failed(Validation)
                   else Outputs(Copies(n, Concat(inputs[..n])))
  {
    var outputs := Copies(n, []);
    for r := 0 to n
      invariant |outputs| == n
      invariant r > 0 ==> n <= |inputs| && LongEnough(inputs[..n], per)
      invariant r > 0 ==> forall k :: 0 <= k < r ==> |inputs[k]| == per && outputs[k] == Concat(Heads(inputs[..n], per))
    {
      if |inputs[r]| != per {
        assert n <= |inputs| ==> inputs[..n][r] == inputs[r];
        return Failed(Validation);
      }
      var buffer := CopyAll(inputs, per, n);
      outputs := outputs[r := buffer];
    }
    WholeHeads(inputs[..n], per);
    assert outputs == Copies(n, Concat(inputs[..n]));
    res := Outputs(outputs);
  }

  /** The inner loop: `per` bytes from every rank, one after the other. */
  method CopyAll(inputs: seq<seq<byte>>, per: nat, n: nat) returns (buffer: seq<byte>)
    requires n <= |inputs| && LongEnough(inputs[..n], per)
    ensures buffer == Concat(Heads(inputs[..n], per))
  {
    var ranks := inputs[..n];
    buffer := [];
    for i := 0 to n
      invariant buffer == Concat(Heads(ranks[..i], per))
    {
      ConcatSnoc(Heads(ranks[..i], per), ranks[i][..per]);
      assert Heads(ranks[..i + 1], per) == Heads(ranks[..i], per) + [ranks[i][..per]];
      buffer := buffer + ranks[i][..per];
    }
    assert ranks[..n] == ranks;
  }

  /** The first `size` bytes of every buffer. */
  function Heads(ranks: seq<seq<byte>>, size: nat): (hs: seq<seq<byte>>)
    requires LongEnough(ranks, size)
    ensures |hs| == |ranks| && forall r :: 0 <= r < |hs| ==> hs[r] == ranks[r][..size]
  {
    seq(|ranks|, r requires 0 <= r < |ranks| => ranks[r][..size])
  }

  lemma WholeHeads(ranks: seq<seq<byte>>, size: nat)
    requires AllSized(ranks, size)
    ensures LongEnough(ranks, size) && Heads(ranks, size) == ranks
  {
    forall r | 0 <= r < |ranks|
      ensures Heads(ranks, size)[r] == ranks[r]
    {
      assert |ranks[r]| == size;
    }
  }

  lemma {:induction false} ConcatSnoc(bs: seq<seq<byte>>, b: seq<byte>)
    ensures Concat(bs + [b]) == Concat(bs) + b
  {
    if bs == [] {
      assert [b][1..] == [];
      assert Concat([b]) == b + [];
    } else {
      ConcatSnoc(bs[1..], b);
      assert (bs + [b])[1..] == bs[1..] + [b];
    }
  }

  /** The block_inputs loop: rank r's span starts b * per bytes into its buffer. */
  method BlockInputs(ranks: seq<seq<byte>>, b: nat, per: nat) returns (blocks: seq<seq<byte>>)
    requires forall r :: 0 <= r < |ranks| ==> |ranks[r]| >= Times(per, b + 1)
    ensures blocks == Block(ranks, b, per)
  {
    TimesIsProduct(per, b);
    blocks := [];
    for r := 0 to |ranks|
      invariant |blocks| == r && forall k :: 0 <= k < r ==> blocks[k] == Slice(ranks[k], b, per)
    {
      SliceAt(ranks[r], b, per);
      blocks := blocks + [ranks[r][per * b..per * b + per]];
    }
    assert blocks == Block(ranks, b, per);
  }

  method Scatter(pf: Platform, dt: Datatype, op: ReductionOp, inputs: seq<seq<byte>>,
                 per: nat, n: nat) returns (res: EngineResult)
    requires n <= |inputs| || !AllSized(inputs, Times(per, n))
    ensures res == if !Contributed(inputs, Times(per, n), n) || (dt == Byte && n > 0) then Failed(Validation)
                   else Outputs(Scattered(pf, dt, op, inputs[..n], per, n))
  {
    TimesIsProduct(per, n);
    for r := 0 to n
      invariant r <= |inputs| && forall k :: 0 <= k < r ==> |inputs[k]| == Times(per, n)
    {
      if |inputs[r]| != per * n {
        assert n <= |inputs| ==> inputs[..n][r] == inputs[r];
        return Failed(Validation);
      }
    }
    var ok;
    var ranks := inputs[..n];
    var outputs := Copies(n, []);
    for b := 0 to n
      invariant |outputs| == n
      invariant dt == Byte ==> b == 0
      invariant dt != Byte ==> forall k :: 0 <= k < b ==> outputs[k] == BlockReduced(pf, dt, op, ranks, per, n, k)
    {
      TimesMonotone(per, b + 1, n);
      var blocks := BlockInputs(ranks, b, per);
      var out;
      ok, out := ReduceInto(pf, dt, op, blocks, per);
      if !ok {
        return Failed(Validation);
      }
      outputs := outputs[b := out];
    }
    assert dt != Byte ==> outputs == Scattered(pf, dt, op, ranks, per, n);
    res := Outputs(outputs);
    ScatteredEmpty(pf, dt, op, ranks, per, n, outputs);
  }

  lemma ScatteredEmpty(pf: Platform, dt: Datatype, op: ReductionOp, ranks: seq<seq<byte>>,
                       per: nat, n: nat, outputs: seq<seq<byte>>)
    requires n > 0 ==> ranks != []
    requires AllSized(ranks, Times(per, n)) && |outputs| == n
    ensures n == 0 ==> outputs == Scattered(pf, dt, op, ranks, per, n)
  {
  }
}
