/** Identities between the collectives of the reference engine. */
module EngineLaws {
  import opened Bytes
  import opened Foundation
  import opened Permutations
  import opened ReferenceEngine

  // ---------------------------------------------------------------- cutting buffers

  lemma DivAdd(a: nat, b: nat, w: nat)
    requires IsWidth(w) && a % w == 0
    ensures (a + b) / w == a / w + b / w
  {
  }

  lemma ModStepDown(n: nat, w: nat)
    requires IsWidth(w) && n % w == 0 && n > 0
    ensures n >= w && (n - w) % w == 0
  {
    if w == 1 {
    } else if w == 4 {
    } else {
      assert w == 8;
    }
  }

  lemma {:induction false} WordsConcat(a: seq<byte>, b: seq<byte>, w: nat)
    requires IsWidth(w) && |a| % w == 0
    ensures Words(a + b, w) == Words(a, w) + Words(b, w)
    decreases |a|
  {
    hide FromLE;
    if a == [] {
      assert a + b == b;
    } else {
      ModStepDown(|a|, w);
      var all := a + b;
      assert all[..w] == a[..w] && all[w..] == a[w..] + b;
      assert Words(all, w) == [FromLE(all[..w])] + Words(all[w..], w);
      assert Words(a, w) == [FromLE(a[..w])] + Words(a[w..], w);
      WordsConcat(a[w..], b, w);
    }
  }

  lemma Associate<T>(a: seq<T>, b: seq<T>, c: seq<T>)
    ensures a + (b + c) == (a + b) + c
  {
  }

  lemma {:induction false} BytesOfConcat(x: seq<nat>, y: seq<nat>, w: nat)
    ensures BytesOf(x + y, w) == BytesOf(x, w) + BytesOf(y, w)
  {
    if x == [] {
      assert x + y == y;
    } else {
      BytesOfStep(x, y, w);
      BytesOfConcat(x[1..], y, w);
      Associate(ToLE(x[0], w), BytesOf(x[1..], w), BytesOf(y, w));
    }
  }

  lemma BytesOfStep(x: seq<nat>, y: seq<nat>, w: nat)
    requires x != []
    ensures BytesOf(x + y, w) == ToLE(x[0], w) + BytesOf(x[1..] + y, w)
    ensures BytesOf(x, w) == ToLE(x[0], w) + BytesOf(x[1..], w)
  {
    hide ToLE;
    assert (x + y)[1..] == x[1..] + y;
  }

  lemma {:induction false} BytesOfLength(ws: seq<nat>, w: nat)
    ensures |BytesOf(ws, w)| == |ws| * w
  {
    if ws != [] {
      BytesOfLength(ws[1..], w);
    }
  }

  lemma ReducedLength(pf: Platform, dt: Datatype, op: ReductionOp, inputs: seq<seq<byte>>, size: nat)
    requires inputs != [] && AllSized(inputs, size) && size % Width(dt) == 0
    ensures |Reduced(pf, dt, op, inputs, size)| == size
  {
    hide Fold, Combine, Column;
    var w := Width(dt);
    BytesOfLength(FoldColumns(Combiner(pf, dt, op), AllWords(inputs, w), size / w), w);
    WholeDivision(size, w);
  }

  lemma WholeDivision(size: nat, w: nat)
    requires w > 0 && size % w == 0
    ensures size / w * w == size
  {
  }

  /** Reducing is element-wise, so it commutes with cutting every buffer at the same place. */
  lemma ReducedConcat(pf: Platform, dt: Datatype, op: ReductionOp,
                      whole: seq<seq<byte>>, heads: seq<seq<byte>>, tails: seq<seq<byte>>, h: nat, t: nat)
    requires whole != [] && |whole| == |heads| == |tails|
    requires AllSized(whole, h + t) && AllSized(heads, h) && AllSized(tails, t)
    requires forall r :: 0 <= r < |whole| ==> whole[r] == heads[r] + tails[r]
    requires h % Width(dt) == 0
    ensures Reduced(pf, dt, op, whole, h + t) == Reduced(pf, dt, op, heads, h) + Reduced(pf, dt, op, tails, t)
  {
    hide Words, FromLE, BytesOf, Fold, Combine, Pow256, Width;
    var w, f := Width(dt), Combiner(pf, dt, op);
    var x, y, z := AllWords(whole, w), AllWords(heads, w), AllWords(tails, w);
    var n, m := h / w, t / w;
    assert (h + t) / w == n + m by { DivAdd(h, t, w); }
    forall r | 0 <= r < |whole|
      ensures x[r] == y[r] + z[r]
    {
      WordsConcat(heads[r], tails[r], w);
    }
    FoldColumnsConcat(f, x, y, z, n, m);
    BytesOfConcat(FoldColumns(f, y, n), FoldColumns(f, z, m), w);
  }

  lemma FoldColumnsConcat(f: (nat, nat) -> nat, x: seq<seq<nat>>, y: seq<seq<nat>>, z: seq<seq<nat>>, n: nat, m: nat)
    requires x != [] && |x| == |y| == |z|
    requires SameLength(y, n) && SameLength(z, m) && SameLength(x, n + m)
    requires forall r :: 0 <= r < |x| ==> x[r] == y[r] + z[r]
    ensures FoldColumns(f, x, n + m) == FoldColumns(f, y, n) + FoldColumns(f, z, m)
  {
    forall i | 0 <= i < n + m
      ensures FoldColumns(f, x, n + m)[i] == (FoldColumns(f, y, n) + FoldColumns(f, z, m))[i]
    {
      if i < n {
        assert Column(x, i) == Column(y, i);
      } else {
        assert Column(x, i) == Column(z, i - n);
      }
    }
  }

  function Tails(inputs: seq<seq<byte>>, per: nat): (s: seq<seq<byte>>)
    requires forall r :: 0 <= r < |inputs| ==> per <= |inputs[r]|
    ensures |s| == |inputs| && forall r :: 0 <= r < |s| ==> s[r] == inputs[r][per..]
  {
    seq(|inputs|, r requires 0 <= r < |inputs| => inputs[r][per..])
  }

  /** Reducing block by block and concatenating is reducing the whole buffers. */
  lemma {:induction false} ScatteredConcat(pf: Platform, dt: Datatype, op: ReductionOp,
                                           inputs: seq<seq<byte>>, per: nat, n: nat)
    requires inputs != [] && AllSized(inputs, Times(per, n)) && per % Width(dt) == 0
    ensures Concat(Scattered(pf, dt, op, inputs, per, n)) == Reduced(pf, dt, op, inputs, Times(per, n))
    decreases n
  {
    hide Reduced, Scattered, Width, Times, Words, Slice;
    if n == 0 {
      NothingScattered(pf, dt, op, inputs, per);
    } else {
      var t := Times(per, n - 1);
      TimesUnfold(per, n);
      HeadsAndTails(inputs, per);
      var head, rest := Block(inputs, 0, per), Tails(inputs, per);
      ReducedConcat(pf, dt, op, inputs, head, rest, per, t);
      ScatteredConcat(pf, dt, op, rest, per, n - 1);
      ScatteredSplit(pf, dt, op, inputs, per, n);
      var s := Scattered(pf, dt, op, rest, per, n - 1);
      var x := Reduced(pf, dt, op, head, per);
      assert ([x] + s)[1..] == s;
    }
  }

  lemma NothingScattered(pf: Platform, dt: Datatype, op: ReductionOp, inputs: seq<seq<byte>>, per: nat)
    requires inputs != [] && AllSized(inputs, Times(per, 0))
    ensures Concat(Scattered(pf, dt, op, inputs, per, 0)) == Reduced(pf, dt, op, inputs, Times(per, 0))
  {
    ReducedLength(pf, dt, op, inputs, 0);
  }

  lemma HeadsAndTails(inputs: seq<seq<byte>>, per: nat)
    requires forall r :: 0 <= r < |inputs| ==> per <= |inputs[r]|
    ensures Times(per, 1) == per
    ensures forall r :: 0 <= r < |inputs| ==> inputs[r] == Block(inputs, 0, per)[r] + Tails(inputs, per)[r]
  {
    assert Times(per, 1) == per + Times(per, 0);
  }

  lemma ScatteredSplit(pf: Platform, dt: Datatype, op: ReductionOp,
                       inputs: seq<seq<byte>>, per: nat, n: nat)
    requires inputs != [] && AllSized(inputs, Times(per, n)) && n > 0
    ensures Scattered(pf, dt, op, inputs, per, n)
         == [Reduced(pf, dt, op, Block(inputs, 0, per), per)]
            + Scattered(pf, dt, op, Tails(inputs, per), per, n - 1)
  {
    hide Reduced, Width, Slice, Times, Tails;
    assert Times(per, n) == per + Times(per, n - 1) by { TimesUnfold(per, n); }
    hide Scattered, BlockReduced, Block;
    var all := Scattered(pf, dt, op, inputs, per, n);
    var rest := Scattered(pf, dt, op, Tails(inputs, per), per, n - 1);
    ScatteredAt(pf, dt, op, inputs, per, n, 0);
    forall b | 0 < b < n
      ensures all[b] == rest[b - 1]
    {
      ScatteredAt(pf, dt, op, inputs, per, n, b);
      ScatteredAt(pf, dt, op, Tails(inputs, per), per, n - 1, b - 1);
      TimesMonotone(per, b + 1, n);
      BlockOfTails(inputs, b, per);
    }
  }

  lemma ScatteredAt(pf: Platform, dt: Datatype, op: ReductionOp, inputs: seq<seq<byte>>, per: nat, n: nat, b: nat)
    requires inputs != [] && AllSized(inputs, Times(per, n)) && b < n
    ensures Times(per, b + 1) <= Times(per, n)
    ensures Scattered(pf, dt, op, inputs, per, n)[b] == Reduced(pf, dt, op, Block(inputs, b, per), per)
  {
    hide Reduced, Width, Slice, Times, Block;
    TimesMonotone(per, b + 1, n);
  }

  lemma TimesUnfold(per: nat, n: nat)
    requires n > 0
    ensures Times(per, n) == per + Times(per, n - 1)
  {
  }

  lemma BlockOfTails(inputs: seq<seq<byte>>, b: nat, per: nat)
    requires b > 0 && forall r :: 0 <= r < |inputs| ==> |inputs[r]| >= Times(per, b + 1)
    ensures Block(inputs, b, per) == Block(Tails(inputs, per), b - 1, per)
  {
  }

  // ---------------------------------------------------------------- collective identities

  /** all_reduce is reduce to any root followed by broadcast from that root. */
  lemma AllReduceIsReduceThenBroadcast(pf: Platform, op: ReductionOp, dt: Datatype, count: u64,
                                       root: nat, n: u64, inputs: seq<seq<byte>>)
    requires root < n
    ensures var all := Executed(pf, AllReduce, op, dt, count, root, n, inputs);
            var one := Executed(pf, Reduce, op, dt, count, root, n, inputs);
            match one
            case Failed(code) => all == one
            case Outputs(bytes) => Executed(pf, Broadcast, op, dt, count, root, n, bytes) == all
  {
    hide Width, Words, Reduced, CheckedMul, Mul;
    var one := Executed(pf, Reduce, op, dt, count, root, n, inputs);
    if one.Outputs? {
      var per := Mul(count, Width(dt));
      WholeElements(count, dt);
      ReducedLength(pf, dt, op, inputs[..n], per);
    }
  }

  lemma WholeElements(count: nat, dt: Datatype)
    ensures Mul(count, Width(dt)) % Width(dt) == 0
  {
  }

  /** What a successful all_reduce says about its arguments, and what it returns. */
  lemma AllReduceValue(pf: Platform, op: ReductionOp, dt: Datatype, count: u64, n: u64, inputs: seq<seq<byte>>)
    requires n >= 1 && Executed(pf, AllReduce, op, dt, count, 0, n, inputs).Outputs?
    ensures var size := Mul(count, Width(dt));
            |inputs| >= n && AllSized(inputs[..n], size) && dt != Byte && size < U64_LIMIT && Mul(size, n) < U64_LIMIT
            && Executed(pf, AllReduce, op, dt, count, 0, n, inputs)
               == Outputs(Copies(n, Reduced(pf, dt, op, inputs[..n], size)))
  {
    hide Width, Reduced, CheckedMul, Mul;
  }

  lemma ReduceScatterValue(pf: Platform, op: ReductionOp, dt: Datatype, count: u64, n: u64, inputs: seq<seq<byte>>)
    requires var per := Mul(count, Width(dt));
             1 <= n <= |inputs| && dt != Byte && per < U64_LIMIT && Mul(per, n) < U64_LIMIT
             && AllSized(inputs[..n], Mul(per, n))
    ensures var per := Mul(count, Width(dt));
            AllSized(inputs[..n], Times(per, n))
            && Executed(pf, ReduceScatter, op, dt, count, 0, n, inputs)
               == Outputs(Scattered(pf, dt, op, inputs[..n], per, n))
  {
    hide Width, Scattered, CheckedMul, Mul, Times;
    TimesIsProduct(Mul(count, Width(dt)), n);
  }

  lemma AllGatherValue(pf: Platform, op: ReductionOp, dt: Datatype, count: u64, n: u64, parts: seq<seq<byte>>)
    requires var per := Mul(count, Width(dt));
             |parts| == n && per < U64_LIMIT && Mul(per, n) < U64_LIMIT && AllSized(parts, per)
    ensures Executed(pf, AllGather, op, dt, count, 0, n, parts) == Outputs(Copies(n, Concat(parts)))
  {
    hide Width, CheckedMul, Mul;
    assert parts[..n] == parts;
  }

  /** reduce_scatter and then all_gather of its outputs gives every rank what all_reduce gives on
      the whole buffers; no associativity or commutativity of the operation is needed. */
  lemma ScatterThenGatherIsAllReduce(pf: Platform, op: ReductionOp, dt: Datatype, count: u64,
                                     n: u64, inputs: seq<seq<byte>>)
    requires 1 <= n <= |inputs| && Mul(count, n) < U64_LIMIT
    requires Executed(pf, AllReduce, op, dt, Mul(count, n), 0, n, inputs).Outputs?
    ensures var scattered := Executed(pf, ReduceScatter, op, dt, count, 0, n, inputs);
            scattered.Outputs? && |scattered.bytes| == n && AllSized(scattered.bytes, Mul(count, Width(dt)))
            && Executed(pf, AllGather, op, dt, count, 0, n, scattered.bytes)
               == Executed(pf, AllReduce, op, dt, Mul(count, n), 0, n, inputs)
  {
    hide Executed, Scattered, Reduced, Width, Times, Mul;
    var per := Mul(count, Width(dt));
    AllReduceValue(pf, op, dt, Mul(count, n), n, inputs);
    assert Mul(Mul(count, n), Width(dt)) == Mul(per, n) by { Reassociate(count, n, Width(dt)); }
    assert per <= Mul(per, n) by { Widen(per, n); }
    ReduceScatterValue(pf, op, dt, count, n, inputs);
    TimesIsProduct(per, n);
    WholeElements(count, dt);
    ScatteredConcat(pf, dt, op, inputs[..n], per, n);
    ScatteredSizes(pf, dt, op, inputs[..n], per, n);
    AllGatherValue(pf, op, dt, count, n, Scattered(pf, dt, op, inputs[..n], per, n));
  }

  lemma Widen(per: nat, n: nat)
    requires n >= 1
    ensures per <= Mul(per, n)
  {
  }

  lemma Reassociate(a: nat, b: nat, c: nat)
    ensures Mul(Mul(a, b), c) == Mul(Mul(a, c), b)
  {
  }

  lemma ScatteredSizes(pf: Platform, dt: Datatype, op: ReductionOp, inputs: seq<seq<byte>>, per: nat, n: nat)
    requires inputs != [] && AllSized(inputs, Times(per, n)) && per % Width(dt) == 0
    ensures AllSized(Scattered(pf, dt, op, inputs, per, n), per)
  {
    hide Scattered, Reduced, Times, Block;
    forall b | 0 <= b < n
      ensures |Scattered(pf, dt, op, inputs, per, n)[b]| == per
    {
      ScatteredAt(pf, dt, op, inputs, per, n, b);
      ReducedLength(pf, dt, op, Block(inputs, b, per), per);
    }
  }

  // ---------------------------------------------------------------- rank order

  ghost predicate OrderFree(f: (nat, nat) -> nat, m: nat) {
    && (forall x, y :: 0 <= x < m && 0 <= y < m ==> f(x, y) < m && f(x, y) == f(y, x))
    && (forall x, y, z :: 0 <= x < m && 0 <= y < m && 0 <= z < m ==> f(f(x, y), z) == f(x, f(y, z)))
  }

  ghost predicate Below(xs: seq<nat>, m: nat) {
    forall i :: 0 <= i < |xs| ==> xs[i] < m
  }

  lemma {:induction false} FoldBelow(f: (nat, nat) -> nat, xs: seq<nat>, m: nat)
    requires OrderFree(f, m) && xs != [] && Below(xs, m)
    ensures Fold(f, xs) < m
    decreases |xs|
  {
    if |xs| > 1 {
      FoldBelow(f, xs[..|xs| - 1], m);
    }
  }

  /** Any element of an order-free fold can be taken out and put last. */
  lemma {:induction false} FoldPullOut(f: (nat, nat) -> nat, xs: seq<nat>, i: nat, m: nat)
    requires OrderFree(f, m) && Below(xs, m) && i < |xs| && |xs| > 1
    ensures Fold(f, xs) == f(Fold(f, xs[..i] + xs[i + 1..]), xs[i])
    decreases |xs|
  {
    hide OrderFree, Fold;
    var last := |xs| - 1;
    var front := xs[..last];
    FoldLast(f, xs);
    if i == last {
      assert xs[..i] + xs[i + 1..] == front;
    } else if |xs| == 2 {
      assert xs[..i] + xs[i + 1..] == [xs[1]] && front == [xs[0]];
      FoldOne(f, xs[0]);
      FoldOne(f, xs[1]);
      SwapPair(f, xs[0], xs[1], m);
    } else {
      var less := front[..i] + front[i + 1..];
      FoldPullOut(f, front, i, m);
      FoldBelow(f, less, m);
      SwapLast(f, Fold(f, less), xs[i], xs[last], m);
      assert xs[..i] + xs[i + 1..] == less + [xs[last]];
      FoldLast(f, less + [xs[last]]);
      assert (less + [xs[last]])[..|less|] == less;
    }
  }

  lemma FoldOne(f: (nat, nat) -> nat, x: nat)
    ensures Fold(f, [x]) == x
  {
  }

  lemma SwapPair(f: (nat, nat) -> nat, a: nat, b: nat, m: nat)
    requires OrderFree(f, m) && a < m && b < m
    ensures f(a, b) == f(b, a)
  {
  }

  lemma SwapLast(f: (nat, nat) -> nat, a: nat, b: nat, c: nat, m: nat)
    requires OrderFree(f, m) && a < m && b < m && c < m
    ensures f(f(a, b), c) == f(f(a, c), b)
  {
    assert f(f(a, b), c) == f(a, f(b, c));
    assert f(f(a, c), b) == f(a, f(c, b));
  }

  lemma SignedUnsigned(v: int, m: nat)
    requires Fits(v, m)
    ensures 0 <= Unsigned(v, m) < m && Unsigned(v, m) % m == Unsigned(v, m) && Signed(Unsigned(v, m), m) == v
  {
  }

  /** On signed elements the bit patterns mean what they should: read as two's complement, the
      result is the sum, product, minimum or maximum of the operands, whenever it is in range. */
  lemma SignedMeaning(pf: Platform, dt: Datatype, op: ReductionOp, x: nat, y: nat)
    requires dt == Int32 || dt == Int64
    requires var m := Pow256(Width(dt)); x < m && y < m
    ensures var m := Pow256(Width(dt));
            var a, b, r := Signed(x, m), Signed(y, m), Signed(Combine(pf, dt, op, x, y), m);
            match op
            case Sum => Fits(a + b, m) ==> r == a + b
            case Product => Fits(a * b, m) ==> r == a * b
            case Min => r == if a <= b then a else b
            case Max => r == if a >= b then a else b
            case NoReduction => r == b
  {
    hide Pow256, Signed, Unsigned, Fits;
    var m := Pow256(Width(dt));
    var a, b := Signed(x, m), Signed(y, m);
    if op == Sum && Fits(a + b, m) {
      SignedUnsigned(a + b, m);
    } else if op == Product && Fits(a * b, m) {
      SignedUnsigned(a * b, m);
    }
  }

  /** The operations that do not care about rank order. */
  predicate OrderIndependent(dt: Datatype, op: ReductionOp) {
    match dt
    case UInt32 => op != NoReduction
    case Int32 | Int64 => op == Min || op == Max
    case _ => false
  }

  lemma CombinerOrderFree(pf: Platform, dt: Datatype, op: ReductionOp)
    requires OrderIndependent(dt, op)
    ensures OrderFree(Combiner(pf, dt, op), Pow256(Width(dt)))
  {
    hide Pow256, Combine;
    var m, f := Pow256(Width(dt)), Combiner(pf, dt, op);
    forall x, y | 0 <= x < m && 0 <= y < m
      ensures f(x, y) < m && f(x, y) == f(y, x)
    {
      CombineOrderFree(pf, dt, op, x, y, 0);
    }
    forall x, y, z | 0 <= x < m && 0 <= y < m && 0 <= z < m
      ensures f(f(x, y), z) == f(x, f(y, z))
    {
      CombineOrderFree(pf, dt, op, x, y, z);
    }
  }

  lemma CombineOrderFree(pf: Platform, dt: Datatype, op: ReductionOp, x: nat, y: nat, z: nat)
    requires OrderIndependent(dt, op)
    requires var m := Pow256(Width(dt)); x < m && y < m && z < m
    ensures Combine(pf, dt, op, x, y) < Pow256(Width(dt))
    ensures Combine(pf, dt, op, x, y) == Combine(pf, dt, op, y, x)
    ensures Combine(pf, dt, op, Combine(pf, dt, op, x, y), z) == Combine(pf, dt, op, x, Combine(pf, dt, op, y, z))
  {
    hide Pow256;
    var m := Pow256(Width(dt));
    if dt == UInt32 && op == Sum {
      ModSum(x, y, z, m);
    } else if dt == UInt32 && op == Product {
      ModProduct(x, y, z, m);
    }
  }

  lemma ModSum(x: nat, y: nat, z: nat, m: nat)
    requires x < m && y < m && z < m
    ensures (x + y) % m == (y + x) % m
    ensures ((x + y) % m + z) % m == (x + (y + z) % m) % m
  {
    var a, b := (x + y) / m, (y + z) / m;
    var v, q := x + y + z, (x + y + z) / m;
    assert v == m * q + v % m;
    assert x + y == m * a + (x + y) % m;
    assert y + z == m * b + (y + z) % m;
    assert m * (q - a) == m * q - m * a;
    assert m * (q - b) == m * q - m * b;
    ModUnique((x + y) % m + z, m, q - a, v % m);
    ModUnique(x + (y + z) % m, m, q - b, v % m);
  }

  lemma ModProduct(x: nat, y: nat, z: nat, m: nat)
    requires x < m && y < m && z < m
    ensures (x * y) % m == (y * x) % m && (x * y) % m < m
    ensures ((x * y) % m * z) % m == (x * ((y * z) % m)) % m
  {
    FoldedProduct(x, y, z, m);
  }

  lemma FoldedProduct(x: nat, y: nat, z: nat, m: nat)
    requires m > 0
    ensures Mul(x, y) % m == Mul(y, x) % m && Mul(x, y) % m < m
    ensures Mul(Mul(x, y) % m, z) % m == Mul(x, Mul(y, z) % m) % m
  {
    hide Mul;
    Commutes(x, y);
    Commutes(x, Mul(y, z) % m);
    Rotates(x, y, z);
    ModFactor(Mul(x, y), z, m);
    ModFactor(Mul(y, z), x, m);
  }

  lemma Commutes(x: nat, y: nat)
    ensures Mul(x, y) == Mul(y, x)
  {
  }

  lemma Rotates(x: nat, y: nat, z: nat)
    ensures Mul(Mul(x, y), z) == Mul(Mul(y, z), x)
  {
  }

  /** Reducing one factor first changes nothing. */
  lemma ModFactor(u: nat, z: nat, m: nat)
    requires m > 0
    ensures Mul(u % m, z) % m == Mul(u, z) % m
  {
    var q, r := u / m, u % m;
    var v := r * z;
    assert u * z == m * (q * z) + v by {
      assert u == m * q + r;
      assert (m * q + r) * z == m * q * z + r * z;
      assert m * q * z == m * (q * z);
    }
    assert v == m * (v / m) + v % m;
    assert m * (q * z + v / m) == m * (q * z) + m * (v / m);
    ModUnique(u * z, m, q * z + v / m, v % m);
  }

  lemma {:induction false} WordsBelow(bs: seq<byte>, w: nat)
    requires IsWidth(w)
    ensures Below(Words(bs, w), Pow256(w))
    decreases |bs|
  {
    if |bs| >= w {
      WordsBelow(bs[w..], w);
    }
  }

  function ColumnOf(inputs: seq<seq<byte>>, w: nat, i: nat): (c: seq<nat>)
    requires IsWidth(w) && forall r :: 0 <= r < |inputs| ==> i < |Words(inputs[r], w)|
    ensures |c| == |inputs| && forall r :: 0 <= r < |c| ==> c[r] == Words(inputs[r], w)[i]
  {
    Column(AllWords(inputs, w), i)
  }

  lemma FoldLast(f: (nat, nat) -> nat, xs: seq<nat>)
    requires |xs| > 1
    ensures Fold(f, xs) == f(Fold(f, xs[..|xs| - 1]), xs[|xs| - 1])
  {
  }

  lemma {:induction false} ColumnPermuted(f: (nat, nat) -> nat, xs: seq<seq<byte>>, ys: seq<seq<byte>>,
                                          w: nat, i: nat, m: nat)
    requires IsWidth(w) && OrderFree(f, m) && Pow256(w) <= m
    requires xs != [] && multiset(xs) == multiset(ys)
    requires forall r :: 0 <= r < |xs| ==> i < |Words(xs[r], w)|
    requires forall r :: 0 <= r < |ys| ==> i < |Words(ys[r], w)|
    ensures ys != [] && Fold(f, ColumnOf(xs, w, i)) == Fold(f, ColumnOf(ys, w, i))
    decreases |xs|
  {
    hide Words, OrderFree, Fold, Pow256;
    var last := |xs| - 1;
    var front := xs[..last];
    var j := TakeOutLast(xs, ys);
    var others := ys[..j] + ys[j + 1..];
    var cx, cy := ColumnOf(xs, w, i), ColumnOf(ys, w, i);
    if |xs| > 1 {
      assert cx[..last] == ColumnOf(front, w, i);
      assert cy[..j] + cy[j + 1..] == ColumnOf(others, w, i);
      ColumnPermuted(f, front, others, w, i, m);
      ColumnBelow(ys, w, i, m);
      FoldPullOut(f, cy, j, m);
      FoldLast(f, cx);
    } else {
      assert cx == cy;
    }
  }

  lemma ColumnBelow(inputs: seq<seq<byte>>, w: nat, i: nat, m: nat)
    requires IsWidth(w) && Pow256(w) <= m
    requires forall r :: 0 <= r < |inputs| ==> i < |Words(inputs[r], w)|
    ensures Below(ColumnOf(inputs, w, i), m)
  {
    forall r | 0 <= r < |inputs|
      ensures ColumnOf(inputs, w, i)[r] < m
    {
      WordsBelow(inputs[r], w);
    }
  }

  /** For unsigned sums and products, which wrap, and for integer minima and maxima, the result of
      all_reduce does not depend on which rank contributed which buffer. */
  lemma AllReducePermuted(pf: Platform, op: ReductionOp, dt: Datatype, count: u64, n: u64,
                          xs: seq<seq<byte>>, ys: seq<seq<byte>>)
    requires OrderIndependent(dt, op) && n == |xs| == |ys| && n >= 1
    requires multiset(xs) == multiset(ys)
    ensures Executed(pf, AllReduce, op, dt, count, 0, n, xs) == Executed(pf, AllReduce, op, dt, count, 0, n, ys)
  {
    hide Reduced;
    assert xs[..n] == xs && ys[..n] == ys;
    var per := Mul(count, Width(dt));
    if AllSized(xs, per) {
      SizedPermuted(xs, ys, per);
      ReducedPermuted(pf, op, dt, xs, ys, per);
    } else if AllSized(ys, per) {
      SizedPermuted(ys, xs, per);
    }
  }

  lemma SizedPermuted(xs: seq<seq<byte>>, ys: seq<seq<byte>>, per: nat)
    requires multiset(xs) == multiset(ys) && AllSized(xs, per)
    ensures AllSized(ys, per)
  {
    forall r | 0 <= r < |ys|
      ensures |ys[r]| == per
    {
      assert ys[r] in multiset(xs);
    }
  }

  lemma ReducedPermuted(pf: Platform, op: ReductionOp, dt: Datatype, xs: seq<seq<byte>>, ys: seq<seq<byte>>, per: nat)
    requires OrderIndependent(dt, op) && xs != [] && ys != [] && multiset(xs) == multiset(ys)
    requires AllSized(xs, per) && AllSized(ys, per)
    ensures Reduced(pf, dt, op, xs, per) == Reduced(pf, dt, op, ys, per)
  {
    hide Words;
    var w, f, len := Width(dt), Combiner(pf, dt, op), per / Width(dt);
    CombinerOrderFree(pf, dt, op);
    var a, b := FoldColumns(f, AllWords(xs, w), len), FoldColumns(f, AllWords(ys, w), len);
    forall i | 0 <= i < len
      ensures a[i] == b[i]
    {
      ColumnPermuted(f, xs, ys, w, i, Pow256(w));
      assert ColumnOf(xs, w, i) == Column(AllWords(xs, w), i);
      assert ColumnOf(ys, w, i) == Column(AllWords(ys, w), i);
    }
    assert a == b;
  }
}
