/** What the reference engine's outputs mean, element by element: which bytes an element is, what the
    operations compute, and what each rank receives. */
module EngineMeaning {
  import opened Bytes
  import opened Foundation
  import opened ReferenceEngine
  import opened EngineLaws

  // ---------------------------------------------------------------- elements in buffers

  /** Byte i of an element is its i-th digit to the base 256. */
  lemma {:induction false} LittleEndian(v: nat, n: nat, i: nat)
    requires i < n
    ensures ToLE(v, n)[i] == v / Pow256(i) % 256
    decreases i
  {
    if i > 0 {
      LittleEndian(v / 256, n - 1, i - 1);
      DivDiv(v, Pow256(i - 1));
    }
  }

  lemma {:induction false} FromLEToLE(v: nat, n: nat)
    requires v < Pow256(n)
    ensures FromLE(ToLE(v, n)) == v
    decreases n
  {
    if n > 0 {
      FromLEToLE(v / 256, n - 1);
      assert ToLE(v, n)[1..] == ToLE(v / 256, n - 1);
    }
  }

  /** The element that starts at a byte offset. */
  function ElementAt(bs: seq<byte>, at: nat, w: nat): (v: nat)
    requires at + w <= |bs|
    ensures v < Pow256(w)
  {
    FromLE(bs[at..at + w])
  }

  /** Word i of a buffer starts at byte i * w. */
  lemma {:induction false} WordStartsAt(bs: seq<byte>, w: nat, i: nat)
    requires IsWidth(w) && i < |bs| / w
    ensures Mul(i, w) + w <= |bs| && Words(bs, w)[i] == ElementAt(bs, Mul(i, w), w)
    decreases i
  {
    hide FromLE, Words, Mul;
    FirstWord(bs, w);
    NextOffset(i, w);
    if i > 0 {
      WordStartsAt(bs[w..], w, i - 1);
      var at := Mul(i - 1, w);
      assert bs[w..][at..at + w] == bs[w + at..w + at + w];
    }
  }

  lemma FirstWord(bs: seq<byte>, w: nat)
    requires IsWidth(w) && |bs| / w > 0
    ensures |bs| >= w && |bs[w..]| / w == |bs| / w - 1
    ensures Words(bs, w) == [FromLE(bs[..w])] + Words(bs[w..], w)
  {
    hide FromLE;
    DivStepDown(|bs|, w);
  }

  lemma NextOffset(i: nat, w: nat)
    ensures Mul(0, w) == 0
    ensures i > 0 ==> Mul(i, w) == w + Mul(i - 1, w)
  {
    if i > 0 {
      assert i * w == w + (i - 1) * w;
    }
  }

  /** Elements written as bytes read back as themselves. */
  lemma {:induction false} WordsOfBytes(ws: seq<nat>, w: nat)
    requires IsWidth(w) && Below(ws, Pow256(w))
    ensures Words(BytesOf(ws, w), w) == ws
    decreases |ws|
  {
    hide Pow256, ToLE, FromLE;
    if ws != [] {
      var rest := BytesOf(ws[1..], w);
      var all := ToLE(ws[0], w) + rest;
      WordsOfBytes(ws[1..], w);
      FromLEToLE(ws[0], w);
      assert all[..w] == ToLE(ws[0], w) && all[w..] == rest;
    }
  }

  // ---------------------------------------------------------------- one operation

  /** The number an integer element stands for. */
  function Value(dt: Datatype, x: nat): int {
    if dt == UInt32 then x else Signed(x, Pow256(Width(dt)))
  }

  predicate Integer(dt: Datatype) { dt == Int32 || dt == UInt32 || dt == Int64 }

  /** Signed elements are read as two's complement: the one number congruent to the pattern that lies in
      the signed range, which is the range a result has to fit. */
  lemma TwosComplement(dt: Datatype, x: nat, v: int)
    requires (dt == Int32 || dt == Int64) && x < Pow256(Width(dt))
    ensures var m, half := Pow256(Width(dt)), if dt == Int32 then 0x8000_0000 else 0x8000_0000_0000_0000;
            && m == 2 * half
            && -half <= Value(dt, x) < half && (Value(dt, x) == x || Value(dt, x) == x - m)
            && (Fits(v, m) <==> -half <= v < half)
  {
    Pow256Widths();
  }

  /** Unsigned elements: minimum and maximum in the order of the numbers, sum and product modulo
      2^32, and the later operand where no operation is named. */
  lemma UnsignedMeaning(pf: Platform, op: ReductionOp, x: nat, y: nat)
    requires x < 0x1_0000_0000 && y < 0x1_0000_0000
    ensures var r := Combine(pf, UInt32, op, x, y);
            match op
            case Sum => r < 0x1_0000_0000 && (x + y == r || x + y == r + 0x1_0000_0000)
            case Product => r < 0x1_0000_0000 && r == Mul(x, y) % 0x1_0000_0000
            case Min => r <= x && r <= y && (r == x || r == y)
            case Max => r >= x && r >= y && (r == x || r == y)
            case NoReduction => r == y
  {
    Pow256Widths();
  }

  /** What C++ does not fix is the platform's answer, cut to the width of the element: floating-point
      operations, and signed sums and products out of range. */
  lemma PlatformMeaning(pf: Platform, dt: Datatype, op: ReductionOp, x: nat, y: nat)
    requires var m := Pow256(Width(dt)); x < m && y < m
    ensures var m := Pow256(Width(dt));
            var r := Combine(pf, dt, op, x, y);
            && (dt == Float32 || dt == Float64 ==> r == if op == NoReduction then y else pf(dt, op, x, y) % m)
            && (dt == Int32 || dt == Int64 ==>
                  && (op == Sum && !Fits(Signed(x, m) + Signed(y, m), m) ==> r == pf(dt, op, x, y) % m)
                  && (op == Product && !Fits(Signed(x, m) * Signed(y, m), m) ==> r == pf(dt, op, x, y) % m))
  {
    hide Pow256, Fits;
  }

  lemma CombineBelow(pf: Platform, dt: Datatype, op: ReductionOp, x: nat, y: nat)
    requires var m := Pow256(Width(dt)); x < m && y < m
    ensures Combine(pf, dt, op, x, y) < Pow256(Width(dt))
  {
    hide Pow256, Signed, Unsigned, Fits;
  }

  /** On every integer type the minimum and the maximum are those of the numbers. */
  lemma ExtremeMeaning(pf: Platform, dt: Datatype, op: ReductionOp, x: nat, y: nat)
    requires Integer(dt) && var m := Pow256(Width(dt)); x < m && y < m
    ensures var r := Combine(pf, dt, op, x, y);
            && (op == Min ==> (r == x || r == y) && Value(dt, r) <= Value(dt, x) && Value(dt, r) <= Value(dt, y))
            && (op == Max ==> (r == x || r == y) && Value(dt, r) >= Value(dt, x) && Value(dt, r) >= Value(dt, y))
  {
    hide Pow256, Signed, Unsigned, Fits;
  }

  // ---------------------------------------------------------------- folding in rank order

  /** acc is the accumulator after each rank: rank 0 starts it, every later rank is combined into it,
      the accumulator on the left. */
  ghost predicate Accumulates(f: (nat, nat) -> nat, xs: seq<nat>, acc: seq<nat>) {
    && |acc| == |xs| > 0 && acc[0] == xs[0]
    && forall r :: 1 <= r < |xs| ==> acc[r] == f(acc[r - 1], xs[r])
  }

  lemma {:induction false} FoldAccumulates(f: (nat, nat) -> nat, xs: seq<nat>, acc: seq<nat>)
    requires Accumulates(f, xs, acc)
    ensures Fold(f, xs) == acc[|acc| - 1]
    decreases |xs|
  {
    var last := |xs| - 1;
    if last > 0 {
      FoldAccumulates(f, xs[..last], acc[..last]);
    }
  }

  lemma {:induction false} FoldStaysBelow(pf: Platform, dt: Datatype, op: ReductionOp, xs: seq<nat>)
    requires xs != [] && Below(xs, Pow256(Width(dt)))
    ensures Fold(Combiner(pf, dt, op), xs) < Pow256(Width(dt))
    decreases |xs|
  {
    hide Pow256, Combine;
    var last := |xs| - 1;
    if last > 0 {
      FoldStaysBelow(pf, dt, op, xs[..last]);
      CombineBelow(pf, dt, op, Fold(Combiner(pf, dt, op), xs[..last]), xs[last]);
    }
  }

  /** The fold is one of the ranks' elements, and none is smaller. */
  ghost predicate IsLeast(dt: Datatype, xs: seq<nat>, v: nat) {
    v in xs && forall r :: 0 <= r < |xs| ==> Value(dt, v) <= Value(dt, xs[r])
  }

  ghost predicate IsGreatest(dt: Datatype, xs: seq<nat>, v: nat) {
    v in xs && forall r :: 0 <= r < |xs| ==> Value(dt, v) >= Value(dt, xs[r])
  }

  lemma {:induction false} FoldExtreme(pf: Platform, dt: Datatype, op: ReductionOp, xs: seq<nat>)
    requires Integer(dt) && xs != [] && Below(xs, Pow256(Width(dt)))
    ensures op == Min ==> IsLeast(dt, xs, Fold(Combiner(pf, dt, op), xs))
    ensures op == Max ==> IsGreatest(dt, xs, Fold(Combiner(pf, dt, op), xs))
    decreases |xs|
  {
    hide Pow256, Combine, Value;
    var last := |xs| - 1;
    if last > 0 {
      var front := xs[..last];
      FoldExtreme(pf, dt, op, front);
      FoldStaysBelow(pf, dt, op, front);
      ExtremeMeaning(pf, dt, op, Fold(Combiner(pf, dt, op), front), xs[last]);
      assert xs == front + [xs[last]];
    }
  }

  function SumOf(xs: seq<nat>): nat { if xs == [] then 0 else SumOf(xs[..|xs| - 1]) + xs[|xs| - 1] }

  function ProductOf(xs: seq<nat>): nat { if xs == [] then 1 else Mul(ProductOf(xs[..|xs| - 1]), xs[|xs| - 1]) }

  const WORD: nat := 0x1_0000_0000

  lemma SumStep(pf: Platform, total: nat, x: nat)
    requires x < WORD
    ensures Combine(pf, UInt32, Sum, total % WORD, x) == (total + x) % WORD
  {
    Pow256Widths();
  }

  lemma ProductStep(pf: Platform, total: nat, x: nat)
    ensures Combine(pf, UInt32, Product, total % WORD, x) == Mul(total, x) % WORD
  {
    Pow256Widths();
    ModFactor(total, x, WORD);
  }

  /** Unsigned sums and products wrap, and nothing else is lost. */
  lemma {:induction false} FoldWraps(pf: Platform, op: ReductionOp, xs: seq<nat>)
    requires xs != [] && Below(xs, WORD)
    ensures op == Sum ==> Fold(Combiner(pf, UInt32, op), xs) == SumOf(xs) % WORD
    ensures op == Product ==> Fold(Combiner(pf, UInt32, op), xs) == ProductOf(xs) % WORD
    decreases |xs|
  {
    hide Combine, Mul, Fold;
    var last := |xs| - 1;
    var front := xs[..last];
    if last == 0 {
      assert front == [] && xs == [xs[0]];
      FoldOne(Combiner(pf, UInt32, op), xs[0]);
      OneTimes(xs[0]);
    } else {
      FoldWraps(pf, op, front);
      FoldLast(Combiner(pf, UInt32, op), xs);
      SumStep(pf, SumOf(front), xs[last]);
      ProductStep(pf, ProductOf(front), xs[last]);
    }
  }

  lemma OneTimes(x: nat)
    ensures Mul(1, x) == x
  {
  }

  /** A signed sum whose partial sums all stay in range is the sum of the numbers. */
  ghost predicate PartialSumsFit(dt: Datatype, xs: seq<nat>) {
    forall k :: 1 <= k <= |xs| ==> Fits(SignedSum(dt, xs[..k]), Pow256(Width(dt)))
  }

  function SignedSum(dt: Datatype, xs: seq<nat>): int {
    if xs == [] then 0 else SignedSum(dt, xs[..|xs| - 1]) + Value(dt, xs[|xs| - 1])
  }

  lemma {:induction false} FoldSignedSum(pf: Platform, dt: Datatype, xs: seq<nat>)
    requires (dt == Int32 || dt == Int64) && xs != [] && Below(xs, Pow256(Width(dt))) && PartialSumsFit(dt, xs)
    ensures Value(dt, Fold(Combiner(pf, dt, Sum), xs)) == SignedSum(dt, xs)
    decreases |xs|
  {
    hide Pow256, Combine, Fits, Signed;
    var last := |xs| - 1;
    var front := xs[..last];
    assert xs[..|xs|] == xs;
    if last == 0 {
      assert front == [];
    } else {
      assert forall k :: 1 <= k <= |front| ==> front[..k] == xs[..k];
      FoldSignedSum(pf, dt, front);
      FoldStaysBelow(pf, dt, Sum, front);
      SignedMeaning(pf, dt, Sum, Fold(Combiner(pf, dt, Sum), front), xs[last]);
    }
  }

  // ---------------------------------------------------------------- what each rank receives

  /** The ranks' elements that start at one byte offset, in rank order. */
  function RankElements(inputs: seq<seq<byte>>, n: nat, at: nat, w: nat): (xs: seq<nat>)
    requires n <= |inputs| && forall r :: 0 <= r < n ==> at + w <= |inputs[r]|
    ensures |xs| == n && Below(xs, Pow256(w))
    ensures forall r :: 0 <= r < n ==> xs[r] == ElementAt(inputs[r], at, w)
  {
    seq(n, r requires 0 <= r < n => ElementAt(inputs[r], at, w))
  }

  /** out holds `count` elements: the ranks' elements from byte `from` on, folded in rank order. */
  ghost predicate HoldsFolds(pf: Platform, dt: Datatype, op: ReductionOp, out: seq<byte>, count: nat,
                             inputs: seq<seq<byte>>, n: nat, from: nat)
    requires 1 <= n <= |inputs|
  {
    |out| == Mul(count, Width(dt)) && forall i :: 0 <= i < count ==> HoldsFold(pf, dt, op, out, inputs, n, from, Mul(i, Width(dt)))
  }

  ghost predicate HoldsFold(pf: Platform, dt: Datatype, op: ReductionOp, out: seq<byte>,
                            inputs: seq<seq<byte>>, n: nat, from: nat, at: nat)
    requires 1 <= n <= |inputs|
  {
    var w := Width(dt);
    && at + w <= |out| && (forall r :: 0 <= r < n ==> from + at + w <= |inputs[r]|)
    && ElementAt(out, at, w) == Fold(Combiner(pf, dt, op), RankElements(inputs, n, from + at, w))
  }

  lemma CountedWords(count: nat, w: nat)
    requires IsWidth(w)
    ensures Mul(count, w) / w == count
  {
  }

  lemma ReducedHolds(pf: Platform, dt: Datatype, op: ReductionOp, inputs: seq<seq<byte>>, count: nat)
    requires inputs != [] && AllSized(inputs, Mul(count, Width(dt)))
    ensures HoldsFolds(pf, dt, op, Reduced(pf, dt, op, inputs, Mul(count, Width(dt))), count, inputs, |inputs|, 0)
  {
    hide Words, FromLE, Fold, Combine, Pow256, Mul, BytesOf, Width, IsWidth;
    var w, size, f := Width(dt), Mul(count, Width(dt)), Combiner(pf, dt, op);
    WidthIsWidth(dt);
    CountedWords(count, w);
    var rows := AllWords(inputs, w);
    var ws := FoldColumns(f, rows, count);
    forall i | 0 <= i < count
      ensures ws[i] < Pow256(w)
    {
      ColumnBelow(inputs, w, i, Pow256(w));
      FoldStaysBelow(pf, dt, op, ColumnOf(inputs, w, i));
    }
    WordsOfBytes(ws, w);
    BytesOfLength(ws, w);
    SameProduct(count, w);
    var out := Reduced(pf, dt, op, inputs, size);
    forall i | 0 <= i < count
      ensures HoldsFold(pf, dt, op, out, inputs, |inputs|, 0, Mul(i, w))
    {
      WordStartsAt(out, w, i);
      forall r | 0 <= r < |inputs|
        ensures Mul(i, w) + w <= |inputs[r]| && rows[r][i] == ElementAt(inputs[r], Mul(i, w), w)
      {
        WordStartsAt(inputs[r], w, i);
      }
      assert Column(rows, i) == RankElements(inputs, |inputs|, Mul(i, w), w);
    }
  }

  lemma WidthIsWidth(dt: Datatype)
    ensures IsWidth(Width(dt)) && Width(dt) > 0
  {
  }

  lemma SameProduct(a: nat, b: nat)
    ensures Mul(a, b) == a * b
  {
  }

  /** The fold only looks at the first n ranks. */
  lemma HoldsFoldsFront(pf: Platform, dt: Datatype, op: ReductionOp, out: seq<byte>, count: nat,
                        inputs: seq<seq<byte>>, n: nat, from: nat)
    requires 1 <= n <= |inputs| && HoldsFolds(pf, dt, op, out, count, inputs[..n], n, from)
    ensures HoldsFolds(pf, dt, op, out, count, inputs, n, from)
  {
    hide Width, Mul, FromLE, Fold, Combine;
    var w := Width(dt);
    forall i | 0 <= i < count
      ensures HoldsFold(pf, dt, op, out, inputs, n, from, Mul(i, w))
    {
      var at := from + Mul(i, w);
      assert HoldsFold(pf, dt, op, out, inputs[..n], n, from, Mul(i, w));
      assert forall r :: 0 <= r < n ==> inputs[..n][r] == inputs[r];
      assert RankElements(inputs[..n], n, at, w) == RankElements(inputs, n, at, w);
    }
  }

  /** Folding everyone's block b is folding everyone's elements from byte b * size on. */
  lemma HoldsFoldsBlock(pf: Platform, dt: Datatype, op: ReductionOp, out: seq<byte>, count: nat,
                        inputs: seq<seq<byte>>, b: nat)
    requires inputs != []
    requires var size := Mul(count, Width(dt));
             && (forall r :: 0 <= r < |inputs| ==> |inputs[r]| >= Times(size, b + 1))
             && HoldsFolds(pf, dt, op, out, count, Block(inputs, b, size), |inputs|, 0)
    ensures HoldsFolds(pf, dt, op, out, count, inputs, |inputs|, Mul(b, Mul(count, Width(dt))))
  {
    hide Width, Mul, FromLE, Fold, Combine, Times, Slice, RankElements, Block;
    var w, size := Width(dt), Mul(count, Width(dt));
    var from, blocks, n := Mul(b, size), Block(inputs, b, size), |inputs|;
    forall i | 0 <= i < count
      ensures HoldsFold(pf, dt, op, out, inputs, n, from, Mul(i, w))
    {
      assert HoldsFold(pf, dt, op, out, blocks, n, 0, Mul(i, w));
      BlockElements(inputs, b, size, Mul(i, w), w);
    }
  }

  lemma BlockElements(inputs: seq<seq<byte>>, b: nat, size: nat, at: nat, w: nat)
    requires at + w <= size && forall r :: 0 <= r < |inputs| ==> |inputs[r]| >= Times(size, b + 1)
    ensures forall r :: 0 <= r < |inputs| ==> Mul(b, size) + at + w <= |inputs[r]|
    ensures RankElements(Block(inputs, b, size), |inputs|, at, w) == RankElements(inputs, |inputs|, Mul(b, size) + at, w)
  {
    hide Mul, FromLE, Times, Slice;
    var from, blocks := Mul(b, size), Block(inputs, b, size);
    TimesIsProduct(size, b);
    Commutes(size, b);
    forall r | 0 <= r < |inputs|
      ensures from + at + w <= |inputs[r]| && ElementAt(blocks[r], at, w) == ElementAt(inputs[r], from + at, w)
    {
      SliceAt(inputs[r], b, size);
      assert blocks[r] == inputs[r][from..from + size];
      PartOfPart(inputs[r], from, size, at, w);
    }
  }

  /** Part k of a concatenation of equally long parts. */
  lemma {:induction false} ConcatPart(parts: seq<seq<byte>>, per: nat, k: nat)
    requires AllSized(parts, per) && k < |parts|
    ensures |Concat(parts)| == Mul(|parts|, per) && Mul(k, per) + per <= |Concat(parts)|
    ensures Concat(parts)[Mul(k, per)..Mul(k, per) + per] == parts[k]
    decreases |parts|
  {
    var rest := parts[1..];
    assert Mul(|parts|, per) == per + Mul(|rest|, per);
    if k == 0 {
      if rest == [] {
        assert Concat(rest) == [];
      } else {
        ConcatPart(rest, per, 0);
      }
    } else {
      ConcatPart(rest, per, k - 1);
      var at := Mul(k - 1, per);
      assert Mul(k, per) == per + at;
      assert Concat(parts)[per + at..per + at + per] == Concat(rest)[at..at + per];
    }
  }

  /** The inputs the engine takes, kind by kind. */
  predicate Takes(kind: CollectiveKind, dt: Datatype, per: nat, root: nat, n: nat, inputs: seq<seq<byte>>) {
    match kind
    case Barrier => true
    case Broadcast => root < |inputs| && |inputs[root]| == per
    case Reduce | AllReduce => n <= |inputs| && (forall r :: 0 <= r < n ==> |inputs[r]| == per) && dt != Byte
    case AllGather => n <= |inputs| && forall r :: 0 <= r < n ==> |inputs[r]| == per
    case ReduceScatter => n <= |inputs| && (forall r :: 0 <= r < n ==> |inputs[r]| == Mul(per, n)) && (n == 0 || dt != Byte)
  }

  /** It refuses sizes that do not fit in 64 bits as an overflow, and everything else it does not take
      as invalid. */
  lemma TakenExactly(pf: Platform, kind: CollectiveKind, op: ReductionOp, dt: Datatype,
                     count: u64, root: nat, n: u64, inputs: seq<seq<byte>>)
    requires Defined(kind, Mul(count, Width(dt)), root, n, inputs)
    ensures var per := Mul(count, Width(dt));
            var res := Executed(pf, kind, op, dt, count, root, n, inputs);
            if per >= U64_LIMIT || Mul(per, n) >= U64_LIMIT then res == Failed(ArithmeticOverflow)
            else if Takes(kind, dt, per, root, n, inputs) then res.Outputs?
            else res == Failed(Validation)
  {
    hide Reduced, Scattered, Width, Mul, Times, Contributed, AllSized, Concat;
    var per := Mul(count, Width(dt));
    ContributedExactly(inputs, per, n);
    ContributedExactly(inputs, Mul(per, n), n);
  }

  lemma ContributedExactly(inputs: seq<seq<byte>>, size: nat, n: nat)
    ensures Contributed(inputs, size, n) <==> n <= |inputs| && forall r :: 0 <= r < n ==> |inputs[r]| == size
  {
    if n <= |inputs| {
      assert forall r :: 0 <= r < n ==> inputs[..n][r] == inputs[r];
    }
  }

  /** What rank r holds after a successful call. */
  ghost predicate Receives(pf: Platform, kind: CollectiveKind, op: ReductionOp, dt: Datatype, count: nat,
                           root: nat, n: nat, inputs: seq<seq<byte>>, r: nat, out: seq<byte>)
    requires kind != Barrier && kind != Broadcast ==> 1 <= n <= |inputs|
  {
    var per := Mul(count, Width(dt));
    match kind
    case Barrier => out == []
    case Broadcast => root < |inputs| && out == inputs[root]
    case Reduce => if r == root then HoldsFolds(pf, dt, op, out, count, inputs, n, 0) else out == []
    case AllReduce => HoldsFolds(pf, dt, op, out, count, inputs, n, 0)
    case AllGather =>
      && |out| == Mul(n, per)
      && forall k :: 0 <= k < n ==> Mul(k, per) + per <= |out| && out[Mul(k, per)..Mul(k, per) + per] == inputs[k]
    case ReduceScatter => HoldsFolds(pf, dt, op, out, count, inputs, n, Mul(r, per))
  }

  /** What every rank receives: nothing from a barrier, the root's bytes from a broadcast, every rank's
      bytes in rank order from an all-gather; and from the reductions, element by element, the ranks'
      elements folded in rank order, at the root alone, everywhere, or block r at rank r. */
  lemma EveryRankReceives(pf: Platform, kind: CollectiveKind, op: ReductionOp, dt: Datatype,
                          count: u64, root: nat, n: u64, inputs: seq<seq<byte>>, r: nat)
    requires Defined(kind, Mul(count, Width(dt)), root, n, inputs) && r < n
    requires Executed(pf, kind, op, dt, count, root, n, inputs).Outputs?
    ensures kind != Barrier && kind != Broadcast ==> n <= |inputs|
    ensures var outputs := Executed(pf, kind, op, dt, count, root, n, inputs).bytes;
            |outputs| == n && Receives(pf, kind, op, dt, count, root, n, inputs, r, outputs[r])
  {
    hide Reduced, Scattered, Width, Mul, HoldsFolds, Concat, Times, AllSized;
    var per := Mul(count, Width(dt));
    TakenExactly(pf, kind, op, dt, count, root, n, inputs);
    match kind
    case Barrier =>
    case Broadcast =>
    case Reduce | AllReduce =>
      ReducedHolds(pf, dt, op, inputs[..n], count);
      HoldsFoldsFront(pf, dt, op, Reduced(pf, dt, op, inputs[..n], per), count, inputs, n, 0);
    case AllGather => GatheredParts(inputs[..n], per);
    case ReduceScatter =>
      TimesIsProduct(per, n);
      ScatteredHolds(pf, dt, op, inputs[..n], count, n, r);
      HoldsFoldsFront(pf, dt, op, Scattered(pf, dt, op, inputs[..n], per, n)[r], count, inputs, n, Mul(r, per));
  }

  lemma GatheredParts(parts: seq<seq<byte>>, per: nat)
    requires AllSized(parts, per) && parts != []
    ensures |Concat(parts)| == Mul(|parts|, per)
    ensures forall k :: 0 <= k < |parts| ==>
              Mul(k, per) + per <= |Concat(parts)| && Concat(parts)[Mul(k, per)..Mul(k, per) + per] == parts[k]
  {
    hide Mul, Concat;
    forall k | 0 <= k < |parts|
      ensures |Concat(parts)| == Mul(|parts|, per)
      ensures Mul(k, per) + per <= |Concat(parts)| && Concat(parts)[Mul(k, per)..Mul(k, per) + per] == parts[k]
    {
      ConcatPart(parts, per, k);
    }
    ConcatPart(parts, per, 0);
  }

  lemma ScatteredHolds(pf: Platform, dt: Datatype, op: ReductionOp, inputs: seq<seq<byte>>, count: nat, n: nat, b: nat)
    requires inputs != [] && b < n && AllSized(inputs, Times(Mul(count, Width(dt)), n))
    ensures var per := Mul(count, Width(dt));
            HoldsFolds(pf, dt, op, Scattered(pf, dt, op, inputs, per, n)[b], count, inputs, |inputs|, Mul(b, per))
  {
    hide Reduced, Scattered, Width, Mul, HoldsFolds, Times, Block;
    var per := Mul(count, Width(dt));
    ScatteredAt(pf, dt, op, inputs, per, n, b);
    ReducedHolds(pf, dt, op, Block(inputs, b, per), count);
    HoldsFoldsBlock(pf, dt, op, Reduced(pf, dt, op, Block(inputs, b, per), per), count, inputs, b);
  }

  /** The numbers an all-reduce leaves at every rank: the least or the greatest of the ranks' numbers;
      their sum or product modulo 2^32 on unsigned elements; their sum on signed ones whenever no
      partial sum overflows; and for any operation the accumulator after the last rank. */
  lemma AllReduceNumbers(pf: Platform, op: ReductionOp, dt: Datatype, count: u64, n: u64, inputs: seq<seq<byte>>,
                         r: nat, i: nat)
    requires n >= 1 && Executed(pf, AllReduce, op, dt, count, 0, n, inputs).Outputs? && r < n && i < count
    ensures var w, outputs := Width(dt), Executed(pf, AllReduce, op, dt, count, 0, n, inputs).bytes;
            var at := Mul(i, w);
            && r < |outputs| && at + w <= |outputs[r]|
            && n <= |inputs| && (forall k :: 0 <= k < n ==> at + w <= |inputs[k]|)
            && var xs, v := RankElements(inputs, n, at, w), ElementAt(outputs[r], at, w);
            && (Integer(dt) && op == Min ==> IsLeast(dt, xs, v))
            && (Integer(dt) && op == Max ==> IsGreatest(dt, xs, v))
            && (dt == UInt32 && op == Sum ==> v == SumOf(xs) % 0x1_0000_0000)
            && (dt == UInt32 && op == Product ==> v == ProductOf(xs) % 0x1_0000_0000)
            && ((dt == Int32 || dt == Int64) && op == Sum && PartialSumsFit(dt, xs) ==> Value(dt, v) == SignedSum(dt, xs))
            && forall acc :: Accumulates(Combiner(pf, dt, op), xs, acc) ==> v == acc[n - 1]
  {
    hide Executed, Fold, FromLE, Mul, Width, Pow256, Value, PartialSumsFit, IsLeast, IsGreatest, Accumulates, Below;
    EveryRankReceives(pf, AllReduce, op, dt, count, 0, n, inputs, r);
    var w, out := Width(dt), Executed(pf, AllReduce, op, dt, count, 0, n, inputs).bytes[r];
    var at := Mul(i, w);
    assert HoldsFold(pf, dt, op, out, inputs, n, 0, at);
    var xs := RankElements(inputs, n, at, w);
    FoldNumbers(pf, dt, op, xs);
    forall acc | Accumulates(Combiner(pf, dt, op), xs, acc)
      ensures |acc| == n && ElementAt(out, at, w) == acc[n - 1]
    {
      AccumulatorLast(pf, dt, op, xs, acc);
    }
  }

  lemma AccumulatorLast(pf: Platform, dt: Datatype, op: ReductionOp, xs: seq<nat>, acc: seq<nat>)
    requires Accumulates(Combiner(pf, dt, op), xs, acc)
    ensures |acc| == |xs| > 0 && Fold(Combiner(pf, dt, op), xs) == acc[|xs| - 1]
  {
    hide Fold;
    FoldAccumulates(Combiner(pf, dt, op), xs, acc);
  }

  lemma FoldNumbers(pf: Platform, dt: Datatype, op: ReductionOp, xs: seq<nat>)
    requires xs != [] && Below(xs, Pow256(Width(dt)))
    ensures var v := Fold(Combiner(pf, dt, op), xs);
            && (Integer(dt) && op == Min ==> IsLeast(dt, xs, v))
            && (Integer(dt) && op == Max ==> IsGreatest(dt, xs, v))
            && (dt == UInt32 && op == Sum ==> v == SumOf(xs) % 0x1_0000_0000)
            && (dt == UInt32 && op == Product ==> v == ProductOf(xs) % 0x1_0000_0000)
            && ((dt == Int32 || dt == Int64) && op == Sum && PartialSumsFit(dt, xs) ==> Value(dt, v) == SignedSum(dt, xs))
  {
    hide Fold, Pow256, Value, PartialSumsFit, IsLeast, IsGreatest, Below;
    if Integer(dt) {
      FoldExtreme(pf, dt, op, xs);
    }
    if dt == UInt32 {
      Pow256Widths();
      FoldWraps(pf, op, xs);
    } else if (dt == Int32 || dt == Int64) && op == Sum && PartialSumsFit(dt, xs) {
      FoldSignedSum(pf, dt, xs);
    }
  }
}
