/** Where every field lies in a persisted state, byte by byte. */
module StoreLayout {
  import opened Bytes
  import opened Canonical
  import opened Foundation
  import opened Store

  // ---------------------------------------------------------------- parts of a byte string

  /** The part starts at that offset. */
  predicate At(bs: seq<byte>, at: nat, part: seq<byte>) { at + |part| <= |bs| && bs[at..at + |part|] == part }

  /** A big-endian 64-bit number. */
  predicate NumberAt(bs: seq<byte>, at: nat, v: u64) { At(bs, at, U64Bytes(v)) }

  lemma First(x: seq<byte>, y: seq<byte>)
    ensures At(x + y, 0, x)
  {
  }

  lemma Whole(x: seq<byte>)
    ensures At(x, 0, x)
  {
  }

  /** What starts somewhere in y starts that much later in x + y. */
  lemma Later(x: seq<byte>, y: seq<byte>, at: nat, part: seq<byte>)
    requires At(y, at, part)
    ensures At(x + y, |x| + at, part)
  {
    assert (x + y)[|x| + at..|x| + at + |part|] == y[at..at + |part|];
  }

  /** And what starts in x starts there in x + y too. */
  lemma Sooner(x: seq<byte>, y: seq<byte>, at: nat, part: seq<byte>)
    requires At(x, at, part)
    ensures At(x + y, at, part)
  {
    assert (x + y)[at..at + |part|] == x[at..at + |part|];
  }

  lemma Inner(bs: seq<byte>, at: nat, mid: seq<byte>, off: nat, part: seq<byte>)
    requires At(bs, at, mid) && At(mid, off, part)
    ensures At(bs, at + off, part)
  {
    PartOfPart(bs, at, |mid|, off, |part|);
  }

  lemma {:induction false} NumbersInARow(vs: seq<u64>, i: nat)
    requires i < |vs|
    ensures |U64sBytes(vs)| == 8 * |vs| && NumberAt(U64sBytes(vs), 8 * i, vs[i])
    decreases |vs|
  {
    NumbersLength(vs[1..]);
    if i == 0 {
      First(U64Bytes(vs[0]), U64sBytes(vs[1..]));
    } else {
      NumbersInARow(vs[1..], i - 1);
      Later(U64Bytes(vs[0]), U64sBytes(vs[1..]), 8 * (i - 1), U64Bytes(vs[i]));
    }
  }

  lemma {:induction false} NumbersLength(vs: seq<u64>)
    ensures |U64sBytes(vs)| == 8 * |vs|
    decreases |vs|
  {
    if vs != [] {
      NumbersLength(vs[1..]);
    }
  }

  lemma NextRecord(i: nat, size: nat)
    ensures Mul(0, size) == 0 && Mul(i + 1, size) == size + Mul(i, size)
  {
    assert (i + 1) * size == size + i * size;
  }

  lemma {:induction false} RecordsLength<T>(enc: T -> seq<byte>, xs: seq<T>, size: nat)
    requires forall k :: 0 <= k < |xs| ==> |enc(xs[k])| == size
    ensures |ListBytes(enc, xs)| == Mul(|xs|, size)
    decreases |xs|
  {
    hide Mul;
    NextRecord(0, size);
    if xs != [] {
      assert forall k :: 0 <= k < |xs[1..]| ==> xs[1..][k] == xs[k + 1];
      RecordsLength(enc, xs[1..], size);
      NextRecord(|xs| - 1, size);
    }
  }

  /** Record i of a list of records of one size. */
  lemma {:induction false} RecordAt<T>(enc: T -> seq<byte>, xs: seq<T>, size: nat, i: nat)
    requires i < |xs| && forall k :: 0 <= k < |xs| ==> |enc(xs[k])| == size
    ensures At(ListBytes(enc, xs), Mul(i, size), enc(xs[i]))
    decreases |xs|
  {
    hide Mul, At;
    var first, rest := enc(xs[0]), xs[1..];
    assert ListBytes(enc, xs) == first + ListBytes(enc, rest);
    NextRecord(0, size);
    if i == 0 {
      First(first, ListBytes(enc, rest));
    } else {
      assert forall k :: 0 <= k < |rest| ==> rest[k] == xs[k + 1];
      RecordAt(enc, rest, size, i - 1);
      NextRecord(i - 1, size);
      Later(first, ListBytes(enc, rest), Mul(i - 1, size), enc(xs[i]));
    }
  }

  // ---------------------------------------------------------------- records

  /** Fifty-seven bytes. */
  lemma ParticipantLayout(p: Participant)
    ensures var b := ParticipantBytes(p);
            && |b| == 57 && NumberAt(b, 0, p.id) && NumberAt(b, 8, p.worker) && NumberAt(b, 16, p.boot)
            && NumberAt(b, 24, p.node) && NumberAt(b, 32, p.device) && NumberAt(b, 40, p.rank)
            && NumberAt(b, 48, p.backendGeneration) && At(b, 56, [if p.isKnown then 1 else 0])
  {
    hide U64sBytes, U64Bytes, At;
    var vs := [p.id, p.worker, p.boot, p.node, p.device, p.rank, p.backendGeneration];
    NumbersThen(vs, BoolBytes(p.isKnown));
    Whole(BoolBytes(p.isKnown));
    Later(U64sBytes(vs), BoolBytes(p.isKnown), 0, BoolBytes(p.isKnown));
    assert vs[0] == p.id && vs[1] == p.worker && vs[2] == p.boot && vs[3] == p.node && vs[4] == p.device && vs[5] == p.rank
        && vs[6] == p.backendGeneration;
  }

  /** Numbers in a row at the front of something longer. */
  lemma NumbersThen(vs: seq<u64>, rest: seq<byte>)
    ensures |U64sBytes(vs)| == 8 * |vs|
    ensures forall i :: 0 <= i < |vs| ==> NumberAt(U64sBytes(vs) + rest, 8 * i, vs[i])
  {
    hide U64sBytes, U64Bytes, At;
    NumbersLength(vs);
    forall i | 0 <= i < |vs|
      ensures NumberAt(U64sBytes(vs) + rest, 8 * i, vs[i])
    {
      NumbersInARow(vs, i);
      Sooner(U64sBytes(vs), rest, 8 * i, U64Bytes(vs[i]));
    }
  }

  /** A counted string: its length and its bytes. */
  lemma StringThen(s: seq<byte>, rest: seq<byte>)
    requires |s| < U64_LIMIT
    ensures |StringBytes(s)| == 8 + |s|
    ensures NumberAt(StringBytes(s) + rest, 0, |s|) && At(StringBytes(s) + rest, 8, s)
  {
    hide At;
    First(U64Bytes(|s|), s);
    Whole(s);
    Later(U64Bytes(|s|), s, 0, s);
    Sooner(StringBytes(s), rest, 0, U64Bytes(|s|));
    Sooner(StringBytes(s), rest, 8, s);
  }

  /** Eighty-four bytes. */
  lemma MeasurementLayout(m: Measurement)
    ensures var b := MeasurementBytes(m);
            && |b| == 84 && NumberAt(b, 0, m.id) && NumberAt(b, 8, m.collective) && NumberAt(b, 16, m.collectiveGeneration)
            && NumberAt(b, 24, m.groupGeneration) && At(b, 32, [m.algorithm]) && NumberAt(b, 33, m.backend)
            && NumberAt(b, 41, m.rankCount) && NumberAt(b, 49, m.payloadBytes) && NumberAt(b, 57, m.wallTimeUs)
            && At(b, 65, [m.provenance]) && At(b, 66, [m.freshness]) && NumberAt(b, 67, m.timestampNs)
            && NumberAt(b, 75, m.measurementGeneration) && At(b, 83, [if m.success then 1 else 0])
  {
    hide U64sBytes, U64Bytes, At;
    var v := [m.id, m.collective, m.collectiveGeneration, m.groupGeneration];
    var w := [m.backend, m.rankCount, m.payloadBytes, m.wallTimeUs];
    var x := [m.timestampNs, m.measurementGeneration];
    var s7 := BoolBytes(m.success);
    var s6 := U64sBytes(x) + s7;
    var s4 := [m.provenance] + ([m.freshness] + s6);
    var s3 := U64sBytes(w) + s4;
    var s2 := [m.algorithm] + s3;
    var b := U64sBytes(v) + s2;
    assert b == MeasurementBytes(m);
    NumbersThen(v, s2);
    NumbersThen(w, s4);
    NumbersThen(x, s7);
    Whole(s7);
    Later(U64sBytes(x), s7, 0, s7);
    First([m.freshness], s6);
    First([m.provenance], [m.freshness] + s6);
    First([m.algorithm], s3);
    assert v[0] == m.id && v[1] == m.collective && v[2] == m.collectiveGeneration && v[3] == m.groupGeneration;
    assert w[0] == m.backend && w[1] == m.rankCount && w[2] == m.payloadBytes && w[3] == m.wallTimeUs;
    assert x[0] == m.timestampNs && x[1] == m.measurementGeneration;
    Tail(U64sBytes(v), s2, b);
    Tail([m.algorithm], s3, s2);
    Tail(U64sBytes(w), s4, s3);
    Tail([m.provenance], [m.freshness] + s6, s4);
    Tail([m.freshness], s6, [m.freshness] + s6);
  }

  /** Everything in the tail starts that much later. */
  lemma Tail(x: seq<byte>, y: seq<byte>, all: seq<byte>)
    requires all == x + y
    ensures forall at: nat, part :: At(y, at, part) ==> At(all, |x| + at, part)
  {
    forall at: nat, part | At(y, at, part)
      ensures At(all, |x| + at, part)
    {
      Later(x, y, at, part);
    }
  }

  /** Fifty-seven bytes, the provenance text, eight, and fifty-seven for each participant. */
  lemma GroupLayout(g: Group, i: nat)
    requires |g.provenance| < U64_LIMIT && |g.participants| < U64_LIMIT
    ensures var b, n := GroupBytes(g), |g.provenance|;
            && |b| == 65 + n + Mul(|g.participants|, 57)
            && NumberAt(b, 0, g.id) && NumberAt(b, 8, g.generation) && NumberAt(b, 16, g.membership)
            && NumberAt(b, 24, g.topology) && NumberAt(b, 32, g.health) && NumberAt(b, 40, g.backend)
            && At(b, 48, [g.lifecycle]) && NumberAt(b, 49, n) && At(b, 57, g.provenance)
            && NumberAt(b, 57 + n, |g.participants|)
            && (i < |g.participants| ==> At(b, 65 + n + Mul(i, 57), ParticipantBytes(g.participants[i])))
  {
    hide U64sBytes, ToBE, At, StringBytes, ListBytes, Mul, ParticipantBytes;
    var v := [g.id, g.generation, g.membership, g.topology, g.health, g.backend];
    var s5 := ListBytes(ParticipantBytes, g.participants);
    var s4 := U64Bytes(|g.participants|) + s5;
    var s3 := StringBytes(g.provenance) + s4;
    var s2 := [g.lifecycle] + s3;
    var b := U64sBytes(v) + s2;
    assert b == GroupBytes(g);
    NumbersThen(v, s2);
    assert v[0] == g.id && v[1] == g.generation && v[2] == g.membership && v[3] == g.topology && v[4] == g.health && v[5] == g.backend;
    First([g.lifecycle], s3);
    StringThen(g.provenance, s4);
    First(U64Bytes(|g.participants|), s5);
    ParticipantSizes(g.participants);
    RecordsLength(ParticipantBytes, g.participants, 57);
    if i < |g.participants| {
      RecordAt(ParticipantBytes, g.participants, 57, i);
    }
    Tail(U64sBytes(v), s2, b);
    Tail([g.lifecycle], s3, s2);
    Tail(StringBytes(g.provenance), s4, s3);
    Tail(U64Bytes(|g.participants|), s5, s4);
  }

  lemma ParticipantSizes(ps: seq<Participant>)
    ensures forall k :: 0 <= k < |ps| ==> |ParticipantBytes(ps[k])| == 57
  {
    hide ParticipantBytes, At;
    forall k | 0 <= k < |ps|
      ensures |ParticipantBytes(ps[k])| == 57
    {
      ParticipantLayout(ps[k]);
    }
  }

  lemma MeasurementSizes(ms: seq<Measurement>)
    ensures forall k :: 0 <= k < |ms| ==> |MeasurementBytes(ms[k])| == 84
  {
    hide MeasurementBytes, At;
    forall k | 0 <= k < |ms|
      ensures |MeasurementBytes(ms[k])| == 84
    {
      MeasurementLayout(ms[k]);
    }
  }

  /** One byte without a record; twenty-six and the narrative with one. */
  lemma HealthLayout(h: Option<Health>)
    requires h.Some? ==> |h.value.narrative| < U64_LIMIT
    ensures var b := HealthBytes(h);
            match h
            case None => b == [0]
            case Some(x) =>
              && |b| == 26 + |x.narrative| && At(b, 0, [1]) && At(b, 1, [x.state]) && NumberAt(b, 2, x.generation)
              && NumberAt(b, 10, x.observedNs) && NumberAt(b, 18, |x.narrative|) && At(b, 26, x.narrative)
  {
    hide U64sBytes, U64Bytes, At, StringBytes;
    if h.Some? {
      var x := h.value;
      var v := [x.generation, x.observedNs];
      var s3 := StringBytes(x.narrative);
      var s2 := U64sBytes(v) + s3;
      var s1 := [x.state] + s2;
      First([1], s1);
      First([x.state], s2);
      NumbersThen(v, s3);
      assert v[0] == x.generation && v[1] == x.observedNs;
      StringThen(x.narrative, []);
      assert s3 + [] == s3;
      Tail([1], s1, HealthBytes(h));
      Tail([x.state], s2, s1);
      Tail(U64sBytes(v), s3, s2);
    }
  }

  /** Twenty-four bytes and the name. */
  lemma BackendLayout(x: Backend)
    requires |x.name| < U64_LIMIT
    ensures var b := BackendBytes(x);
            |b| == 24 + |x.name| && NumberAt(b, 0, x.id) && NumberAt(b, 8, x.generation)
            && NumberAt(b, 16, |x.name|) && At(b, 24, x.name)
  {
    hide U64sBytes, U64Bytes, At, StringBytes;
    var v := [x.id, x.generation];
    var s1 := StringBytes(x.name);
    NumbersThen(v, s1);
    assert v[0] == x.id && v[1] == x.generation;
    StringThen(x.name, []);
    assert s1 + [] == s1;
    Tail(U64sBytes(v), s1, BackendBytes(x));
  }

  // ---------------------------------------------------------------- states

  /** Everything behind the groups. */
  function Back(s: PersistentState): seq<byte> {
    ToBE(|s.measurements|, 8)
    + (ListBytes(MeasurementBytes, s.measurements)
    + (HealthBytes(s.health)
    + (ToBE(|s.backends|, 8)
    + (ListBytes(BackendBytes, s.backends)
    + U64sBytes([s.policyCount, s.savedNs])))))
  }

  lemma BackLayout(s: PersistentState, i: nat)
    requires |s.measurements| < U64_LIMIT && |s.backends| < U64_LIMIT
    ensures var b, backends := Back(s), ListBytes(BackendBytes, s.backends);
            var h := 8 + Mul(|s.measurements|, 84);
            var k := h + |HealthBytes(s.health)|;
            && |b| == k + 8 + |backends| + 16
            && NumberAt(b, 0, |s.measurements|)
            && (i < |s.measurements| ==> At(b, 8 + Mul(i, 84), MeasurementBytes(s.measurements[i])))
            && At(b, h, HealthBytes(s.health))
            && NumberAt(b, k, |s.backends|) && At(b, k + 8, backends)
            && NumberAt(b, |b| - 16, s.policyCount) && NumberAt(b, |b| - 8, s.savedNs)
  {
    hide U64sBytes, ToBE, At, ListBytes, Mul, MeasurementBytes, HealthBytes, BackendBytes;
    var z := [s.policyCount, s.savedNs];
    var s9 := U64sBytes(z);
    var backends := ListBytes(BackendBytes, s.backends);
    var s8 := backends + s9;
    var s7 := U64Bytes(|s.backends|) + s8;
    var health := HealthBytes(s.health);
    var s6 := health + s7;
    var measurements := ListBytes(MeasurementBytes, s.measurements);
    var s5 := measurements + s6;
    var b := U64Bytes(|s.measurements|) + s5;
    NumbersThen(z, []);
    assert s9 + [] == s9 && z[0] == s.policyCount && z[1] == s.savedNs;
    First(U64Bytes(|s.measurements|), s5);
    First(health, s7);
    First(U64Bytes(|s.backends|), s8);
    First(backends, s9);
    MeasurementSizes(s.measurements);
    RecordsLength(MeasurementBytes, s.measurements, 84);
    if i < |s.measurements| {
      RecordAt(MeasurementBytes, s.measurements, 84, i);
      Sooner(measurements, s6, Mul(i, 84), MeasurementBytes(s.measurements[i]));
    }
    Tail(U64Bytes(|s.measurements|), s5, b);
    Tail(measurements, s6, s5);
    Tail(health, s7, s6);
    Tail(U64Bytes(|s.backends|), s8, s7);
    Tail(backends, s9, s8);
  }

  lemma EncodedSplits(s: PersistentState)
    requires |s.groups| < U64_LIMIT && |s.measurements| < U64_LIMIT && |s.backends| < U64_LIMIT
    ensures Encoded(s) ==
            U64sBytes([s.formatVersion]) + (U64sBytes([s.epoch, s.liveBoot]) + (U64Bytes(|s.groups|)
            + (ListBytes(GroupBytes, s.groups) + Back(s))))
  {
    hide U64sBytes, ToBE, ListBytes, GroupBytes, MeasurementBytes, HealthBytes, BackendBytes;
  }

  /** Version, epoch and boot; the groups behind their count; the measurements behind theirs, eighty-four
      bytes each; the health record; the backends behind their count; and two numbers that end it. */
  lemma StateLayout(s: PersistentState, i: nat)
    requires |s.groups| < U64_LIMIT && |s.measurements| < U64_LIMIT && |s.backends| < U64_LIMIT
    ensures var b, groups, backends := Encoded(s), ListBytes(GroupBytes, s.groups), ListBytes(BackendBytes, s.backends);
            var m := 32 + |groups|;
            var h := m + 8 + Mul(|s.measurements|, 84);
            var k := h + |HealthBytes(s.health)|;
            && |b| == k + 8 + |backends| + 16
            && NumberAt(b, 0, s.formatVersion) && NumberAt(b, 8, s.epoch) && NumberAt(b, 16, s.liveBoot)
            && NumberAt(b, 24, |s.groups|) && At(b, 32, groups)
            && NumberAt(b, m, |s.measurements|)
            && (i < |s.measurements| ==> At(b, m + 8 + Mul(i, 84), MeasurementBytes(s.measurements[i])))
            && At(b, h, HealthBytes(s.health))
            && NumberAt(b, k, |s.backends|) && At(b, k + 8, backends)
            && NumberAt(b, |b| - 16, s.policyCount) && NumberAt(b, |b| - 8, s.savedNs)
  {
    hide U64sBytes, ToBE, At, ListBytes, Mul, GroupBytes, MeasurementBytes, HealthBytes, BackendBytes, Back, Encoded;
    EncodedSplits(s);
    BackLayout(s, i);
    var back, groups, v, e := Back(s), ListBytes(GroupBytes, s.groups), [s.formatVersion], [s.epoch, s.liveBoot];
    var s3 := groups + back;
    var s2 := U64Bytes(|s.groups|) + s3;
    var s1 := U64sBytes(e) + s2;
    NumbersThen(v, s1);
    NumbersThen(e, s2);
    assert v[0] == s.formatVersion && e[0] == s.epoch && e[1] == s.liveBoot;
    First(U64Bytes(|s.groups|), s3);
    First(groups, back);
    Tail(U64sBytes(v), s1, Encoded(s));
    Tail(U64sBytes(e), s2, s1);
    Tail(U64Bytes(|s.groups|), s3, s2);
    Tail(groups, back, s3);
  }
}
