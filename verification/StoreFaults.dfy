/** Which fault a payload is refused for: when it is cut short, and when it encodes a state that is not
    well-formed. */
module StoreFaults {
  import opened Bytes
  import opened Canonical
  import opened Foundation
  import opened Store
  import opened StoreLaws

  // ---------------------------------------------------------------- payloads cut short

  /** Nothing is missing, or a field or a count is. */
  predicate Short<T>(p: Parsed<T>) { p.Ok? || p.fault == Truncated || p.fault == InvalidCount }

  lemma {:induction false} NumbersShort(n: nat, s: seq<byte>)
    ensures Short(GetU64s(n, s))
    decreases n
  {
    if n > 0 && GetU64(s).Ok? {
      NumbersShort(n - 1, GetU64(s).rest);
    }
  }

  lemma EnumShort(max: byte, s: seq<byte>, t: seq<byte>)
    requires GetEnum(max, s + t).Ok?
    ensures Short(GetEnum(max, s))
  {
    U8Laws(0, s, t);
  }

  lemma ParticipantShort(s: seq<byte>)
    ensures Short(GetParticipant(false, s))
  {
    hide GetU64s;
    NumbersShort(7, s);
  }

  lemma {:induction false} ListShort<T(!new)>(
      n: nat, p: (bool, seq<byte>) -> Parsed<T>, isNew: (seq<T>, T) -> bool, acc: seq<T>, s: seq<byte>, t: seq<byte>)
    requires GetList(n, p, isNew, false, acc, s + t).Ok?
    requires forall s {:trigger p(false, s + t)} :: p(false, s).Ok? ==> p(false, s + t) == p(false, s).With(t)
    requires forall s {:trigger p(false, s + t)} :: p(false, s + t).Ok? ==> Short(p(false, s))
    ensures Short(GetList(n, p, isNew, false, acc, s))
    decreases n
  {
    if n > 0 && p(false, s).Ok? {
      var Ok(x, r) := p(false, s);
      assert p(false, s + t) == Ok(x, r + t);
      ListShort(n - 1, p, isNew, acc + [x], r, t);
    }
  }

  lemma GroupShort(s: seq<byte>, t: seq<byte>)
    requires GetGroup(false, s + t).Ok?
    ensures Short(GetGroup(false, s))
  {
    hide GetU64s, GetEnum, GetString, GetCount, GetList, GetParticipant;
    NumbersShort(6, s);
    if GetU64s(6, s).Ok? {
      U64sExtend(6, s, t);
      var r1 := GetU64s(6, s).rest;
      EnumShort(LIFECYCLE_MAX, r1, t);
      if GetEnum(LIFECYCLE_MAX, r1).Ok? {
        EnumExtend(LIFECYCLE_MAX, r1, t);
        GroupTailShort(GetEnum(LIFECYCLE_MAX, r1).rest, t);
      }
    }
  }

  /** The provenance and the participants. */
  function GroupTail(s: seq<byte>): Parsed<seq<Participant>> {
    var (provenance, r3) :- GetString(s);
    var (n, r4) :- GetCount(r3);
    GetList(n, GetParticipant, NewParticipant, false, [], r4)
  }

  lemma GroupTailShort(s: seq<byte>, t: seq<byte>)
    requires GroupTail(s + t).Ok?
    ensures Short(GroupTail(s))
  {
    hide GetParticipant, GetList, GetCount, GetString;
    StringShort(s);
    if GetString(s).Ok? {
      StringExtend(s, t);
      var r3 := GetString(s).rest;
      CountShort(r3);
      if GetCount(r3).Ok? {
        CountExtend(r3, t);
        forall s
          ensures Short(GetParticipant(false, s))
        {
          ParticipantShort(s);
        }
        forall s | GetParticipant(false, s).Ok?
          ensures GetParticipant(false, s + t) == GetParticipant(false, s).With(t)
        {
          ParticipantExtend(false, s, t);
        }
        ListShort(GetCount(r3).value, GetParticipant, NewParticipant, [], GetCount(r3).rest, t);
      }
    }
  }

  lemma StringShort(s: seq<byte>)
    ensures Short(GetString(s))
  {
  }

  lemma CountShort(s: seq<byte>)
    ensures Short(GetCount(s))
  {
  }

  lemma MeasurementShort(s: seq<byte>, t: seq<byte>)
    requires GetMeasurement(false, s + t).Ok?
    ensures Short(GetMeasurement(false, s))
  {
    hide GetU64s, GetEnum;
    NumbersShort(4, s);
    if GetU64s(4, s).Ok? {
      U64sExtend(4, s, t);
      var r1 := GetU64s(4, s).rest;
      EnumShort(ALGORITHM_MAX, r1, t);
      if GetEnum(ALGORITHM_MAX, r1).Ok? {
        EnumExtend(ALGORITHM_MAX, r1, t);
        MeasurementTailShort(GetEnum(ALGORITHM_MAX, r1).rest, t);
      }
    }
  }

  /** Everything behind the algorithm. */
  function MeasurementTail(s: seq<byte>): Parsed<bool> {
    var (w, r3) :- GetU64s(4, s);
    var (provenance, r4) :- GetU8(r3);
    var (freshness, r5) :- GetU8(r4);
    if provenance > PROVENANCE_MAX || freshness > FRESHNESS_MAX then Err(InvalidEnum)
    else
      var (x, r6) :- GetU64s(2, r5);
      GetBool(false, r6)
  }

  lemma MeasurementTailShort(s: seq<byte>, t: seq<byte>)
    requires MeasurementTail(s + t).Ok?
    ensures Short(MeasurementTail(s))
  {
    hide GetU64s, GetU8;
    NumbersShort(4, s);
    if GetU64s(4, s).Ok? {
      U64sExtend(4, s, t);
      var r3 := GetU64s(4, s).rest;
      ByteShort(r3);
      U8Laws(0, r3, t);
      if GetU8(r3).Ok? {
        var r4 := GetU8(r3).rest;
        ByteShort(r4);
        U8Laws(0, r4, t);
        if GetU8(r4).Ok? {
          NumbersShort(2, GetU8(r4).rest);
          if GetU64s(2, GetU8(r4).rest).Ok? {
            ByteShort(GetU64s(2, GetU8(r4).rest).rest);
          }
        }
      }
    }
  }

  lemma ByteShort(s: seq<byte>)
    ensures Short(GetU8(s))
  {
  }

  lemma HealthShort(s: seq<byte>, t: seq<byte>)
    requires GetHealth(false, s + t).Ok?
    ensures Short(GetHealth(false, s))
  {
    hide GetU64s, GetEnum, GetBool, GetString;
    PresenceShort(s);
    if GetBool(false, s).Ok? && GetBool(false, s).value {
      BoolExtend(false, s, t);
      var r1 := GetBool(false, s).rest;
      EnumShort(HEALTH_MAX, r1, t);
      if GetEnum(HEALTH_MAX, r1).Ok? {
        EnumExtend(HEALTH_MAX, r1, t);
        var r2 := GetEnum(HEALTH_MAX, r1).rest;
        NumbersShort(2, r2);
        if GetU64s(2, r2).Ok? {
          StringShort(GetU64s(2, r2).rest);
        }
      }
    }
  }

  lemma PresenceShort(s: seq<byte>)
    ensures Short(GetBool(false, s))
  {
  }

  lemma BackendShort(s: seq<byte>)
    ensures Short(GetBackend(false, s))
  {
    hide GetU64s, GetString;
    NumbersShort(2, s);
    if GetU64s(2, s).Ok? {
      StringShort(GetU64s(2, s).rest);
    }
  }

  lemma GroupsShort(n: nat, s: seq<byte>, t: seq<byte>)
    requires GetList(n, GetGroup, NewGroup, false, [], s + t).Ok?
    ensures Short(GetList(n, GetGroup, NewGroup, false, [], s))
  {
    hide GetGroup, GetList;
    forall s | GetGroup(false, s).Ok?
      ensures GetGroup(false, s + t) == GetGroup(false, s).With(t)
    {
      GroupExtend(false, s, t);
    }
    forall s {:trigger GetGroup(false, s + t)} | GetGroup(false, s + t).Ok?
      ensures Short(GetGroup(false, s))
    {
      GroupShort(s, t);
    }
    ListShort(n, GetGroup, NewGroup, [], s, t);
  }

  lemma MeasurementsShort(n: nat, s: seq<byte>, t: seq<byte>)
    requires GetList(n, GetMeasurement, NewMeasurement, false, [], s + t).Ok?
    ensures Short(GetList(n, GetMeasurement, NewMeasurement, false, [], s))
  {
    hide GetMeasurement, GetList;
    forall s | GetMeasurement(false, s).Ok?
      ensures GetMeasurement(false, s + t) == GetMeasurement(false, s).With(t)
    {
      MeasurementExtend(false, s, t);
    }
    forall s {:trigger GetMeasurement(false, s + t)} | GetMeasurement(false, s + t).Ok?
      ensures Short(GetMeasurement(false, s))
    {
      MeasurementShort(s, t);
    }
    ListShort(n, GetMeasurement, NewMeasurement, [], s, t);
  }

  lemma BackendsShort(n: nat, s: seq<byte>, t: seq<byte>)
    requires GetList(n, GetBackend, AnyBackend, false, [], s + t).Ok?
    ensures Short(GetList(n, GetBackend, AnyBackend, false, [], s))
  {
    hide GetBackend, GetList;
    forall s | GetBackend(false, s).Ok?
      ensures GetBackend(false, s + t) == GetBackend(false, s).With(t)
    {
      BackendExtend(false, s, t);
    }
    forall s
      ensures Short(GetBackend(false, s))
    {
      BackendShort(s);
    }
    ListShort(n, GetBackend, AnyBackend, [], s, t);
  }

  lemma FrontShort(s: seq<byte>, t: seq<byte>)
    requires GetFront(false, s + t).Ok?
    ensures Short(GetFront(false, s))
    ensures GetFront(false, s).Ok? ==> GetFront(false, s + t) == GetFront(false, s).With(t)
  {
    hide GetU64s, GetCount, GetList;
    NumbersShort(1, s);
    if GetU64s(1, s).Ok? {
      U64sExtend(1, s, t);
      var r0 := GetU64s(1, s).rest;
      NumbersShort(2, r0);
      if GetU64s(2, r0).Ok? {
        U64sExtend(2, r0, t);
        var r1 := GetU64s(2, r0).rest;
        CountShort(r1);
        if GetCount(r1).Ok? {
          CountExtend(r1, t);
          var Ok(n, r2) := GetCount(r1);
          GroupsShort(n, r2, t);
          if GetList(n, GetGroup, NewGroup, false, [], r2).Ok? {
            GroupsExtend(false, n, r2, t);
          }
        }
      }
    }
  }

  lemma BackShort(f: Front, s: seq<byte>, t: seq<byte>)
    requires GetBack(false, f, s + t).Ok?
    ensures Short(GetBack(false, f, s))
  {
    hide GetU64s, GetCount, GetList, GetHealth;
    CountShort(s);
    if GetCount(s).Ok? {
      CountExtend(s, t);
      var Ok(mn, r4) := GetCount(s);
      MeasurementsShort(mn, r4, t);
      if GetList(mn, GetMeasurement, NewMeasurement, false, [], r4).Ok? {
        MeasurementsExtend(false, mn, r4, t);
        var r5 := GetList(mn, GetMeasurement, NewMeasurement, false, [], r4).rest;
        HealthShort(r5, t);
        if GetHealth(false, r5).Ok? {
          HealthExtend(false, r5, t);
          LastShort(GetHealth(false, r5).rest, t);
        }
      }
    }
  }

  /** The backends and the two numbers that end a state. */
  function Last(s: seq<byte>): Parsed<seq<u64>> {
    var (bn, r7) :- GetCount(s);
    var (backends, r8) :- GetList(bn, GetBackend, AnyBackend, false, [], r7);
    GetU64s(2, r8)
  }

  lemma LastShort(s: seq<byte>, t: seq<byte>)
    requires Last(s + t).Ok?
    ensures Short(Last(s))
  {
    hide GetU64s, GetCount, GetList;
    CountShort(s);
    if GetCount(s).Ok? {
      CountExtend(s, t);
      var Ok(bn, r7) := GetCount(s);
      BackendsShort(bn, r7, t);
      if GetList(bn, GetBackend, AnyBackend, false, [], r7).Ok? {
        NumbersShort(2, GetList(bn, GetBackend, AnyBackend, false, [], r7).rest);
      }
    }
  }

  /** A proper prefix of an accepted payload is refused as truncated, or for a count that is cut off; it is
      never taken for a bad enumeration, a duplicate or another version. */
  lemma PrefixIsShort(payload: seq<byte>, k: nat)
    requires Decoded(payload).Accepted? && k < |payload|
    ensures Decoded(payload[..k]) == Refused(Truncated) || Decoded(payload[..k]) == Refused(InvalidCount)
  {
    hide GetFront, GetBack;
    var s, t := payload[..k], payload[k..];
    assert s + t == payload;
    PrefixRefused(payload, k);
    FrontShort(s, t);
    if GetFront(false, s).Ok? {
      BackShort(GetFront(false, s).value, GetFront(false, s).rest, t);
    }
    Unaccepted(s, t);
  }

  /** What is cut off is never trailing garbage. */
  lemma Unaccepted(s: seq<byte>, t: seq<byte>)
    requires Decoded(s + t).Accepted? && t != []
    ensures GetState(false, s).Err?
  {
    hide GetState;
    if GetState(false, s).Ok? {
      StateExtend(false, s, t);
    }
  }

  // ---------------------------------------------------------------- states that are not well-formed

  /** What reading one record back gives: the record, or its fault. */
  function Verdict<T>(x: T, fault: Option<Fault>, rest: seq<byte>): Parsed<T> {
    if fault.None? then Ok(x, rest) else Err(fault.value)
  }

  /** The first fault of a list: of a record itself, or that it repeats an earlier one. */
  function FirstFault<T>(xs: seq<T>, fault: T -> Option<Fault>, isNew: (seq<T>, T) -> bool, acc: seq<T>): Option<Fault>
    decreases |xs|
  {
    if xs == [] then None
    else if fault(xs[0]).Some? then fault(xs[0])
    else if !isNew(acc, xs[0]) then Some(Duplicate)
    else FirstFault(xs[1..], fault, isNew, acc + [xs[0]])
  }

  lemma {:induction false} ListDecides<T(!new)>(
      xs: seq<T>, enc: T -> seq<byte>, p: (bool, seq<byte>) -> Parsed<T>, fault: T -> Option<Fault>,
      isNew: (seq<T>, T) -> bool, acc: seq<T>, rest: seq<byte>)
    requires forall x, r :: x in xs ==> p(false, enc(x) + r) == Verdict(x, fault(x), r)
    ensures GetList(|xs|, p, isNew, false, acc, ListBytes(enc, xs) + rest)
         == Verdict(acc + xs, FirstFault(xs, fault, isNew, acc), rest)
    decreases |xs|
  {
    var s := ListBytes(enc, xs) + rest;
    if xs == [] {
      assert s == rest && acc + xs == acc;
    } else {
      var x, tail := xs[0], xs[1..];
      assert s == enc(x) + (ListBytes(enc, tail) + rest);
      assert acc + [x] + tail == acc + xs;
      assert forall y :: y in tail ==> y in xs;
      ListDecides(tail, enc, p, fault, isNew, acc + [x], rest);
    }
  }

  lemma EnumDecides(max: byte, b: byte, rest: seq<byte>)
    ensures GetEnum(max, [b] + rest) == Verdict(b, if b > max then Some(InvalidEnum) else None, rest)
  {
    U8Laws(b, [], rest);
  }

  lemma CountDecides(n: u64, rest: seq<byte>)
    ensures GetCount(ToBE(n, 8) + rest) == Verdict(n, if n > 10_000_000 then Some(InvalidCount) else None, rest)
  {
    U64Forward(n, rest);
  }

  function NoFault<T>(x: T): Option<Fault> { None }

  function GroupFault(g: Group): Option<Fault> {
    if g.lifecycle > 5 then Some(InvalidEnum)
    else if |g.participants| > 10_000_000 then Some(InvalidCount)
    else FirstFault(g.participants, NoFault, NewParticipant, [])
  }

  function MeasurementFault(m: Measurement): Option<Fault> {
    if m.algorithm > 7 || m.provenance > 4 || m.freshness > 3 then Some(InvalidEnum) else None
  }

  /** The first fault of a state in the order in which its encoding is read. */
  function StateFault(s: PersistentState): Option<Fault> {
    var groups := FirstFault(s.groups, GroupFault, NewGroup, []);
    var measurements := FirstFault(s.measurements, MeasurementFault, NewMeasurement, []);
    if s.formatVersion > 1 then Some(UnsupportedVersion)
    else if |s.groups| > 10_000_000 then Some(InvalidCount)
    else if groups.Some? then groups
    else if |s.measurements| > 10_000_000 then Some(InvalidCount)
    else if measurements.Some? then measurements
    else if s.health.Some? && s.health.value.state > 3 then Some(InvalidEnum)
    else if |s.backends| > 10_000_000 then Some(InvalidCount)
    else None
  }

  /** Every length fits in its eight bytes, as it does in memory. */
  ghost predicate Encodable(s: PersistentState) {
    && |s.groups| < U64_LIMIT && |s.measurements| < U64_LIMIT && |s.backends| < U64_LIMIT
    && (forall i :: 0 <= i < |s.groups| ==> |s.groups[i].provenance| < U64_LIMIT && |s.groups[i].participants| < U64_LIMIT)
    && (s.health.Some? ==> |s.health.value.narrative| < U64_LIMIT)
    && (forall i :: 0 <= i < |s.backends| ==> |s.backends[i].name| < U64_LIMIT)
  }

  lemma GroupDecides(g: Group, rest: seq<byte>)
    requires |g.provenance| < U64_LIMIT && |g.participants| < U64_LIMIT
    ensures GetGroup(false, GroupBytes(g) + rest) == Verdict(g, GroupFault(g), rest)
  {
    hide U64sBytes, GetU64s, GetEnum, StringBytes, GetString, ToBE, GetCount, ListBytes, GetList, FirstFault;
    var v := [g.id, g.generation, g.membership, g.topology, g.health, g.backend];
    var s5 := ListBytes(ParticipantBytes, g.participants) + rest;
    var s4 := ToBE(|g.participants|, 8) + s5;
    var s3 := StringBytes(g.provenance) + s4;
    var s2 := [g.lifecycle] + s3;
    assert GroupBytes(g) + rest == U64sBytes(v) + s2;
    U64sForward(v, s2);
    EnumDecides(LIFECYCLE_MAX, g.lifecycle, s3);
    StringForward(g.provenance, s4);
    CountDecides(|g.participants|, s5);
    forall x, r ensures GetParticipant(false, ParticipantBytes(x) + r) == Verdict(x, NoFault(x), r) {
      ParticipantForward(false, x, r);
    }
    assert [] + g.participants == g.participants;
    ListDecides(g.participants, ParticipantBytes, GetParticipant, NoFault, NewParticipant, [], rest);
  }

  lemma MeasurementDecides(m: Measurement, rest: seq<byte>)
    ensures GetMeasurement(false, MeasurementBytes(m) + rest) == Verdict(m, MeasurementFault(m), rest)
  {
    hide U64sBytes, GetU64s, GetEnum, GetBool, BoolBytes, GetU8;
    var v := [m.id, m.collective, m.collectiveGeneration, m.groupGeneration];
    var w := [m.backend, m.rankCount, m.payloadBytes, m.wallTimeUs];
    var x := [m.timestampNs, m.measurementGeneration];
    var s7 := BoolBytes(m.success) + rest;
    var s6 := U64sBytes(x) + s7;
    var s5 := [m.freshness] + s6;
    var s4 := [m.provenance] + s5;
    var s3 := U64sBytes(w) + s4;
    var s2 := [m.algorithm] + s3;
    assert MeasurementBytes(m) + rest == U64sBytes(v) + s2;
    U64sForward(v, s2);
    EnumDecides(ALGORITHM_MAX, m.algorithm, s3);
    U64sForward(w, s4);
    U8Laws(m.provenance, [], s5);
    U8Laws(m.freshness, [], s6);
    U64sForward(x, s7);
    BoolForward(false, m.success, rest);
  }

  function HealthFault(h: Option<Health>): Option<Fault> {
    if h.Some? && h.value.state > 3 then Some(InvalidEnum) else None
  }

  lemma HealthDecides(h: Option<Health>, rest: seq<byte>)
    requires h.Some? ==> |h.value.narrative| < U64_LIMIT
    ensures GetHealth(false, HealthBytes(h) + rest) == Verdict(h, HealthFault(h), rest)
  {
    hide U64sBytes, GetU64s, GetEnum, GetBool, BoolBytes, StringBytes, GetString;
    match h
    case None =>
      assert HealthBytes(h) + rest == BoolBytes(false) + rest;
      BoolForward(false, false, rest);
    case Some(x) =>
      var v := [x.generation, x.observedNs];
      var s3 := StringBytes(x.narrative) + rest;
      var s2 := U64sBytes(v) + s3;
      var s1 := [x.state] + s2;
      assert HealthBytes(h) + rest == BoolBytes(true) + s1;
      BoolForward(false, true, s1);
      EnumDecides(HEALTH_MAX, x.state, s2);
      U64sForward(v, s3);
      StringForward(x.narrative, rest);
  }

  lemma GroupsDecide(s: PersistentState, rest: seq<byte>)
    requires Encodable(s)
    ensures GetList(|s.groups|, GetGroup, NewGroup, false, [], ListBytes(GroupBytes, s.groups) + rest)
         == Verdict(s.groups, FirstFault(s.groups, GroupFault, NewGroup, []), rest)
  {
    hide GetGroup, GroupBytes, GroupFault, GetList;
    forall x, r | x in s.groups
      ensures GetGroup(false, GroupBytes(x) + r) == Verdict(x, GroupFault(x), r)
    {
      GroupDecides(x, r);
    }
    assert [] + s.groups == s.groups;
    ListDecides(s.groups, GroupBytes, GetGroup, GroupFault, NewGroup, [], rest);
  }

  lemma MeasurementsDecide(ms: seq<Measurement>, rest: seq<byte>)
    ensures GetList(|ms|, GetMeasurement, NewMeasurement, false, [], ListBytes(MeasurementBytes, ms) + rest)
         == Verdict(ms, FirstFault(ms, MeasurementFault, NewMeasurement, []), rest)
  {
    hide GetMeasurement, MeasurementBytes, MeasurementFault, GetList;
    forall x, r | x in ms
      ensures GetMeasurement(false, MeasurementBytes(x) + r) == Verdict(x, MeasurementFault(x), r)
    {
      MeasurementDecides(x, r);
    }
    assert [] + ms == ms;
    ListDecides(ms, MeasurementBytes, GetMeasurement, MeasurementFault, NewMeasurement, [], rest);
  }

  lemma FrontDecides(s: PersistentState, rest: seq<byte>)
    requires Encodable(s)
    ensures var groups := FirstFault(s.groups, GroupFault, NewGroup, []);
            var bytes := U64sBytes([s.formatVersion]) + (U64sBytes([s.epoch, s.liveBoot]) + (ToBE(|s.groups|, 8)
                         + (ListBytes(GroupBytes, s.groups) + rest)));
            GetFront(false, bytes) ==
            Verdict(Front(s.formatVersion, s.epoch, s.liveBoot, s.groups),
                    if s.formatVersion > 1 then Some(UnsupportedVersion) else if |s.groups| > 10_000_000 then Some(InvalidCount)
                    else groups,
                    rest)
  {
    hide U64sBytes, GetU64s, ToBE, GetCount, ListBytes, GetList, FirstFault, GroupBytes, GetGroup, Encodable;
    EncodableCounts(s);
    var s2 := ListBytes(GroupBytes, s.groups) + rest;
    var s1 := ToBE(|s.groups|, 8) + s2;
    var s0 := U64sBytes([s.epoch, s.liveBoot]) + s1;
    U64sForward([s.formatVersion], s0);
    U64sForward([s.epoch, s.liveBoot], s1);
    CountDecides(|s.groups|, s2);
    GroupsDecide(s, rest);
  }

  lemma EncodableCounts(s: PersistentState)
    requires Encodable(s)
    ensures |s.groups| < U64_LIMIT && |s.measurements| < U64_LIMIT && |s.backends| < U64_LIMIT
    ensures s.health.Some? ==> |s.health.value.narrative| < U64_LIMIT
    ensures forall i :: 0 <= i < |s.backends| ==> WellFormedBackend(s.backends[i])
  {
  }

  lemma BackDecides(s: PersistentState, f: Front)
    requires Encodable(s) && f == Front(s.formatVersion, s.epoch, s.liveBoot, s.groups)
    ensures var measurements := FirstFault(s.measurements, MeasurementFault, NewMeasurement, []);
            var bytes := ToBE(|s.measurements|, 8) + (ListBytes(MeasurementBytes, s.measurements) + (HealthBytes(s.health)
                         + (ToBE(|s.backends|, 8) + (ListBytes(BackendBytes, s.backends) + U64sBytes([s.policyCount, s.savedNs])))));
            GetBack(false, f, bytes) ==
            Verdict(s,
                    if |s.measurements| > 10_000_000 then Some(InvalidCount) else if measurements.Some? then measurements
                    else if HealthFault(s.health).Some? then HealthFault(s.health)
                    else if |s.backends| > 10_000_000 then Some(InvalidCount) else None,
                    [])
  {
    hide U64sBytes, GetU64s, ToBE, GetCount, ListBytes, GetList, HealthBytes, GetHealth, FirstFault, Encodable, HealthFault;
    hide MeasurementBytes, GetMeasurement, BackendBytes, GetBackend, EachNew;
    EncodableCounts(s);
    var z := [s.policyCount, s.savedNs];
    var s8 := U64sBytes(z);
    var s7 := ListBytes(BackendBytes, s.backends) + s8;
    var s6 := ToBE(|s.backends|, 8) + s7;
    var s5 := HealthBytes(s.health) + s6;
    var s4 := ListBytes(MeasurementBytes, s.measurements) + s5;
    CountDecides(|s.measurements|, s4);
    MeasurementsDecide(s.measurements, s5);
    HealthDecides(s.health, s6);
    CountDecides(|s.backends|, s7);
    BackendsDistinct(s.backends);
    BackendsForward(false, s.backends, s8);
    U64sForward(z, []);
    assert s8 + [] == s8;
  }

  /** Decoding what was encoded gives the state back, or, for a state that is not well-formed, its first
      fault in reading order: a version, a count, an enumeration or a repetition. */
  lemma DecodeOfEncode(s: PersistentState)
    requires Encodable(s)
    ensures Decoded(Encoded(s)) == if StateFault(s).None? then Accepted(s) else Refused(StateFault(s).value)
    ensures StateFault(s).None? <==> WellFormed(s)
  {
    hide GetFront, GetBack, FirstFault, Encodable, U64sBytes, ToBE, ListBytes, HealthBytes, WellFormed;
    var back := ToBE(|s.measurements|, 8) + (ListBytes(MeasurementBytes, s.measurements) + (HealthBytes(s.health)
                + (ToBE(|s.backends|, 8) + (ListBytes(BackendBytes, s.backends) + U64sBytes([s.policyCount, s.savedNs])))));
    FrontDecides(s, back);
    BackDecides(s, Front(s.formatVersion, s.epoch, s.liveBoot, s.groups));
    if StateFault(s).None? {
      AcceptedIsWellFormed(Encoded(s));
    }
    if WellFormed(s) {
      RoundTrip(s);
    }
  }
}
