/** Round trip, canonicity and self-delimitation of the store format. */
module StoreLaws {
  import opened Bytes
  import opened Canonical
  import opened Foundation
  import opened Store

  // ---------------------------------------------------------------- counts and enumerations

  lemma CountForward(n: nat, rest: seq<byte>)
    requires n <= MAX_COUNT
    ensures GetCount(ToBE(n, 8) + rest) == Ok(n, rest)
  {
    U64Forward(n, rest);
  }

  lemma CountInverse(s: seq<byte>)
    requires GetCount(s).Ok?
    ensures s == ToBE(GetCount(s).value, 8) + GetCount(s).rest
  {
    U64Inverse(s);
  }

  lemma CountExtend(s: seq<byte>, t: seq<byte>)
    requires GetCount(s).Ok?
    ensures GetCount(s + t) == GetCount(s).With(t)
  {
    U64Extend(s, t);
  }

  lemma EnumForward(max: byte, b: byte, rest: seq<byte>)
    requires b <= max
    ensures GetEnum(max, [b] + rest) == Ok(b, rest)
  {
    U8Laws(b, [], rest);
  }

  lemma EnumInverse(max: byte, s: seq<byte>)
    requires GetEnum(max, s).Ok?
    ensures s == [GetEnum(max, s).value] + GetEnum(max, s).rest
  {
  }

  lemma EnumExtend(max: byte, s: seq<byte>, t: seq<byte>)
    requires GetEnum(max, s).Ok?
    ensures GetEnum(max, s + t) == GetEnum(max, s).With(t)
  {
    U8Laws(0, s, t);
  }

  // ---------------------------------------------------------------- participants

  lemma ParticipantForward(strict: bool, p: Participant, rest: seq<byte>)
    ensures GetParticipant(strict, ParticipantBytes(p) + rest) == Ok(p, rest)
  {
    hide U64sBytes, GetU64s, GetBool, BoolBytes;
    var v := [p.id, p.worker, p.boot, p.node, p.device, p.rank, p.backendGeneration];
    assert ParticipantBytes(p) + rest == U64sBytes(v) + (BoolBytes(p.isKnown) + rest);
    U64sForward(v, BoolBytes(p.isKnown) + rest);
    BoolForward(strict, p.isKnown, rest);
  }

  lemma ParticipantInverse(s: seq<byte>)
    requires GetParticipant(true, s).Ok?
    ensures s == ParticipantBytes(GetParticipant(true, s).value) + GetParticipant(true, s).rest
  {
    hide U64sBytes, GetU64s, GetBool, BoolBytes;
    U64sInverse(7, s);
    var Ok(v, r1) := GetU64s(7, s);
    assert v == [v[0], v[1], v[2], v[3], v[4], v[5], v[6]];
    BoolInverse(r1);
  }

  lemma ParticipantExtend(strict: bool, s: seq<byte>, t: seq<byte>)
    requires GetParticipant(strict, s).Ok?
    ensures GetParticipant(strict, s + t) == GetParticipant(strict, s).With(t)
  {
    hide GetU64s, GetBool;
    U64sExtend(7, s, t);
    BoolExtend(strict, GetU64s(7, s).rest, t);
  }

  lemma ParticipantsDistinct(ps: seq<Participant>)
    ensures EachNew(NewParticipant, ps, 0) <==>
            forall i, j :: 0 <= i < j < |ps| ==> ps[i].id != ps[j].id && ps[i].rank != ps[j].rank
  {
    if EachNew(NewParticipant, ps, 0) {
      forall i, j | 0 <= i < j < |ps|
        ensures ps[i].id != ps[j].id && ps[i].rank != ps[j].rank
      {
        assert NewParticipant(ps[..j], ps[j]);
        assert ps[..j][i] == ps[i];
      }
    }
  }

  // ---------------------------------------------------------------- groups

  lemma GroupForward(strict: bool, g: Group, rest: seq<byte>)
    requires WellFormedGroup(g)
    ensures GetGroup(strict, GroupBytes(g) + rest) == Ok(g, rest)
  {
    hide U64sBytes, GetU64s, GetEnum, StringBytes, GetString, ToBE, GetCount, ListBytes, GetList;
    var v := [g.id, g.generation, g.membership, g.topology, g.health, g.backend];
    var s5 := ListBytes(ParticipantBytes, g.participants) + rest;
    var s4 := ToBE(|g.participants|, 8) + s5;
    var s3 := StringBytes(g.provenance) + s4;
    var s2 := [g.lifecycle] + s3;
    assert GroupBytes(g) + rest == U64sBytes(v) + s2;
    U64sForward(v, s2);
    EnumForward(LIFECYCLE_MAX, g.lifecycle, s3);
    StringForward(g.provenance, s4);
    CountForward(|g.participants|, s5);
    forall x, r ensures GetParticipant(strict, ParticipantBytes(x) + r) == Ok(x, r) {
      ParticipantForward(strict, x, r);
    }
    ParticipantsDistinct(g.participants);
    assert [] + g.participants == g.participants;
    ListForward(g.participants, ParticipantBytes, GetParticipant, NewParticipant, strict, [], rest);
  }

  lemma GroupShape(strict: bool, s: seq<byte>)
    requires GetGroup(strict, s).Ok?
    ensures WellFormedGroup(GetGroup(strict, s).value)
  {
    hide GetU64s, ToBE, FromBE, GetList, GetParticipant, NewParticipant;
    var Ok(g, _) := GetGroup(strict, s);
    var r2 := GetEnum(LIFECYCLE_MAX, GetU64s(6, s).rest).rest;
    StringInverse(r2);
    var r4 := GetCount(GetString(r2).rest);
    ListShape(r4.value, GetParticipant, NewParticipant, strict, [], r4.rest, _ => true);
    ParticipantsDistinct(g.participants);
  }

  lemma GroupInverse(s: seq<byte>)
    requires GetGroup(true, s).Ok?
    ensures s == GroupBytes(GetGroup(true, s).value) + GetGroup(true, s).rest
  {
    hide U64sBytes, GetU64s, GetEnum, StringBytes, GetString, ToBE, GetCount, ListBytes, GetList;
    hide ParticipantBytes, GetParticipant;
    var Ok(g, r5) := GetGroup(true, s);
    U64sInverse(6, s);
    var Ok(v, r1) := GetU64s(6, s);
    assert v == [v[0], v[1], v[2], v[3], v[4], v[5]];
    EnumInverse(LIFECYCLE_MAX, r1);
    var r2 := GetEnum(LIFECYCLE_MAX, r1).rest;
    StringInverse(r2);
    var r3 := GetString(r2).rest;
    CountInverse(r3);
    var Ok(n, r4) := GetCount(r3);
    forall s | GetParticipant(true, s).Ok?
      ensures s == ParticipantBytes(GetParticipant(true, s).value) + GetParticipant(true, s).rest
    {
      ParticipantInverse(s);
    }
    ListInverse(n, ParticipantBytes, GetParticipant, NewParticipant, [], r4);
    GroupListLength(n, r4);
    assert g.participants[0..] == g.participants;
  }

  lemma GroupListLength(n: nat, s: seq<byte>)
    requires GetList(n, GetParticipant, NewParticipant, true, [], s).Ok?
    ensures |GetList(n, GetParticipant, NewParticipant, true, [], s).value| == n
  {
    ListShape(n, GetParticipant, NewParticipant, true, [], s, _ => true);
  }

  lemma GroupExtend(strict: bool, s: seq<byte>, t: seq<byte>)
    requires GetGroup(strict, s).Ok?
    ensures GetGroup(strict, s + t) == GetGroup(strict, s).With(t)
  {
    hide GetU64s, GetEnum, GetString, GetCount, GetList, GetParticipant;
    U64sExtend(6, s, t);
    var r1 := GetU64s(6, s).rest;
    EnumExtend(LIFECYCLE_MAX, r1, t);
    var r2 := GetEnum(LIFECYCLE_MAX, r1).rest;
    StringExtend(r2, t);
    var r3 := GetString(r2).rest;
    CountExtend(r3, t);
    forall s | GetParticipant(strict, s).Ok?
      ensures GetParticipant(strict, s + t) == GetParticipant(strict, s).With(t)
    {
      ParticipantExtend(strict, s, t);
    }
    ListExtend(GetCount(r3).value, GetParticipant, NewParticipant, strict, [], GetCount(r3).rest, t);
  }

  lemma GroupsDistinct(gs: seq<Group>)
    ensures EachNew(NewGroup, gs, 0) <==>
            forall i, j :: 0 <= i < j < |gs| ==> (gs[i].id, gs[i].generation) != (gs[j].id, gs[j].generation)
  {
    if EachNew(NewGroup, gs, 0) {
      forall i, j | 0 <= i < j < |gs|
        ensures (gs[i].id, gs[i].generation) != (gs[j].id, gs[j].generation)
      {
        assert NewGroup(gs[..j], gs[j]);
        assert gs[..j][i] == gs[i];
      }
    }
  }

  // ---------------------------------------------------------------- measurements

  lemma MeasurementForward(strict: bool, m: Measurement, rest: seq<byte>)
    requires WellFormedMeasurement(m)
    ensures GetMeasurement(strict, MeasurementBytes(m) + rest) == Ok(m, rest)
  {
    hide U64sBytes, GetU64s, GetEnum, GetBool, BoolBytes, GetU8;
    var v := [m.id, m.collective, m.collectiveGeneration, m.groupGeneration];
    var w := [m.backend, m.rankCount, m.payloadBytes, m.wallTimeUs];
    var x := [m.timestampNs, m.measurementGeneration];
    var s7 := BoolBytes(m.success) + rest;
    var s6 := U64sBytes(x) + s7;
    var s5 := [m.freshness] + s6;
    var s4 := [m.provenance] + s5;
    var s3 := U64sBytes(w) + s4;
    var s2 := [m.algorithm] + s3;
    assert MeasurementBytes(m) + rest == U64sBytes(v) + s2;
    U64sForward(v, s2);
    EnumForward(ALGORITHM_MAX, m.algorithm, s3);
    U64sForward(w, s4);
    U8Laws(m.provenance, [], s5);
    U8Laws(m.freshness, [], s6);
    U64sForward(x, s7);
    BoolForward(strict, m.success, rest);
  }

  lemma MeasurementShape(strict: bool, s: seq<byte>)
    requires GetMeasurement(strict, s).Ok?
    ensures WellFormedMeasurement(GetMeasurement(strict, s).value)
  {
  }

  lemma MeasurementInverse(s: seq<byte>)
    requires GetMeasurement(true, s).Ok?
    ensures s == MeasurementBytes(GetMeasurement(true, s).value) + GetMeasurement(true, s).rest
  {
    hide U64sBytes, GetU64s, GetEnum, GetBool, BoolBytes, GetU8;
    U64sInverse(4, s);
    var Ok(v, r1) := GetU64s(4, s);
    assert v == [v[0], v[1], v[2], v[3]];
    EnumInverse(ALGORITHM_MAX, r1);
    var r2 := GetEnum(ALGORITHM_MAX, r1).rest;
    U64sInverse(4, r2);
    var Ok(w, r3) := GetU64s(4, r2);
    assert w == [w[0], w[1], w[2], w[3]];
    U8Laws(0, r3, []);
    var r4 := GetU8(r3).rest;
    U8Laws(0, r4, []);
    var r5 := GetU8(r4).rest;
    U64sInverse(2, r5);
    var Ok(x, r6) := GetU64s(2, r5);
    assert x == [x[0], x[1]];
    BoolInverse(r6);
  }

  lemma MeasurementExtend(strict: bool, s: seq<byte>, t: seq<byte>)
    requires GetMeasurement(strict, s).Ok?
    ensures GetMeasurement(strict, s + t) == GetMeasurement(strict, s).With(t)
  {
    hide GetU64s, GetEnum, GetBool, GetU8;
    U64sExtend(4, s, t);
    var r1 := GetU64s(4, s).rest;
    EnumExtend(ALGORITHM_MAX, r1, t);
    var r2 := GetEnum(ALGORITHM_MAX, r1).rest;
    U64sExtend(4, r2, t);
    var r3 := GetU64s(4, r2).rest;
    U8Laws(0, r3, t);
    var r4 := GetU8(r3).rest;
    U8Laws(0, r4, t);
    var r5 := GetU8(r4).rest;
    U64sExtend(2, r5, t);
    BoolExtend(strict, GetU64s(2, r5).rest, t);
  }

  lemma MeasurementsDistinct(ms: seq<Measurement>)
    ensures EachNew(NewMeasurement, ms, 0) <==>
            forall i, j :: 0 <= i < j < |ms| ==> ms[i].id != ms[j].id
  {
    if EachNew(NewMeasurement, ms, 0) {
      forall i, j | 0 <= i < j < |ms|
        ensures ms[i].id != ms[j].id
      {
        assert NewMeasurement(ms[..j], ms[j]);
        assert ms[..j][i] == ms[i];
      }
    }
  }

  // ---------------------------------------------------------------- health and backends

  lemma HealthForward(strict: bool, h: Option<Health>, rest: seq<byte>)
    requires WellFormedHealth(h)
    ensures GetHealth(strict, HealthBytes(h) + rest) == Ok(h, rest)
  {
    hide U64sBytes, GetU64s, GetEnum, GetBool, BoolBytes, StringBytes, GetString;
    match h
    case None =>
      assert HealthBytes(h) + rest == BoolBytes(false) + rest;
      BoolForward(strict, false, rest);
    case Some(x) =>
      var v := [x.generation, x.observedNs];
      var s3 := StringBytes(x.narrative) + rest;
      var s2 := U64sBytes(v) + s3;
      var s1 := [x.state] + s2;
      assert HealthBytes(h) + rest == BoolBytes(true) + s1;
      BoolForward(strict, true, s1);
      EnumForward(HEALTH_MAX, x.state, s2);
      U64sForward(v, s3);
      StringForward(x.narrative, rest);
  }

  lemma HealthShape(strict: bool, s: seq<byte>)
    requires GetHealth(strict, s).Ok?
    ensures WellFormedHealth(GetHealth(strict, s).value)
  {
    hide GetU64s;
    var Ok(present, r1) := GetBool(strict, s);
    if present {
      StringInverse(GetU64s(2, GetEnum(HEALTH_MAX, r1).rest).rest);
    }
  }

  lemma HealthInverse(s: seq<byte>)
    requires GetHealth(true, s).Ok?
    ensures s == HealthBytes(GetHealth(true, s).value) + GetHealth(true, s).rest
  {
    hide U64sBytes, GetU64s, GetEnum, GetBool, BoolBytes, StringBytes, GetString;
    BoolInverse(s);
    var Ok(present, r1) := GetBool(true, s);
    if present {
      EnumInverse(HEALTH_MAX, r1);
      var r2 := GetEnum(HEALTH_MAX, r1).rest;
      U64sInverse(2, r2);
      var Ok(v, r3) := GetU64s(2, r2);
      assert v == [v[0], v[1]];
      StringInverse(r3);
    }
  }

  lemma HealthExtend(strict: bool, s: seq<byte>, t: seq<byte>)
    requires GetHealth(strict, s).Ok?
    ensures GetHealth(strict, s + t) == GetHealth(strict, s).With(t)
  {
    hide GetU64s, GetEnum, GetBool, GetString;
    BoolExtend(strict, s, t);
    var Ok(present, r1) := GetBool(strict, s);
    if present {
      EnumExtend(HEALTH_MAX, r1, t);
      var r2 := GetEnum(HEALTH_MAX, r1).rest;
      U64sExtend(2, r2, t);
      StringExtend(GetU64s(2, r2).rest, t);
    }
  }

  lemma BackendForward(strict: bool, b: Backend, rest: seq<byte>)
    requires WellFormedBackend(b)
    ensures GetBackend(strict, BackendBytes(b) + rest) == Ok(b, rest)
  {
    hide U64sBytes, GetU64s, StringBytes, GetString;
    var v := [b.id, b.generation];
    assert BackendBytes(b) + rest == U64sBytes(v) + (StringBytes(b.name) + rest);
    U64sForward(v, StringBytes(b.name) + rest);
    StringForward(b.name, rest);
  }

  lemma BackendInverse(s: seq<byte>)
    requires GetBackend(true, s).Ok?
    ensures s == BackendBytes(GetBackend(true, s).value) + GetBackend(true, s).rest
  {
    hide U64sBytes, GetU64s, StringBytes, GetString;
    U64sInverse(2, s);
    var Ok(v, r1) := GetU64s(2, s);
    assert v == [v[0], v[1]];
    StringInverse(r1);
  }

  lemma BackendShape(strict: bool, s: seq<byte>)
    requires GetBackend(strict, s).Ok?
    ensures WellFormedBackend(GetBackend(strict, s).value)
  {
    StringInverse(GetU64s(2, s).rest);
  }

  lemma BackendExtend(strict: bool, s: seq<byte>, t: seq<byte>)
    requires GetBackend(strict, s).Ok?
    ensures GetBackend(strict, s + t) == GetBackend(strict, s).With(t)
  {
    hide GetU64s, GetString;
    U64sExtend(2, s, t);
    StringExtend(GetU64s(2, s).rest, t);
  }

  // ---------------------------------------------------------------- lists of records

  lemma GroupsForward(strict: bool, xs: seq<Group>, rest: seq<byte>)
    requires forall i :: 0 <= i < |xs| ==> WellFormedGroup(xs[i])
    requires EachNew(NewGroup, xs, 0)
    ensures GetList(|xs|, GetGroup, NewGroup, strict, [], ListBytes(GroupBytes, xs) + rest) == Ok(xs, rest)
  {
    forall x, r | x in xs
      ensures GetGroup(strict, GroupBytes(x) + r) == Ok(x, r)
    {
      GroupForward(strict, x, r);
    }
    assert [] + xs == xs;
    ListForward(xs, GroupBytes, GetGroup, NewGroup, strict, [], rest);
  }

  lemma GroupsShape(strict: bool, n: nat, s: seq<byte>)
    requires GetList(n, GetGroup, NewGroup, strict, [], s).Ok?
    ensures var xs := GetList(n, GetGroup, NewGroup, strict, [], s).value;
            |xs| == n && EachNew(NewGroup, xs, 0) && forall i :: 0 <= i < |xs| ==> WellFormedGroup(xs[i])
  {
    forall s | GetGroup(strict, s).Ok?
      ensures WellFormedGroup(GetGroup(strict, s).value)
    {
      GroupShape(strict, s);
    }
    ListShape(n, GetGroup, NewGroup, strict, [], s, (x: Group) => WellFormedGroup(x));
  }

  lemma GroupsInverse(n: nat, s: seq<byte>)
    requires GetList(n, GetGroup, NewGroup, true, [], s).Ok?
    ensures var Ok(xs, r) := GetList(n, GetGroup, NewGroup, true, [], s);
            |xs| == n && s == ListBytes(GroupBytes, xs) + r
  {
    forall s | GetGroup(true, s).Ok?
      ensures s == GroupBytes(GetGroup(true, s).value) + GetGroup(true, s).rest
    {
      GroupInverse(s);
    }
    ListInverse(n, GroupBytes, GetGroup, NewGroup, [], s);
    GroupsShape(true, n, s);
    var xs := GetList(n, GetGroup, NewGroup, true, [], s).value;
    assert xs[0..] == xs;
  }

  lemma GroupsExtend(strict: bool, n: nat, s: seq<byte>, t: seq<byte>)
    requires GetList(n, GetGroup, NewGroup, strict, [], s).Ok?
    ensures GetList(n, GetGroup, NewGroup, strict, [], s + t) == GetList(n, GetGroup, NewGroup, strict, [], s).With(t)
  {
    forall s | GetGroup(strict, s).Ok?
      ensures GetGroup(strict, s + t) == GetGroup(strict, s).With(t)
    {
      GroupExtend(strict, s, t);
    }
    ListExtend(n, GetGroup, NewGroup, strict, [], s, t);
  }

  lemma MeasurementsForward(strict: bool, xs: seq<Measurement>, rest: seq<byte>)
    requires forall i :: 0 <= i < |xs| ==> WellFormedMeasurement(xs[i])
    requires EachNew(NewMeasurement, xs, 0)
    ensures GetList(|xs|, GetMeasurement, NewMeasurement, strict, [], ListBytes(MeasurementBytes, xs) + rest) == Ok(xs, rest)
  {
    forall x, r | x in xs
      ensures GetMeasurement(strict, MeasurementBytes(x) + r) == Ok(x, r)
    {
      MeasurementForward(strict, x, r);
    }
    assert [] + xs == xs;
    ListForward(xs, MeasurementBytes, GetMeasurement, NewMeasurement, strict, [], rest);
  }

  lemma MeasurementsShape(strict: bool, n: nat, s: seq<byte>)
    requires GetList(n, GetMeasurement, NewMeasurement, strict, [], s).Ok?
    ensures var xs := GetList(n, GetMeasurement, NewMeasurement, strict, [], s).value;
            |xs| == n && EachNew(NewMeasurement, xs, 0) && forall i :: 0 <= i < |xs| ==> WellFormedMeasurement(xs[i])
  {
    forall s | GetMeasurement(strict, s).Ok?
      ensures WellFormedMeasurement(GetMeasurement(strict, s).value)
    {
      MeasurementShape(strict, s);
    }
    ListShape(n, GetMeasurement, NewMeasurement, strict, [], s, (x: Measurement) => WellFormedMeasurement(x));
  }

  lemma MeasurementsInverse(n: nat, s: seq<byte>)
    requires GetList(n, GetMeasurement, NewMeasurement, true, [], s).Ok?
    ensures var Ok(xs, r) := GetList(n, GetMeasurement, NewMeasurement, true, [], s);
            |xs| == n && s == ListBytes(MeasurementBytes, xs) + r
  {
    forall s | GetMeasurement(true, s).Ok?
      ensures s == MeasurementBytes(GetMeasurement(true, s).value) + GetMeasurement(true, s).rest
    {
      MeasurementInverse(s);
    }
    ListInverse(n, MeasurementBytes, GetMeasurement, NewMeasurement, [], s);
    MeasurementsShape(true, n, s);
    var xs := GetList(n, GetMeasurement, NewMeasurement, true, [], s).value;
    assert xs[0..] == xs;
  }

  lemma MeasurementsExtend(strict: bool, n: nat, s: seq<byte>, t: seq<byte>)
    requires GetList(n, GetMeasurement, NewMeasurement, strict, [], s).Ok?
    ensures GetList(n, GetMeasurement, NewMeasurement, strict, [], s + t) == GetList(n, GetMeasurement, NewMeasurement, strict, [], s).With(t)
  {
    forall s | GetMeasurement(strict, s).Ok?
      ensures GetMeasurement(strict, s + t) == GetMeasurement(strict, s).With(t)
    {
      MeasurementExtend(strict, s, t);
    }
    ListExtend(n, GetMeasurement, NewMeasurement, strict, [], s, t);
  }

  lemma BackendsForward(strict: bool, xs: seq<Backend>, rest: seq<byte>)
    requires forall i :: 0 <= i < |xs| ==> WellFormedBackend(xs[i])
    requires EachNew(AnyBackend, xs, 0)
    ensures GetList(|xs|, GetBackend, AnyBackend, strict, [], ListBytes(BackendBytes, xs) + rest) == Ok(xs, rest)
  {
    forall x, r | x in xs
      ensures GetBackend(strict, BackendBytes(x) + r) == Ok(x, r)
    {
      BackendForward(strict, x, r);
    }
    assert [] + xs == xs;
    ListForward(xs, BackendBytes, GetBackend, AnyBackend, strict, [], rest);
  }

  lemma BackendsShape(strict: bool, n: nat, s: seq<byte>)
    requires GetList(n, GetBackend, AnyBackend, strict, [], s).Ok?
    ensures var xs := GetList(n, GetBackend, AnyBackend, strict, [], s).value;
            |xs| == n && EachNew(AnyBackend, xs, 0) && forall i :: 0 <= i < |xs| ==> WellFormedBackend(xs[i])
  {
    forall s | GetBackend(strict, s).Ok?
      ensures WellFormedBackend(GetBackend(strict, s).value)
    {
      BackendShape(strict, s);
    }
    ListShape(n, GetBackend, AnyBackend, strict, [], s, (x: Backend) => WellFormedBackend(x));
  }

  lemma BackendsInverse(n: nat, s: seq<byte>)
    requires GetList(n, GetBackend, AnyBackend, true, [], s).Ok?
    ensures var Ok(xs, r) := GetList(n, GetBackend, AnyBackend, true, [], s);
            |xs| == n && s == ListBytes(BackendBytes, xs) + r
  {
    forall s | GetBackend(true, s).Ok?
      ensures s == BackendBytes(GetBackend(true, s).value) + GetBackend(true, s).rest
    {
      BackendInverse(s);
    }
    ListInverse(n, BackendBytes, GetBackend, AnyBackend, [], s);
    BackendsShape(true, n, s);
    var xs := GetList(n, GetBackend, AnyBackend, true, [], s).value;
    assert xs[0..] == xs;
  }

  lemma BackendsExtend(strict: bool, n: nat, s: seq<byte>, t: seq<byte>)
    requires GetList(n, GetBackend, AnyBackend, strict, [], s).Ok?
    ensures GetList(n, GetBackend, AnyBackend, strict, [], s + t) == GetList(n, GetBackend, AnyBackend, strict, [], s).With(t)
  {
    forall s | GetBackend(strict, s).Ok?
      ensures GetBackend(strict, s + t) == GetBackend(strict, s).With(t)
    {
      BackendExtend(strict, s, t);
    }
    ListExtend(n, GetBackend, AnyBackend, strict, [], s, t);
  }

  // ---------------------------------------------------------------- whole states

  lemma StateForward(strict: bool, s: PersistentState, rest: seq<byte>)
    requires WellFormed(s)
    ensures GetState(strict, Encoded(s) + rest) == Ok(s, rest)
  {
    hide U64sBytes, GetU64s, ToBE, GetCount, ListBytes, GetList, HealthBytes, GetHealth, EachNew;
    var z := [s.policyCount, s.savedNs];
    var s8 := U64sBytes(z) + rest;
    var s7 := ListBytes(BackendBytes, s.backends) + s8;
    var s6 := ToBE(|s.backends|, 8) + s7;
    var s5 := HealthBytes(s.health) + s6;
    var s4 := ListBytes(MeasurementBytes, s.measurements) + s5;
    var s3 := ToBE(|s.measurements|, 8) + s4;
    var s2 := ListBytes(GroupBytes, s.groups) + s3;
    var s1 := ToBE(|s.groups|, 8) + s2;
    var s0 := U64sBytes([s.epoch, s.liveBoot]) + s1;
    assert Encoded(s) + rest == U64sBytes([s.formatVersion]) + s0;
    U64sForward([s.formatVersion], s0);
    U64sForward([s.epoch, s.liveBoot], s1);
    CountForward(|s.groups|, s2);
    GroupsDistinct(s.groups);
    GroupsForward(strict, s.groups, s3);
    CountForward(|s.measurements|, s4);
    MeasurementsDistinct(s.measurements);
    MeasurementsForward(strict, s.measurements, s5);
    HealthForward(strict, s.health, s6);
    CountForward(|s.backends|, s7);
    BackendsDistinct(s.backends);
    BackendsForward(strict, s.backends, s8);
    U64sForward(z, rest);
  }

  lemma BackendsDistinct(bs: seq<Backend>)
    ensures EachNew(AnyBackend, bs, 0)
  {
  }

  lemma StateShape(strict: bool, s: seq<byte>)
    requires GetState(strict, s).Ok?
    ensures WellFormed(GetState(strict, s).value)
  {
    hide GetU64s, GetList, GetHealth, EachNew, WellFormedGroup, WellFormedMeasurement, WellFormedHealth, WellFormedBackend;
    var Ok(v, _) := GetState(strict, s);
    var r1 := GetU64s(2, GetU64s(1, s).rest).rest;
    var Ok(gn, r2) := GetCount(r1);
    GroupsShape(strict, gn, r2);
    GroupsDistinct(v.groups);
    var r3 := GetList(gn, GetGroup, NewGroup, strict, [], r2).rest;
    var Ok(mn, r4) := GetCount(r3);
    MeasurementsShape(strict, mn, r4);
    MeasurementsDistinct(v.measurements);
    var r5 := GetList(mn, GetMeasurement, NewMeasurement, strict, [], r4).rest;
    HealthShape(strict, r5);
    var Ok(bn, r7) := GetCount(GetHealth(strict, r5).rest);
    BackendsShape(strict, bn, r7);
  }

  lemma StateInverse(s: seq<byte>)
    requires GetState(true, s).Ok?
    ensures s == Encoded(GetState(true, s).value) + GetState(true, s).rest
  {
    hide U64sBytes, GetU64s, ToBE, GetCount, ListBytes, GetList, HealthBytes, GetHealth;
    U64sInverse(1, s);
    var Ok(version, r0) := GetU64s(1, s);
    assert version == [version[0]];
    U64sInverse(2, r0);
    var Ok(e, r1) := GetU64s(2, r0);
    assert e == [e[0], e[1]];
    CountInverse(r1);
    var Ok(gn, r2) := GetCount(r1);
    GroupsInverse(gn, r2);
    var r3 := GetList(gn, GetGroup, NewGroup, true, [], r2).rest;
    CountInverse(r3);
    var Ok(mn, r4) := GetCount(r3);
    MeasurementsInverse(mn, r4);
    var r5 := GetList(mn, GetMeasurement, NewMeasurement, true, [], r4).rest;
    HealthInverse(r5);
    var r6 := GetHealth(true, r5).rest;
    CountInverse(r6);
    var Ok(bn, r7) := GetCount(r6);
    BackendsInverse(bn, r7);
    var r8 := GetList(bn, GetBackend, AnyBackend, true, [], r7).rest;
    U64sInverse(2, r8);
    var Ok(z, r9) := GetU64s(2, r8);
    assert z == [z[0], z[1]];
  }

  lemma StateExtend(strict: bool, s: seq<byte>, t: seq<byte>)
    requires GetState(strict, s).Ok?
    ensures GetState(strict, s + t) == GetState(strict, s).With(t)
  {
    hide GetU64s, GetCount, GetList, GetHealth;
    U64sExtend(1, s, t);
    var r0 := GetU64s(1, s).rest;
    U64sExtend(2, r0, t);
    var r1 := GetU64s(2, r0).rest;
    CountExtend(r1, t);
    var Ok(gn, r2) := GetCount(r1);
    GroupsExtend(strict, gn, r2, t);
    var r3 := GetList(gn, GetGroup, NewGroup, strict, [], r2).rest;
    CountExtend(r3, t);
    var Ok(mn, r4) := GetCount(r3);
    MeasurementsExtend(strict, mn, r4, t);
    var r5 := GetList(mn, GetMeasurement, NewMeasurement, strict, [], r4).rest;
    HealthExtend(strict, r5, t);
    var r6 := GetHealth(strict, r5).rest;
    CountExtend(r6, t);
    var Ok(bn, r7) := GetCount(r6);
    BackendsExtend(strict, bn, r7, t);
    var r8 := GetList(bn, GetBackend, AnyBackend, strict, [], r7).rest;
    U64sExtend(2, r8, t);
  }

  // ---------------------------------------------------------------- theorems

  /** Every well-formed state survives encoding and decoding unchanged. */
  lemma RoundTrip(s: PersistentState)
    requires WellFormed(s)
    ensures Decoded(Encoded(s)) == Accepted(s)
  {
    StateForward(false, s, []);
    assert Encoded(s) + [] == Encoded(s);
  }

  /** Distinct well-formed states have distinct encodings. */
  lemma EncodingInjective(a: PersistentState, b: PersistentState)
    requires WellFormed(a) && WellFormed(b) && Encoded(a) == Encoded(b)
    ensures a == b
  {
    RoundTrip(a);
    RoundTrip(b);
  }

  /** Whatever is accepted is a well-formed state: unique ids, valid enumerations, bounded counts. */
  lemma AcceptedIsWellFormed(payload: seq<byte>)
    requires Decoded(payload).Accepted?
    ensures WellFormed(Decoded(payload).state)
  {
    StateShape(false, payload);
  }

  /** An accepted payload is the encoding of the state it yields exactly when it is accepted with
      every boolean byte required to be 0 or 1. */
  lemma CanonicalIffStrict(payload: seq<byte>)
    requires Decoded(payload).Accepted?
    ensures Encoded(Decoded(payload).state) == payload <==>
            DecodedWith(true, payload) == Decoded(payload)
  {
    hide GetState, Encoded, WellFormed;
    var s := Decoded(payload).state;
    AcceptedIsWellFormed(payload);
    if Encoded(s) == payload {
      StateForward(true, s, []);
      assert payload + [] == payload;
    }
    if DecodedWith(true, payload) == Decoded(payload) {
      StateInverse(payload);
      assert Encoded(s) + [] == Encoded(s);
    }
  }

  /** The format is self-delimiting: no proper extension of an accepted payload is accepted. */
  lemma ExtensionRefused(payload: seq<byte>, extra: seq<byte>)
    requires Decoded(payload).Accepted? && extra != []
    ensures Decoded(payload + extra) == Refused(TrailingGarbage)
  {
    hide GetState;
    StateExtend(false, payload, extra);
    assert [] + extra == extra;
  }

  /** ... and no proper prefix either. */
  lemma PrefixRefused(payload: seq<byte>, k: nat)
    requires Decoded(payload).Accepted? && k < |payload|
    ensures Decoded(payload[..k]).Refused?
  {
    hide Decoded, DecodedWith;
    assert payload[..k] + payload[k..] == payload;
    if Decoded(payload[..k]).Accepted? {
      ExtensionRefused(payload[..k], payload[k..]);
    }
  }

  /** The canonical encoding of a state with one health record, except for its presence byte. */
  function HealthOnly(flag: byte): seq<byte> {
    U64sBytes([1]) + (U64sBytes([0, 0]) + (ToBE(0, 8) + (ToBE(0, 8)
    + ([flag] + ([0] + (U64sBytes([0, 0]) + (StringBytes([]) + (ToBE(0, 8) + U64sBytes([0, 0])))))))))
  }

  /** Re-encoding is not always exact: 2 is accepted as a presence byte and written back as 1. */
  lemma LooseBooleanAccepted()
    ensures Decoded(HealthOnly(2)).Accepted?
    ensures Encoded(Decoded(HealthOnly(2)).state) != HealthOnly(2)
    ensures DecodedWith(true, HealthOnly(2)) == Refused(LooseBoolean)
  {
    hide U64sBytes, GetU64s, ToBE, GetCount, StringBytes, GetString;
    var z := U64sBytes([0, 0]);
    var s7 := ToBE(0, 8) + z;
    var s6 := StringBytes([]) + s7;
    var s5 := z + s6;
    var s4 := [0] + s5;
    var s3 := [2] + s4;
    var s2 := ToBE(0, 8) + s3;
    var s1 := ToBE(0, 8) + s2;
    var s0 := z + s1;
    U64sForward([1], s0);
    U64sForward([0, 0], s1);
    CountForward(0, s2);
    CountForward(0, s3);
    assert s3[0] == 2 && s3[1..] == s4;
    EnumForward(HEALTH_MAX, 0, s5);
    U64sForward([0, 0], s6);
    StringForward([], s7);
    CountForward(0, z);
    U64sForward([0, 0], []);
    assert z + [] == z;
    CanonicalIffStrict(HealthOnly(2));
  }
}
