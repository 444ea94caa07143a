/** Store::encode and Store::decode as written: a writer that appends and a reader that advances. */
module StoreCodec {
  import opened Bytes
  import opened Canonical
  import opened Foundation
  import opened Store

  // ---------------------------------------------------------------- encode

  method WriteParticipant(w: CanonicalWriter, p: Participant)
    modifies w
    ensures w.buf == old(w.buf) + ParticipantBytes(p)
  {
    w.U64s([p.id, p.worker, p.boot, p.node, p.device, p.rank, p.backendGeneration]);
    w.Boolean(p.isKnown);
  }

  method WriteGroup(w: CanonicalWriter, g: Group)
    modifies w
    ensures w.buf == old(w.buf) + GroupBytes(g)
  {
    hide U64sBytes, StringBytes, ToBE;
    w.U64s([g.id, g.generation, g.membership, g.topology, g.health, g.backend]);
    w.U8(g.lifecycle);
    w.String(g.provenance);
    w.buf := PushBE(w.buf, |g.participants|, 8);
    ghost var head := w.buf;
    var i := 0;
    while i < |g.participants|
      invariant 0 <= i <= |g.participants|
      invariant w.buf == head + ListBytes(ParticipantBytes, g.participants[..i])
    {
      WriteParticipant(w, g.participants[i]);
      ListBytesAppend(ParticipantBytes, g.participants[..i], g.participants[i]);
      assert g.participants[..i + 1] == g.participants[..i] + [g.participants[i]];
      i := i + 1;
    }
    assert g.participants[..i] == g.participants;
  }

  method WriteMeasurement(w: CanonicalWriter, m: Measurement)
    modifies w
    ensures w.buf == old(w.buf) + MeasurementBytes(m)
  {
    hide U64sBytes, BoolBytes;
    w.U64s([m.id, m.collective, m.collectiveGeneration, m.groupGeneration]);
    w.U8(m.algorithm);
    w.U64s([m.backend, m.rankCount, m.payloadBytes, m.wallTimeUs]);
    w.U8(m.provenance);
    w.U8(m.freshness);
    w.U64s([m.timestampNs, m.measurementGeneration]);
    w.Boolean(m.success);
  }

  method WriteHealth(w: CanonicalWriter, h: Option<Health>)
    modifies w
    ensures w.buf == old(w.buf) + HealthBytes(h)
  {
    hide U64sBytes, StringBytes, BoolBytes;
    w.Boolean(h.Some?);
    if h.Some? {
      w.U8(h.value.state);
      w.U64s([h.value.generation, h.value.observedNs]);
      w.String(h.value.narrative);
    }
  }

  method WriteBackend(w: CanonicalWriter, b: Backend)
    modifies w
    ensures w.buf == old(w.buf) + BackendBytes(b)
  {
    w.U64s([b.id, b.generation]);
    w.String(b.name);
  }

  method WriteGroups(w: CanonicalWriter, gs: seq<Group>)
    modifies w
    ensures w.buf == old(w.buf) + ToBE(|gs|, 8) + ListBytes(GroupBytes, gs)
  {
    hide GroupBytes, ToBE;
    w.buf := PushBE(w.buf, |gs|, 8);
    ghost var head := w.buf;
    for i := 0 to |gs|
      invariant w.buf == head + ListBytes(GroupBytes, gs[..i])
    {
      WriteGroup(w, gs[i]);
      ListBytesAppend(GroupBytes, gs[..i], gs[i]);
      assert gs[..i + 1] == gs[..i] + [gs[i]];
    }
    assert gs[..|gs|] == gs;
  }

  method WriteMeasurements(w: CanonicalWriter, ms: seq<Measurement>)
    modifies w
    ensures w.buf == old(w.buf) + ToBE(|ms|, 8) + ListBytes(MeasurementBytes, ms)
  {
    hide MeasurementBytes, ToBE;
    w.buf := PushBE(w.buf, |ms|, 8);
    ghost var head := w.buf;
    for i := 0 to |ms|
      invariant w.buf == head + ListBytes(MeasurementBytes, ms[..i])
    {
      WriteMeasurement(w, ms[i]);
      ListBytesAppend(MeasurementBytes, ms[..i], ms[i]);
      assert ms[..i + 1] == ms[..i] + [ms[i]];
    }
    assert ms[..|ms|] == ms;
  }

  method WriteBackends(w: CanonicalWriter, bs: seq<Backend>)
    modifies w
    ensures w.buf == old(w.buf) + ToBE(|bs|, 8) + ListBytes(BackendBytes, bs)
  {
    hide BackendBytes, ToBE;
    w.buf := PushBE(w.buf, |bs|, 8);
    ghost var head := w.buf;
    for i := 0 to |bs|
      invariant w.buf == head + ListBytes(BackendBytes, bs[..i])
    {
      WriteBackend(w, bs[i]);
      ListBytesAppend(BackendBytes, bs[..i], bs[i]);
      assert bs[..i + 1] == bs[..i] + [bs[i]];
    }
    assert bs[..|bs|] == bs;
  }

  method Encode(s: PersistentState) returns (out: seq<byte>)
    ensures out == Encoded(s)
  {
    hide U64sBytes, ToBE, ListBytes, HealthBytes;
    var w := new CanonicalWriter();
    w.U64s([s.formatVersion]);
    w.U64s([s.epoch, s.liveBoot]);
    WriteGroups(w, s.groups);
    WriteMeasurements(w, s.measurements);
    WriteHealth(w, s.health);
    WriteBackends(w, s.backends);
    w.U64s([s.policyCount, s.savedNs]);
    out := w.buf;
  }

  // ---------------------------------------------------------------- decode

  /** A reading method's answer is what the parsing function says about the unread input. */
  ghost predicate Agrees<T>(p: Parsed<T>, err: Option<Fault>, v: T, rest: seq<byte>) {
    if err.Some? then p == Err(err.value) else p == Ok(v, rest)
  }

  method ReadCount(r: CanonicalReader) returns (err: Option<Fault>, n: nat)
    requires r.Valid()
    modifies r`pos
    ensures r.Valid() && Agrees(GetCount(old(r.Rest())), err, n, r.Rest())
  {
    var ok, v := r.U64();
    if !ok || v > MAX_COUNT {
      return Some(InvalidCount), 0;
    }
    return None, v;
  }

  method ReadEnum(r: CanonicalReader, max: byte) returns (err: Option<Fault>, b: byte)
    requires r.Valid()
    modifies r`pos
    ensures r.Valid() && Agrees(GetEnum(max, old(r.Rest())), err, b, r.Rest())
  {
    var ok, v := r.U8();
    if !ok {
      return Some(Truncated), 0;
    }
    if v > max {
      return Some(InvalidEnum), 0;
    }
    return None, v;
  }

  method ReadParticipant(r: CanonicalReader) returns (err: Option<Fault>, p: Participant)
    requires r.Valid()
    modifies r`pos
    ensures r.Valid() && Agrees(GetParticipant(false, old(r.Rest())), err, p, r.Rest())
  {
    hide GetU64s;
    p := Participant(0, 0, 0, 0, 0, 0, 0, true);
    var ok, v := r.U64s(7);
    U64sFault(7, old(r.Rest()));
    if !ok {
      return Some(Truncated), p;
    }
    var known;
    ok, known := r.Boolean();
    if !ok {
      return Some(Truncated), p;
    }
    return None, Participant(v[0], v[1], v[2], v[3], v[4], v[5], v[6], known);
  }

  lemma {:induction false} U64sFault(n: nat, s: seq<byte>)
    ensures GetU64s(n, s).Err? ==> GetU64s(n, s) == Err(Truncated)
    decreases n
  {
    if n > 0 && GetU64(s).Ok? {
      U64sFault(n - 1, GetU64(s).rest);
    }
  }

  /** The participant loop, with its two seen-sets. */
  method ReadParticipants(r: CanonicalReader, n: nat) returns (err: Option<Fault>, ps: seq<Participant>)
    requires r.Valid()
    modifies r`pos
    ensures r.Valid()
    ensures Agrees(GetList(n, GetParticipant, NewParticipant, false, [], old(r.Rest())), err, ps, r.Rest())
  {
    hide GetParticipant;
    ps := [];
    var ids: set<u64>, ranks: set<u64> := {}, {};
    ghost var start := r.Rest();
    var j := 0;
    while j < n
      invariant 0 <= j <= n && r.Valid()
      invariant forall x :: x in ids <==> exists k :: 0 <= k < |ps| && ps[k].id == x
      invariant forall x :: x in ranks <==> exists k :: 0 <= k < |ps| && ps[k].rank == x
      invariant GetList(n, GetParticipant, NewParticipant, false, [], start)
             == GetList(n - j, GetParticipant, NewParticipant, false, ps, r.Rest())
    {
      var e, p := ReadParticipant(r);
      if e.Some? {
        return e, ps;
      }
      if p.id in ids || p.rank in ranks {
        return Some(Duplicate), ps;
      }
      ids, ranks := ids + {p.id}, ranks + {p.rank};
      ghost var was := ps;
      ps := ps + [p];
      assert forall k :: 0 <= k < |was| ==> ps[k] == was[k];
      assert ps[|was|] == p;
      j := j + 1;
    }
    err := None;
  }

  method ReadGroup(r: CanonicalReader) returns (err: Option<Fault>, g: Group)
    requires r.Valid()
    modifies r`pos
    ensures r.Valid() && Agrees(GetGroup(false, old(r.Rest())), err, g, r.Rest())
  {
    hide GetU64s, GetEnum, GetString, GetCount, GetList;
    g := Group(0, 0, 0, 0, 0, 0, 0, [], []);
    var ok, v := r.U64s(6);
    U64sFault(6, old(r.Rest()));
    if !ok {
      return Some(Truncated), g;
    }
    var e, lifecycle := ReadEnum(r, LIFECYCLE_MAX);
    if e.Some? {
      return e, g;
    }
    StringFault(r.Rest());
    var provenance;
    ok, provenance := r.String();
    if !ok {
      return Some(Truncated), g;
    }
    var n;
    e, n := ReadCount(r);
    if e.Some? {
      return e, g;
    }
    var ps;
    e, ps := ReadParticipants(r, n);
    if e.Some? {
      return e, g;
    }
    return None, Group(v[0], v[1], v[2], v[3], v[4], v[5], lifecycle, provenance, ps);
  }

  lemma StringFault(s: seq<byte>)
    ensures GetString(s).Err? ==> GetString(s) == Err(Truncated)
  {
  }

  method ReadGroups(r: CanonicalReader, n: nat) returns (err: Option<Fault>, gs: seq<Group>)
    requires r.Valid()
    modifies r`pos
    ensures r.Valid()
    ensures Agrees(GetList(n, GetGroup, NewGroup, false, [], old(r.Rest())), err, gs, r.Rest())
  {
    hide GetGroup;
    gs := [];
    var seen: set<(u64, u64)> := {};
    ghost var start := r.Rest();
    var i := 0;
    while i < n
      invariant 0 <= i <= n && r.Valid()
      invariant forall x :: x in seen <==> exists k :: 0 <= k < |gs| && (gs[k].id, gs[k].generation) == x
      invariant GetList(n, GetGroup, NewGroup, false, [], start)
             == GetList(n - i, GetGroup, NewGroup, false, gs, r.Rest())
    {
      var e, g := ReadGroup(r);
      if e.Some? {
        return e, gs;
      }
      if (g.id, g.generation) in seen {
        return Some(Duplicate), gs;
      }
      seen := seen + {(g.id, g.generation)};
      ghost var was := gs;
      gs := gs + [g];
      assert forall k :: 0 <= k < |was| ==> gs[k] == was[k];
      assert gs[|was|] == g;
      i := i + 1;
    }
    err := None;
  }

  method ReadMeasurement(r: CanonicalReader) returns (err: Option<Fault>, m: Measurement)
    requires r.Valid()
    modifies r`pos
    ensures r.Valid() && Agrees(GetMeasurement(false, old(r.Rest())), err, m, r.Rest())
  {
    hide GetU64s, GetEnum;
    m := Measurement(0, 0, 0, 0, 7, 0, 0, 0, 0, 4, 2, 0, 0, false);
    var ok, v := r.U64s(4);
    U64sFault(4, old(r.Rest()));
    if !ok {
      return Some(Truncated), m;
    }
    var e, algorithm := ReadEnum(r, ALGORITHM_MAX);
    if e.Some? {
      return e, m;
    }
    var w;
    U64sFault(4, r.Rest());
    ok, w := r.U64s(4);
    if !ok {
      return Some(Truncated), m;
    }
    var provenance, freshness;
    ok, provenance := r.U8();
    if !ok {
      return Some(Truncated), m;
    }
    ok, freshness := r.U8();
    if !ok {
      return Some(Truncated), m;
    }
    if provenance > PROVENANCE_MAX || freshness > FRESHNESS_MAX {
      return Some(InvalidEnum), m;
    }
    var x;
    U64sFault(2, r.Rest());
    ok, x := r.U64s(2);
    if !ok {
      return Some(Truncated), m;
    }
    var success;
    ok, success := r.Boolean();
    if !ok {
      return Some(Truncated), m;
    }
    return None, Measurement(v[0], v[1], v[2], v[3], algorithm, w[0], w[1], w[2], w[3],
                             provenance, freshness, x[0], x[1], success);
  }

  method ReadMeasurements(r: CanonicalReader, n: nat) returns (err: Option<Fault>, ms: seq<Measurement>)
    requires r.Valid()
    modifies r`pos
    ensures r.Valid()
    ensures Agrees(GetList(n, GetMeasurement, NewMeasurement, false, [], old(r.Rest())), err, ms, r.Rest())
  {
    hide GetMeasurement;
    ms := [];
    var seen: set<u64> := {};
    ghost var start := r.Rest();
    var i := 0;
    while i < n
      invariant 0 <= i <= n && r.Valid()
      invariant forall x :: x in seen <==> exists k :: 0 <= k < |ms| && ms[k].id == x
      invariant GetList(n, GetMeasurement, NewMeasurement, false, [], start)
             == GetList(n - i, GetMeasurement, NewMeasurement, false, ms, r.Rest())
    {
      var e, m := ReadMeasurement(r);
      if e.Some? {
        return e, ms;
      }
      if m.id in seen {
        return Some(Duplicate), ms;
      }
      seen := seen + {m.id};
      ghost var was := ms;
      ms := ms + [m];
      assert forall k :: 0 <= k < |was| ==> ms[k] == was[k];
      assert ms[|was|] == m;
      i := i + 1;
    }
    err := None;
  }

  method ReadHealth(r: CanonicalReader) returns (err: Option<Fault>, h: Option<Health>)
    requires r.Valid()
    modifies r`pos
    ensures r.Valid() && Agrees(GetHealth(false, old(r.Rest())), err, h, r.Rest())
  {
    hide GetU64s, GetEnum, GetString;
    h := None;
    var ok, present := r.Boolean();
    if !ok {
      return Some(Truncated), h;
    }
    if !present {
      return None, h;
    }
    var e, state := ReadEnum(r, HEALTH_MAX);
    if e.Some? {
      return e, h;
    }
    var v;
    U64sFault(2, r.Rest());
    ok, v := r.U64s(2);
    if !ok {
      return Some(Truncated), h;
    }
    var narrative;
    StringFault(r.Rest());
    ok, narrative := r.String();
    if !ok {
      return Some(Truncated), h;
    }
    return None, Some(Health(state, v[0], v[1], narrative));
  }

  method ReadBackends(r: CanonicalReader, n: nat) returns (err: Option<Fault>, bs: seq<Backend>)
    requires r.Valid()
    modifies r`pos
    ensures r.Valid()
    ensures Agrees(GetList(n, GetBackend, AnyBackend, false, [], old(r.Rest())), err, bs, r.Rest())
  {
    hide GetU64s, GetString;
    bs := [];
    ghost var start := r.Rest();
    var i := 0;
    while i < n
      invariant 0 <= i <= n && r.Valid()
      invariant GetList(n, GetBackend, AnyBackend, false, [], start)
             == GetList(n - i, GetBackend, AnyBackend, false, bs, r.Rest())
    {
      U64sFault(2, r.Rest());
      var ok, v := r.U64s(2);
      if !ok {
        return Some(Truncated), bs;
      }
      var name;
      StringFault(r.Rest());
      ok, name := r.String();
      if !ok {
        return Some(Truncated), bs;
      }
      bs := bs + [Backend(v[0], v[1], name)];
      i := i + 1;
    }
    err := None;
  }

  method ReadFront(r: CanonicalReader) returns (err: Option<Fault>, f: Front)
    requires r.Valid()
    modifies r`pos
    ensures r.Valid() && Agrees(GetFront(false, old(r.Rest())), err, f, r.Rest())
  {
    hide GetU64s, GetCount, GetList;
    f := Front(1, 0, 0, []);
    U64sFault(1, r.Rest());
    var ok, version := r.U64s(1);
    if !ok {
      return Some(Truncated), f;
    }
    if version[0] > FORMAT_VERSION {
      return Some(UnsupportedVersion), f;
    }
    var e;
    U64sFault(2, r.Rest());
    ok, e := r.U64s(2);
    if !ok {
      return Some(Truncated), f;
    }
    var n, groups;
    err, n := ReadCount(r);
    if err.Some? {
      return;
    }
    err, groups := ReadGroups(r, n);
    if err.Some? {
      return;
    }
    f := Front(version[0], e[0], e[1], groups);
  }

  method ReadBack(r: CanonicalReader, f: Front) returns (err: Option<Fault>, s: PersistentState)
    requires r.Valid()
    modifies r`pos
    ensures r.Valid() && Agrees(GetBack(false, f, old(r.Rest())), err, s, r.Rest())
  {
    hide GetU64s, GetCount, GetList, GetHealth;
    s := PersistentState(f.formatVersion, f.epoch, f.liveBoot, f.groups, [], None, [], 0, 0);
    var n, measurements, health, backends;
    err, n := ReadCount(r);
    if err.Some? {
      return;
    }
    err, measurements := ReadMeasurements(r, n);
    if err.Some? {
      return;
    }
    err, health := ReadHealth(r);
    if err.Some? {
      return;
    }
    err, n := ReadCount(r);
    if err.Some? {
      return;
    }
    err, backends := ReadBackends(r, n);
    if err.Some? {
      return;
    }
    U64sFault(2, r.Rest());
    var ok, z := r.U64s(2);
    if !ok {
      return Some(Truncated), s;
    }
    s := s.(measurements := measurements, health := health, backends := backends,
            policyCount := z[0], savedNs := z[1]);
  }

  method ReadState(r: CanonicalReader) returns (err: Option<Fault>, s: PersistentState)
    requires r.Valid()
    modifies r`pos
    ensures r.Valid() && Agrees(GetState(false, old(r.Rest())), err, s, r.Rest())
  {
    hide GetFront, GetBack;
    var front;
    err, front := ReadFront(r);
    if err.Some? {
      s := PersistentState(0, 0, 0, [], [], None, [], 0, 0);
      return;
    }
    err, s := ReadBack(r, front);
  }

  method Decode(payload: seq<byte>) returns (res: Result)
    ensures res == Decoded(payload)
  {
    hide GetState;
    var r := new CanonicalReader(payload);
    var err, state := ReadState(r);
    if err.Some? {
      return Refused(err.value);
    }
    var atEnd := r.AtEnd();
    if !atEnd {
      return Refused(TrailingGarbage);
    }
    return Accepted(state);
  }
}
