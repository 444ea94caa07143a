/** The persistent-state codec of src/store.cpp. */
module Store {
  import opened Bytes
  import opened Canonical
  import opened Foundation

  const MAX_COUNT: nat := 10_000_000
  const FORMAT_VERSION: nat := 1

  // Largest valid code of each persisted enumeration.
  const LIFECYCLE_MAX: byte := 5
  const ALGORITHM_MAX: byte := 7
  const PROVENANCE_MAX: byte := 4
  const FRESHNESS_MAX: byte := 3
  const HEALTH_MAX: byte := 3

  datatype Participant = Participant(
    id: u64, worker: u64, boot: u64, node: u64, device: u64, rank: u64,
    backendGeneration: u64, isKnown: bool)

  datatype Group = Group(
    id: u64, generation: u64, membership: u64, topology: u64, health: u64, backend: u64,
    lifecycle: byte, provenance: seq<byte>, participants: seq<Participant>)

  datatype Measurement = Measurement(
    id: u64, collective: u64, collectiveGeneration: u64, groupGeneration: u64, algorithm: byte,
    backend: u64, rankCount: u64, payloadBytes: u64, wallTimeUs: u64, provenance: byte,
    freshness: byte, timestampNs: u64, measurementGeneration: u64, success: bool)

  datatype Health = Health(state: byte, generation: u64, observedNs: u64, narrative: seq<byte>)

  datatype Backend = Backend(id: u64, generation: u64, name: seq<byte>)

  datatype PersistentState = PersistentState(
    formatVersion: u64, epoch: u64, liveBoot: u64, groups: seq<Group>,
    measurements: seq<Measurement>, health: Option<Health>, backends: seq<Backend>,
    policyCount: u64, savedNs: u64)

  // ---------------------------------------------------------------- well-formed states

  ghost predicate WellFormedGroup(g: Group) {
    && g.lifecycle <= LIFECYCLE_MAX
    && |g.provenance| < U64_LIMIT
    && |g.participants| <= MAX_COUNT
    && (forall i, j :: 0 <= i < j < |g.participants| ==>
          g.participants[i].id != g.participants[j].id && g.participants[i].rank != g.participants[j].rank)
  }

  ghost predicate WellFormedMeasurement(m: Measurement) {
    m.algorithm <= ALGORITHM_MAX && m.provenance <= PROVENANCE_MAX && m.freshness <= FRESHNESS_MAX
  }

  ghost predicate WellFormedHealth(h: Option<Health>) {
    h.Some? ==> h.value.state <= HEALTH_MAX && |h.value.narrative| < U64_LIMIT
  }

  ghost predicate WellFormedBackend(b: Backend) { |b.name| < U64_LIMIT }

  ghost predicate WellFormed(s: PersistentState) {
    && s.formatVersion <= FORMAT_VERSION
    && |s.groups| <= MAX_COUNT
    && (forall i :: 0 <= i < |s.groups| ==> WellFormedGroup(s.groups[i]))
    && (forall i, j :: 0 <= i < j < |s.groups| ==>
          (s.groups[i].id, s.groups[i].generation) != (s.groups[j].id, s.groups[j].generation))
    && |s.measurements| <= MAX_COUNT
    && (forall i :: 0 <= i < |s.measurements| ==> WellFormedMeasurement(s.measurements[i]))
    && (forall i, j :: 0 <= i < j < |s.measurements| ==> s.measurements[i].id != s.measurements[j].id)
    && WellFormedHealth(s.health)
    && |s.backends| <= MAX_COUNT
    && (forall i :: 0 <= i < |s.backends| ==> WellFormedBackend(s.backends[i]))
  }

  // ---------------------------------------------------------------- encoding

  function ParticipantBytes(p: Participant): seq<byte> {
    U64sBytes([p.id, p.worker, p.boot, p.node, p.device, p.rank, p.backendGeneration])
    + BoolBytes(p.isKnown)
  }

  function GroupBytes(g: Group): seq<byte> {
    U64sBytes([g.id, g.generation, g.membership, g.topology, g.health, g.backend])
    + ([g.lifecycle]
    + (StringBytes(g.provenance)
    + (ToBE(|g.participants|, 8)
    + ListBytes(ParticipantBytes, g.participants))))
  }

  function MeasurementBytes(m: Measurement): seq<byte> {
    U64sBytes([m.id, m.collective, m.collectiveGeneration, m.groupGeneration])
    + ([m.algorithm]
    + (U64sBytes([m.backend, m.rankCount, m.payloadBytes, m.wallTimeUs])
    + ([m.provenance]
    + ([m.freshness]
    + (U64sBytes([m.timestampNs, m.measurementGeneration])
    + BoolBytes(m.success))))))
  }

  function HealthBytes(h: Option<Health>): seq<byte> {
    BoolBytes(h.Some?)
    + if h.None? then []
      else [h.value.state] + (U64sBytes([h.value.generation, h.value.observedNs]) + StringBytes(h.value.narrative))
  }

  function BackendBytes(b: Backend): seq<byte> {
    U64sBytes([b.id, b.generation]) + StringBytes(b.name)
  }

  /** Store::encode */
  function Encoded(s: PersistentState): seq<byte> {
    U64sBytes([s.formatVersion])
    + (U64sBytes([s.epoch, s.liveBoot])
    + (ToBE(|s.groups|, 8)
    + (ListBytes(GroupBytes, s.groups)
    + (ToBE(|s.measurements|, 8)
    + (ListBytes(MeasurementBytes, s.measurements)
    + (HealthBytes(s.health)
    + (ToBE(|s.backends|, 8)
    + (ListBytes(BackendBytes, s.backends)
    + U64sBytes([s.policyCount, s.savedNs])))))))))
  }

  // ---------------------------------------------------------------- decoding

  function GetCount(s: seq<byte>): Parsed<nat> {
    var p := GetU64(s);
    if p.Err? || p.value > MAX_COUNT then Err(InvalidCount) else Ok(p.value, p.rest)
  }

  function GetEnum(max: byte, s: seq<byte>): Parsed<byte> {
    var (b, r) :- GetU8(s);
    if b > max then Err(InvalidEnum) else Ok(b, r)
  }

  function GetParticipant(strict: bool, s: seq<byte>): Parsed<Participant> {
    var (v, r1) :- GetU64s(7, s);
    var (known, r2) :- GetBool(strict, r1);
    Ok(Participant(v[0], v[1], v[2], v[3], v[4], v[5], v[6], known), r2)
  }

  predicate NewParticipant(seen: seq<Participant>, p: Participant) {
    forall i :: 0 <= i < |seen| ==> seen[i].id != p.id && seen[i].rank != p.rank
  }

  function GetGroup(strict: bool, s: seq<byte>): Parsed<Group> {
    var (v, r1) :- GetU64s(6, s);
    var (lifecycle, r2) :- GetEnum(LIFECYCLE_MAX, r1);
    var (provenance, r3) :- GetString(r2);
    var (n, r4) :- GetCount(r3);
    var (ps, r5) :- GetList(n, GetParticipant, NewParticipant, strict, [], r4);
    Ok(Group(v[0], v[1], v[2], v[3], v[4], v[5], lifecycle, provenance, ps), r5)
  }

  predicate NewGroup(seen: seq<Group>, g: Group) {
    forall i :: 0 <= i < |seen| ==> (seen[i].id, seen[i].generation) != (g.id, g.generation)
  }

  function GetMeasurement(strict: bool, s: seq<byte>): Parsed<Measurement> {
    var (v, r1) :- GetU64s(4, s);
    var (algorithm, r2) :- GetEnum(ALGORITHM_MAX, r1);
    var (w, r3) :- GetU64s(4, r2);
    var (provenance, r4) :- GetU8(r3);
    var (freshness, r5) :- GetU8(r4);
    if provenance > PROVENANCE_MAX || freshness > FRESHNESS_MAX then Err(InvalidEnum)
    else
      var (x, r6) :- GetU64s(2, r5);
      var (success, r7) :- GetBool(strict, r6);
      Ok(Measurement(v[0], v[1], v[2], v[3], algorithm, w[0], w[1], w[2], w[3],
                     provenance, freshness, x[0], x[1], success), r7)
  }

  predicate NewMeasurement(seen: seq<Measurement>, m: Measurement) {
    forall i :: 0 <= i < |seen| ==> seen[i].id != m.id
  }

  function GetHealth(strict: bool, s: seq<byte>): Parsed<Option<Health>> {
    var (present, r1) :- GetBool(strict, s);
    if !present then Ok(None, r1)
    else
      var (state, r2) :- GetEnum(HEALTH_MAX, r1);
      var (v, r3) :- GetU64s(2, r2);
      var (narrative, r4) :- GetString(r3);
      Ok(Some(Health(state, v[0], v[1], narrative)), r4)
  }

  function GetBackend(strict: bool, s: seq<byte>): Parsed<Backend> {
    var (v, r1) :- GetU64s(2, s);
    var (name, r2) :- GetString(r1);
    Ok(Backend(v[0], v[1], name), r2)
  }

  predicate AnyBackend(seen: seq<Backend>, b: Backend) { true }

  /** Everything up to and including the groups. */
  datatype Front = Front(formatVersion: u64, epoch: u64, liveBoot: u64, groups: seq<Group>)

  function GetFront(strict: bool, s: seq<byte>): Parsed<Front> {
    var (version, r0) :- GetU64s(1, s);
    if version[0] > FORMAT_VERSION then Err(UnsupportedVersion)
    else
      var (e, r1) :- GetU64s(2, r0);
      var (n, r2) :- GetCount(r1);
      var (groups, r3) :- GetList(n, GetGroup, NewGroup, strict, [], r2);
      Ok(Front(version[0], e[0], e[1], groups), r3)
  }

  function GetBack(strict: bool, f: Front, r3: seq<byte>): Parsed<PersistentState> {
    var (mn, r4) :- GetCount(r3);
    var (measurements, r5) :- GetList(mn, GetMeasurement, NewMeasurement, strict, [], r4);
    var (health, r6) :- GetHealth(strict, r5);
    var (bn, r7) :- GetCount(r6);
    var (backends, r8) :- GetList(bn, GetBackend, AnyBackend, strict, [], r7);
    var (z, r9) :- GetU64s(2, r8);
    Ok(PersistentState(f.formatVersion, f.epoch, f.liveBoot, f.groups, measurements, health, backends, z[0], z[1]), r9)
  }

  function GetState(strict: bool, s: seq<byte>): Parsed<PersistentState> {
    var (front, r) :- GetFront(strict, s);
    GetBack(strict, front, r)
  }

  datatype Result = Accepted(state: PersistentState) | Refused(fault: Fault)

  function DecodedWith(strict: bool, payload: seq<byte>): Result {
    match GetState(strict, payload)
    case Err(f) => Refused(f)
    case Ok(s, rest) => if rest != [] then Refused(TrailingGarbage) else Accepted(s)
  }

  /** Store::decode */
  function Decoded(payload: seq<byte>): Result { DecodedWith(false, payload) }
}
