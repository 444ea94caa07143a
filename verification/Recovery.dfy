/** Recovery of a coordinator: the groups of a runtime are persisted, the file is loaded in a
    fresh process and the groups are built and registered anew (tools/coordinator.cpp). */
module Recovery {
  import opened Bytes
  import opened Foundation
  import opened Permutations
  import G = Group
  import R = Runtime
  import S = Store
  import Laws = StoreLaws
  import F = StoreFile
  import Authority

  // ---------------------------------------------------------------- persisting

  const PersistParticipant: G.Participant -> S.Participant := (p: G.Participant) =>
    S.Participant(p.id, p.worker, p.boot, p.node, p.device, p.rank, p.backendGeneration, p.isKnown)

  function PersistGroup(g: G.CollectiveGroup, provenance: seq<byte>): S.Group {
    S.Group(g.id, g.generation, g.membership, g.topology, g.health, g.backend, g.lifecycle, provenance,
            Map(PersistParticipant, g.participants))
  }

  /** A group as GroupBuilder::build returns it; participants are added as known. */
  ghost predicate IsBuilt(g: G.CollectiveGroup) {
    && (exists ps :: G.Buildable(ps, g.membership, g.topology) && G.IsMembership(ps, g.participants))
    && forall i :: 0 <= i < |g.participants| ==> g.participants[i].isKnown
  }

  // ---------------------------------------------------------------- rebuilding

  /** What add_participant makes of a persisted participant. */
  const AddedParticipant: S.Participant -> G.Participant := (p: S.Participant) =>
    G.Participant(p.id, p.worker, p.boot, p.node, p.device, p.rank, p.backendGeneration, true)

  ghost predicate Rebuildable(sg: S.Group) {
    G.Buildable(Map(AddedParticipant, sg.participants), sg.membership, sg.topology)
  }

  /** g is what rebuilding the persisted group yields. */
  ghost predicate Rebuilt(sg: S.Group, g: G.CollectiveGroup) {
    && g == G.CollectiveGroup(sg.id, sg.generation, sg.membership, sg.topology, sg.health, sg.backend, sg.lifecycle, g.participants)
    && G.IsMembership(Map(AddedParticipant, sg.participants), g.participants)
  }

  function Key(sg: S.Group): (u64, u64) { (sg.id, sg.generation) }

  /** The registered groups are the earlier ones and, one for each, the rebuilt ones. */
  ghost predicate Restored(sgs: seq<S.Group>, before: map<(u64, u64), G.CollectiveGroup>, after: map<(u64, u64), G.CollectiveGroup>) {
    && (forall k :: k in before ==> k in after && after[k] == before[k])
    && (forall i :: 0 <= i < |sgs| ==> Key(sgs[i]) in after && Rebuilt(sgs[i], after[Key(sgs[i])]))
    && (forall k :: k in after ==> k in before || exists i :: 0 <= i < |sgs| && k == Key(sgs[i]))
  }

  /** No key is registered already and none occurs twice. */
  ghost predicate NewKeys(sgs: seq<S.Group>, groups: map<(u64, u64), G.CollectiveGroup>) {
    && (forall i :: 0 <= i < |sgs| ==> Key(sgs[i]) !in groups)
    && forall i, j :: 0 <= i < j < |sgs| ==> Key(sgs[i]) != Key(sgs[j])
  }

  ghost predicate AllRebuildable(sgs: seq<S.Group>) { forall i :: 0 <= i < |sgs| ==> Rebuildable(sgs[i]) }

  method RebuildGroup(sg: S.Group) returns (r: G.BuildResult)
    requires |sg.participants| < U64_LIMIT
    ensures r.Built? <==> Rebuildable(sg)
    ensures r.Built? ==> Rebuilt(sg, r.group)
  {
    var gb := new G.GroupBuilder(sg.id, sg.generation);
    gb.membership, gb.topology := sg.membership, sg.topology;
    gb.health, gb.backend, gb.lifecycle := sg.health, sg.backend, sg.lifecycle;
    for i := 0 to |sg.participants|
      invariant gb.participants == Map(AddedParticipant, sg.participants[..i])
      invariant gb.membership == sg.membership && gb.topology == sg.topology
      invariant gb.health == sg.health && gb.backend == sg.backend && gb.lifecycle == sg.lifecycle
    {
      var p := sg.participants[i];
      assert sg.participants[..i + 1] == sg.participants[..i] + [p];
      gb.AddParticipant(p.id, p.worker, p.boot, p.node, p.device, p.backendGeneration, p.rank);
    }
    assert sg.participants[..|sg.participants|] == sg.participants;
    r := gb.Build();
  }

  /** rebuild_runtime; a group that cannot be built, or whose key is registered already, ends it with
      an exception. */
  method RebuildRuntime(sgs: seq<S.Group>, rt: R.Runtime) returns (ok: bool)
    requires forall i :: 0 <= i < |sgs| ==> |sgs[i].participants| < U64_LIMIT
    modifies rt
    ensures ok <==> AllRebuildable(sgs) && NewKeys(sgs, old(rt.groups))
    ensures ok ==> Restored(sgs, old(rt.groups), rt.groups)
    ensures rt.executions == old(rt.executions) && rt.measurements == old(rt.measurements) && rt.nextId == old(rt.nextId)
  {
    hide Rebuildable, Rebuilt, Restored;
    NothingRestored(sgs, rt.groups);
    for i := 0 to |sgs|
      invariant AllRebuildable(sgs[..i]) && NewKeys(sgs[..i], old(rt.groups))
      invariant Restored(sgs[..i], old(rt.groups), rt.groups)
      invariant rt.executions == old(rt.executions) && rt.measurements == old(rt.measurements) && rt.nextId == old(rt.nextId)
    {
      var r := RebuildGroup(sgs[i]);
      if r.Invalid? {
        return false;
      }
      BuiltKey(sgs[i], r.group);
      ghost var before := rt.groups;
      TakenKey(sgs, i, old(rt.groups), before);
      var o := rt.AddGroup(r.group);
      if o.Thrown? {
        return false;
      }
      assert rt.State().groups == before[Key(sgs[i]) := r.group];
      RestoredNext(sgs, i, old(rt.groups), before, r.group);
      assert sgs[..i + 1] == sgs[..i] + [sgs[i]];
    }
    assert sgs[..|sgs|] == sgs;
    ok := true;
  }

  lemma NothingRestored(sgs: seq<S.Group>, groups: map<(u64, u64), G.CollectiveGroup>)
    ensures Restored(sgs[..0], groups, groups)
  {
  }

  /** A key is taken exactly when it was registered before or occurred among the earlier groups. */
  lemma TakenKey(sgs: seq<S.Group>, i: nat, start: map<(u64, u64), G.CollectiveGroup>,
                 before: map<(u64, u64), G.CollectiveGroup>)
    requires i < |sgs| && NewKeys(sgs[..i], start) && Restored(sgs[..i], start, before)
    ensures Key(sgs[i]) in before ==> !NewKeys(sgs, start)
    ensures Key(sgs[i]) !in before ==> NewKeys(sgs[..i + 1], start)
  {
    hide Rebuilt;
    var done, now := sgs[..i], sgs[..i + 1];
    assert now == done + [sgs[i]];
    if Key(sgs[i]) in before && Key(sgs[i]) !in start {
      var j :| 0 <= j < |done| && Key(sgs[i]) == Key(done[j]);
      assert Key(sgs[j]) == Key(sgs[i]);
    }
    if Key(sgs[i]) !in before {
      forall j | 0 <= j < i
        ensures Key(now[j]) != Key(now[i])
      {
        assert Key(done[j]) in before;
      }
    }
  }

  lemma BuiltKey(sg: S.Group, g: G.CollectiveGroup)
    requires Rebuilt(sg, g)
    ensures (g.id, g.generation) == Key(sg)
  {
  }

  lemma RestoredNext(sgs: seq<S.Group>, i: nat, start: map<(u64, u64), G.CollectiveGroup>,
                     before: map<(u64, u64), G.CollectiveGroup>, g: G.CollectiveGroup)
    requires i < |sgs| && Key(sgs[i]) !in before && Restored(sgs[..i], start, before) && Rebuilt(sgs[i], g)
    ensures Restored(sgs[..i + 1], start, before[Key(sgs[i]) := g])
  {
    hide Rebuilt;
    var after, now, done := before[Key(sgs[i]) := g], sgs[..i + 1], sgs[..i];
    assert now == done + [sgs[i]];
    forall k | k in after && k !in start
      ensures exists j :: 0 <= j < |now| && k == Key(now[j])
    {
      if k == Key(sgs[i]) {
        assert k == Key(now[i]);
      } else {
        var j :| 0 <= j < |done| && k == Key(done[j]);
        assert k == Key(now[j]);
      }
    }
  }

  /** The positions of the persisted participants with a smaller id. */
  function SmallerIds(sg: S.Group, id: u64): set<nat> {
    set j: nat | j < |sg.participants| && sg.participants[j].id < id
  }

  /** Every persisted participant comes back, known, at the rank that counts the smaller ids, with
      everything else as it was persisted; and nobody else is in the group. */
  lemma RebuiltParticipants(sg: S.Group, g: G.CollectiveGroup, i: nat)
    requires Rebuilt(sg, g) && i < |sg.participants|
    ensures (g.id, g.generation, g.membership, g.topology, g.health, g.backend, g.lifecycle)
         == (sg.id, sg.generation, sg.membership, sg.topology, sg.health, sg.backend, sg.lifecycle)
    ensures var p, r := sg.participants[i], |SmallerIds(sg, sg.participants[i].id)|;
            && |g.participants| == |sg.participants| && r < |g.participants| && r < U64_LIMIT
            && g.participants[r] == G.Participant(p.id, p.worker, p.boot, p.node, p.device, r, p.backendGeneration, true)
  {
    var added := Map(AddedParticipant, sg.participants);
    G.RankCountsSmallerIds(added, g.participants, i);
    assert G.Smaller(added, added[i].id) == SmallerIds(sg, sg.participants[i].id);
  }

  /** What is persisted of a group. */
  lemma PersistedFields(g: G.CollectiveGroup, provenance: seq<byte>, i: nat)
    requires i < |g.participants|
    ensures var sg, p := PersistGroup(g, provenance), g.participants[i];
            && (sg.id, sg.generation, sg.membership, sg.topology, sg.health, sg.backend, sg.lifecycle)
               == (g.id, g.generation, g.membership, g.topology, g.health, g.backend, g.lifecycle)
            && sg.provenance == provenance && |sg.participants| == |g.participants|
            && sg.participants[i] == S.Participant(p.id, p.worker, p.boot, p.node, p.device, p.rank, p.backendGeneration, p.isKnown)
  {
  }

  // ---------------------------------------------------------------- nothing is lost

  /** A built group is rebuildable from its persisted form, and only into itself. */
  lemma RebuildsItself(g: G.CollectiveGroup, provenance: seq<byte>, again: G.CollectiveGroup)
    requires IsBuilt(g)
    ensures Rebuildable(PersistGroup(g, provenance))
    ensures Rebuilt(PersistGroup(g, provenance), again) ==> again == g
  {
    var ps :| G.Buildable(ps, g.membership, g.topology) && G.IsMembership(ps, g.participants);
    var added := Map(AddedParticipant, Map(PersistParticipant, g.participants));
    assert added == g.participants;
    G.RebuildReproduces(ps, g.participants, g.membership, g.topology, g.participants);
    if Rebuilt(PersistGroup(g, provenance), again) {
      G.RebuildReproduces(ps, g.participants, g.membership, g.topology, again.participants);
    }
  }

  /** The groups of a state are the persisted forms of built groups. */
  ghost predicate Persists(sgs: seq<S.Group>, gs: seq<G.CollectiveGroup>) {
    && |sgs| == |gs|
    && forall i :: 0 <= i < |gs| ==> IsBuilt(gs[i]) && sgs[i] == PersistGroup(gs[i], sgs[i].provenance)
  }

  function CurrentMeasurements(ms: seq<S.Measurement>): nat {
    if ms == [] then 0
    else CurrentMeasurements(ms[..|ms| - 1]) + (if ms[|ms| - 1].freshness == CURRENT then 1 else 0)
  }

  const CURRENT: byte := 0

  /** The measurements with freshness code 0. */
  function Fresh(ms: seq<S.Measurement>): set<nat> { set i: nat | i < |ms| && ms[i].freshness == 0 }

  lemma {:induction false} CurrentAreFresh(ms: seq<S.Measurement>)
    ensures CurrentMeasurements(ms) == |Fresh(ms)|
    decreases |ms|
  {
    if ms == [] {
      assert Fresh(ms) == {};
    } else {
      var last := |ms| - 1;
      CurrentAreFresh(ms[..last]);
      assert Fresh(ms) == Fresh(ms[..last]) + if ms[last].freshness == 0 then {last} else {};
    }
  }

  /** Recovery in a fresh process: unloadable files, a state without groups and unbuildable groups
      end it.  The saved epoch is restored, no incarnation is live, and the measurements that were
      current are counted for revalidation. */
  method Recover(file: seq<byte>) returns (rt: R.Runtime, truth: Authority.Truth, stale: nat, ok: bool)
    ensures ok <==> F.Opened(file).Loaded? && F.Opened(file).state.groups != [] && AllRebuildable(F.Opened(file).state.groups)
    ensures ok ==> && Restored(F.Opened(file).state.groups, map[], rt.groups)
                   && truth == Authority.Truth(F.Opened(file).state.epoch, 0, 0, 0, 0, 0)
                   && stale == CurrentMeasurements(F.Opened(file).state.measurements)
  {
    hide F.Opened, Rebuildable, AllRebuildable, Restored, CurrentMeasurements;
    rt := new R.Runtime();
    truth, stale := Authority.Truth(1, 0, 0, 0, 0, 0), 0;
    assert rt.State().groups == map[];
    var result, _ := F.Load(file);
    if result.Unloadable? || result.state.groups == [] {
      return rt, truth, stale, false;
    }
    var s := result.state;
    truth := truth.(epoch := s.epoch);
    LoadedKeys(file, rt.groups);
    ok := RebuildRuntime(s.groups, rt);
    stale := CountCurrent(s.measurements);
  }

  method CountCurrent(ms: seq<S.Measurement>) returns (n: nat)
    ensures n == CurrentMeasurements(ms)
  {
    n := 0;
    for i := 0 to |ms|
      invariant n == CurrentMeasurements(ms[..i])
    {
      assert ms[..i + 1][..i] == ms[..i];
      if ms[i].freshness == CURRENT {
        n := n + 1;
      }
    }
    assert ms[..|ms|] == ms;
  }

  lemma LoadedKeys(file: seq<byte>, groups: map<(u64, u64), G.CollectiveGroup>)
    requires F.Opened(file).Loaded? && groups == map[]
    ensures var sgs := F.Opened(file).state.groups;
            NewKeys(sgs, groups) && forall i :: 0 <= i < |sgs| ==> |sgs[i].participants| < U64_LIMIT
  {
    hide S.Decoded;
    AcceptedKeys(file[F.HEADER..], groups);
  }

  lemma AcceptedKeys(payload: seq<byte>, groups: map<(u64, u64), G.CollectiveGroup>)
    requires S.Decoded(payload).Accepted? && groups == map[]
    ensures var sgs := S.Decoded(payload).state.groups;
            NewKeys(sgs, groups) && forall i :: 0 <= i < |sgs| ==> |sgs[i].participants| < U64_LIMIT
  {
    hide S.Decoded;
    Laws.AcceptedIsWellFormed(payload);
    var sgs := S.Decoded(payload).state.groups;
    forall i | 0 <= i < |sgs|
      ensures |sgs[i].participants| < U64_LIMIT
    {
      assert S.WellFormedGroup(sgs[i]);
    }
  }

  /** Nothing is lost across a restart: save a state that persists built groups, recover from the
      file, and the fresh runtime holds exactly those groups, ranks included. */
  lemma RestartKeepsGroups(s: S.PersistentState, gs: seq<G.CollectiveGroup>, after: map<(u64, u64), G.CollectiveGroup>)
    requires S.WellFormed(s) && |S.Encoded(s)| < U64_LIMIT && Persists(s.groups, gs)
    ensures F.Opened(F.FileOf(S.Encoded(s))) == F.Loaded(s)
    ensures forall i :: 0 <= i < |s.groups| ==> Rebuildable(s.groups[i])
    ensures Restored(s.groups, map[], after) ==>
              && (forall i :: 0 <= i < |gs| ==> (gs[i].id, gs[i].generation) in after && after[(gs[i].id, gs[i].generation)] == gs[i])
              && (forall k :: k in after ==> after[k] in gs)
  {
    hide F.Opened, F.FileOf, S.Encoded, S.WellFormed, Rebuildable, Rebuilt, IsBuilt;
    F.SaveThenLoad(s);
    forall i | 0 <= i < |gs|
      ensures Rebuildable(s.groups[i])
      ensures Key(s.groups[i]) == (gs[i].id, gs[i].generation)
      ensures Restored(s.groups, map[], after) ==> Key(s.groups[i]) in after && after[Key(s.groups[i])] == gs[i]
    {
      if Restored(s.groups, map[], after) {
        RebuildsItself(gs[i], s.groups[i].provenance, after[Key(s.groups[i])]);
      } else {
        RebuildsItself(gs[i], s.groups[i].provenance, gs[i]);
      }
    }
  }
}
