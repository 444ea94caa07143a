/** Group construction of include/collectivefabric/group.hpp. */
module Group {
  import opened Bytes
  import opened Foundation
  import opened Permutations

  datatype Participant = Participant(
    id: u64, worker: u64, boot: u64, node: u64, device: u64, rank: u64, backendGeneration: u64, isKnown: bool)

  datatype CollectiveGroup = CollectiveGroup(
    id: u64, generation: u64, membership: u64, topology: u64, health: u64, backend: u64,
    lifecycle: byte, participants: seq<Participant>)

  datatype BuildResult = Built(group: CollectiveGroup) | Invalid

  // ---------------------------------------------------------------- what a build promises

  const Ident: Participant -> u64 := (p: Participant) => p.id
  const Incarnation: Participant -> (u64, u64) := (p: Participant) => (p.worker, p.boot)
  const Unranked: Participant -> Participant := (p: Participant) => p.(rank := 0)

  /** RankId(0) is the null rank. */
  predicate AnyNullRank(ps: seq<Participant>) { exists i :: 0 <= i < |ps| && ps[i].rank == 0 }

  /** Exactly the participant lists a build accepts. */
  ghost predicate Buildable(ps: seq<Participant>, membership: u64, topology: u64) {
    && ps != [] && membership != 0 && topology != 0
    && AnyNullRank(ps)
    && Distinct(Map(Ident, ps)) && Distinct(Map(Incarnation, ps))
    && forall i :: 0 <= i < |ps| ==> ps[i].worker != 0 && ps[i].boot != 0
  }

  ghost predicate SortedById(ps: seq<Participant>) {
    forall i, j :: 0 <= i < j < |ps| ==> ps[i].id < ps[j].id
  }

  ghost predicate DenselyRanked(ps: seq<Participant>) {
    forall i :: 0 <= i < |ps| ==> ps[i].rank == i
  }

  /** gp is the membership built from ps: the same participants, rank i at position i, in id order. */
  ghost predicate IsMembership(ps: seq<Participant>, gp: seq<Participant>) {
    multiset(Map(Unranked, ps)) == multiset(Map(Unranked, gp)) && SortedById(gp) && DenselyRanked(gp)
  }

  lemma LastIsGreatest(ps: seq<Participant>, i: nat)
    requires SortedById(ps) && i < |ps|
    ensures i < |ps| - 1 ==> ps[i].id < ps[|ps| - 1].id
  {
  }

  lemma SameLast(xs: seq<Participant>, ys: seq<Participant>)
    requires multiset(xs) == multiset(ys) && SortedById(xs) && SortedById(ys) && xs != []
    ensures |xs| == |ys| && xs[|xs| - 1] == ys[|ys| - 1]
  {
    hide SortedById;
    var i := TakeOutLast(xs, ys);
    var j := TakeOutLast(ys, xs);
    LastIsGreatest(ys, i);
    LastIsGreatest(xs, j);
  }

  /** Ids in increasing order determine the order completely. */
  lemma {:induction false} SortedUnique(xs: seq<Participant>, ys: seq<Participant>)
    requires multiset(xs) == multiset(ys) && SortedById(xs) && SortedById(ys)
    ensures xs == ys
    decreases |xs|
  {
    if xs == [] {
      assert |multiset(xs)| == |xs| && |multiset(ys)| == |ys|;
    } else {
      SameLast(xs, ys);
      DropSameLast(xs, ys);
      var last := |xs| - 1;
      SortedUnique(xs[..last], ys[..last]);
      assert xs == xs[..last] + [xs[last]] && ys == ys[..last] + [ys[last]];
    }
  }

  /** Two membership lists built from permutations of the same participants are equal. */
  lemma MembershipUnique(ps: seq<Participant>, qs: seq<Participant>, a: seq<Participant>, b: seq<Participant>)
    requires IsMembership(ps, a) && IsMembership(qs, b)
    requires multiset(Map(Unranked, ps)) == multiset(Map(Unranked, qs))
    ensures a == b
  {
    var x, y := Map(Unranked, a), Map(Unranked, b);
    SortedUnique(x, y);
    forall i | 0 <= i < |a|
      ensures a[i] == b[i]
    {
      assert x[i] == y[i];
    }
  }

  /** Insertion order is irrelevant: permuted participant lists are accepted alike and give the
      same membership. */
  lemma InsertionOrderIrrelevant(ps: seq<Participant>, qs: seq<Participant>, membership: u64, topology: u64)
    requires multiset(ps) == multiset(qs)
    ensures Buildable(ps, membership, topology) <==> Buildable(qs, membership, topology)
    ensures forall a, b :: IsMembership(ps, a) && IsMembership(qs, b) ==> a == b
  {
    if Buildable(ps, membership, topology) {
      BuildablePermuted(ps, qs, membership, topology);
    }
    if Buildable(qs, membership, topology) {
      BuildablePermuted(qs, ps, membership, topology);
    }
    MapPermuted(Unranked, ps, qs);
    forall a, b | IsMembership(ps, a) && IsMembership(qs, b)
      ensures a == b
    {
      MembershipUnique(ps, qs, a, b);
    }
  }

  lemma BuildablePermuted(ps: seq<Participant>, qs: seq<Participant>, membership: u64, topology: u64)
    requires multiset(ps) == multiset(qs) && Buildable(ps, membership, topology)
    ensures Buildable(qs, membership, topology)
  {
    assert |multiset(ps)| == |ps| && |multiset(qs)| == |qs|;
    MapPermuted(Ident, ps, qs);
    DistinctPermuted(Map(Ident, ps), Map(Ident, qs));
    MapPermuted(Incarnation, ps, qs);
    DistinctPermuted(Map(Incarnation, ps), Map(Incarnation, qs));
    forall i | 0 <= i < |qs|
      ensures qs[i].worker != 0 && qs[i].boot != 0
    {
      assert qs[i] in multiset(ps);
    }
    var k :| 0 <= k < |ps| && ps[k].rank == 0;
    assert ps[k] in multiset(qs);
  }

  /** What recovery does: rebuilding from a built group's own participants gives the same
      membership and the same ranks. */
  lemma RebuildReproduces(ps: seq<Participant>, gp: seq<Participant>, membership: u64, topology: u64, again: seq<Participant>)
    requires Buildable(ps, membership, topology) && IsMembership(ps, gp)
    requires IsMembership(gp, again)
    ensures Buildable(gp, membership, topology) && again == gp
  {
    MembershipUnique(gp, gp, again, gp);
    var x, y := Map(Unranked, ps), Map(Unranked, gp);
    assert |multiset(x)| == |x| && |multiset(y)| == |y|;
    assert gp[0].rank == 0;
    MapPermuted(Incarnation, x, y);
    assert Map(Incarnation, x) == Map(Incarnation, ps) && Map(Incarnation, y) == Map(Incarnation, gp);
    DistinctPermuted(Map(Incarnation, ps), Map(Incarnation, gp));
    forall i | 0 <= i < |gp|
      ensures gp[i].worker != 0 && gp[i].boot != 0
    {
      assert y[i] in multiset(x);
    }
  }

  /** The positions of the participants with a smaller id. */
  function Smaller(ps: seq<Participant>, id: u64): set<nat> { set i: nat | i < |ps| && ps[i].id < id }

  /** A participant's rank is the number of participants with a smaller id, and nothing but the rank of
      a participant is ever changed: that determines the membership completely. */
  lemma RankCountsSmallerIds(ps: seq<Participant>, gp: seq<Participant>, i: nat)
    requires IsMembership(ps, gp) && i < |ps|
    ensures |ps| == |gp| && |Smaller(ps, ps[i].id)| < |gp|
    ensures var r := |Smaller(ps, ps[i].id)|; gp[r].rank == r && gp[r] == ps[i].(rank := gp[r].rank)
  {
    var x, y := Map(Unranked, ps), Map(Unranked, gp);
    assert |multiset(x)| == |x| && |multiset(y)| == |y|;
    assert x[i] in multiset(y);
    var k :| 0 <= k < |y| && y[k] == x[i];
    SmallerPermuted(x, y, ps[i].id);
    SmallerUnranked(ps, ps[i].id);
    SmallerUnranked(gp, ps[i].id);
    SmallerSorted(gp, k, |gp|);
    assert gp[..|gp|] == gp;
  }

  lemma SmallerUnranked(ps: seq<Participant>, id: u64)
    ensures Smaller(Map(Unranked, ps), id) == Smaller(ps, id)
  {
  }

  lemma {:induction false} SmallerSorted(gp: seq<Participant>, k: nat, n: nat)
    requires SortedById(gp) && k < |gp| && n <= |gp|
    ensures |Smaller(gp[..n], gp[k].id)| == if n < k then n else k
    decreases n
  {
    if n > 0 {
      SmallerSorted(gp, k, n - 1);
      SmallerLast(gp[..n], gp[k].id);
      assert gp[..n][..n - 1] == gp[..n - 1];
      SortedPositions(gp, n - 1, k);
    } else {
      assert Smaller(gp[..n], gp[k].id) == {};
    }
  }

  lemma {:induction false} SmallerPermuted(xs: seq<Participant>, ys: seq<Participant>, id: u64)
    requires multiset(xs) == multiset(ys)
    ensures |Smaller(xs, id)| == |Smaller(ys, id)|
    decreases |xs|
  {
    if xs == [] {
      assert |multiset(xs)| == |xs| && |multiset(ys)| == |ys|;
    } else {
      var last := |xs| - 1;
      var j := TakeOutLast(xs, ys);
      var others := ys[..j] + ys[j + 1..];
      SmallerPermuted(xs[..last], others, id);
      SmallerLast(xs, id);
      SmallerTakenOut(ys, j, id);
    }
  }

  lemma SmallerLast(xs: seq<Participant>, id: u64)
    requires xs != []
    ensures |Smaller(xs, id)| == |Smaller(xs[..|xs| - 1], id)| + if xs[|xs| - 1].id < id then 1 else 0
  {
    var last := |xs| - 1;
    assert Smaller(xs, id) == Smaller(xs[..last], id) + if xs[last].id < id then {last} else {};
  }

  /** Counting goes through the list, so it does not matter which one is left out. */
  lemma {:induction false} SmallerTakenOut(ys: seq<Participant>, j: nat, id: u64)
    requires j < |ys|
    ensures |Smaller(ys, id)| == |Smaller(ys[..j] + ys[j + 1..], id)| + if ys[j].id < id then 1 else 0
    decreases |ys|
  {
    var last := |ys| - 1;
    var others := ys[..j] + ys[j + 1..];
    SmallerLast(ys, id);
    if j == last {
      assert others == ys[..last];
    } else {
      SmallerTakenOut(ys[..last], j, id);
      SmallerLast(others, id);
      assert others[..|others| - 1] == ys[..last][..j] + ys[..last][j + 1..];
    }
  }

  /** The lists a build accepts, condition by condition: somebody, generations named, somebody without
      an explicit rank, no id twice, no incarnation twice, and every incarnation named. */
  lemma BuildableExactly(ps: seq<Participant>, membership: u64, topology: u64)
    ensures Buildable(ps, membership, topology) <==>
            && |ps| >= 1 && membership != 0 && topology != 0
            && (exists i :: 0 <= i < |ps| && ps[i].rank == 0)
            && (forall i, j :: 0 <= i < |ps| && 0 <= j < |ps| && i != j ==> ps[i].id != ps[j].id)
            && (forall i, j :: 0 <= i < |ps| && 0 <= j < |ps| && i != j ==> ps[i].worker != ps[j].worker || ps[i].boot != ps[j].boot)
            && (forall i :: 0 <= i < |ps| ==> ps[i].worker != 0 && ps[i].boot != 0)
  {
    var ids, boots := Map(Ident, ps), Map(Incarnation, ps);
    assert Distinct(ids) <==> forall i, j :: 0 <= i < |ps| && 0 <= j < |ps| && i != j ==> ids[i] != ids[j];
    assert Distinct(boots) <==> forall i, j :: 0 <= i < |ps| && 0 <= j < |ps| && i != j ==> boots[i] != boots[j];
    assert forall i :: 0 <= i < |ps| ==> ids[i] == ps[i].id && boots[i] == (ps[i].worker, ps[i].boot);
  }

  // ---------------------------------------------------------------- explicit ranks

  /** Ranks below the number of participants, in the order of the ids. */
  predicate RanksFollowIds(ps: seq<Participant>) {
    && (forall i :: 0 <= i < |ps| ==> ps[i].rank < |ps|)
    && forall i, j :: 0 <= i < |ps| && 0 <= j < |ps| ==> ps[i].id < ps[j].id ==> ps[i].rank < ps[j].rank
  }

  lemma PartnerOf(ps: seq<Participant>, gp: seq<Participant>, k: nat) returns (j: nat)
    requires IsMembership(ps, gp) && k < |gp|
    ensures |ps| == |gp| && j < |ps| && Unranked(ps[j]) == Unranked(gp[k])
  {
    var x, y := Map(Unranked, ps), Map(Unranked, gp);
    assert |multiset(x)| == |x| && |multiset(y)| == |y|;
    assert y[k] in multiset(x);
    j :| 0 <= j < |x| && x[j] == y[k];
  }

  /** A rank in id order is at least the position in id order ... */
  lemma {:induction false} RankAtLeast(ps: seq<Participant>, gp: seq<Participant>, k: nat, j: nat)
    requires IsMembership(ps, gp) && RanksFollowIds(ps) && k < |gp| && j < |ps| && ps[j].id == gp[k].id
    ensures ps[j].rank >= k
    decreases k
  {
    if k > 0 {
      var i := PartnerOf(ps, gp, k - 1);
      RankAtLeast(ps, gp, k - 1, i);
      assert gp[k - 1].id < gp[k].id;
    }
  }

  /** ... and at most. */
  lemma {:induction false} RankAtMost(ps: seq<Participant>, gp: seq<Participant>, k: nat, j: nat)
    requires IsMembership(ps, gp) && RanksFollowIds(ps) && k < |gp| && j < |ps| && ps[j].id == gp[k].id
    ensures ps[j].rank <= k
    decreases |gp| - k
  {
    var n := PartnerOf(ps, gp, k);
    if k < |gp| - 1 {
      var i := PartnerOf(ps, gp, k + 1);
      RankAtMost(ps, gp, k + 1, i);
      assert gp[k].id < gp[k + 1].id;
    }
  }

  lemma FollowingKept(ps: seq<Participant>, gp: seq<Participant>)
    requires IsMembership(ps, gp) && RanksFollowIds(ps)
    ensures multiset(gp) == multiset(ps)
  {
    forall k | 0 <= k < |gp|
      ensures gp[k] in ps
    {
      var j := PartnerOf(ps, gp, k);
      RankAtLeast(ps, gp, k, j);
      RankAtMost(ps, gp, k, j);
      assert ps[j] == gp[k];
    }
    var x, y := Map(Unranked, ps), Map(Unranked, gp);
    assert |multiset(x)| == |x| && |multiset(y)| == |y|;
    DistinctContained(gp, ps);
  }

  lemma SortedPositions(gp: seq<Participant>, i: nat, j: nat)
    requires SortedById(gp) && i < |gp| && j < |gp|
    ensures gp[i].id < gp[j].id <==> i < j
  {
  }

  lemma KeptFollows(ps: seq<Participant>, gp: seq<Participant>)
    requires IsMembership(ps, gp) && multiset(gp) == multiset(ps)
    ensures RanksFollowIds(ps)
  {
    assert |multiset(gp)| == |gp| && |multiset(ps)| == |ps|;
    forall i | 0 <= i < |ps|
      ensures ps[i].rank < |gp| && gp[ps[i].rank] == ps[i]
    {
      assert ps[i] in multiset(gp);
      var k :| 0 <= k < |gp| && gp[k] == ps[i];
    }
    forall i, j | 0 <= i < |ps| && 0 <= j < |ps| && ps[i].id < ps[j].id
      ensures ps[i].rank < ps[j].rank
    {
      SortedPositions(gp, ps[i].rank, ps[j].rank);
    }
  }

  /** Explicit ranks are honoured if and only if they are the ones the builder would assign: below
      the number of participants and in the order of the ids. */
  lemma ExplicitRanksKept(ps: seq<Participant>, gp: seq<Participant>, membership: u64, topology: u64)
    requires Buildable(ps, membership, topology) && IsMembership(ps, gp)
    ensures multiset(gp) == multiset(ps) <==> RanksFollowIds(ps)
  {
    if RanksFollowIds(ps) {
      FollowingKept(ps, gp);
    }
    if multiset(gp) == multiset(ps) {
      KeptFollows(ps, gp);
    }
  }

  const SWAPPED := [Participant(2, 2, 2, 0, 0, 0, 0, true), Participant(1, 1, 1, 0, 0, 1, 0, true)]

  /** Participant 2 is given rank 0 and participant 1 rank 1; the build turns both round. */
  lemma ExplicitRanksOverridden()
    ensures Buildable(SWAPPED, 1, 1)
    ensures IsMembership(SWAPPED, [SWAPPED[1].(rank := 0), SWAPPED[0].(rank := 1)])
    ensures !RanksFollowIds(SWAPPED)
  {
    assert SWAPPED[0].rank == 0;
    var gp := [SWAPPED[1].(rank := 0), SWAPPED[0].(rank := 1)];
    assert Map(Unranked, SWAPPED) == [Unranked(SWAPPED[0]), Unranked(SWAPPED[1])];
    assert Map(Unranked, gp) == [Unranked(SWAPPED[1]), Unranked(SWAPPED[0])];
    assert SWAPPED[1].id < SWAPPED[0].id;
  }

  // ---------------------------------------------------------------- lookups

  /** participant_at: the first participant carrying the rank. */
  function ParticipantAt(ps: seq<Participant>, rank: u64): Option<Participant> {
    if ps == [] then None
    else if ps[0].rank == rank then Some(ps[0])
    else ParticipantAt(ps[1..], rank)
  }

  /** rank_of */
  function RankOf(ps: seq<Participant>, id: u64): Option<u64> {
    if ps == [] then None
    else if ps[0].id == id then Some(ps[0].rank)
    else RankOf(ps[1..], id)
  }

  lemma {:induction false} ParticipantAtFinds(ps: seq<Participant>, from: nat, rank: u64)
    requires forall i :: 0 <= i < |ps| ==> ps[i].rank == from + i
    ensures ParticipantAt(ps, rank) ==
            if from <= rank < from + |ps| then Some(ps[rank - from]) else None
    decreases |ps|
  {
    if ps != [] {
      ParticipantAtFinds(ps[1..], from + 1, rank);
    }
  }

  lemma {:induction false} RankOfFinds(ps: seq<Participant>, k: nat)
    requires SortedById(ps) && k < |ps|
    ensures RankOf(ps, ps[k].id) == Some(ps[k].rank)
    decreases |ps|
  {
    if k > 0 {
      RankOfFinds(ps[1..], k - 1);
    }
  }

  lemma {:induction false} RankOfKnows(ps: seq<Participant>, id: u64)
    ensures RankOf(ps, id).Some? <==> exists i :: 0 <= i < |ps| && ps[i].id == id
    decreases |ps|
  {
    if ps != [] && ps[0].id != id {
      RankOfKnows(ps[1..], id);
      if i :| 0 <= i < |ps| && ps[i].id == id {
        assert ps[1..][i - 1].id == id;
      }
    }
  }

  /** On a built group the two lookups invert each other, and ranks are exactly 0 .. n - 1. */
  lemma LookupsInvert(ps: seq<Participant>, gp: seq<Participant>, rank: u64)
    requires IsMembership(ps, gp)
    ensures ParticipantAt(gp, rank).Some? <==> rank < |gp|
    ensures rank < |gp| ==> RankOf(gp, ParticipantAt(gp, rank).value.id) == Some(rank)
    ensures forall id: u64 :: RankOf(gp, id).Some? <==> exists i :: 0 <= i < |gp| && gp[i].id == id
  {
    forall id: u64
      ensures RankOf(gp, id).Some? <==> exists i :: 0 <= i < |gp| && gp[i].id == id
    {
      RankOfKnows(gp, id);
    }
    ParticipantAtFinds(gp, 0, rank);
    if rank < |gp| {
      RankOfFinds(gp, rank);
    }
  }

  // ---------------------------------------------------------------- the builder

  ghost predicate SortedBy(key: Participant -> u64, ps: seq<Participant>) {
    forall i, j :: 0 <= i < j < |ps| ==> key(ps[i]) <= key(ps[j])
  }

  /** std::sort; nothing is promised about the order of equal keys. */
  method Sort(ps: seq<Participant>, key: Participant -> u64) returns (out: seq<Participant>)
    ensures multiset(out) == multiset(ps) && SortedBy(key, out)
  {
    out := [];
    for i := 0 to |ps|
      invariant multiset(out) == multiset(ps[..i]) && SortedBy(key, out)
    {
      assert ps[..i + 1] == ps[..i] + [ps[i]];
      out := Insert(out, ps[i], key);
    }
    assert ps[..|ps|] == ps;
  }

  method Insert(ps: seq<Participant>, p: Participant, key: Participant -> u64) returns (out: seq<Participant>)
    requires SortedBy(key, ps)
    ensures multiset(out) == multiset(ps) + multiset{p} && SortedBy(key, out)
  {
    hide SortedBy;
    var k := |ps|;
    while k > 0 && key(p) < key(ps[k - 1])
      invariant 0 <= k <= |ps| && forall i :: k <= i < |ps| ==> key(p) < key(ps[i])
    {
      k := k - 1;
    }
    out := ps[..k] + [p] + ps[k..];
    InsertedOnce(ps, p, k);
    InsertedSorted(ps, p, k, key);
  }

  lemma InsertedOnce(ps: seq<Participant>, p: Participant, k: nat)
    requires k <= |ps|
    ensures multiset(ps[..k] + [p] + ps[k..]) == multiset(ps) + multiset{p}
  {
    assert ps == ps[..k] + ps[k..];
  }

  lemma InsertedSorted(ps: seq<Participant>, p: Participant, k: nat, key: Participant -> u64)
    requires SortedBy(key, ps) && k <= |ps|
    requires forall i :: k <= i < |ps| ==> key(p) < key(ps[i])
    requires k > 0 ==> key(ps[k - 1]) <= key(p)
    ensures SortedBy(key, ps[..k] + [p] + ps[k..])
  {
    var out := ps[..k] + [p] + ps[k..];
    forall i, j | 0 <= i < j < |out|
      ensures key(out[i]) <= key(out[j])
    {
      if j < k {
        assert out[i] == ps[i] && out[j] == ps[j];
      } else if i > k {
        assert out[i] == ps[i - 1] && out[j] == ps[j - 1];
      } else if i < k {
        assert out[i] == ps[i];
        if j > k {
          assert out[j] == ps[j - 1];
        } else if i < k - 1 {
          assert key(ps[i]) <= key(ps[k - 1]);
        }
      }
    }
  }

  class GroupBuilder {
    const id: u64
    const generation: u64
    var membership: u64
    var topology: u64
    var health: u64
    var backend: u64
    var lifecycle: byte
    var participants: seq<Participant>

    constructor (id: u64, generation: u64)
      ensures this.id == id && this.generation == generation
      ensures membership == 1 && topology == 1 && health == 0 && backend == 0 && lifecycle == 0
      ensures participants == []
    {
      this.id, this.generation := id, generation;
      membership, topology, health, backend, lifecycle := 1, 1, 0, 0, 0;
      participants := [];
    }

    /** A rank of 0 means "not explicitly ranked". */
    method AddParticipant(id: u64, worker: u64, boot: u64, node: u64, device: u64, backendGeneration: u64, rank: u64)
      modifies this`participants
      ensures participants == old(participants) + [Participant(id, worker, boot, node, device, rank, backendGeneration, true)]
    {
      participants := participants + [Participant(id, worker, boot, node, device, rank, backendGeneration, true)];
    }

    /** Succeeds exactly on buildable participants and then yields their membership. */
    method Build() returns (r: BuildResult)
      requires |participants| < U64_LIMIT
      modifies this`participants
      ensures r.Built? <==> Buildable(old(participants), membership, topology)
      ensures multiset(Map(Unranked, participants)) == multiset(Map(Unranked, old(participants)))
      ensures r.Built? ==>
                IsMembership(old(participants), r.group.participants) && participants == r.group.participants
                && r.group == CollectiveGroup(id, generation, membership, topology, health, backend, lifecycle, participants)
    {
      ghost var given := participants;
      var unranked := false;
      for i := 0 to |participants|
        invariant unranked <==> exists k :: 0 <= k < i && participants[k].rank == 0
      {
        if participants[i].rank == 0 {
          unranked := true;
        }
      }
      if unranked {
        participants := AssignRanks(participants);
        RankedMembership(given, participants);
      } else {
        participants := Sort(participants, (p: Participant) => p.rank);
        ghost var sorted := participants;
        MapPermuted(Unranked, sorted, given);
        assert |multiset(sorted)| == |sorted| && |multiset(given)| == |given|;
        if sorted != [] {
          assert sorted[0] in multiset(given);
        }
      }
      var ok := Validate();
      if !ok {
        return Invalid;
      }
      r := Built(CollectiveGroup(id, generation, membership, topology, health, backend, lifecycle, participants));
    }

    static method AssignRanks(ps: seq<Participant>) returns (out: seq<Participant>)
      requires |ps| < U64_LIMIT
      ensures multiset(Map(Unranked, out)) == multiset(Map(Unranked, ps))
      ensures DenselyRanked(out)
      ensures forall i, j :: 0 <= i < j < |out| ==> out[i].id <= out[j].id
    {
      var sorted := Sort(ps, Ident);
      assert |multiset(sorted)| == |sorted| && |multiset(ps)| == |ps|;
      MapPermuted(Unranked, sorted, ps);
      out := sorted;
      for i := 0 to |sorted|
        invariant |out| == |sorted|
        invariant forall k :: 0 <= k < i ==> out[k] == sorted[k].(rank := k)
        invariant forall k :: i <= k < |sorted| ==> out[k] == sorted[k]
      {
        out := out[i := out[i].(rank := i)];
      }
      assert Map(Unranked, out) == Map(Unranked, sorted);
    }

    ghost predicate ValidRanking(ps: seq<Participant>)
      reads this
    {
      && ps != [] && membership != 0 && topology != 0
      && (forall i, j :: 0 <= i < j < |ps| ==> PairOk(ps[i], ps[j]))
      && (forall i :: 0 <= i < |ps| ==> ps[i].rank == i)
      && (forall i :: 0 <= i < |ps| ==> ps[i].worker != 0 && ps[i].boot != 0)
    }

    static predicate PairOk(p: Participant, q: Participant) {
      p.id != q.id && p.rank != q.rank && !(p.worker == q.worker && p.boot == q.boot)
    }

    method Validate() returns (ok: bool)
      ensures ok <==> ValidRanking(participants)
    {
      if participants == [] || membership == 0 || topology == 0 {
        return false;
      }
      for i := 0 to |participants|
        invariant forall a, b :: 0 <= a < b < |participants| && a < i ==> PairOk(participants[a], participants[b])
      {
        for j := i + 1 to |participants|
          invariant forall b :: i < b < j ==> PairOk(participants[i], participants[b])
        {
          if !PairOk(participants[i], participants[j]) {
            return false;
          }
        }
      }
      for i := 0 to |participants|
        invariant forall a :: 0 <= a < i ==> participants[a].rank == a
      {
        if participants[i].rank != i {
          return false;
        }
      }
      for i := 0 to |participants|
        invariant forall a :: 0 <= a < i ==> participants[a].worker != 0 && participants[a].boot != 0
      {
        if participants[i].worker == 0 || participants[i].boot == 0 {
          return false;
        }
      }
      ok := true;
    }

    /** After ranks are assigned, validity is a property of the participants given. */
    lemma RankedMembership(given: seq<Participant>, ranked: seq<Participant>)
      requires AnyNullRank(given)
      requires multiset(Map(Unranked, ranked)) == multiset(Map(Unranked, given))
      requires DenselyRanked(ranked)
      requires forall i, j :: 0 <= i < j < |ranked| ==> ranked[i].id <= ranked[j].id
      ensures ValidRanking(ranked) <==> Buildable(given, membership, topology)
      ensures ValidRanking(ranked) ==> IsMembership(given, ranked)
    {
      var x, y := Map(Unranked, given), Map(Unranked, ranked);
      assert |multiset(x)| == |x| && |multiset(y)| == |y|;
      MapPermuted(Ident, x, y);
      assert Map(Ident, x) == Map(Ident, given) && Map(Ident, y) == Map(Ident, ranked);
      DistinctPermuted(Map(Ident, given), Map(Ident, ranked));
      MapPermuted(Incarnation, x, y);
      assert Map(Incarnation, x) == Map(Incarnation, given) && Map(Incarnation, y) == Map(Incarnation, ranked);
      DistinctPermuted(Map(Incarnation, given), Map(Incarnation, ranked));
      IncarnationsKnown(given, ranked);
      IncarnationsKnown(ranked, given);
      PairsDistinct(ranked);
    }
  }

  lemma IncarnationsKnown(a: seq<Participant>, b: seq<Participant>)
    requires multiset(Map(Unranked, a)) == multiset(Map(Unranked, b))
    ensures (forall i :: 0 <= i < |a| ==> a[i].worker != 0 && a[i].boot != 0) ==>
            (forall i :: 0 <= i < |b| ==> b[i].worker != 0 && b[i].boot != 0)
  {
    if forall i :: 0 <= i < |a| ==> a[i].worker != 0 && a[i].boot != 0 {
      forall i | 0 <= i < |b|
        ensures b[i].worker != 0 && b[i].boot != 0
      {
        assert Map(Unranked, b)[i] in multiset(Map(Unranked, a));
      }
    }
  }

  lemma PairsDistinct(ps: seq<Participant>)
    requires DenselyRanked(ps)
    ensures (forall i, j :: 0 <= i < j < |ps| ==> GroupBuilder.PairOk(ps[i], ps[j]))
            <==> Distinct(Map(Ident, ps)) && Distinct(Map(Incarnation, ps))
  {
    var ids, boots := Map(Ident, ps), Map(Incarnation, ps);
    if forall i, j :: 0 <= i < j < |ps| ==> GroupBuilder.PairOk(ps[i], ps[j]) {
      forall i, j | 0 <= i < j < |ps|
        ensures ids[i] != ids[j] && boots[i] != boots[j]
      {
        assert GroupBuilder.PairOk(ps[i], ps[j]);
      }
    }
    if Distinct(ids) && Distinct(boots) {
      forall i, j | 0 <= i < j < |ps|
        ensures GroupBuilder.PairOk(ps[i], ps[j])
      {
        assert ids[i] != ids[j] && boots[i] != boots[j];
      }
    }
  }
}
