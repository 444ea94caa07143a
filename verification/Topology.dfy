/** The topology model of include/collectivefabric/topology.hpp. */
module Topology {
  import opened Foundation

  datatype LinkClass =
    | IntraProcess | HostMemory | Pcie | NvlinkClass | Network | RdmaClass | SharedMemory | UnknownLink

  /** link_class_rank: smaller is more local. */
  function Locality(c: LinkClass): nat {
    match c
    case IntraProcess => 0
    case SharedMemory => 1
    case HostMemory => 2
    case NvlinkClass => 3
    case RdmaClass => 4
    case Pcie => 5
    case Network => 6
    case UnknownLink => 7
  }

  datatype Capability = Capability(bandwidth: Option<nat>, latency: Option<nat>) {
    predicate Known() { bandwidth.Some? || latency.Some? }
  }

  datatype Link = Link(sourceNode: nat, destNode: nat, sourceDevice: nat, destDevice: nat, linkClass: LinkClass,
                       nominal: Capability, measured: Capability, generation: nat)

  datatype NodeEntry = NodeEntry(id: nat, hostName: string, devices: seq<nat>)

  datatype DeviceEntry = DeviceEntry(id: nat, node: nat, name: string, isCuda: bool, computeCapability: nat)

  // ---------------------------------------------------------------- counting pairs

  /** Unordered pairs of devices on one node, by position in the device table. */
  function SameNodePairs(devices: seq<DeviceEntry>): set<(nat, nat)> {
    set i: nat, j: nat | 0 <= i < j < |devices| && devices[i].node == devices[j].node :: (i, j)
  }

  /** Ids of the devices on a node, in table order. */
  function DevicesOn(devices: seq<DeviceEntry>, node: nat): seq<nat> {
    if devices == [] then []
    else
      var front, d := devices[..|devices| - 1], devices[|devices| - 1];
      DevicesOn(front, node) + if d.node == node then [d.id] else []
  }

  function Choose2(n: nat): nat { n * (n - 1) / 2 }

  /** The sum the source computes, node by node. */
  function PairSum(nodes: seq<NodeEntry>): nat {
    if nodes == [] then 0 else PairSum(nodes[..|nodes| - 1]) + Choose2(|nodes[|nodes| - 1].devices|)
  }

  ghost predicate DistinctNodes(nodes: seq<NodeEntry>) {
    forall i, j :: 0 <= i < j < |nodes| ==> nodes[i].id != nodes[j].id
  }

  /** Each node lists exactly its devices. */
  ghost predicate ListsAgree(nodes: seq<NodeEntry>, devices: seq<DeviceEntry>) {
    forall k :: 0 <= k < |nodes| ==> nodes[k].devices == DevicesOn(devices, nodes[k].id)
  }

  predicate NodeKnown(nodes: seq<NodeEntry>, id: nat) {
    exists k :: 0 <= k < |nodes| && nodes[k].id == id
  }

  ghost predicate DevicesPlaced(nodes: seq<NodeEntry>, devices: seq<DeviceEntry>) {
    forall i :: 0 <= i < |devices| ==> NodeKnown(nodes, devices[i].node)
  }

  /** Positions before n whose device is on the node. */
  function Partners(devices: seq<DeviceEntry>, node: nat, n: nat): set<(nat, nat)> {
    set i: nat | 0 <= i < |devices| && devices[i].node == node :: (i, n)
  }

  lemma {:induction false} PartnersCount(devices: seq<DeviceEntry>, node: nat, n: nat)
    ensures |Partners(devices, node, n)| == |DevicesOn(devices, node)|
    decreases |devices|
  {
    if devices != [] {
      var last := |devices| - 1;
      var front := devices[..last];
      PartnersCount(front, node, n);
      if devices[last].node == node {
        assert Partners(devices, node, n) == Partners(front, node, n) + {(last, n)};
        assert (last, n) !in Partners(front, node, n);
      } else {
        assert Partners(devices, node, n) == Partners(front, node, n);
      }
    }
  }

  /** The last device adds one pair for every device already on its node. */
  lemma PairsOfOneMore(devices: seq<DeviceEntry>)
    requires devices != []
    ensures var front := devices[..|devices| - 1];
            |SameNodePairs(devices)| == |SameNodePairs(front)| + |DevicesOn(front, devices[|devices| - 1].node)|
  {
    var last := |devices| - 1;
    var front, node := devices[..last], devices[last].node;
    PartnersCount(front, node, last);
    var p := Partners(front, node, last);
    forall q: (nat, nat)
      ensures q in SameNodePairs(devices) <==> q in SameNodePairs(front) || q in p
    {
      if q.1 == last {
        assert q in p <==> (q.0 < last && front[q.0].node == node);
      }
    }
    assert SameNodePairs(devices) == SameNodePairs(front) + p;
    assert SameNodePairs(front) !! p;
  }

  lemma Choose2Step(n: nat)
    ensures Choose2(n + 1) == Choose2(n) + n
  {
    assert (n + 1) * n == n * (n - 1) + 2 * n;
  }

  function Without(nodes: seq<NodeEntry>, devices: seq<DeviceEntry>): (r: seq<NodeEntry>)
    ensures |r| == |nodes| && forall k :: 0 <= k < |r| ==> r[k].id == nodes[k].id
    ensures ListsAgree(r, devices)
  {
    seq(|nodes|, k requires 0 <= k < |nodes| => nodes[k].(devices := DevicesOn(devices, nodes[k].id)))
  }

  lemma DevicesOfOneMore(devices: seq<DeviceEntry>, d: DeviceEntry)
    ensures forall n :: DevicesOn(devices + [d], n) == DevicesOn(devices, n) + if d.node == n then [d.id] else []
  {
    var more := devices + [d];
    assert more[..|more| - 1] == devices;
  }

  /** Only the node that got the device changes its term of the sum. */
  lemma {:induction false} SumOfOneMore(nodes: seq<NodeEntry>, devices: seq<DeviceEntry>, d: DeviceEntry)
    requires DistinctNodes(nodes)
    ensures PairSum(Without(nodes, devices + [d])) == PairSum(Without(nodes, devices))
                 + if NodeKnown(nodes, d.node) then |DevicesOn(devices, d.node)| else 0
    decreases |nodes|
  {
    hide DevicesOn, Choose2, PairSum, Without, NodeKnown;
    var more := devices + [d];
    if nodes == [] {
      NoNodes(devices, d);
    } else {
      var last := |nodes| - 1;
      SumOfOneMore(nodes[..last], devices, d);
      SumOfLast(nodes, devices);
      SumOfLast(nodes, more);
      DevicesOfOneMore(devices, d);
      KnownLast(nodes, d.node);
      Choose2Step(|DevicesOn(devices, d.node)|);
    }
  }

  lemma NoNodes(devices: seq<DeviceEntry>, d: DeviceEntry)
    ensures PairSum(Without([], devices)) == 0 && PairSum(Without([], devices + [d])) == 0 && !NodeKnown([], d.node)
  {
  }

  lemma SumOfLast(nodes: seq<NodeEntry>, devices: seq<DeviceEntry>)
    requires nodes != []
    ensures var last := |nodes| - 1;
            PairSum(Without(nodes, devices))
            == PairSum(Without(nodes[..last], devices)) + Choose2(|DevicesOn(devices, nodes[last].id)|)
  {
    hide Choose2, DevicesOn;
    var last := |nodes| - 1;
    assert Without(nodes, devices)[..last] == Without(nodes[..last], devices);
  }

  lemma KnownLast(nodes: seq<NodeEntry>, id: nat)
    requires nodes != [] && DistinctNodes(nodes)
    ensures var last := |nodes| - 1;
            if nodes[last].id == id then NodeKnown(nodes, id) && !NodeKnown(nodes[..last], id)
            else NodeKnown(nodes, id) <==> NodeKnown(nodes[..last], id)
  {
    var last := |nodes| - 1;
    assert nodes == nodes[..last] + [nodes[last]];
    if nodes[last].id != id && NodeKnown(nodes, id) {
      var k :| 0 <= k < |nodes| && nodes[k].id == id;
      assert nodes[..last][k].id == id;
    }
  }

  /** With nodes and table in agreement, the node-by-node sum counts the same-node pairs. */
  lemma {:induction false} PairSumCounts(nodes: seq<NodeEntry>, devices: seq<DeviceEntry>)
    requires DistinctNodes(nodes) && ListsAgree(nodes, devices) && DevicesPlaced(nodes, devices)
    ensures PairSum(nodes) == |SameNodePairs(devices)|
    decreases |devices|
  {
    assert nodes == Without(nodes, devices);
    if devices == [] {
      assert SameNodePairs(devices) == {};
      NoDevicesNoPairs(nodes);
    } else {
      var front, d := devices[..|devices| - 1], devices[|devices| - 1];
      assert devices == front + [d];
      PairSumCounts(Without(nodes, front), front) by {
        PlacedBefore(nodes, devices);
      }
      assert NodeKnown(nodes, d.node);
      SumOfOneMore(nodes, front, d);
      PairsOfOneMore(devices);
    }
  }

  lemma PlacedBefore(nodes: seq<NodeEntry>, devices: seq<DeviceEntry>)
    requires DevicesPlaced(nodes, devices) && devices != []
    ensures DevicesPlaced(Without(nodes, devices[..|devices| - 1]), devices[..|devices| - 1])
  {
    var front := devices[..|devices| - 1];
    forall i | 0 <= i < |front|
      ensures NodeKnown(Without(nodes, front), front[i].node)
    {
      var k :| 0 <= k < |nodes| && nodes[k].id == devices[i].node;
      assert Without(nodes, front)[k].id == front[i].node;
    }
  }

  lemma {:induction false} NoDevicesNoPairs(nodes: seq<NodeEntry>)
    requires ListsAgree(nodes, [])
    ensures PairSum(nodes) == 0
    decreases |nodes|
  {
    if nodes != [] {
      NoDevicesNoPairs(nodes[..|nodes| - 1]);
    }
  }

  // ---------------------------------------------------------------- the class

  /** NodeKnown for devices: node_of's search. */
  function NodeOf(devices: seq<DeviceEntry>, id: nat): Option<nat> {
    if devices == [] then None
    else if devices[0].id == id then Some(devices[0].node)
    else NodeOf(devices[1..], id)
  }

  predicate Connects(l: Link, a: nat, b: nat) {
    (l.sourceDevice == a && l.destDevice == b) || (l.sourceDevice == b && l.destDevice == a)
  }

  /** Ids are unique across nodes and devices, every device sits on a known node, and the node
      lists mirror the device table. */
  ghost predicate Consistent(nextId: nat, nodes: seq<NodeEntry>, devices: seq<DeviceEntry>) {
    && DistinctNodes(nodes)
    && (forall i, j :: 0 <= i < j < |devices| ==> devices[i].id != devices[j].id)
    && (forall k, i :: 0 <= k < |nodes| && 0 <= i < |devices| ==> nodes[k].id != devices[i].id)
    && 0 < nextId
    && (forall k :: 0 <= k < |nodes| ==> 0 < nodes[k].id < nextId)
    && (forall i :: 0 <= i < |devices| ==> 0 < devices[i].id < nextId)
    && ListsAgree(nodes, devices) && DevicesPlaced(nodes, devices)
  }

  lemma {:induction false} NothingOn(devices: seq<DeviceEntry>, id: nat)
    requires forall i :: 0 <= i < |devices| ==> devices[i].node != id
    ensures DevicesOn(devices, id) == []
    decreases |devices|
  {
    if devices != [] {
      NothingOn(devices[..|devices| - 1], id);
    }
  }

  lemma StillPlaced(nodes: seq<NodeEntry>, more: seq<NodeEntry>, devices: seq<DeviceEntry>)
    requires DevicesPlaced(nodes, devices)
    requires |nodes| <= |more| && forall k :: 0 <= k < |nodes| ==> more[k].id == nodes[k].id
    ensures DevicesPlaced(more, devices)
  {
    forall i | 0 <= i < |devices|
      ensures NodeKnown(more, devices[i].node)
    {
      var k :| 0 <= k < |nodes| && nodes[k].id == devices[i].node;
      assert more[k].id == devices[i].node;
    }
  }

  lemma NodeAdded(id: nat, nodes: seq<NodeEntry>, devices: seq<DeviceEntry>, hostName: string)
    requires Consistent(id, nodes, devices)
    ensures Consistent(id + 1, nodes + [NodeEntry(id, hostName, [])], devices)
  {
    hide DevicesOn;
    var more := nodes + [NodeEntry(id, hostName, [])];
    NowhereYet(id, nodes, devices);
    NothingOn(devices, id);
    StillPlaced(nodes, more, devices);
  }

  lemma NowhereYet(id: nat, nodes: seq<NodeEntry>, devices: seq<DeviceEntry>)
    requires DevicesPlaced(nodes, devices) && forall k :: 0 <= k < |nodes| ==> nodes[k].id < id
    ensures forall i :: 0 <= i < |devices| ==> devices[i].node != id
  {
    forall i | 0 <= i < |devices|
      ensures devices[i].node != id
    {
      assert NodeKnown(nodes, devices[i].node);
    }
  }

  function Extended(n: NodeEntry, node: nat, id: nat): NodeEntry {
    if n.id == node then n.(devices := n.devices + [id]) else n
  }

  lemma DeviceAdded(id: nat, nodes: seq<NodeEntry>, devices: seq<DeviceEntry>, more: seq<NodeEntry>, d: DeviceEntry)
    requires Consistent(id, nodes, devices) && d.id == id && NodeKnown(nodes, d.node)
    requires |more| == |nodes| && forall k :: 0 <= k < |nodes| ==> more[k] == Extended(nodes[k], d.node, id)
    ensures Consistent(id + 1, more, devices + [d])
  {
    hide DevicesOn, NodeKnown;
    ListsExtended(id, nodes, devices, more, d);
    PlacedExtended(nodes, devices, more, d);
    assert forall k :: 0 <= k < |more| ==> more[k].id == nodes[k].id;
  }

  lemma ListsExtended(id: nat, nodes: seq<NodeEntry>, devices: seq<DeviceEntry>, more: seq<NodeEntry>, d: DeviceEntry)
    requires ListsAgree(nodes, devices) && d.id == id && |more| == |nodes|
    requires forall k :: 0 <= k < |nodes| ==> more[k] == Extended(nodes[k], d.node, id)
    ensures ListsAgree(more, devices + [d])
  {
    var table := devices + [d];
    assert table[..|table| - 1] == devices;
  }

  lemma PlacedExtended(nodes: seq<NodeEntry>, devices: seq<DeviceEntry>, more: seq<NodeEntry>, d: DeviceEntry)
    requires DevicesPlaced(nodes, devices) && NodeKnown(nodes, d.node) && |more| == |nodes|
    requires forall k :: 0 <= k < |nodes| ==> more[k].id == nodes[k].id
    ensures DevicesPlaced(more, devices + [d])
  {
    var table := devices + [d];
    forall i | 0 <= i < |table|
      ensures NodeKnown(more, table[i].node)
    {
      assert NodeKnown(nodes, table[i].node) by {
        if i < |devices| {
          assert NodeKnown(nodes, devices[i].node);
        }
      }
      var k :| 0 <= k < |nodes| && nodes[k].id == table[i].node;
      assert more[k].id == table[i].node;
    }
  }

  class Topology {
    const generation: nat
    var nextId: nat
    var nodes: seq<NodeEntry>
    var devices: seq<DeviceEntry>
    var links: seq<Link>

    ghost predicate Valid()
      reads this
    {
      Consistent(nextId, nodes, devices)
    }

    constructor (generation: nat)
      ensures Valid() && nodes == [] && devices == [] && links == [] && this.generation == generation
    {
      this.generation := generation;
      nextId := 1;
      nodes, devices, links := [], [], [];
    }

    method AddNode(hostName: string) returns (id: nat)
      requires Valid()
      modifies this`nextId, this`nodes
      ensures Valid() && id == old(nextId) && nextId == id + 1
      ensures nodes == old(nodes) + [NodeEntry(id, hostName, [])]
    {
      id := nextId;
      nextId := nextId + 1;
      nodes := nodes + [NodeEntry(id, hostName, [])];
      NodeAdded(id, old(nodes), devices, hostName);
    }

    method AddDevice(node: nat, name: string, isCuda: bool, cc: nat) returns (r: Option<nat>)
      requires Valid()
      modifies this`nextId, this`nodes, this`devices
      ensures Valid() && (r.Some? <==> NodeKnown(old(nodes), node))
      ensures r.None? ==> nodes == old(nodes) && devices == old(devices) && nextId == old(nextId)
      ensures r.Some? ==> r.value == old(nextId) && nextId == r.value + 1
                          && devices == old(devices) + [DeviceEntry(r.value, node, name, isCuda, cc)]
                          && |nodes| == |old(nodes)|
                          && forall k :: 0 <= k < |nodes| ==> nodes[k] == Extended(old(nodes)[k], node, r.value)
    {
      var known := HasNode(node);
      if !known {
        return None;
      }
      var id := nextId;
      nextId := nextId + 1;
      devices := devices + [DeviceEntry(id, node, name, isCuda, cc)];
      ghost var table := devices;
      assert table[..|table| - 1] == old(devices);
      var i := 0;
      while i < |nodes|
        invariant 0 <= i <= |nodes| == |old(nodes)|
        invariant devices == table && nextId == id + 1
        invariant forall k :: 0 <= k < i ==> nodes[k] == Extended(old(nodes)[k], node, id)
        invariant forall k :: i <= k < |nodes| ==> nodes[k] == old(nodes)[k]
      {
        if nodes[i].id == node {
          nodes := nodes[i := nodes[i].(devices := nodes[i].devices + [id])];
        }
        i := i + 1;
      }
      DeviceAdded(id, old(nodes), old(devices), nodes, table[|table| - 1]);
      r := Some(id);
    }

    method HasNode(id: nat) returns (b: bool)
      ensures b <==> NodeKnown(nodes, id)
    {
      for i := 0 to |nodes|
        invariant forall k :: 0 <= k < i ==> nodes[k].id != id
      {
        if nodes[i].id == id {
          return true;
        }
      }
      b := false;
    }

    method HasDevice(id: nat) returns (b: bool)
      ensures b <==> exists k :: 0 <= k < |devices| && devices[k].id == id
    {
      for i := 0 to |devices|
        invariant forall k :: 0 <= k < i ==> devices[k].id != id
      {
        if devices[i].id == id {
          return true;
        }
      }
      b := false;
    }

    method AddLink(link: Link) returns (ok: bool)
      requires Valid()
      modifies this`links
      ensures ok <==> NodeKnown(nodes, link.sourceNode) && NodeKnown(nodes, link.destNode)
                      && NodeOf(devices, link.sourceDevice).Some? && NodeOf(devices, link.destDevice).Some?
      ensures links == if ok then old(links) + [link.(generation := this.generation)] else old(links)
    {
      var a := HasNode(link.sourceNode);
      var b := HasNode(link.destNode);
      if !a || !b {
        return false;
      }
      a := HasDevice(link.sourceDevice);
      b := HasDevice(link.destDevice);
      NodeOfFinds(devices, link.sourceDevice);
      NodeOfFinds(devices, link.destDevice);
      if !a || !b {
        return false;
      }
      links := links + [link.(generation := this.generation)];
      ok := true;
    }

    /** The number of unordered device pairs that share a node. */
    method IntraNodeDevicePairs() returns (count: nat)
      requires Valid()
      ensures count == |SameNodePairs(devices)|
    {
      count := 0;
      for i := 0 to |nodes|
        invariant count == PairSum(nodes[..i])
      {
        var d := |nodes[i].devices|;
        assert nodes[..i + 1][..i] == nodes[..i];
        count := count + d * (d - 1) / 2;
      }
      assert nodes[..|nodes|] == nodes;
      PairSumCounts(nodes, devices);
    }

    /** INTRA_PROCESS on one node; otherwise the most local class among the connecting links. */
    method LocalityBetween(a: nat, b: nat) returns (best: Option<LinkClass>)
      ensures var na, nb := NodeOf(devices, a), NodeOf(devices, b);
              if na.Some? && na == nb then best == Some(IntraProcess)
              else
                (best.None? <==> forall k :: 0 <= k < |links| ==> !Connects(links[k], a, b))
                && (best.Some? ==>
                      (exists k :: 0 <= k < |links| && Connects(links[k], a, b) && links[k].linkClass == best.value)
                      && (forall k :: 0 <= k < |links| && Connects(links[k], a, b)
                            ==> Locality(best.value) <= Locality(links[k].linkClass)))
    {
      var na, nb := NodeOf(devices, a), NodeOf(devices, b);
      if na.Some? && na == nb {
        return Some(IntraProcess);
      }
      best := None;
      for i := 0 to |links|
        invariant best.None? <==> forall k :: 0 <= k < i ==> !Connects(links[k], a, b)
        invariant best.Some? ==> exists k :: 0 <= k < i && Connects(links[k], a, b) && links[k].linkClass == best.value
        invariant best.Some? ==> forall k :: 0 <= k < i && Connects(links[k], a, b)
                                   ==> Locality(best.value) <= Locality(links[k].linkClass)
      {
        if Connects(links[i], a, b) && (best.None? || Locality(links[i].linkClass) < Locality(best.value)) {
          best := Some(links[i].linkClass);
        }
      }
    }

    /** The first connecting link alone is asked. */
    method LinkBetween(a: nat, b: nat) returns (c: Option<Capability>)
      ensures c == FirstOffer(links, a, b)
    {
      for i := 0 to |links|
        invariant FirstOffer(links, a, b) == FirstOffer(links[i..], a, b)
      {
        assert links[i..][0] == links[i] && links[i..][1..] == links[i + 1..];
        if Connects(links[i], a, b) {
          if links[i].measured.Known() {
            return Some(links[i].measured);
          }
          if links[i].nominal.Known() {
            return Some(links[i].nominal);
          }
          return Some(Capability(None, None));
        }
      }
      c := None;
    }
  }

  // ---------------------------------------------------------------- searches

  /** The link classes, most local first. */
  const BY_LOCALITY: seq<LinkClass> :=
    [IntraProcess, SharedMemory, HostMemory, NvlinkClass, RdmaClass, Pcie, Network, UnknownLink]

  lemma LocalityIsPosition(c: LinkClass)
    ensures Locality(c) < |BY_LOCALITY| && BY_LOCALITY[Locality(c)] == c
  {
  }

  /** On consistent tables a device is found on the node it was added to. */
  lemma {:induction false} NodeOfDevice(devices: seq<DeviceEntry>, i: nat)
    requires i < |devices| && forall j, k :: 0 <= j < k < |devices| ==> devices[j].id != devices[k].id
    ensures NodeOf(devices, devices[i].id) == Some(devices[i].node)
    decreases |devices|
  {
    if i > 0 {
      NodeOfDevice(devices[1..], i - 1);
    }
  }

  /** Links have no direction. */
  lemma {:induction false} OfferSymmetric(links: seq<Link>, a: nat, b: nat)
    ensures FirstOffer(links, a, b) == FirstOffer(links, b, a)
    decreases |links|
  {
    if links != [] {
      OfferSymmetric(links[1..], a, b);
    }
  }

  /** A link is found between its two devices, in either order, and between no others. */
  lemma LinkJoins(l: Link, a: nat, b: nat)
    ensures FirstOffer([l], a, b).Some? <==> {a, b} == {l.sourceDevice, l.destDevice}
    ensures FirstOffer([l], l.destDevice, l.sourceDevice) ==
            Some(if l.measured.bandwidth.Some? || l.measured.latency.Some? then l.measured
                 else if l.nominal.bandwidth.Some? || l.nominal.latency.Some? then l.nominal
                 else Capability(None, None))
  {
    assert {a, b} == {l.sourceDevice, l.destDevice} <==> Connects(l, a, b) by {
      if {a, b} == {l.sourceDevice, l.destDevice} {
        assert a in {l.sourceDevice, l.destDevice} && b in {l.sourceDevice, l.destDevice};
        assert l.sourceDevice in {a, b} && l.destDevice in {a, b};
      }
    }
  }

  // ---------------------------------------------------------------- the best known link

  /** What one link has to offer: its measured capability, else its nominal one, else nothing. */
  function Offer(l: Link): Capability {
    if l.measured.Known() then l.measured else if l.nominal.Known() then l.nominal else Capability(None, None)
  }

  function FirstOffer(links: seq<Link>, a: nat, b: nat): Option<Capability> {
    if links == [] then None
    else if Connects(links[0], a, b) then Some(Offer(links[0]))
    else FirstOffer(links[1..], a, b)
  }

  predicate Measures(l: Link, a: nat, b: nat) { Connects(l, a, b) && l.measured.Known() }

  predicate Quotes(l: Link, a: nat, b: nat) { Connects(l, a, b) && l.nominal.Known() }

  /** The documented promise: the measured capability of some connecting link if any has one, else
      the nominal capability of some connecting link if any has one. */
  ghost predicate BestKnown(links: seq<Link>, a: nat, b: nat, c: Option<Capability>) {
    if exists k :: 0 <= k < |links| && Measures(links[k], a, b) then
      exists k :: 0 <= k < |links| && Measures(links[k], a, b) && c == Some(links[k].measured)
    else if exists k :: 0 <= k < |links| && Quotes(links[k], a, b) then
      exists k :: 0 <= k < |links| && Quotes(links[k], a, b) && c == Some(links[k].nominal)
    else c.Some? ==> !c.value.Known()
  }

  /** The first connecting link. */
  ghost predicate IsFirst(links: seq<Link>, a: nat, b: nat, f: nat) {
    f < |links| && Connects(links[f], a, b) && forall k :: 0 <= k < f ==> !Connects(links[k], a, b)
  }

  lemma {:induction false} FirstOfferIs(links: seq<Link>, a: nat, b: nat, f: nat)
    requires IsFirst(links, a, b, f)
    ensures FirstOffer(links, a, b) == Some(Offer(links[f]))
  {
    if f > 0 {
      var rest := links[1..];
      assert !Connects(links[0], a, b);
      forall k | 0 <= k < f - 1
        ensures !Connects(rest[k], a, b)
      {
        assert rest[k] == links[k + 1];
      }
      FirstOfferIs(rest, a, b, f - 1);
    }
  }

  lemma {:induction false} NoOffer(links: seq<Link>, a: nat, b: nat)
    requires forall k :: 0 <= k < |links| ==> !Connects(links[k], a, b)
    ensures FirstOffer(links, a, b) == None
  {
    if links != [] {
      assert !Connects(links[0], a, b);
      forall k | 0 <= k < |links[1..]|
        ensures !Connects(links[1..][k], a, b)
      {
        assert links[1..][k] == links[k + 1];
      }
      NoOffer(links[1..], a, b);
    }
  }

  /** A later connecting link has something better than the first: a measurement where the first has
      none (other than what the first already quotes), or a quotation where the first has nothing. */
  ghost predicate Outdone(links: seq<Link>, a: nat, b: nat, f: nat)
    requires f < |links|
  {
    var first := links[f];
    if first.measured.Known() then false
    else if first.nominal.Known() then
      && (exists k :: f < k < |links| && Measures(links[k], a, b))
      && forall k :: f < k < |links| && Measures(links[k], a, b) ==> links[k].measured != first.nominal
    else exists k :: f < k < |links| && (Measures(links[k], a, b) || Quotes(links[k], a, b))
  }

  /** The promise is kept if and only if no later connecting link outdoes the first one. */
  lemma BestKnownIff(links: seq<Link>, a: nat, b: nat, f: nat)
    requires IsFirst(links, a, b, f)
    ensures BestKnown(links, a, b, FirstOffer(links, a, b)) <==> !Outdone(links, a, b, f)
  {
    hide FirstOffer;
    FirstOfferIs(links, a, b, f);
    forall k | 0 <= k < |links| && (Measures(links[k], a, b) || Quotes(links[k], a, b))
      ensures k >= f
    {
    }
    if links[f].measured.Known() {
      assert Measures(links[f], a, b);
    } else if links[f].nominal.Known() {
      assert Quotes(links[f], a, b);
    }
  }

  /** With no connecting link at all the answer is none, as promised. */
  lemma NoLinkNoOffer(links: seq<Link>, a: nat, b: nat)
    requires forall k :: 0 <= k < |links| ==> !Connects(links[k], a, b)
    ensures FirstOffer(links, a, b) == None && BestKnown(links, a, b, None)
  {
    NoOffer(links, a, b);
  }

  const NOTHING := Capability(None, None)

  /** Two links between devices 3 and 4 of nodes 1 and 2: the first quotes, the second measures. */
  const TWO_LINKS := [
    Link(1, 2, 3, 4, Network, Capability(Some(100), None), NOTHING, 1),
    Link(1, 2, 3, 4, Network, NOTHING, Capability(Some(80), None), 1)]

  /** The measured link is passed over. */
  lemma MeasuredLinkPassedOver()
    ensures FirstOffer(TWO_LINKS, 3, 4) == Some(Capability(Some(100), None))
    ensures !BestKnown(TWO_LINKS, 3, 4, FirstOffer(TWO_LINKS, 3, 4))
  {
    assert Measures(TWO_LINKS[1], 3, 4);
    assert IsFirst(TWO_LINKS, 3, 4, 0);
    BestKnownIff(TWO_LINKS, 3, 4, 0);
  }

  lemma {:induction false} NodeOfFinds(ds: seq<DeviceEntry>, id: nat)
    ensures NodeOf(ds, id).Some? <==> exists k :: 0 <= k < |ds| && ds[k].id == id
    decreases |ds|
  {
    if ds != [] && ds[0].id != id {
      NodeOfFinds(ds[1..], id);
      if k :| 0 <= k < |ds| && ds[k].id == id {
        assert ds[1..][k - 1].id == id;
      }
    }
  }
}
