/**
 * The network map of server/topology.go, from decoded device records: reported links, links inferred
 * from addresses seen on ports, invented nodes, gateway folding, deduplication and pruning.
 */
module Topology {
  import opened Optional

  type Mac = string

  datatype Uplink = Uplink(peer: Mac, remotePort: int, localPort: int, speed: int, peerName: string)

  datatype Neighbour = Neighbour(peer: Mac, port: int)

  datatype Sighting = Sighting(peer: Mac, port: int, speed: int)

  /** One entry of the controller's list; an empty mac or gateway is one the record does not carry. */
  datatype Device = Device(
    mac: Mac, name: string, model: string, kind: string, ip: string, up: bool, gateway: Mac,
    uplink: Option<Uplink>, lldp: seq<Neighbour>, ports: seq<Sighting>)

  datatype Node = Node(
    mac: Mac, name: string, model: string, kind: string, ip: string, up: bool, leaves: int, checkID: string)

  datatype Evidence = ByUplink | ByLldp | Seen

  datatype Edge = Edge(from: Mac, to: Mac, fromPort: int, toPort: int, speed: int, source: Evidence)

  datatype TopologyMap = TopologyMap(nodes: seq<Node>, edges: seq<Edge>, root: Mac)

  type Port = (Mac, int)

  // ---------------------------------------------------------------- what the records say

  predicate HasUplink(d: Device) {
    d.mac != "" && d.uplink.Some? && d.uplink.value.peer != "" && d.uplink.value.peer != d.mac
  }

  predicate NamesPeer(d: Device) {
    HasUplink(d) && d.uplink.value.peerName != ""
  }

  function Listed(ds: seq<Device>): set<Mac> {
    set d | d in ds && d.mac != "" :: d.mac
  }

  function NamedPeers(ds: seq<Device>): set<Mac> {
    set d | d in ds && NamesPeer(d) :: d.uplink.value.peer
  }

  /** Everything the controller itself has a record or a name for. */
  function Known(ds: seq<Device>): set<Mac> {
    Listed(ds) + NamedPeers(ds)
  }

  function LldpEdges(d: Device, n: nat): seq<Edge>
    requires n <= |d.lldp|
  {
    if n == 0 then []
    else
      var l := d.lldp[n - 1];
      LldpEdges(d, n - 1) +
      (if l.peer == "" || l.peer == d.mac then [] else [Edge(d.mac, l.peer, l.port, 0, 0, ByLldp)])
  }

  function SightedEdges(d: Device, n: nat): seq<Edge>
    requires n <= |d.ports|
  {
    if n == 0 then []
    else
      var p := d.ports[n - 1];
      SightedEdges(d, n - 1) +
      (if p.peer == "" || p.peer == d.mac then [] else [Edge(d.mac, p.peer, p.port, 0, p.speed, Seen)])
  }

  function UplinkEdges(d: Device): seq<Edge> {
    if HasUplink(d) then
      var u := d.uplink.value;
      [Edge(u.peer, d.mac, u.remotePort, u.localPort, u.speed, ByUplink)]
    else []
  }

  /** The links the devices report themselves, in the order read. */
  function Reported(ds: seq<Device>): seq<Edge> {
    if ds == [] then []
    else
      var d := ds[|ds| - 1];
      Reported(ds[..|ds| - 1]) + if d.mac == "" then [] else UplinkEdges(d) + LldpEdges(d, |d.lldp|)
  }

  /** The addresses seen on ports, in the order read. */
  function Sighted(ds: seq<Device>): seq<Edge> {
    if ds == [] then []
    else
      var d := ds[|ds| - 1];
      Sighted(ds[..|ds| - 1]) + if d.mac == "" then [] else SightedEdges(d, |d.ports|)
  }

  /** How many devices name g as their way out. */
  function Votes(ds: seq<Device>, g: Mac): nat {
    if ds == [] then 0
    else
      var d := ds[|ds| - 1];
      Votes(ds[..|ds| - 1], g) + if d.mac != "" && d.gateway != "" && d.gateway == g then 1 else 0
  }

  function FirstNonEmpty(a: string, b: string, c: string): string {
    if a != "" then a else if b != "" then b else c
  }

  function DeviceNode(d: Device): Node {
    Node(d.mac, FirstNonEmpty(d.name, d.model, d.mac), d.model, d.kind, d.ip, d.up, 0, "")
  }

  function PeerNode(u: Uplink): Node {
    Node(u.peer, u.peerName, "", "switch", "", true, 0, "")
  }

  function WithDevice(nodes: map<Mac, Node>, d: Device): map<Mac, Node> {
    var after := nodes[d.mac := DeviceNode(d)];
    if NamesPeer(d) && d.uplink.value.peer !in after
    then after[d.uplink.value.peer := PeerNode(d.uplink.value)] else after
  }

  function KnownNodes(ds: seq<Device>): map<Mac, Node> {
    if ds == [] then map[]
    else
      var d := ds[|ds| - 1];
      var before := KnownNodes(ds[..|ds| - 1]);
      if d.mac == "" then before else WithDevice(before, d)
  }

  /** The records are consistent with each other: every key is its node's address, nothing counted yet. */
  predicate Keyed(nodes: map<Mac, Node>) {
    forall m :: m in nodes ==> nodes[m].mac == m
  }

  lemma OneMoreDevice(ds: seq<Device>)
    requires ds != []
    ensures var pre, d := ds[..|ds| - 1], ds[|ds| - 1];
            && Listed(ds) == Listed(pre) + (if d.mac != "" then {d.mac} else {})
            && NamedPeers(ds) == NamedPeers(pre) + (if NamesPeer(d) then {d.uplink.value.peer} else {})
  {
    var pre, d := ds[..|ds| - 1], ds[|ds| - 1];
    assert forall e :: e in ds <==> e in pre || e == d;
  }

  lemma WithDeviceKeepsKeyed(nodes: map<Mac, Node>, d: Device)
    requires Keyed(nodes) && (forall m :: m in nodes ==> nodes[m].leaves == 0) && d.mac != ""
    ensures var after := WithDevice(nodes, d);
            && Keyed(after) && (forall m :: m in after ==> after[m].leaves == 0)
            && after.Keys == nodes.Keys + {d.mac} + (if NamesPeer(d) then {d.uplink.value.peer} else {})
  {
  }

  lemma {:induction false} KnownNodesAreKnown(ds: seq<Device>)
    ensures KnownNodes(ds).Keys == Known(ds) && Keyed(KnownNodes(ds))
    ensures forall m :: m in KnownNodes(ds) ==> KnownNodes(ds)[m].leaves == 0
  {
    if ds != [] {
      var pre, d := ds[..|ds| - 1], ds[|ds| - 1];
      KnownNodesAreKnown(pre);
      OneMoreDevice(ds);
      if d.mac != "" {
        WithDeviceKeepsKeyed(KnownNodes(pre), d);
      }
    }
  }

  /** Reported links start or end at a listed device and never loop; sightings start at one. */
  predicate FromRecords(e: Edge, listed: set<Mac>) {
    && e.from != e.to && e.from != "" && e.to != ""
    && (e.from in listed || e.to in listed)
    && (e.source == Seen ==> e.from in listed && e.toPort == 0)
  }

  lemma {:induction false} LldpFromRecords(d: Device, n: nat)
    requires n <= |d.lldp| && d.mac != ""
    ensures forall e :: e in LldpEdges(d, n) ==> FromRecords(e, {d.mac}) && e.source != Seen
  {
    if n > 0 { LldpFromRecords(d, n - 1); }
  }

  lemma {:induction false} SightingsFromRecords(d: Device, n: nat)
    requires n <= |d.ports| && d.mac != ""
    ensures forall e :: e in SightedEdges(d, n) ==> FromRecords(e, {d.mac}) && e.source == Seen
  {
    if n > 0 { SightingsFromRecords(d, n - 1); }
  }

  lemma {:induction false} LinksFromRecords(ds: seq<Device>)
    ensures forall e :: e in Reported(ds) ==> FromRecords(e, Listed(ds)) && e.source != Seen
    ensures forall e :: e in Sighted(ds) ==> FromRecords(e, Listed(ds)) && e.source == Seen
  {
    if ds != [] {
      var pre, d := ds[..|ds| - 1], ds[|ds| - 1];
      LinksFromRecords(pre);
      OneMoreDevice(ds);
      if d.mac != "" {
        LldpFromRecords(d, |d.lldp|);
        SightingsFromRecords(d, |d.ports|);
      }
    }
  }

  // ---------------------------------------------------------------- reading the records

  method ReadDevices(ds: seq<Device>)
    returns (nodes: map<Mac, Node>, edges: seq<Edge>, seen: seq<Edge>, gateways: map<Mac, nat>)
    ensures nodes == KnownNodes(ds) && edges == Reported(ds) && seen == Sighted(ds)
    ensures Counted(gateways, ds)
  {
    nodes, edges, seen, gateways := map[], [], [], map[];
    for i := 0 to |ds|
      invariant nodes == KnownNodes(ds[..i]) && edges == Reported(ds[..i]) && seen == Sighted(ds[..i])
      invariant Counted(gateways, ds[..i])
    {
      OneMoreRecord(ds[..i], ds[i]);
      if ds[i].mac != "" {
        nodes, edges, seen := ReadDevice(ds[i], nodes, edges, seen);
      }
      gateways := CountVote(gateways, ds[..i], ds[i]);
      assert ds[..i] + [ds[i]] == ds[..i + 1];
    }
    assert ds[..|ds|] == ds;
  }

  lemma OneMoreRecord(ds: seq<Device>, d: Device)
    ensures d.mac == "" ==> KnownNodes(ds + [d]) == KnownNodes(ds)
                            && Reported(ds + [d]) == Reported(ds) && Sighted(ds + [d]) == Sighted(ds)
    ensures d.mac != "" ==>
              && KnownNodes(ds + [d]) == WithDevice(KnownNodes(ds), d)
              && Reported(ds + [d]) == Reported(ds) + (UplinkEdges(d) + LldpEdges(d, |d.lldp|))
              && Sighted(ds + [d]) == Sighted(ds) + SightedEdges(d, |d.ports|)
  {
    assert (ds + [d])[..|ds|] == ds;
  }

  ghost predicate Counted(gateways: map<Mac, nat>, ds: seq<Device>) {
    forall g :: if g in gateways then gateways[g] == Votes(ds, g) > 0 else Votes(ds, g) == 0
  }

  method CountVote(before: map<Mac, nat>, ghost ds: seq<Device>, d: Device) returns (gateways: map<Mac, nat>)
    requires Counted(before, ds)
    ensures Counted(gateways, ds + [d])
  {
    assert (ds + [d])[..|ds|] == ds;
    gateways := before;
    if d.mac != "" && d.gateway != "" {
      var g := d.gateway;
      gateways := gateways[g := (if g in gateways then gateways[g] else 0) + 1];
    }
  }

  method ReadDevice(d: Device, nodes0: map<Mac, Node>, edges0: seq<Edge>, seen0: seq<Edge>)
    returns (nodes: map<Mac, Node>, edges: seq<Edge>, seen: seq<Edge>)
    requires d.mac != ""
    ensures nodes == WithDevice(nodes0, d)
    ensures edges == edges0 + (UplinkEdges(d) + LldpEdges(d, |d.lldp|))
    ensures seen == seen0 + SightedEdges(d, |d.ports|)
  {
    edges := edges0;
    nodes := nodes0[d.mac := DeviceNode(d)];
    if d.uplink.Some? && d.uplink.value.peer != "" && d.uplink.value.peer != d.mac {
      var u := d.uplink.value;
      edges := edges + [Edge(u.peer, d.mac, u.remotePort, u.localPort, u.speed, ByUplink)];
      if u.peerName != "" {
        if u.peer !in nodes {
          nodes := nodes[u.peer := PeerNode(u)];
        }
      }
    }
    edges := ReadNeighbours(d, edges);
    seen := ReadPorts(d, seen0);
  }

  method ReadNeighbours(d: Device, before: seq<Edge>) returns (edges: seq<Edge>)
    ensures edges == before + LldpEdges(d, |d.lldp|)
  {
    edges := before;
    for j := 0 to |d.lldp|
      invariant edges == before + LldpEdges(d, j)
    {
      var l := d.lldp[j];
      if l.peer != "" && l.peer != d.mac {
        edges := edges + [Edge(d.mac, l.peer, l.port, 0, 0, ByLldp)];
      }
    }
  }

  method ReadPorts(d: Device, before: seq<Edge>) returns (seen: seq<Edge>)
    ensures seen == before + SightedEdges(d, |d.ports|)
  {
    seen := before;
    for j := 0 to |d.ports|
      invariant seen == before + SightedEdges(d, j)
    {
      var p := d.ports[j];
      if p.peer != "" && p.peer != d.mac {
        seen := seen + [Edge(d.mac, p.peer, p.port, 0, p.speed, Seen)];
      }
    }
  }

  // ---------------------------------------------------------------- what each sighting means

  /** The ports that carry one of these links. */
  function Transit(edges: seq<Edge>): set<Port> {
    (set e | e in edges && e.fromPort > 0 :: (e.from, e.fromPort)) +
    (set e | e in edges && e.toPort > 0 :: (e.to, e.toPort))
  }

  function Ends(edges: seq<Edge>): set<Mac> {
    (set e | e in edges :: e.from) + (set e | e in edges :: e.to)
  }

  function Targets(edges: seq<Edge>): set<Mac> {
    set e | e in edges :: e.to
  }

  /** What is known when the sightings are sorted out. */
  datatype Facts = Facts(transit: set<Port>, attached: set<Mac>, known: set<Mac>, exits: set<Mac>)

  /** Seen where it is attached: not in transit on the port, and not attached by a reported link. */
  predicate Local(e: Edge, f: Facts) {
    (e.from, e.fromPort) !in f.transit && e.to !in f.attached
  }

  /** A device of the map, or a way out. */
  predicate Placed(e: Edge, f: Facts) {
    e.to in f.known || e.to in f.exits
  }

  /** The first local sighting of each placed address becomes its link. */
  function Claimed(seen: seq<Edge>, f: Facts): seq<Edge> {
    if seen == [] then []
    else
      var before, e := Claimed(seen[..|seen| - 1], f), seen[|seen| - 1];
      before + if Local(e, f) && Placed(e, f) && e.to !in Targets(before) then [e] else []
  }

  function Unclaimed(seen: seq<Edge>, f: Facts): seq<Edge> {
    if seen == [] then []
    else
      var e := seen[|seen| - 1];
      Unclaimed(seen[..|seen| - 1], f) + if Local(e, f) && !Placed(e, f) then [e] else []
  }

  /** How many of these sightings were made by m. */
  function SeenBy(edges: seq<Edge>, m: Mac): nat {
    if edges == [] then 0
    else SeenBy(edges[..|edges| - 1], m) + if edges[|edges| - 1].from == m then 1 else 0
  }

  function WithLeaves(nodes: map<Mac, Node>, unclaimed: seq<Edge>): map<Mac, Node> {
    map m | m in nodes :: nodes[m].(leaves := nodes[m].leaves + SeenBy(unclaimed, m))
  }

  lemma {:induction false} ClaimedAreLinks(seen: seq<Edge>, f: Facts)
    ensures forall e :: e in Claimed(seen, f) ==> e in seen && Local(e, f) && Placed(e, f)
    ensures forall e :: e in Unclaimed(seen, f) ==> e in seen && Local(e, f) && !Placed(e, f)
    ensures forall i, j :: 0 <= i < j < |Claimed(seen, f)| ==> Claimed(seen, f)[i].to != Claimed(seen, f)[j].to
    ensures forall e :: e in seen && Local(e, f) ==>
              if Placed(e, f) then e.to in Targets(Claimed(seen, f)) else e in Unclaimed(seen, f)
  {
    if seen != [] {
      var pre, e := seen[..|seen| - 1], seen[|seen| - 1];
      ClaimedAreLinks(pre, f);
      assert forall x :: x in seen <==> x in pre || x == e;
      var before, now := Claimed(pre, f), Claimed(seen, f);
      assert forall i :: 0 <= i < |before| ==> before[i] in before;
      assert Targets(before) <= Targets(now) by { assert forall x :: x in before ==> x in now; }
      if Local(e, f) && Placed(e, f) && e.to !in Targets(before) {
        assert now == before + [e] && e in now;
      }
    }
  }

  method FindTransit(edges: seq<Edge>) returns (transit: set<Port>, attached: set<Mac>)
    ensures transit == Transit(edges) && attached == Ends(edges)
  {
    transit, attached := {}, {};
    for i := 0 to |edges|
      invariant transit == Transit(edges[..i]) && attached == Ends(edges[..i])
    {
      var e := edges[i];
      OneMoreTransit(edges, i);
      if e.fromPort > 0 {
        transit := transit + {(e.from, e.fromPort)};
      }
      if e.toPort > 0 {
        transit := transit + {(e.to, e.toPort)};
      }
      attached := attached + {e.from, e.to};
    }
    assert edges[..|edges|] == edges;
  }

  lemma OneMoreTransit(edges: seq<Edge>, i: nat)
    requires i < |edges|
    ensures var e := edges[i];
            && Transit(edges[..i + 1]) == Transit(edges[..i])
                 + (if e.fromPort > 0 then {(e.from, e.fromPort)} else {})
                 + (if e.toPort > 0 then {(e.to, e.toPort)} else {})
            && Ends(edges[..i + 1]) == Ends(edges[..i]) + {e.from, e.to}
  {
    assert forall x :: x in edges[..i + 1] <==> x in edges[..i] || x == edges[i];
  }

  lemma OneMoreSighting(done: seq<Edge>, e: Edge, f: Facts)
    ensures var before := Claimed(done, f);
            && Claimed(done + [e], f)
               == before + (if Local(e, f) && Placed(e, f) && e.to !in Targets(before) then [e] else [])
            && Unclaimed(done + [e], f)
               == Unclaimed(done, f) + (if Local(e, f) && !Placed(e, f) then [e] else [])
            && (forall t :: t in Targets(before) ==> t in f.known || t in f.exits)
            && Targets(before + [e]) == Targets(before) + {e.to}
  {
    assert (done + [e])[..|done|] == done;
    ClaimedAreLinks(done, f);
    var before := Claimed(done, f);
    assert forall x :: x in before + [e] <==> x in before || x == e;
  }

  lemma OneMoreLeaf(nodes: map<Mac, Node>, unclaimed: seq<Edge>, e: Edge)
    ensures var before := WithLeaves(nodes, unclaimed);
            WithLeaves(nodes, unclaimed + [e]) == LeafCounted(before, e.from)
  {
    assert (unclaimed + [e])[..|unclaimed|] == unclaimed;
  }

  function LeafCounted(nodes: map<Mac, Node>, m: Mac): map<Mac, Node> {
    if m in nodes then nodes[m := nodes[m].(leaves := nodes[m].leaves + 1)] else nodes
  }

  method ClaimSightings(nodes0: map<Mac, Node>, reported: seq<Edge>, seen: seq<Edge>, gateways: map<Mac, nat>)
    returns (nodes: map<Mac, Node>, edges: seq<Edge>, unclaimed: seq<Edge>)
    requires forall g :: g in gateways ==> gateways[g] > 0
    ensures var f := Facts(Transit(reported), Ends(reported), nodes0.Keys, gateways.Keys);
            && edges == reported + Claimed(seen, f)
            && unclaimed == Unclaimed(seen, f)
            && nodes == WithLeaves(nodes0, unclaimed)
  {
    var transit, attached := FindTransit(reported);
    ghost var f := Facts(transit, attached, nodes0.Keys, gateways.Keys);
    nodes, edges, unclaimed := nodes0, reported, [];
    assert nodes == WithLeaves(nodes0, []);
    for i := 0 to |seen|
      invariant Sorted(nodes0, reported, seen[..i], f, nodes, edges, unclaimed, attached)
    {
      assert seen[..i] + [seen[i]] == seen[..i + 1];
      nodes, edges, unclaimed, attached :=
        SortSighting(nodes0, reported, seen[..i], f, nodes, edges, unclaimed, attached, transit, gateways, seen[i]);
    }
    assert seen[..|seen|] == seen;
  }

  /** These sightings have been sorted into links, leaves and transit. */
  ghost predicate Sorted(nodes0: map<Mac, Node>, reported: seq<Edge>, done: seq<Edge>, f: Facts,
                         nodes: map<Mac, Node>, edges: seq<Edge>, unclaimed: seq<Edge>, attached: set<Mac>)
  {
    && edges == reported + Claimed(done, f) && unclaimed == Unclaimed(done, f)
    && attached == f.attached + Targets(Claimed(done, f))
    && nodes == WithLeaves(nodes0, unclaimed)
  }

  /** The body of the loop over the sightings. */
  method SortSighting(ghost nodes0: map<Mac, Node>, ghost reported: seq<Edge>, ghost done: seq<Edge>, ghost f: Facts,
                      nodes1: map<Mac, Node>, edges1: seq<Edge>, unclaimed1: seq<Edge>, attached1: set<Mac>,
                      transit: set<Port>, gateways: map<Mac, nat>, e: Edge)
    returns (nodes: map<Mac, Node>, edges: seq<Edge>, unclaimed: seq<Edge>, attached: set<Mac>)
    requires f.transit == transit && f.known == nodes0.Keys && f.exits == gateways.Keys
    requires forall g :: g in gateways ==> gateways[g] > 0
    requires Sorted(nodes0, reported, done, f, nodes1, edges1, unclaimed1, attached1)
    ensures Sorted(nodes0, reported, done + [e], f, nodes, edges, unclaimed, attached)
  {
    nodes, edges, unclaimed, attached := nodes1, edges1, unclaimed1, attached1;
    KeysStay(nodes0, unclaimed);
    if (e.from, e.fromPort) in transit {
      SortedPassing(nodes0, reported, done, f, nodes, edges, unclaimed, attached, e);
      return;
    }
    if e.to in attached {
      SortedPassing(nodes0, reported, done, f, nodes, edges, unclaimed, attached, e);
      return;
    }
    if e.to in nodes || (e.to in gateways && gateways[e.to] > 0) {
      SortedClaim(nodes0, reported, done, f, nodes, edges, unclaimed, attached, e);
      edges := edges + [e];
      attached := attached + {e.to};
      return;
    }
    SortedLeaf(nodes0, reported, done, f, nodes, edges, unclaimed, attached, e);
    nodes := CountLeaf(nodes, e.from);
    unclaimed := unclaimed + [e];
  }

  lemma KeysStay(nodes: map<Mac, Node>, unclaimed: seq<Edge>)
    ensures WithLeaves(nodes, unclaimed).Keys == nodes.Keys
  {
  }

  /** A sighting of transit, or of something attached already, changes nothing. */
  lemma SortedPassing(nodes0: map<Mac, Node>, reported: seq<Edge>, done: seq<Edge>, f: Facts,
                      nodes: map<Mac, Node>, edges: seq<Edge>, unclaimed: seq<Edge>, attached: set<Mac>, e: Edge)
    requires Sorted(nodes0, reported, done, f, nodes, edges, unclaimed, attached)
    requires (e.from, e.fromPort) in f.transit || e.to in attached
    ensures Sorted(nodes0, reported, done + [e], f, nodes, edges, unclaimed, attached)
  {
    OneMoreSighting(done, e, f);
  }

  /** The first sighting of a known address becomes a link. */
  lemma SortedClaim(nodes0: map<Mac, Node>, reported: seq<Edge>, done: seq<Edge>, f: Facts,
                    nodes: map<Mac, Node>, edges: seq<Edge>, unclaimed: seq<Edge>, attached: set<Mac>, e: Edge)
    requires Sorted(nodes0, reported, done, f, nodes, edges, unclaimed, attached)
    requires (e.from, e.fromPort) !in f.transit && e.to !in attached && Placed(e, f)
    ensures Sorted(nodes0, reported, done + [e], f, nodes, edges + [e], unclaimed, attached + {e.to})
  {
    OneMoreSighting(done, e, f);
  }

  /** Any other sighting is a leaf of the device that made it. */
  lemma SortedLeaf(nodes0: map<Mac, Node>, reported: seq<Edge>, done: seq<Edge>, f: Facts,
                   nodes: map<Mac, Node>, edges: seq<Edge>, unclaimed: seq<Edge>, attached: set<Mac>, e: Edge)
    requires Sorted(nodes0, reported, done, f, nodes, edges, unclaimed, attached)
    requires (e.from, e.fromPort) !in f.transit && e.to !in attached && !Placed(e, f)
    ensures Sorted(nodes0, reported, done + [e], f, LeafCounted(nodes, e.from), edges, unclaimed + [e], attached)
  {
    OneMoreSighting(done, e, f);
    OneMoreLeaf(nodes0, unclaimed, e);
  }

  method CountLeaf(nodes0: map<Mac, Node>, m: Mac) returns (nodes: map<Mac, Node>)
    ensures nodes == LeafCounted(nodes0, m)
  {
    nodes := nodes0;
    if m in nodes {
      nodes := nodes[m := nodes[m].(leaves := nodes[m].leaves + 1)];
    }
  }

  // ---------------------------------------------------------------- invented nodes and gateways

  function InventedNode(m: Mac, vendor: Mac -> string): Node {
    Node(m, FirstNonEmpty(vendor(m), m, m), "", "device", "", true, 0, "")
  }

  function WithInvented(nodes: map<Mac, Node>, ends: set<Mac>, vendor: Mac -> string): map<Mac, Node> {
    map m | m in nodes.Keys + ends :: if m in nodes then nodes[m] else InventedNode(m, vendor)
  }

  /** Anything a link points at that the controller has no record of. */
  method InventEnds(nodes0: map<Mac, Node>, edges: seq<Edge>, vendor: Mac -> string)
    returns (nodes: map<Mac, Node>, synthetic: set<Mac>)
    ensures synthetic == Ends(edges) - nodes0.Keys
    ensures nodes == WithInvented(nodes0, Ends(edges), vendor)
  {
    nodes, synthetic := nodes0, {};
    ghost var ends: set<Mac> := {};
    for i := 0 to |edges|
      invariant ends == Ends(edges[..i]) && synthetic == ends - nodes0.Keys
      invariant nodes == WithInvented(nodes0, ends, vendor)
    {
      OneMoreTransit(edges, i);
      nodes, synthetic := InventEnd(nodes0, ends, nodes, synthetic, edges[i].from, vendor);
      nodes, synthetic := InventEnd(nodes0, ends + {edges[i].from}, nodes, synthetic, edges[i].to, vendor);
      ends := ends + {edges[i].from} + {edges[i].to};
    }
    assert edges[..|edges|] == edges;
  }

  method InventEnd(ghost nodes0: map<Mac, Node>, ghost ends: set<Mac>, before: map<Mac, Node>, synthetic0: set<Mac>,
                   m: Mac, vendor: Mac -> string)
    returns (nodes: map<Mac, Node>, synthetic: set<Mac>)
    requires before == WithInvented(nodes0, ends, vendor) && synthetic0 == ends - nodes0.Keys
    ensures nodes == WithInvented(nodes0, ends + {m}, vendor) && synthetic == ends + {m} - nodes0.Keys
  {
    nodes, synthetic := before, synthetic0;
    if m !in nodes {
      nodes := nodes[m := InventedNode(m, vendor)];
      synthetic := synthetic + {m};
    }
  }

  function GatewayNode(g: Mac): Node {
    Node(g, "gateway", "", "gateway", "", true, 0, "")
  }

  function AsGateway(n: Node, invented: bool): Node {
    n.(kind := "gateway", name := if invented then "gateway" else n.name)
  }

  /** The gateways that end up on the map: those already there, and those at least two devices name. */
  function Adopted(nodes: map<Mac, Node>, gateways: map<Mac, nat>): set<Mac> {
    set g | g in gateways && (g in nodes || gateways[g] >= 2)
  }

  function WithGateways(nodes: map<Mac, Node>, synthetic: set<Mac>, adopted: set<Mac>): map<Mac, Node> {
    map m | m in nodes.Keys + adopted ::
      if m !in adopted then nodes[m] else if m in nodes then AsGateway(nodes[m], m in synthetic) else GatewayNode(m)
  }

  lemma OneMoreGateway(nodes: map<Mac, Node>, synthetic: set<Mac>, adopted: set<Mac>, g: Mac)
    requires g !in adopted
    ensures WithGateways(nodes, synthetic, adopted + {g}) ==
            WithGateways(nodes, synthetic, adopted)[g := if g in nodes then AsGateway(nodes[g], g in synthetic) else GatewayNode(g)]
  {
  }

  /** All gateways but the pending ones have been visited, in whatever order. */
  ghost predicate Visited(nodes0: map<Mac, Node>, synthetic0: set<Mac>, gateways: map<Mac, nat>, pending: set<Mac>,
                          nodes: map<Mac, Node>, synthetic: set<Mac>, root: Mac)
  {
    var done := Adopted(nodes0, gateways) - pending;
    && nodes == WithGateways(nodes0, synthetic0, done)
    && synthetic == synthetic0 + (done - nodes0.Keys)
    && (if done == {} then root == "" else root in done)
  }

  /** The gateways are visited in any order; the last one on the map becomes the root. */
  method AdoptGateways(nodes0: map<Mac, Node>, synthetic0: set<Mac>, gateways: map<Mac, nat>)
    returns (nodes: map<Mac, Node>, synthetic: set<Mac>, root: Mac)
    requires synthetic0 <= nodes0.Keys
    ensures Visited(nodes0, synthetic0, gateways, {}, nodes, synthetic, root)
  {
    nodes, synthetic, root := nodes0, synthetic0, "";
    var pending := gateways.Keys;
    assert Adopted(nodes0, gateways) - pending == {};
    while pending != {}
      invariant pending <= gateways.Keys
      invariant Visited(nodes0, synthetic0, gateways, pending, nodes, synthetic, root)
      decreases |pending|
    {
      var g :| g in pending;
      nodes, synthetic, root := AdoptGateway(nodes0, synthetic0, pending, nodes, synthetic, root, g, gateways);
      pending := pending - {g};
    }
  }

  method AdoptGateway(ghost nodes0: map<Mac, Node>, ghost synthetic0: set<Mac>, ghost pending: set<Mac>,
                      before: map<Mac, Node>, known: set<Mac>, root0: Mac, g: Mac, gateways: map<Mac, nat>)
    returns (nodes: map<Mac, Node>, synthetic: set<Mac>, root: Mac)
    requires Visited(nodes0, synthetic0, gateways, pending, before, known, root0)
    requires g in pending && g in gateways && synthetic0 <= nodes0.Keys
    ensures Visited(nodes0, synthetic0, gateways, pending - {g}, nodes, synthetic, root)
  {
    nodes, synthetic, root := before, known, root0;
    ghost var done := Adopted(nodes0, gateways) - pending;
    OneMoreGateway(nodes0, synthetic0, done, g);
    OneFewerPending(Adopted(nodes0, gateways), pending, g);
    if g !in nodes && gateways[g] >= 2 {
      nodes, synthetic := nodes[g := GatewayNode(g)], synthetic + {g};
    }
    if g in nodes {
      nodes := nodes[g := nodes[g].(kind := "gateway")];
      if g in synthetic {
        nodes := nodes[g := nodes[g].(name := "gateway")];
      }
      root := g;
    }
  }

  lemma OneFewerPending<T>(all: set<T>, pending: set<T>, x: T)
    requires x in pending
    ensures all - (pending - {x}) == if x in all then (all - pending) + {x} else all - pending
  {
  }

  // ---------------------------------------------------------------- folding

  /** Two addresses in one block: the same up to the last two characters. */
  predicate SameBlock(m: Mac, root: Mac)
    requires |root| >= 2
  {
    |m| == |root| && root[..|root| - 2] <= m
  }

  /** An invented node that is the root under another of its addresses. */
  predicate IsAlias(nodes: map<Mac, Node>, synthetic: set<Mac>, root: Mac, m: Mac)
    requires |root| >= 2 && m in nodes
  {
    m != root && m in synthetic && nodes[m].kind != "gateway" && SameBlock(m, root)
  }

  function Aliases(nodes: map<Mac, Node>, synthetic: set<Mac>, root: Mac): set<Mac>
    requires root == "" || |root| >= 2
  {
    if root == "" then {} else set m | m in nodes && IsAlias(nodes, synthetic, root, m)
  }

  function Rename(e: Edge, aliases: set<Mac>, root: Mac): Edge {
    e.(from := if e.from in aliases then root else e.from, to := if e.to in aliases then root else e.to)
  }

  function Renamed(edges: seq<Edge>, aliases: set<Mac>, root: Mac): seq<Edge> {
    seq(|edges|, i requires 0 <= i < |edges| => Rename(edges[i], aliases, root))
  }

  method RenameEnds(edges0: seq<Edge>, m: Mac, root: Mac) returns (edges: seq<Edge>)
    ensures edges == Renamed(edges0, {m}, root)
  {
    edges := edges0;
    for i := 0 to |edges|
      invariant |edges| == |edges0|
      invariant forall j :: 0 <= j < |edges| ==> edges[j] == if j < i then Rename(edges0[j], {m}, root) else edges0[j]
    {
      if edges[i].from == m {
        edges := edges[i := edges[i].(from := root)];
      }
      if edges[i].to == m {
        edges := edges[i := edges[i].(to := root)];
      }
    }
  }

  lemma RenamedTwice(edges: seq<Edge>, aliases: set<Mac>, m: Mac, root: Mac)
    requires root != m
    ensures Renamed(Renamed(edges, aliases, root), {m}, root) == Renamed(edges, aliases + {m}, root)
  {
  }

  method FoldAliases(nodes0: map<Mac, Node>, edges0: seq<Edge>, synthetic: set<Mac>, root: Mac)
    returns (nodes: map<Mac, Node>, edges: seq<Edge>)
    requires root == "" || |root| >= 2
    ensures var aliases := Aliases(nodes0, synthetic, root);
            nodes == nodes0 - aliases && edges == Renamed(edges0, aliases, root)
  {
    nodes, edges := nodes0, edges0;
    var pending := if root == "" then {} else nodes.Keys;
    assert Aliases(nodes0, synthetic, root) - pending == {};
    while pending != {}
      invariant pending <= nodes0.Keys && (root == "" ==> pending == {})
      invariant Folded(nodes0, edges0, synthetic, root, pending, nodes, edges)
      decreases |pending|
    {
      var m :| m in pending;
      nodes, edges := FoldOne(nodes0, edges0, pending, nodes, edges, synthetic, root, m);
      pending := pending - {m};
    }
    assert Aliases(nodes0, synthetic, root) - {} == Aliases(nodes0, synthetic, root);
  }

  /** The aliases not still pending have been folded into the root. */
  ghost predicate Folded(nodes0: map<Mac, Node>, edges0: seq<Edge>, synthetic: set<Mac>, root: Mac, pending: set<Mac>,
                         nodes: map<Mac, Node>, edges: seq<Edge>)
    requires root == "" || |root| >= 2
  {
    var folded := Aliases(nodes0, synthetic, root) - pending;
    nodes == nodes0 - folded && edges == Renamed(edges0, folded, root)
  }

  method FoldOne(ghost nodes0: map<Mac, Node>, ghost edges0: seq<Edge>, ghost pending: set<Mac>,
                 nodes1: map<Mac, Node>, edges1: seq<Edge>, synthetic: set<Mac>, root: Mac, m: Mac)
    returns (nodes: map<Mac, Node>, edges: seq<Edge>)
    requires |root| >= 2 && m in pending && pending <= nodes0.Keys
    requires Folded(nodes0, edges0, synthetic, root, pending, nodes1, edges1)
    ensures Folded(nodes0, edges0, synthetic, root, pending - {m}, nodes, edges)
  {
    nodes, edges := nodes1, edges1;
    ghost var folded := Aliases(nodes0, synthetic, root) - pending;
    OneFewerPending(Aliases(nodes0, synthetic, root), pending, m);
    if IsAlias(nodes, synthetic, root, m) {
      RenamedTwice(edges0, folded, m, root);
      nodes := nodes - {m};
      edges := RenameEnds(edges, m, root);
    }
  }

  // ---------------------------------------------------------------- one line per cable

  function Detail(e: Edge): int {
    (if e.source == ByUplink then 4 else 0) + (if e.fromPort > 0 then 1 else 0) + (if e.toPort > 0 then 1 else 0)
  }

  /** The cable an edge stands for, whichever end reported it. */
  function Cable(e: Edge): set<Mac> {
    {e.from, e.to}
  }

  predicate OnMap(e: Edge, macs: set<Mac>) {
    e.from in macs && e.to in macs
  }

  /** edges[i] is the first copy of its cable with the most detail. */
  predicate BestCopy(edges: seq<Edge>, i: nat)
    requires i < |edges|
  {
    && (forall j :: 0 <= j < |edges| && Cable(edges[j]) == Cable(edges[i]) ==> Detail(edges[j]) <= Detail(edges[i]))
    && (forall j :: 0 <= j < i && Cable(edges[j]) == Cable(edges[i]) ==> Detail(edges[j]) < Detail(edges[i]))
  }

  ghost predicate IsBestCopy(e: Edge, edges: seq<Edge>) {
    exists i :: 0 <= i < |edges| && edges[i] == e && BestCopy(edges, i)
  }

  /** Among the edges with both ends on the map: every cable once, by its best copy. */
  ghost predicate Deduplicated(out: seq<Edge>, edges: seq<Edge>, macs: set<Mac>) {
    && (forall e :: e in out ==> OnMap(e, macs) && IsBestCopy(e, edges))
    && (forall i, j :: 0 <= i < j < |out| ==> Cable(out[i]) != Cable(out[j]))
    && (forall e :: e in edges && OnMap(e, macs) ==> exists o :: o in out && Cable(o) == Cable(e))
  }

  method DedupeEdges(edges: seq<Edge>, macs: set<Mac>) returns (out: seq<Edge>)
    ensures Deduplicated(out, edges, macs)
  {
    var best: map<set<Mac>, Edge> := map[];
    var order: seq<set<Mac>> := [];
    for i := 0 to |edges|
      invariant Ranked(best, order, edges[..i], macs)
    {
      var e := edges[i];
      assert edges[..i + 1] == edges[..i] + [e];
      if e.from !in macs || e.to !in macs {
        RankedSkip(best, order, edges[..i], macs, e);
        continue;
      }
      var k := {e.from, e.to};
      if k !in best {
        RankedNew(best, order, edges[..i], macs, e);
        order := order + [k];
        best := best[k := e];
        continue;
      }
      RankedAgain(best, order, edges[..i], macs, e);
      if Detail(e) > Detail(best[k]) {
        best := best[k := e];
      }
    }
    assert edges[..|edges|] == edges;
    out := [];
    for i := 0 to |order|
      invariant |out| == i && forall j :: 0 <= j < i ==> out[j] == best[order[j]]
    {
      out := out + [best[order[i]]];
    }
    RankedIsDeduplicated(best, order, edges, macs, out);
  }

  /** What the loop keeps: `order` lists the cables met so far, `best` their best copies. */
  ghost predicate Ranked(best: map<set<Mac>, Edge>, order: seq<set<Mac>>, edges: seq<Edge>, macs: set<Mac>) {
    && (forall k :: k in best <==> k in order)
    && (forall i, j :: 0 <= i < j < |order| ==> order[i] != order[j])
    && (forall k :: k in best ==> Cable(best[k]) == k && OnMap(best[k], macs) && IsBestCopy(best[k], edges))
    && (forall e :: e in edges && OnMap(e, macs) ==> Cable(e) in best)
  }

  /** A copy that is no better leaves a best copy the best. */
  lemma StillBest(b: Edge, edges: seq<Edge>, e: Edge)
    requires IsBestCopy(b, edges) && (Cable(e) == Cable(b) ==> Detail(e) <= Detail(b))
    ensures IsBestCopy(b, edges + [e])
  {
    var i :| 0 <= i < |edges| && edges[i] == b && BestCopy(edges, i);
    assert (edges + [e])[i] == b && BestCopy(edges + [e], i);
  }

  lemma CablesOffMap(e: Edge, b: Edge, macs: set<Mac>)
    requires Cable(e) == Cable(b) && OnMap(b, macs)
    ensures OnMap(e, macs)
  {
    assert e.from in Cable(b) && e.to in Cable(b);
  }

  lemma RankedSkip(best: map<set<Mac>, Edge>, order: seq<set<Mac>>, edges: seq<Edge>, macs: set<Mac>, e: Edge)
    requires Ranked(best, order, edges, macs) && !OnMap(e, macs)
    ensures Ranked(best, order, edges + [e], macs)
  {
    forall k | k in best ensures IsBestCopy(best[k], edges + [e]) {
      if Cable(e) == Cable(best[k]) { CablesOffMap(e, best[k], macs); }
      StillBest(best[k], edges, e);
    }
  }

  lemma RankedNew(best: map<set<Mac>, Edge>, order: seq<set<Mac>>, edges: seq<Edge>, macs: set<Mac>, e: Edge)
    requires Ranked(best, order, edges, macs) && OnMap(e, macs) && Cable(e) !in best
    ensures Ranked(best[Cable(e) := e], order + [Cable(e)], edges + [e], macs)
  {
    forall k | k in best ensures IsBestCopy(best[k], edges + [e]) {
      StillBest(best[k], edges, e);
    }
    var n, longer := |edges|, edges + [e];
    forall j | 0 <= j < n ensures Cable(longer[j]) != Cable(e) {
      assert longer[j] == edges[j] && edges[j] in edges;
      if Cable(longer[j]) == Cable(e) {
        CablesOffMap(longer[j], e, macs);
      }
    }
    assert longer[n] == e && BestCopy(longer, n);
  }

  lemma RankedAgain(best: map<set<Mac>, Edge>, order: seq<set<Mac>>, edges: seq<Edge>, macs: set<Mac>, e: Edge)
    requires Ranked(best, order, edges, macs) && OnMap(e, macs) && Cable(e) in best
    ensures Ranked(if Detail(e) > Detail(best[Cable(e)]) then best[Cable(e) := e] else best, order, edges + [e], macs)
  {
    var b := best[Cable(e)];
    var after := if Detail(e) > Detail(b) then best[Cable(e) := e] else best;
    forall k | k in after ensures IsBestCopy(after[k], edges + [e]) {
      if Detail(e) > Detail(b) && k == Cable(e) {
        var i :| 0 <= i < |edges| && edges[i] == b && BestCopy(edges, i);
        assert (edges + [e])[|edges|] == e && BestCopy(edges + [e], |edges|);
      } else {
        StillBest(best[k], edges, e);
      }
    }
  }

  lemma RankedIsDeduplicated(best: map<set<Mac>, Edge>, order: seq<set<Mac>>, edges: seq<Edge>, macs: set<Mac>, out: seq<Edge>)
    requires Ranked(best, order, edges, macs)
    requires |out| == |order| && forall j :: 0 <= j < |out| ==> out[j] == best[order[j]]
    ensures Deduplicated(out, edges, macs)
  {
    forall e | e in edges && OnMap(e, macs) ensures exists o :: o in out && Cable(o) == Cable(e) {
      var j :| 0 <= j < |order| && order[j] == Cable(e);
      assert out[j] in out && Cable(out[j]) == Cable(e);
    }
  }

  // ---------------------------------------------------------------- pruning and the root

  function Degree(edges: seq<Edge>, m: Mac): nat {
    if edges == [] then 0
    else
      var e := edges[|edges| - 1];
      Degree(edges[..|edges| - 1], m) + (if e.from == m then 1 else 0) + (if e.to == m then 1 else 0)
  }

  predicate Touches(edges: seq<Edge>, m: Mac) {
    exists e :: e in edges && (e.from == m || e.to == m)
  }

  lemma {:induction false} DegreeMeansTouched(edges: seq<Edge>, m: Mac)
    ensures Degree(edges, m) > 0 <==> Touches(edges, m)
  {
    if edges != [] {
      var pre, e := edges[..|edges| - 1], edges[|edges| - 1];
      DegreeMeansTouched(pre, m);
      assert forall x :: x in edges <==> x in pre || x == e;
    }
  }

  ghost predicate Tallies(deg: map<Mac, nat>, edges: seq<Edge>) {
    forall m :: (if m in deg then deg[m] else 0) == Degree(edges, m)
  }

  method CountDegrees(edges: seq<Edge>) returns (deg: map<Mac, nat>)
    ensures Tallies(deg, edges)
  {
    deg := map[];
    for i := 0 to |edges|
      invariant Tallies(deg, edges[..i])
    {
      var e := edges[i];
      assert edges[..i + 1][..i] == edges[..i];
      deg := deg[e.from := (if e.from in deg then deg[e.from] else 0) + 1];
      deg := deg[e.to := (if e.to in deg then deg[e.to] else 0) + 1];
      assert Tallies(deg, edges[..i + 1]);
    }
    assert edges[..|edges|] == edges;
  }

  function Linked(nodes: map<Mac, Node>, edges: seq<Edge>, synthetic: set<Mac>): map<Mac, Node> {
    map m | m in nodes && (m in synthetic ==> Degree(edges, m) > 0) :: nodes[m]
  }

  /** An invented node nothing references is dropped again. */
  method PruneNodes(nodes0: map<Mac, Node>, edges: seq<Edge>, synthetic: set<Mac>) returns (nodes: map<Mac, Node>)
    ensures nodes == Linked(nodes0, edges, synthetic)
  {
    var deg := CountDegrees(edges);
    nodes := nodes0;
    var pending := nodes.Keys;
    while pending != {}
      invariant pending <= nodes0.Keys
      invariant nodes == map m | m in nodes0 && (m in pending || (m in synthetic ==> Degree(edges, m) > 0)) :: nodes0[m]
      decreases |pending|
    {
      var m :| m in pending;
      pending := pending - {m};
      if m in synthetic && (if m in deg then deg[m] else 0) == 0 {
        nodes := nodes - {m};
      }
    }
  }

  function Macs(nodes: seq<Node>): set<Mac> {
    set n | n in nodes :: n.mac
  }

  predicate DistinctMacs(nodes: seq<Node>) {
    forall i, j :: 0 <= i < j < |nodes| ==> nodes[i].mac != nodes[j].mac
  }

  /** The listed nodes are those of the map under these keys, once each. */
  ghost predicate Lists(out: seq<Node>, nodes: map<Mac, Node>, keys: set<Mac>) {
    && DistinctMacs(out) && Macs(out) == keys
    && (forall n :: n in out ==> n.mac in nodes && n == nodes[n.mac])
  }

  lemma OneMoreListed(out: seq<Node>, nodes: map<Mac, Node>, keys: set<Mac>, m: Mac)
    requires Lists(out, nodes, keys) && m in nodes && m !in keys && nodes[m].mac == m
    ensures Lists(out + [nodes[m]], nodes, keys + {m})
  {
    var longer := out + [nodes[m]];
    assert forall i :: 0 <= i < |out| ==> out[i] in out && out[i].mac in Macs(out);
    assert forall n :: n in longer <==> n in out || n == nodes[m];
    assert Macs(longer) == Macs(out) + {m};
  }

  /** The nodes in any order: the source sorts them by name, and names need not be unique. */
  method ListNodes(nodes: map<Mac, Node>) returns (out: seq<Node>)
    requires Keyed(nodes)
    ensures Lists(out, nodes, nodes.Keys)
  {
    out := [];
    var pending := nodes.Keys;
    ghost var keys: set<Mac> := {};
    while pending != {}
      invariant pending <= nodes.Keys && keys == nodes.Keys - pending
      invariant Lists(out, nodes, keys)
      decreases |pending|
    {
      var m :| m in pending;
      OneMoreListed(out, nodes, keys, m);
      pending, keys := pending - {m}, keys + {m};
      out := out + [nodes[m]];
    }
    assert keys == nodes.Keys;
  }

  /** The first node of greatest degree. */
  predicate IsCore(root: Mac, nodes: seq<Node>, edges: seq<Edge>) {
    if nodes == [] then root == ""
    else exists i :: 0 <= i < |nodes| && nodes[i].mac == root
                     && (forall j :: 0 <= j < |nodes| ==> Degree(edges, nodes[j].mac) <= Degree(edges, root))
                     && (forall j :: 0 <= j < i ==> Degree(edges, nodes[j].mac) < Degree(edges, root))
  }

  method RootOf(nodes: seq<Node>, edges: seq<Edge>) returns (best: Mac)
    ensures IsCore(best, nodes, edges)
  {
    var deg := CountDegrees(edges);
    var bestN: int := -1;
    best := "";
    ghost var at := 0;
    for i := 0 to |nodes|
      invariant if i == 0 then best == "" && bestN == -1
                else && 0 <= at < i && nodes[at].mac == best && bestN == Degree(edges, best)
                     && (forall j :: 0 <= j < i ==> Degree(edges, nodes[j].mac) <= bestN)
                     && (forall j :: 0 <= j < at ==> Degree(edges, nodes[j].mac) < bestN)
    {
      var n := nodes[i];
      var d := if n.mac in deg then deg[n.mac] else 0;
      if d > bestN {
        best, bestN, at := n.mac, d, i;
      }
    }
  }

  // ---------------------------------------------------------------- the whole map

  function Gateways(ds: seq<Device>): set<Mac> {
    set d | d in ds && d.mac != "" && d.gateway != "" :: d.gateway
  }

  function FactsOf(ds: seq<Device>): Facts {
    Facts(Transit(Reported(ds)), Ends(Reported(ds)), Known(ds), Gateways(ds))
  }

  /** Every link, reported or inferred, as the devices address each other. */
  function Links(ds: seq<Device>): seq<Edge> {
    Reported(ds) + Claimed(Sighted(ds), FactsOf(ds))
  }

  /** The addresses that can be the way out. */
  function Ways(ds: seq<Device>): set<Mac> {
    set g | g in Gateways(ds) && (g in Known(ds) || g in Ends(Links(ds)) || Votes(ds, g) >= 2)
  }

  function AliasesOf(ds: seq<Device>, way: Mac): set<Mac> {
    if |way| < 2 then {}
    else set m | m in Ends(Links(ds)) && m !in Known(ds) && m !in Ways(ds) && SameBlock(m, way)
  }

  function FoldedLinks(ds: seq<Device>, way: Mac): seq<Edge> {
    Renamed(Links(ds), AliasesOf(ds, way), way)
  }

  function FoldedMacs(ds: seq<Device>, way: Mac): set<Mac> {
    Known(ds) + Ends(Links(ds)) + Ways(ds) - AliasesOf(ds, way)
  }

  function UnclaimedOf(ds: seq<Device>): seq<Edge> {
    Unclaimed(Sighted(ds), FactsOf(ds))
  }

  function NodesOf(ds: seq<Device>, vendor: Mac -> string): map<Mac, Node> {
    var linked := WithInvented(WithLeaves(KnownNodes(ds), UnclaimedOf(ds)), Ends(Links(ds)), vendor);
    WithGateways(linked, Ends(Links(ds)) - Known(ds), Ways(ds))
  }

  predicate WellFormed(ds: seq<Device>) {
    forall d :: d in ds && d.gateway != "" ==> |d.gateway| >= 2
  }

  /** Lines and nodes as the records give them, for some way out. */
  ghost predicate Mapped(ds: seq<Device>, way: Mac, out: TopologyMap) {
    && (if Ways(ds) == {} then way == "" else way in Ways(ds))
    && Deduplicated(out.edges, FoldedLinks(ds, way), FoldedMacs(ds, way))
    && DistinctMacs(out.nodes)
    && Macs(out.nodes) == (set m | m in FoldedMacs(ds, way) && (m in Known(ds) || Degree(out.edges, m) > 0))
  }

  /** Every node says what the records say of it. */
  ghost predicate Labelled(ds: seq<Device>, vendor: Mac -> string, out: TopologyMap) {
    forall n :: n in out.nodes ==> n.mac in NodesOf(ds, vendor) && n == NodesOf(ds, vendor)[n.mac]
  }

  /** Hung from the way out if that is drawn, and from the core otherwise. */
  predicate Rooted(way: Mac, out: TopologyMap) {
    if way in Macs(out.nodes) then out.root == way else IsCore(out.root, out.nodes, out.edges)
  }

  /** A map built from these records, for some order of visiting the gateways and the nodes. */
  ghost predicate Built(ds: seq<Device>, vendor: Mac -> string, way: Mac, out: TopologyMap) {
    Mapped(ds, way, out) && Labelled(ds, vendor, out) && Rooted(way, out)
  }

  method DrawLinks(ds: seq<Device>, vendor: Mac -> string)
    returns (nodes: map<Mac, Node>, synthetic: set<Mac>, gateways: map<Mac, nat>, edges: seq<Edge>, unclaimed: seq<Edge>)
    ensures edges == Links(ds) && unclaimed == UnclaimedOf(ds)
    ensures nodes == WithInvented(WithLeaves(KnownNodes(ds), unclaimed), Ends(edges), vendor)
    ensures nodes.Keys == Known(ds) + Ends(edges) && synthetic == Ends(edges) - Known(ds)
    ensures gateways.Keys == Gateways(ds) && Adopted(nodes, gateways) == Ways(ds)
  {
    var seen;
    nodes, edges, seen, gateways := ReadDevices(ds);
    KnownNodesAreKnown(ds);
    VotesAreGateways(ds);
    assert gateways.Keys == Gateways(ds);
    nodes, edges, unclaimed := ClaimSightings(nodes, edges, seen, gateways);
    assert edges == Links(ds);
    nodes, synthetic := InventEnds(nodes, edges, vendor);
    AdoptedAreWays(ds, nodes, gateways);
  }

  lemma AdoptedAreWays(ds: seq<Device>, nodes: map<Mac, Node>, gateways: map<Mac, nat>)
    requires Counted(gateways, ds) && gateways.Keys == Gateways(ds) && nodes.Keys == Known(ds) + Ends(Links(ds))
    ensures Adopted(nodes, gateways) == Ways(ds)
  {
  }

  /** Every node, with the ways out among them, and the way out taken for the root. */
  method DrawNodes(ds: seq<Device>, vendor: Mac -> string)
    returns (nodes: map<Mac, Node>, synthetic: set<Mac>, root: Mac, edges: seq<Edge>, unclaimed: seq<Edge>)
    ensures if Ways(ds) == {} then root == "" else root in Ways(ds)
    ensures nodes == NodesOf(ds, vendor) && edges == Links(ds)
    ensures synthetic == Ends(Links(ds)) + Ways(ds) - Known(ds) && unclaimed == UnclaimedOf(ds)
  {
    var gateways;
    nodes, synthetic, gateways, edges, unclaimed := DrawLinks(ds, vendor);
    nodes, synthetic, root := AdoptGateways(nodes, synthetic, gateways);
    assert Ways(ds) - {} == Ways(ds);
    assert synthetic == Ends(Links(ds)) + Ways(ds) - Known(ds);
  }

  /** The links and nodes with the root's other addresses folded into it. */
  method FoldLinks(ds: seq<Device>, vendor: Mac -> string)
    returns (nodes: map<Mac, Node>, synthetic: set<Mac>, root: Mac, edges: seq<Edge>, unclaimed: seq<Edge>)
    requires WellFormed(ds)
    ensures if Ways(ds) == {} then root == "" else root in Ways(ds)
    ensures nodes == NodesOf(ds, vendor) - AliasesOf(ds, root) && edges == FoldedLinks(ds, root)
    ensures synthetic == Ends(Links(ds)) + Ways(ds) - Known(ds) && unclaimed == UnclaimedOf(ds)
  {
    nodes, synthetic, root, edges, unclaimed := DrawNodes(ds, vendor);
    WaysAreLong(ds);
    AliasesAreInvented(ds, vendor, root);
    nodes, edges := FoldAliases(nodes, edges, synthetic, root);
  }

  /** One line per cable, unreferenced inventions dropped, and a root. */
  method TidyMap(nodes0: map<Mac, Node>, edges0: seq<Edge>, synthetic: set<Mac>, way: Mac) returns (out: TopologyMap)
    requires Keyed(nodes0)
    ensures Deduplicated(out.edges, edges0, nodes0.Keys)
    ensures Lists(out.nodes, nodes0, Linked(nodes0, out.edges, synthetic).Keys)
    ensures if way in Macs(out.nodes) then out.root == way else IsCore(out.root, out.nodes, out.edges)
  {
    var edges := DedupeEdges(edges0, nodes0.Keys);
    var nodes := PruneNodes(nodes0, edges, synthetic);
    var list := ListNodes(nodes);
    var root := way;
    if root !in nodes {
      root := RootOf(list, edges);
    }
    out := TopologyMap(list, edges, root);
  }

  method UnifiTopology(ds: seq<Device>, vendor: Mac -> string)
    returns (out: TopologyMap, unclaimed: seq<Edge>, ghost way: Mac)
    requires WellFormed(ds)
    ensures Built(ds, vendor, way, out)
    ensures unclaimed == UnclaimedOf(ds)
  {
    var nodes, synthetic, root, edges;
    nodes, synthetic, root, edges, unclaimed := FoldLinks(ds, vendor);
    way := root;
    FoldedNodes(ds, vendor, way, nodes);
    out := TidyMap(nodes, edges, synthetic, root);
    KeptMacs(ds, way, nodes, synthetic, out.edges);
  }

  lemma FoldedNodes(ds: seq<Device>, vendor: Mac -> string, way: Mac, nodes: map<Mac, Node>)
    requires nodes == NodesOf(ds, vendor) - AliasesOf(ds, way)
    ensures Keyed(nodes) && nodes.Keys == FoldedMacs(ds, way)
  {
    NodesOfFacts(ds, vendor);
  }

  lemma KeptMacs(ds: seq<Device>, way: Mac, nodes: map<Mac, Node>, synthetic: set<Mac>, edges: seq<Edge>)
    requires nodes.Keys == FoldedMacs(ds, way) && synthetic == Ends(Links(ds)) + Ways(ds) - Known(ds)
    ensures Linked(nodes, edges, synthetic).Keys
         == set m | m in FoldedMacs(ds, way) && (m in Known(ds) || Degree(edges, m) > 0)
  {
  }

  lemma WaysAreLong(ds: seq<Device>)
    requires WellFormed(ds)
    ensures forall g :: g in Ways(ds) ==> |g| >= 2
  {
  }

  lemma LeavesFacts(nodes: map<Mac, Node>, unclaimed: seq<Edge>)
    requires Keyed(nodes) && forall m :: m in nodes ==> nodes[m].leaves == 0
    ensures var after := WithLeaves(nodes, unclaimed);
            Keyed(after) && after.Keys == nodes.Keys && forall m :: m in after ==> after[m].leaves == SeenBy(unclaimed, m)
  {
  }

  lemma InventedFacts(nodes: map<Mac, Node>, ends: set<Mac>, vendor: Mac -> string)
    requires Keyed(nodes)
    ensures var after := WithInvented(nodes, ends, vendor);
            && Keyed(after) && after.Keys == nodes.Keys + ends
            && (forall m :: m in after ==>
                  if m in nodes then after[m] == nodes[m] else after[m].kind == "device" && after[m].leaves == 0)
  {
  }

  lemma GatewayFacts(nodes: map<Mac, Node>, synthetic: set<Mac>, ways: set<Mac>)
    requires Keyed(nodes)
    ensures var after := WithGateways(nodes, synthetic, ways);
            && Keyed(after) && after.Keys == nodes.Keys + ways
            && (forall m :: m in after ==> after[m].leaves == if m in nodes then nodes[m].leaves else 0)
            && (forall m :: m in after ==> after[m].kind == if m in ways then "gateway" else nodes[m].kind)
  {
  }

  lemma NodesOfFacts(ds: seq<Device>, vendor: Mac -> string)
    ensures var nodes := NodesOf(ds, vendor);
            && Keyed(nodes)
            && nodes.Keys == Known(ds) + Ends(Links(ds)) + Ways(ds)
            && (forall m :: m in nodes && m !in Known(ds) ==> (nodes[m].kind == "gateway" <==> m in Ways(ds)))
            && (forall m :: m in nodes ==>
                  nodes[m].leaves == if m in Known(ds) then SeenBy(UnclaimedOf(ds), m) else 0)
  {
    KnownNodesAreKnown(ds);
    LeavesFacts(KnownNodes(ds), UnclaimedOf(ds));
    var counted := WithLeaves(KnownNodes(ds), UnclaimedOf(ds));
    InventedFacts(counted, Ends(Links(ds)), vendor);
    GatewayFacts(WithInvented(counted, Ends(Links(ds)), vendor), Ends(Links(ds)) - Known(ds), Ways(ds));
  }

  lemma AliasesAreInvented(ds: seq<Device>, vendor: Mac -> string, way: Mac)
    requires way == "" || (way in Ways(ds) && |way| >= 2)
    ensures Aliases(NodesOf(ds, vendor), (Ends(Links(ds)) + Ways(ds)) - Known(ds), way) == AliasesOf(ds, way)
  {
    NodesOfFacts(ds, vendor);
  }

  lemma {:induction false} VotesAreGateways(ds: seq<Device>)
    ensures forall g :: g in Gateways(ds) <==> Votes(ds, g) > 0
  {
    if ds != [] {
      var pre, d := ds[..|ds| - 1], ds[|ds| - 1];
      VotesAreGateways(pre);
      assert forall e :: e in ds <==> e in pre || e == d;
    }
  }

  // ---------------------------------------------------------------- what every map promises

  lemma FoldedFacts(ds: seq<Device>, way: Mac)
    requires way in Ways(ds) || AliasesOf(ds, way) == {}
    ensures forall e :: e in FoldedLinks(ds, way) ==> OnMap(e, FoldedMacs(ds, way))
    ensures Known(ds) <= FoldedMacs(ds, way)
  {
    var links, aliases := Links(ds), AliasesOf(ds, way);
    forall i | 0 <= i < |links| ensures OnMap(Rename(links[i], aliases, way), FoldedMacs(ds, way)) {
      assert links[i] in links && links[i].from in Ends(links) && links[i].to in Ends(links);
      assert aliases != {} ==> way in FoldedMacs(ds, way);
    }
  }

  lemma BuiltEdge(ds: seq<Device>, way: Mac, out: TopologyMap, e: Edge) returns (l: Edge)
    requires Mapped(ds, way, out) && e in out.edges
    ensures l in Links(ds) && e == Rename(l, AliasesOf(ds, way), way)
  {
    var i :| 0 <= i < |FoldedLinks(ds, way)| && FoldedLinks(ds, way)[i] == e && BestCopy(FoldedLinks(ds, way), i);
    l := Links(ds)[i];
  }

  /** Every listed device is drawn, and no address is drawn twice. */
  lemma EveryDeviceIsDrawn(ds: seq<Device>, way: Mac, out: TopologyMap)
    requires Mapped(ds, way, out)
    ensures DistinctMacs(out.nodes) && Listed(ds) <= Macs(out.nodes)
  {
    FoldedFacts(ds, way);
  }

  /** Both ends of every line are drawn, and every invented node has a line. */
  lemma LinesAndInventionsMeet(ds: seq<Device>, way: Mac, out: TopologyMap)
    requires Mapped(ds, way, out)
    ensures forall e :: e in out.edges ==> e.from in Macs(out.nodes) && e.to in Macs(out.nodes)
    ensures forall m :: m in Macs(out.nodes) && m !in Known(ds) ==> Touches(out.edges, m)
  {
    forall e | e in out.edges ensures e.from in Macs(out.nodes) && e.to in Macs(out.nodes) {
      DegreeMeansTouched(out.edges, e.from);
      DegreeMeansTouched(out.edges, e.to);
    }
    forall m | m in Macs(out.nodes) && m !in Known(ds) ensures Touches(out.edges, m) {
      DegreeMeansTouched(out.edges, m);
    }
  }

  /** Every link the records give is drawn as one line per cable, in its first most detailed copy. */
  lemma EveryLinkIsOneLine(ds: seq<Device>, way: Mac, out: TopologyMap)
    requires Mapped(ds, way, out)
    ensures forall l :: l in Links(ds) ==>
              exists o :: o in out.edges && Cable(o) == Cable(Rename(l, AliasesOf(ds, way), way))
                          && Detail(l) <= Detail(o)
    ensures forall i, j :: 0 <= i < j < |out.edges| ==> Cable(out.edges[i]) != Cable(out.edges[j])
  {
    forall l | l in Links(ds)
      ensures exists o :: o in out.edges && Cable(o) == Cable(Rename(l, AliasesOf(ds, way), way)) && Detail(l) <= Detail(o)
    {
      var o := LineOf(ds, way, out, l);
    }
  }

  lemma LineOf(ds: seq<Device>, way: Mac, out: TopologyMap, l: Edge) returns (o: Edge)
    requires Mapped(ds, way, out) && l in Links(ds)
    ensures o in out.edges && Cable(o) == Cable(Rename(l, AliasesOf(ds, way), way)) && Detail(l) <= Detail(o)
  {
    FoldedFacts(ds, way);
    var links, folded := Links(ds), FoldedLinks(ds, way);
    var k :| 0 <= k < |links| && links[k] == l;
    assert folded[k] in folded;
    o :| o in out.edges && Cable(o) == Cable(folded[k]);
    var i :| 0 <= i < |folded| && folded[i] == o && BestCopy(folded, i);
  }

  /** The root is on the map unless the map is empty, and where no way out is drawn it has the most lines. */
  lemma RootIsDrawn(ds: seq<Device>, way: Mac, out: TopologyMap)
    requires Mapped(ds, way, out) && Rooted(way, out)
    ensures if out.nodes == [] then out.root == "" else out.root in Macs(out.nodes)
    ensures out.root != way ==>
              forall m :: m in Macs(out.nodes) ==> Degree(out.edges, m) <= Degree(out.edges, out.root)
  {
    if out.nodes != [] && way !in Macs(out.nodes) {
      var i :| 0 <= i < |out.nodes| && out.nodes[i].mac == out.root
               && (forall j :: 0 <= j < |out.nodes| ==> Degree(out.edges, out.nodes[j].mac) <= Degree(out.edges, out.root));
      assert out.nodes[i] in out.nodes;
    }
  }

  lemma LinksFacts(ds: seq<Device>)
    ensures forall l :: l in Links(ds) ==> FromRecords(l, Listed(ds))
    ensures forall l :: l in Links(ds) && l.source == Seen ==> Local(l, FactsOf(ds))
    ensures forall l :: l in Links(ds) && l.source != Seen ==> l in Reported(ds)
  {
    LinksFromRecords(ds);
    ClaimedAreLinks(Sighted(ds), FactsOf(ds));
  }

  /** No inferred link leaves a port that the devices report a link on. */
  lemma NoInferredLinkInTransit(ds: seq<Device>, l: Edge)
    requires l in Links(ds) && l.source == Seen
    ensures l.from in Listed(ds) && (l.from, l.fromPort) !in Transit(Reported(ds))
  {
    LinksFacts(ds);
  }

  /** An inferred line and a reported one on the same port. */
  ghost predicate MixesPorts(edges: seq<Edge>) {
    exists e, r :: e in edges && r in edges && SharePort(e, r)
  }

  predicate SharePort(e: Edge, r: Edge) {
    e.source == Seen && r.source != Seen && e.fromPort > 0 &&
    ((r.from == e.from && r.fromPort == e.fromPort) || (r.to == e.from && r.toPort == e.fromPort))
  }

  /** One of the root's other addresses has a cable on this port. */
  predicate CarriesOver(q: Edge, aliases: set<Mac>, port: int) {
    port > 0 && ((q.from in aliases && q.fromPort == port) || (q.to in aliases && q.toPort == port))
  }

  /**
   * Link i is inferred from a port of the root, link j is reported on a port of the same number of an address
   * that is folded into the root, and both are the copies of their cables that get drawn.
   */
  predicate MeetsFolded(ds: seq<Device>, way: Mac, i: nat, j: nat)
    requires i < |Links(ds)| && j < |Links(ds)|
  {
    var l, q := Links(ds)[i], Links(ds)[j];
    && l.source == Seen && l.from == way && q.source != Seen && CarriesOver(q, AliasesOf(ds, way), l.fromPort)
    && BestCopy(FoldedLinks(ds, way), i) && BestCopy(FoldedLinks(ds, way), j)
  }

  lemma TransitMeansShared(e: Edge, r: Edge)
    requires e.source == Seen && r.source != Seen
    ensures (e.from, e.fromPort) in Transit([r]) <==> SharePort(e, r)
  {
    assert forall x :: x in [r] <==> x == r;
  }

  /** A reported end on the port means transit there. */
  lemma ReportedPort(edges: seq<Edge>, q: Edge, m: Mac, p: int)
    requires q in edges && p > 0 && ((q.from == m && q.fromPort == p) || (q.to == m && q.toPort == p))
    ensures (m, p) in Transit(edges)
  {
  }

  /** Folding brings a reported link to a port of an inferred one exactly by carrying it over to the root. */
  lemma SharedByFolding(ds: seq<Device>, way: Mac, l: Edge, q: Edge)
    requires l in Links(ds) && q in Links(ds) && l.source == Seen && q.source != Seen
    ensures SharePort(Rename(l, AliasesOf(ds, way), way), Rename(q, AliasesOf(ds, way), way)) <==>
            l.from == way && CarriesOver(q, AliasesOf(ds, way), l.fromPort)
  {
    NoInferredLinkInTransit(ds, l);
    KnownAreNoAliases(ds, way);
    LinksFacts(ds);
    if l.fromPort > 0 && ((q.from == l.from && q.fromPort == l.fromPort) || (q.to == l.from && q.toPort == l.fromPort)) {
      ReportedPort(Reported(ds), q, l.from, l.fromPort);
    }
  }

  /** The best copy of a cable is drawn. */
  lemma BestCopyIsDrawn(ds: seq<Device>, way: Mac, out: TopologyMap, i: nat)
    requires Mapped(ds, way, out) && i < |FoldedLinks(ds, way)| && BestCopy(FoldedLinks(ds, way), i)
    ensures FoldedLinks(ds, way)[i] in out.edges
  {
    var folded := FoldedLinks(ds, way);
    FoldedFacts(ds, way);
    assert folded[i] in folded;
    var o :| o in out.edges && Cable(o) == Cable(folded[i]);
    var j := DrawnCopy(ds, way, out, o);
    assert !(i < j) && !(j < i);
  }

  lemma DrawnCopy(ds: seq<Device>, way: Mac, out: TopologyMap, e: Edge) returns (i: nat)
    requires Mapped(ds, way, out) && e in out.edges
    ensures i < |FoldedLinks(ds, way)| == |Links(ds)| && FoldedLinks(ds, way)[i] == e && BestCopy(FoldedLinks(ds, way), i)
    ensures e == Rename(Links(ds)[i], AliasesOf(ds, way), way) && Links(ds)[i] in Links(ds)
  {
    i :| 0 <= i < |FoldedLinks(ds, way)| && FoldedLinks(ds, way)[i] == e && BestCopy(FoldedLinks(ds, way), i);
  }

  lemma MixedMeansFolded(ds: seq<Device>, way: Mac, out: TopologyMap) returns (i: nat, j: nat)
    requires Mapped(ds, way, out) && MixesPorts(out.edges)
    ensures i < |Links(ds)| && j < |Links(ds)| && MeetsFolded(ds, way, i, j)
  {
    var e, r :| e in out.edges && r in out.edges && SharePort(e, r);
    i := DrawnCopy(ds, way, out, e);
    j := DrawnCopy(ds, way, out, r);
    SharedByFolding(ds, way, Links(ds)[i], Links(ds)[j]);
  }

  lemma FoldedMeansMixed(ds: seq<Device>, way: Mac, out: TopologyMap, i: nat, j: nat)
    requires Mapped(ds, way, out) && i < |Links(ds)| && j < |Links(ds)| && MeetsFolded(ds, way, i, j)
    ensures MixesPorts(out.edges)
  {
    BestCopyIsDrawn(ds, way, out, i);
    BestCopyIsDrawn(ds, way, out, j);
    assert Links(ds)[i] in Links(ds) && Links(ds)[j] in Links(ds);
    SharedByFolding(ds, way, Links(ds)[i], Links(ds)[j]);
  }

  /**
   * An inferred line is drawn on a port that carries a reported one if and only if two links meet by folding.
   * A root that is not itself a listed device excludes that.
   */
  lemma InferredLinesInTransitExactly(ds: seq<Device>, way: Mac, out: TopologyMap)
    requires Mapped(ds, way, out)
    ensures MixesPorts(out.edges) <==>
            exists i, j :: 0 <= i < |Links(ds)| && 0 <= j < |Links(ds)| && MeetsFolded(ds, way, i, j)
    ensures way !in Listed(ds) ==> !MixesPorts(out.edges)
  {
    if MixesPorts(out.edges) {
      var i, j := MixedMeansFolded(ds, way, out);
      assert Links(ds)[i] in Links(ds);
      NoInferredLinkInTransit(ds, Links(ds)[i]);
    }
    forall i, j | 0 <= i < |Links(ds)| && 0 <= j < |Links(ds)| && MeetsFolded(ds, way, i, j)
      ensures MixesPorts(out.edges)
    {
      FoldedMeansMixed(ds, way, out, i, j);
    }
  }

  /** So a line that was inferred stands on a port without a reported line, unless the root is a listed device. */
  lemma NoInferredLineInTransit(ds: seq<Device>, way: Mac, out: TopologyMap, e: Edge)
    requires Mapped(ds, way, out) && e in out.edges && e.source == Seen
    ensures e.from in Listed(ds) && (e.from, e.fromPort) !in Transit(Reported(ds))
    ensures way !in Listed(ds) ==>
              forall r :: r in out.edges && r.source != Seen ==> (e.from, e.fromPort) !in Transit([r])
  {
    InferredLinesInTransitExactly(ds, way, out);
    var l := BuiltEdge(ds, way, out, e);
    NoInferredLinkInTransit(ds, l);
    KnownAreNoAliases(ds, way);
    forall r | r in out.edges && r.source != Seen && way !in Listed(ds)
      ensures (e.from, e.fromPort) !in Transit([r])
    {
      TransitMeansShared(e, r);
    }
  }

  /**
   * A line from a node to itself is drawn exactly when a link joins the root to another of its own
   * addresses, and then the root is a listed device.
   */
  lemma LoopsOnlyFromFoldedRoot(ds: seq<Device>, way: Mac, out: TopologyMap)
    requires Mapped(ds, way, out)
    ensures (exists e :: e in out.edges && e.from == e.to) <==>
            (exists l, a :: l in Links(ds) && a in AliasesOf(ds, way) && Cable(l) == {way, a})
    ensures way !in Listed(ds) ==> forall e :: e in out.edges ==> e.from != e.to
  {
    LinksFacts(ds);
    var aliases := AliasesOf(ds, way);
    assert forall a :: a in aliases ==> a !in Listed(ds);
    forall e | e in out.edges && e.from == e.to
      ensures way in Listed(ds)
      ensures exists l, a :: l in Links(ds) && a in AliasesOf(ds, way) && Cable(l) == {way, a}
    {
      var l := BuiltEdge(ds, way, out, e);
      assert FromRecords(l, Listed(ds));
      var a := if l.from in aliases then l.from else l.to;
      assert Cable(l) == {way, a};
    }
    forall l, a | l in Links(ds) && a in aliases && Cable(l) == {way, a}
      ensures exists e :: e in out.edges && e.from == e.to
    {
      LoopIsDrawn(ds, way, out, l, a);
    }
  }

  lemma LoopIsDrawn(ds: seq<Device>, way: Mac, out: TopologyMap, l: Edge, a: Mac)
    requires Mapped(ds, way, out) && l in Links(ds) && a in AliasesOf(ds, way) && Cable(l) == {way, a}
    ensures exists e :: e in out.edges && e.from == e.to
  {
    var o := LineOf(ds, way, out, l);
    var r := Rename(l, AliasesOf(ds, way), way);
    assert l.from in Cable(l) && l.to in Cable(l);
    assert o.from in Cable(o) && o.to in Cable(o) && Cable(r) == {way};
  }

  /** Each unclaimed sighting is counted on the one node it was made from, and nothing else is. */
  lemma SightingsAreCounted(ds: seq<Device>, vendor: Mac -> string, way: Mac, out: TopologyMap)
    requires Mapped(ds, way, out) && Labelled(ds, vendor, out)
    ensures forall n :: n in out.nodes ==> n.leaves == SeenBy(UnclaimedOf(ds), n.mac)
    ensures forall e :: e in UnclaimedOf(ds) ==> e.from in Macs(out.nodes)
    ensures TotalLeaves(out.nodes) == |UnclaimedOf(ds)|
  {
    NodesOfFacts(ds, vendor);
    LinksFromRecords(ds);
    ClaimedAreLinks(Sighted(ds), FactsOf(ds));
    EveryDeviceIsDrawn(ds, way, out);
    forall n | n in out.nodes ensures n.leaves == SeenBy(UnclaimedOf(ds), n.mac) {
      if n.mac !in Known(ds) {
        UnseenFrom(UnclaimedOf(ds), n.mac);
      }
    }
    TotalIsSeen(out.nodes, UnclaimedOf(ds));
    SeenIsAll(out.nodes, UnclaimedOf(ds));
  }

  function TotalLeaves(nodes: seq<Node>): int {
    if nodes == [] then 0 else TotalLeaves(nodes[..|nodes| - 1]) + nodes[|nodes| - 1].leaves
  }

  function TotalSeen(nodes: seq<Node>, edges: seq<Edge>): nat {
    if nodes == [] then 0 else TotalSeen(nodes[..|nodes| - 1], edges) + SeenBy(edges, nodes[|nodes| - 1].mac)
  }

  lemma {:induction false} UnseenFrom(edges: seq<Edge>, m: Mac)
    requires forall e :: e in edges ==> e.from != m
    ensures SeenBy(edges, m) == 0
  {
    if edges != [] {
      assert edges[|edges| - 1] in edges;
      UnseenFrom(edges[..|edges| - 1], m);
    }
  }

  lemma {:induction false} TotalIsSeen(nodes: seq<Node>, edges: seq<Edge>)
    requires forall n :: n in nodes ==> n.leaves == SeenBy(edges, n.mac)
    ensures TotalLeaves(nodes) == TotalSeen(nodes, edges)
  {
    if nodes != [] {
      assert nodes[|nodes| - 1] in nodes;
      TotalIsSeen(nodes[..|nodes| - 1], edges);
    }
  }

  lemma {:induction false} OneMoreSeen(nodes: seq<Node>, edges: seq<Edge>, e: Edge)
    requires DistinctMacs(nodes)
    ensures TotalSeen(nodes, edges + [e]) == TotalSeen(nodes, edges) + if e.from in Macs(nodes) then 1 else 0
  {
    assert (edges + [e])[..|edges|] == edges;
    if nodes != [] {
      var pre, n := nodes[..|nodes| - 1], nodes[|nodes| - 1];
      OneMoreSeen(pre, edges, e);
      assert forall x :: x in nodes <==> x in pre || x == n;
      assert Macs(nodes) == Macs(pre) + {n.mac};
      assert n.mac !in Macs(pre);
    }
  }

  lemma {:induction false} NothingSeen(nodes: seq<Node>)
    ensures TotalSeen(nodes, []) == 0
  {
    if nodes != [] { NothingSeen(nodes[..|nodes| - 1]); }
  }

  lemma {:induction false} SeenIsAll(nodes: seq<Node>, edges: seq<Edge>)
    requires DistinctMacs(nodes) && forall e :: e in edges ==> e.from in Macs(nodes)
    ensures TotalSeen(nodes, edges) == |edges|
  {
    if edges == [] {
      NothingSeen(nodes);
    } else {
      var pre, e := edges[..|edges| - 1], edges[|edges| - 1];
      assert edges == pre + [e] && e in edges;
      SeenIsAll(nodes, pre);
      OneMoreSeen(nodes, pre, e);
    }
  }

  const ROUTER := Device("aa:01", "router", "", "gateway", "", true, "aa:01", Some(Uplink("aa:02", 1, 1, 1000, "")), [], [])

  lemma RouterRecords()
    ensures Reported([ROUTER]) == [Edge("aa:02", "aa:01", 1, 1, 1000, ByUplink)]
    ensures Known([ROUTER]) == {"aa:01"} && Gateways([ROUTER]) == {"aa:01"}
  {
    assert "aa:02" != "aa:01" by { assert "aa:02"[4] != "aa:01"[4]; }
    assert [ROUTER][..0] == [];
    assert forall d :: d in [ROUTER] <==> d == ROUTER;
    assert ROUTER in [ROUTER];
  }

  /** Such a loop does occur: a listed router whose uplink record names another of its own addresses. */
  lemma ListedGatewayLoops(way: Mac, out: TopologyMap)
    requires Mapped([ROUTER], way, out)
    ensures exists e :: e in out.edges && e.from == e.to
  {
    var l := Edge("aa:02", "aa:01", 1, 1, 1000, ByUplink);
    RouterAliases(way);
    LoopIsDrawn([ROUTER], way, out, l, "aa:02");
  }

  lemma RouterAliases(way: Mac)
    requires way in Ways([ROUTER]) || Ways([ROUTER]) == {}
    ensures way == "aa:01" && "aa:02" in AliasesOf([ROUTER], way)
    ensures Edge("aa:02", "aa:01", 1, 1, 1000, ByUplink) in Links([ROUTER])
  {
    RouterRecords();
    var l := Edge("aa:02", "aa:01", 1, 1, 1000, ByUplink);
    assert Links([ROUTER])[0] == l && l in Links([ROUTER]);
    assert "aa:01" in Ways([ROUTER]);
    assert "aa:02" != "aa:01" by { assert "aa:02"[4] != "aa:01"[4]; }
    assert "aa:02" in Ends(Links([ROUTER]));
    assert SameBlock("aa:02", "aa:01");
  }

  const EDGE_ROUTER := Device("aa:01", "router", "", "gateway", "", true, "aa:01", None, [], [Sighting("cc:01", 3, 100)])
  const EDGE_SWITCH := Device("bb:01", "switch", "", "switch", "", true, "", Some(Uplink("aa:02", 3, 1, 1000, "")), [], [])
  const EDGE_PRINTER := Device("cc:01", "printer", "", "device", "", true, "", None, [], [])

  const RACK := [EDGE_ROUTER, EDGE_SWITCH, EDGE_PRINTER]
  const CABLED := Edge("aa:02", "bb:01", 3, 1, 1000, ByUplink)
  const GUESSED := Edge("aa:01", "cc:01", 3, 0, 100, Seen)

  lemma RackAddresses()
    ensures "aa:01" != "aa:02" && "aa:01" != "bb:01" && "aa:01" != "cc:01"
    ensures "aa:02" != "bb:01" && "aa:02" != "cc:01" && "bb:01" != "cc:01"
  {
    assert "aa:01"[4] != "aa:02"[4] && "aa:01"[0] != "bb:01"[0] && "aa:01"[0] != "cc:01"[0];
    assert "aa:02"[0] != "bb:01"[0] && "aa:02"[0] != "cc:01"[0] && "bb:01"[0] != "cc:01"[0];
  }

  lemma RackReported()
    ensures Reported(RACK) == [CABLED]
  {
    RackAddresses();
    assert RACK[..2] == [EDGE_ROUTER, EDGE_SWITCH] && RACK[..2][..1] == [EDGE_ROUTER] && [EDGE_ROUTER][..0] == [];
    assert Reported([EDGE_ROUTER]) == [];
    assert Reported([EDGE_ROUTER, EDGE_SWITCH]) == [CABLED];
  }

  lemma RackSighted()
    ensures Sighted(RACK) == [GUESSED]
  {
    RackAddresses();
    assert RACK[..2] == [EDGE_ROUTER, EDGE_SWITCH] && RACK[..2][..1] == [EDGE_ROUTER] && [EDGE_ROUTER][..0] == [];
    assert Sighted([EDGE_ROUTER]) == [GUESSED];
    assert Sighted([EDGE_ROUTER, EDGE_SWITCH]) == [GUESSED];
  }

  lemma RackKnown()
    ensures Known(RACK) == {"aa:01", "bb:01", "cc:01"} && Gateways(RACK) == {"aa:01"}
  {
    assert forall d :: d in RACK <==> d == EDGE_ROUTER || d == EDGE_SWITCH || d == EDGE_PRINTER;
    assert RACK[0] in RACK && RACK[1] in RACK && RACK[2] in RACK;
  }

  lemma RackLinks()
    ensures Links(RACK) == [CABLED, GUESSED]
  {
    RackAddresses();
    RackReported();
    RackSighted();
    RackKnown();
    OneGuess(Facts(Transit([CABLED]), Ends([CABLED]), {"aa:01", "bb:01", "cc:01"}, {"aa:01"}));
  }

  lemma OneGuess(f: Facts)
    requires f == Facts(Transit([CABLED]), Ends([CABLED]), {"aa:01", "bb:01", "cc:01"}, {"aa:01"})
    ensures Claimed([GUESSED], f) == [GUESSED]
  {
    RackAddresses();
    assert forall e :: e in [CABLED] <==> e == CABLED;
    assert Local(GUESSED, f) && Placed(GUESSED, f);
    OneClaimed(GUESSED, f);
  }

  lemma OneClaimed(e: Edge, f: Facts)
    requires Local(e, f) && Placed(e, f)
    ensures Claimed([e], f) == [e]
  {
    assert [e][..0] == [] && Claimed([], f) == [];
  }

  lemma RackWay(way: Mac)
    requires way in Ways(RACK) || Ways(RACK) == {}
    ensures way == "aa:01"
  {
    RackKnown();
    assert "aa:01" in Ways(RACK);
  }

  lemma KnownAreNoAliases(ds: seq<Device>, way: Mac)
    ensures forall m :: m in AliasesOf(ds, way) ==> m !in Known(ds)
  {
  }

  lemma EndIsAlias(ds: seq<Device>, way: Mac, e: Edge)
    requires |way| >= 2 && e in Links(ds) && e.from !in Known(ds) && e.from !in Gateways(ds) && SameBlock(e.from, way)
    ensures e.from in AliasesOf(ds, way)
  {
  }

  lemma RackAlias()
    ensures "aa:02" in AliasesOf(RACK, "aa:01")
  {
    RackAddresses();
    RackKnown();
    RackLinks();
    assert CABLED in [CABLED, GUESSED];
    RackBlock();
    EndIsAlias(RACK, "aa:01", CABLED);
  }

  lemma RackBlock()
    ensures SameBlock("aa:02", "aa:01")
  {
    assert "aa:01"[..3] == "aa:";
  }

  lemma RackKeeps(m: Mac)
    requires m in {"aa:01", "bb:01", "cc:01"}
    ensures m !in AliasesOf(RACK, "aa:01")
  {
    RackKnown();
    KnownAreNoAliases(RACK, "aa:01");
  }

  lemma RackRenames()
    ensures Rename(CABLED, AliasesOf(RACK, "aa:01"), "aa:01") == CABLED.(from := "aa:01")
    ensures Rename(GUESSED, AliasesOf(RACK, "aa:01"), "aa:01") == GUESSED
  {
    RackAlias();
    RackKeeps("aa:01");
    RackKeeps("bb:01");
    RackKeeps("cc:01");
  }

  /** Two links on cables of their own are both drawn as they are. */
  lemma TwoLinksTwoLines(ds: seq<Device>, way: Mac, out: TopologyMap, a: Edge, b: Edge)
    requires Mapped(ds, way, out) && Links(ds) == [a, b]
    requires Cable(Rename(a, AliasesOf(ds, way), way)) != Cable(Rename(b, AliasesOf(ds, way), way))
    ensures Rename(a, AliasesOf(ds, way), way) in out.edges && Rename(b, AliasesOf(ds, way), way) in out.edges
  {
    assert forall e :: e in [a, b] <==> e == a || e == b;
    assert a in Links(ds) && b in Links(ds);
    var r := LineOf(ds, way, out, a);
    var q := BuiltEdge(ds, way, out, r);
    var e := LineOf(ds, way, out, b);
    var s := BuiltEdge(ds, way, out, e);
  }

  /** With a listed router it does happen: the folded cable ends up on the port of an inferred line. */
  lemma ListedGatewayMixesPorts(way: Mac, out: TopologyMap)
    requires Mapped(RACK, way, out)
    ensures MixesPorts(out.edges)
  {
    RackWay(way);
    RackRenames();
    RackLinks();
    var r := CABLED.(from := "aa:01");
    RackCablesDiffer();
    TwoLinksTwoLines(RACK, way, out, CABLED, GUESSED);
    assert SharePort(GUESSED, r);
  }

  lemma RackCablesDiffer()
    ensures Cable(CABLED.(from := "aa:01")) != Cable(GUESSED)
  {
    RackAddresses();
    assert "bb:01" in Cable(CABLED.(from := "aa:01")) && "bb:01" !in Cable(GUESSED);
  }

  // ---------------------------------------------------------------- naming the rest

  datatype KnownMac = KnownMac(name: string, kind: string, up: bool, checkID: string)

  /** An unclaimed address the hub recognises, seen off transit and not yet on the map. */
  predicate Attachable(e: Edge, transit: set<Port>, known: map<Mac, KnownMac>, macs: set<Mac>) {
    (e.from, e.fromPort) !in transit && e.to in known && e.to !in macs
  }

  function Attached(unclaimed: seq<Edge>, transit: set<Port>, known: map<Mac, KnownMac>, macs: set<Mac>): seq<Edge> {
    if unclaimed == [] then []
    else
      var before, e := Attached(unclaimed[..|unclaimed| - 1], transit, known, macs), unclaimed[|unclaimed| - 1];
      before + if Attachable(e, transit, known, macs + Targets(before)) then [e] else []
  }

  function NamedNode(m: Mac, k: KnownMac): Node {
    Node(m, k.name, "", k.kind, "", k.up, 0, k.checkID)
  }

  /** A count taken down k times, never below zero. */
  function Reduced(leaves: int, k: nat): int {
    if leaves <= 0 then leaves else if k >= leaves then 0 else leaves - k
  }

  function WithNamed(nodes: seq<Node>, attached: seq<Edge>, known: map<Mac, KnownMac>): seq<Node>
    requires forall e :: e in attached ==> e.to in known
  {
    seq(|nodes|, i requires 0 <= i < |nodes| => nodes[i].(leaves := Reduced(nodes[i].leaves, SeenBy(attached, nodes[i].mac)))) +
    seq(|attached|, i requires 0 <= i < |attached| =>
      assert attached[i] in attached; NamedNode(attached[i].to, known[attached[i].to]))
  }

  lemma {:induction false} AttachedFacts(unclaimed: seq<Edge>, transit: set<Port>, known: map<Mac, KnownMac>, macs: set<Mac>)
    ensures var attached := Attached(unclaimed, transit, known, macs);
            && (forall e :: e in attached ==> e in unclaimed && Attachable(e, transit, known, macs))
            && (forall i, j :: 0 <= i < j < |attached| ==> attached[i].to != attached[j].to)
  {
    if unclaimed != [] {
      var pre, e := unclaimed[..|unclaimed| - 1], unclaimed[|unclaimed| - 1];
      AttachedFacts(pre, transit, known, macs);
      var before := Attached(pre, transit, known, macs);
      assert forall i :: 0 <= i < |before| ==> before[i] in before && before[i].to in Targets(before);
      assert e in unclaimed && forall x :: x in pre ==> x in unclaimed;
    }
  }

  lemma {:induction false} AttachedAreSeen(unclaimed: seq<Edge>, transit: set<Port>, known: map<Mac, KnownMac>,
                                           macs: set<Mac>, m: Mac)
    ensures SeenBy(Attached(unclaimed, transit, known, macs), m) <= SeenBy(unclaimed, m)
  {
    if unclaimed != [] {
      var pre, e := unclaimed[..|unclaimed| - 1], unclaimed[|unclaimed| - 1];
      AttachedAreSeen(pre, transit, known, macs, m);
      var before, now := Attached(pre, transit, known, macs), Attached(unclaimed, transit, known, macs);
      assert now == before || (now[..|now| - 1] == before && now[|now| - 1] == e);
    }
  }

  method IndexNodes(nodes: seq<Node>) returns (onMap: map<Mac, nat>)
    requires DistinctMacs(nodes)
    ensures onMap.Keys == Macs(nodes) && forall i :: 0 <= i < |nodes| ==> nodes[i].mac in onMap && onMap[nodes[i].mac] == i
    ensures forall m :: m in onMap ==> onMap[m] < |nodes| && nodes[onMap[m]].mac == m
  {
    onMap := map[];
    for i := 0 to |nodes|
      invariant onMap.Keys == Macs(nodes[..i])
      invariant forall j :: 0 <= j < i ==> nodes[j].mac in onMap && onMap[nodes[j].mac] == j
      invariant forall m :: m in onMap ==> onMap[m] < i && nodes[onMap[m]].mac == m
    {
      assert nodes[..i + 1] == nodes[..i] + [nodes[i]];
      assert Macs(nodes[..i + 1]) == Macs(nodes[..i]) + {nodes[i].mac};
      onMap := onMap[nodes[i].mac := i];
    }
    assert nodes[..|nodes|] == nodes;
  }

  function AsSeen(attached: seq<Edge>): seq<Edge> {
    seq(|attached|, i requires 0 <= i < |attached| => attached[i].(source := Seen))
  }

  lemma OneMoreAttached(unclaimed: seq<Edge>, i: nat, transit: set<Port>, known: map<Mac, KnownMac>, macs: set<Mac>)
    requires i < |unclaimed|
    ensures var before, e := Attached(unclaimed[..i], transit, known, macs), unclaimed[i];
            && Attached(unclaimed[..i + 1], transit, known, macs)
               == before + (if Attachable(e, transit, known, macs + Targets(before)) then [e] else [])
            && (forall a :: a in before ==> a.to in known && a.to !in macs)
            && Targets(before + [e]) == Targets(before) + {e.to}
  {
    assert unclaimed[..i + 1][..i] == unclaimed[..i];
    var before := Attached(unclaimed[..i], transit, known, macs);
    AttachedFacts(unclaimed[..i], transit, known, macs);
    assert forall x :: x in before + [unclaimed[i]] <==> x in before || x == unclaimed[i];
  }

  /** One more attachment: its node at the end, and its count taken down where it was seen. */
  lemma OneMoreNamed(nodes: seq<Node>, attached: seq<Edge>, e: Edge, known: map<Mac, KnownMac>, at: nat)
    requires DistinctMacs(nodes) && forall a :: a in attached + [e] ==> a.to in known
    requires at < |nodes| && nodes[at].mac == e.from
    ensures var before := WithNamed(nodes, attached, known);
            var leaves := before[at].leaves;
            WithNamed(nodes, attached + [e], known) ==
            (before + [NamedNode(e.to, known[e.to])])[at := before[at].(leaves := if leaves > 0 then leaves - 1 else leaves)]
  {
    assert e in attached + [e] && forall a :: a in attached ==> a in attached + [e];
    assert (attached + [e])[..|attached|] == attached;
  }

  method AttachKnown(t: TopologyMap, unclaimed: seq<Edge>, known: map<Mac, KnownMac>)
    returns (out: TopologyMap, ghost attached: seq<Edge>)
    requires DistinctMacs(t.nodes) && forall e :: e in unclaimed ==> e.from in Macs(t.nodes)
    ensures attached == Attached(unclaimed, Transit(t.edges), known, Macs(t.nodes))
    ensures forall e :: e in attached ==> e.to in known
    ensures out.nodes == WithNamed(t.nodes, attached, known)
    ensures out.edges == t.edges + AsSeen(attached)
    ensures out.root == t.root
  {
    var onMap := IndexNodes(t.nodes);
    var transit, ends := FindTransit(t.edges);
    var out' := t;
    attached := [];
    assert WithNamed(t.nodes, [], known) == t.nodes;
    for i := 0 to |unclaimed|
      invariant attached == Attached(unclaimed[..i], transit, known, Macs(t.nodes))
      invariant Naming(t, attached, known, onMap, out')
    {
      var e := unclaimed[i];
      OneMoreAttached(unclaimed, i, transit, known, Macs(t.nodes));
      if (e.from, e.fromPort) in transit {
        continue;
      }
      if e.to !in known {
        continue;
      }
      if e.to in onMap {
        continue;
      }
      onMap, out' := AttachOne(t, attached, known, onMap, out', e);
      attached := attached + [e];
    }
    assert unclaimed[..|unclaimed|] == unclaimed;
    out := out';
  }

  /** The map part-way through the loop: some attachments made, and the index that goes with it. */
  ghost predicate Naming(t: TopologyMap, attached: seq<Edge>, known: map<Mac, KnownMac>, onMap: map<Mac, nat>, out: TopologyMap) {
    && (forall e :: e in attached ==> e.to in known)
    && onMap.Keys == Macs(t.nodes) + Targets(attached)
    && (forall m :: m in Macs(t.nodes) ==> onMap[m] < |t.nodes| && t.nodes[onMap[m]].mac == m)
    && out.nodes == WithNamed(t.nodes, attached, known)
    && out.edges == t.edges + AsSeen(attached)
    && out.root == t.root
  }

  method AttachOne(ghost t: TopologyMap, ghost attached: seq<Edge>, known: map<Mac, KnownMac>,
                   onMap0: map<Mac, nat>, before: TopologyMap, e: Edge)
    returns (onMap: map<Mac, nat>, out: TopologyMap)
    requires Naming(t, attached, known, onMap0, before) && DistinctMacs(t.nodes)
    requires e.to in known && e.to !in onMap0 && e.from in Macs(t.nodes)
    requires Targets(attached + [e]) == Targets(attached) + {e.to}
    ensures Naming(t, attached + [e], known, onMap, out)
  {
    var at := onMap0[e.from];
    OneMoreNamed(t.nodes, attached, e, known, at);
    onMap := onMap0[e.to := |before.nodes|];
    var nodes := before.nodes + [NamedNode(e.to, known[e.to])];
    var edges := before.edges + [e.(source := Seen)];
    assert AsSeen(attached + [e]) == AsSeen(attached) + [e.(source := Seen)];
    if nodes[at].leaves > 0 {
      nodes := nodes[at := nodes[at].(leaves := nodes[at].leaves - 1)];
    }
    out := TopologyMap(nodes, edges, before.root);
  }

  /**
   * On a map that was built from the records, every named sighting takes one off the count of the node
   * it was made from, and the guard against going below zero never stops one.
   */
  lemma NamingConservesLeaves(ds: seq<Device>, vendor: Mac -> string, way: Mac, t: TopologyMap,
                              known: map<Mac, KnownMac>, i: nat)
    requires Mapped(ds, way, t) && Labelled(ds, vendor, t) && i < |t.nodes|
    ensures var attached := Attached(UnclaimedOf(ds), Transit(t.edges), known, Macs(t.nodes));
            && (forall e :: e in attached ==> e.to in known)
            && WithNamed(t.nodes, attached, known)[i].leaves
               == SeenBy(UnclaimedOf(ds), t.nodes[i].mac) - SeenBy(attached, t.nodes[i].mac) >= 0
  {
    SightingsAreCounted(ds, vendor, way, t);
    AttachedFacts(UnclaimedOf(ds), Transit(t.edges), known, Macs(t.nodes));
    AttachedAreSeen(UnclaimedOf(ds), Transit(t.edges), known, Macs(t.nodes), t.nodes[i].mac);
    CountTakenDown(t.nodes, UnclaimedOf(ds), Attached(UnclaimedOf(ds), Transit(t.edges), known, Macs(t.nodes)), known, i);
  }

  lemma CountTakenDown(nodes: seq<Node>, unclaimed: seq<Edge>, attached: seq<Edge>, known: map<Mac, KnownMac>, i: nat)
    requires i < |nodes| && forall e :: e in attached ==> e.to in known
    requires forall n :: n in nodes ==> n.leaves == SeenBy(unclaimed, n.mac)
    requires SeenBy(attached, nodes[i].mac) <= SeenBy(unclaimed, nodes[i].mac)
    ensures WithNamed(nodes, attached, known)[i].leaves == SeenBy(unclaimed, nodes[i].mac) - SeenBy(attached, nodes[i].mac)
  {
    assert nodes[i] in nodes;
  }

  /** Naming keeps every address drawn once and every line between drawn nodes. */
  lemma NamingKeepsTheMap(ds: seq<Device>, vendor: Mac -> string, way: Mac, t: TopologyMap, known: map<Mac, KnownMac>)
    requires Mapped(ds, way, t) && Labelled(ds, vendor, t)
    ensures var attached := Attached(UnclaimedOf(ds), Transit(t.edges), known, Macs(t.nodes));
            && (forall e :: e in attached ==> e.to in known && e.from in Macs(t.nodes))
            && DistinctMacs(WithNamed(t.nodes, attached, known))
            && Macs(WithNamed(t.nodes, attached, known)) == Macs(t.nodes) + Targets(attached)
  {
    AttachedFromTheMap(ds, vendor, way, t, known);
    NamedMacs(t.nodes, Attached(UnclaimedOf(ds), Transit(t.edges), known, Macs(t.nodes)), known);
  }

  /** What is attached is known, new to the map, seen from it, and attached once. */
  lemma AttachedFromTheMap(ds: seq<Device>, vendor: Mac -> string, way: Mac, t: TopologyMap, known: map<Mac, KnownMac>)
    requires Mapped(ds, way, t) && Labelled(ds, vendor, t)
    ensures DistinctMacs(t.nodes)
    ensures var attached := Attached(UnclaimedOf(ds), Transit(t.edges), known, Macs(t.nodes));
            && (forall e :: e in attached ==> e.to in known && e.to !in Macs(t.nodes) && e.from in Macs(t.nodes))
            && (forall i, j :: 0 <= i < j < |attached| ==> attached[i].to != attached[j].to)
  {
    SightingsAreCounted(ds, vendor, way, t);
    AttachedFacts(UnclaimedOf(ds), Transit(t.edges), known, Macs(t.nodes));
  }

  lemma NamedMacs(nodes: seq<Node>, attached: seq<Edge>, known: map<Mac, KnownMac>)
    requires DistinctMacs(nodes) && forall e :: e in attached ==> e.to in known && e.to !in Macs(nodes)
    requires forall i, j :: 0 <= i < j < |attached| ==> attached[i].to != attached[j].to
    ensures DistinctMacs(WithNamed(nodes, attached, known))
    ensures Macs(WithNamed(nodes, attached, known)) == Macs(nodes) + Targets(attached)
  {
    var all, n := WithNamed(nodes, attached, known), |nodes|;
    forall i, j | 0 <= i < j < |all| ensures all[i].mac != all[j].mac {
      if i < n <= j {
        assert nodes[i] in nodes && attached[j - n] in attached && nodes[i].mac in Macs(nodes);
      }
    }
    NamedMacsBothWays(nodes, attached, known);
  }

  lemma NamedMacsBothWays(nodes: seq<Node>, attached: seq<Edge>, known: map<Mac, KnownMac>)
    requires forall e :: e in attached ==> e.to in known
    ensures Macs(WithNamed(nodes, attached, known)) == Macs(nodes) + Targets(attached)
  {
    var all, n := WithNamed(nodes, attached, known), |nodes|;
    forall m | m in Macs(nodes) + Targets(attached) ensures m in Macs(all) {
      if m in Macs(nodes) {
        var i :| 0 <= i < n && nodes[i].mac == m;
        assert all[i] in all && all[i].mac == m;
      } else {
        var i :| 0 <= i < |attached| && attached[i].to == m;
        assert all[n + i] in all && all[n + i].mac == m;
      }
    }
    forall m | m in Macs(all) ensures m in Macs(nodes) + Targets(attached) {
      var i :| 0 <= i < |all| && all[i].mac == m;
      if i < n {
        assert nodes[i] in nodes;
      } else {
        assert attached[i - n] in attached;
      }
    }
  }
}
