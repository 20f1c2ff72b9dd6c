/** The network map in terms of the records it was made from: what each of them means for lines, nodes and counts. */
module MapRecords {
  import opened Optional
  import opened Topology

  // ---------------------------------------------------------------- what a record says

  /** d names the device at the other end of its uplink. */
  predicate HangsOff(d: Device, u: Uplink) {
    d.mac != "" && d.uplink == Some(u) && u.peer != "" && u.peer != d.mac
  }

  /** d hears a neighbour on one of its ports. */
  predicate Hears(d: Device, l: Neighbour) {
    d.mac != "" && l in d.lldp && l.peer != "" && l.peer != d.mac
  }

  /** d saw an address on one of its ports. */
  predicate Sees(d: Device, s: Sighting) {
    d.mac != "" && s in d.ports && s.peer != "" && s.peer != d.mac
  }

  /** The line an uplink record stands for runs from the far end down to the device, and has both ports. */
  predicate IsUplink(e: Edge, d: Device, u: Uplink) {
    && e.from == u.peer && e.fromPort == u.remotePort && e.to == d.mac && e.toPort == u.localPort
    && e.speed == u.speed && e.source == ByUplink
  }

  /** The line of a neighbour runs from the device's port. */
  predicate IsNeighbour(e: Edge, d: Device, l: Neighbour) {
    && e.from == d.mac && e.fromPort == l.port && e.to == l.peer && e.toPort == 0 && e.speed == 0 && e.source == ByLldp
  }

  predicate IsSighting(e: Edge, d: Device, s: Sighting) {
    && e.from == d.mac && e.fromPort == s.port && e.to == s.peer && e.toPort == 0 && e.speed == s.speed && e.source == Seen
  }

  ghost predicate Says(d: Device, e: Edge) {
    (exists u :: HangsOff(d, u) && IsUplink(e, d, u)) || (exists l :: Hears(d, l) && IsNeighbour(e, d, l))
  }

  ghost predicate Saw(d: Device, e: Edge) {
    exists s :: Sees(d, s) && IsSighting(e, d, s)
  }

  lemma {:induction false} NeighboursAreRead(d: Device, n: nat)
    requires n <= |d.lldp|
    ensures forall e :: e in LldpEdges(d, n) <==>
              exists l :: l in d.lldp[..n] && l.peer != "" && l.peer != d.mac && IsNeighbour(e, d, l)
  {
    if n > 0 {
      NeighboursAreRead(d, n - 1);
      assert d.lldp[..n] == d.lldp[..n - 1] + [d.lldp[n - 1]];
      assert forall l :: l in d.lldp[..n] <==> l in d.lldp[..n - 1] || l == d.lldp[n - 1];
    }
  }

  lemma {:induction false} SightingsAreRead(d: Device, n: nat)
    requires n <= |d.ports|
    ensures forall e :: e in SightedEdges(d, n) <==>
              exists s :: s in d.ports[..n] && s.peer != "" && s.peer != d.mac && IsSighting(e, d, s)
  {
    if n > 0 {
      SightingsAreRead(d, n - 1);
      assert d.ports[..n] == d.ports[..n - 1] + [d.ports[n - 1]];
      assert forall s :: s in d.ports[..n] <==> s in d.ports[..n - 1] || s == d.ports[n - 1];
    }
  }

  lemma OneDeviceSays(d: Device)
    ensures forall e :: (d.mac != "" && (e in UplinkEdges(d) || e in LldpEdges(d, |d.lldp|))) <==> Says(d, e)
    ensures forall e :: (d.mac != "" && e in SightedEdges(d, |d.ports|)) <==> Saw(d, e)
  {
    NeighboursAreRead(d, |d.lldp|);
    SightingsAreRead(d, |d.ports|);
    assert d.lldp[..|d.lldp|] == d.lldp && d.ports[..|d.ports|] == d.ports;
    forall e | Says(d, e) ensures d.mac != "" && (e in UplinkEdges(d) || e in LldpEdges(d, |d.lldp|)) {
      if l :| Hears(d, l) && IsNeighbour(e, d, l) { assert l in d.lldp[..|d.lldp|]; }
    }
    forall e | d.mac != "" && e in UplinkEdges(d) ensures Says(d, e) {
      assert HangsOff(d, d.uplink.value) && IsUplink(e, d, d.uplink.value);
    }
    forall e | d.mac != "" && e in LldpEdges(d, |d.lldp|) ensures Says(d, e) {
      var l :| l in d.lldp[..|d.lldp|] && l.peer != "" && l.peer != d.mac && IsNeighbour(e, d, l);
      assert Hears(d, l);
    }
    forall e | d.mac != "" && e in SightedEdges(d, |d.ports|) ensures Saw(d, e) {
      var s :| s in d.ports[..|d.ports|] && s.peer != "" && s.peer != d.mac && IsSighting(e, d, s);
      assert Sees(d, s);
    }
  }

  /** The reported links are those the records name, and the sightings those they list; nothing else is read. */
  lemma {:induction false} ReadExactly(ds: seq<Device>)
    ensures forall e :: e in Reported(ds) <==> exists d :: d in ds && Says(d, e)
    ensures forall e :: e in Sighted(ds) <==> exists d :: d in ds && Saw(d, e)
  {
    if ds != [] {
      var pre, d := ds[..|ds| - 1], ds[|ds| - 1];
      ReadExactly(pre);
      OneDeviceSays(d);
      assert forall x :: x in ds <==> x in pre || x == d;
    }
  }

  // ---------------------------------------------------------------- in the order of the records

  lemma {:induction false} NeighboursInOrder(d: Device, n: nat, m: nat)
    requires n <= m <= |d.lldp|
    ensures LldpEdges(d, n) <= LldpEdges(d, m)
  {
    if n < m { NeighboursInOrder(d, n, m - 1); }
  }

  lemma {:induction false} SightingsInOrder(d: Device, n: nat, m: nat)
    requires n <= m <= |d.ports|
    ensures SightedEdges(d, n) <= SightedEdges(d, m)
  {
    if n < m { SightingsInOrder(d, n, m - 1); }
  }

  /** Of one device the uplink is read first, and then its neighbours in their order; so are its sightings. */
  lemma OneDeviceInOrder(d: Device, n: nat, m: nat)
    requires d.mac != "" && n <= |d.lldp| && m <= |d.ports|
    ensures (exists u :: HangsOff(d, u)) ==> Reported([d]) != [] && Reported([d])[0].source == ByUplink
    ensures UplinkEdges(d) + LldpEdges(d, n) <= Reported([d]) && SightedEdges(d, m) <= Sighted([d])
  {
    assert [d][..0] == [] && Reported([]) == [] && Sighted([]) == [];
    NeighboursInOrder(d, n, |d.lldp|);
    SightingsInOrder(d, m, |d.ports|);
  }

  /** The first sighting of an address that is neither in transit nor attached is the one that makes its link. */
  lemma {:induction false} FirstSightingClaims(seen: seq<Edge>, f: Facts, i: nat)
    requires i < |seen| && Local(seen[i], f) && Placed(seen[i], f)
    requires forall j :: 0 <= j < i && seen[j].to == seen[i].to ==> !Local(seen[j], f)
    ensures seen[i] in Claimed(seen, f)
  {
    var pre := seen[..|seen| - 1];
    if i == |seen| - 1 {
      ClaimedAreLinks(pre, f);
      forall e | e in Claimed(pre, f) ensures e.to != seen[i].to {
        var j :| 0 <= j < |pre| && pre[j] == e;
        assert seen[j] == e && Local(seen[j], f);
      }
    } else {
      assert forall j :: 0 <= j < |pre| ==> pre[j] == seen[j];
      FirstSightingClaims(pre, f, i);
    }
  }

  // ---------------------------------------------------------------- ports that carry links

  /** A record reports a link on this port of m. */
  ghost predicate PortReported(ds: seq<Device>, m: Mac, port: int) {
    port > 0 && exists d :: d in ds && ReportsPort(d, m, port)
  }

  ghost predicate ReportsPort(d: Device, m: Mac, port: int) {
    || (d.mac == m && exists l :: Hears(d, l) && l.port == port)
    || (exists u :: HangsOff(d, u) && ((u.peer == m && u.remotePort == port) || (d.mac == m && u.localPort == port)))
  }

  /** A record reports a link of m. */
  ghost predicate EndReported(ds: seq<Device>, m: Mac) {
    exists d :: d in ds && ReportsEnd(d, m)
  }

  ghost predicate ReportsEnd(d: Device, m: Mac) {
    (exists l :: Hears(d, l) && (m == d.mac || m == l.peer)) || (exists u :: HangsOff(d, u) && (m == d.mac || m == u.peer))
  }

  lemma SaysPort(d: Device, m: Mac, port: int)
    requires port > 0
    ensures ReportsPort(d, m, port) <==>
            exists e :: Says(d, e) && ((e.from == m && e.fromPort == port) || (e.to == m && e.toPort == port))
  {
    if l :| d.mac == m && Hears(d, l) && l.port == port {
      var e := Edge(d.mac, l.peer, l.port, 0, 0, ByLldp);
      assert IsNeighbour(e, d, l) && Says(d, e);
    }
    if u :| HangsOff(d, u) && ((u.peer == m && u.remotePort == port) || (d.mac == m && u.localPort == port)) {
      var e := Edge(u.peer, d.mac, u.remotePort, u.localPort, u.speed, ByUplink);
      assert IsUplink(e, d, u) && Says(d, e);
    }
  }

  lemma SaysEnd(d: Device, m: Mac)
    ensures ReportsEnd(d, m) <==> exists e :: Says(d, e) && (e.from == m || e.to == m)
  {
    if l :| Hears(d, l) && (m == d.mac || m == l.peer) {
      var e := Edge(d.mac, l.peer, l.port, 0, 0, ByLldp);
      assert IsNeighbour(e, d, l) && Says(d, e);
    }
    if u :| HangsOff(d, u) && (m == d.mac || m == u.peer) {
      var e := Edge(u.peer, d.mac, u.remotePort, u.localPort, u.speed, ByUplink);
      assert IsUplink(e, d, u) && Says(d, e);
    }
  }

  /** What counts as transit, and as attached, is what the records say it is. */
  lemma TransitIsReported(ds: seq<Device>, m: Mac, port: int)
    ensures (m, port) in Transit(Reported(ds)) <==> PortReported(ds, m, port)
    ensures m in Ends(Reported(ds)) <==> EndReported(ds, m)
  {
    ReadExactly(ds);
    forall d | d in ds ensures port > 0 ==>
      (ReportsPort(d, m, port) <==>
       exists e :: Says(d, e) && ((e.from == m && e.fromPort == port) || (e.to == m && e.toPort == port)))
    {
      if port > 0 { SaysPort(d, m, port); }
    }
    forall d | d in ds ensures ReportsEnd(d, m) <==> exists e :: Says(d, e) && (e.from == m || e.to == m) {
      SaysEnd(d, m);
    }
  }

  /** A link inferred from what was seen, or a leaf counted, on this port of m. */
  predicate ClaimedOn(ds: seq<Device>, m: Mac, port: int) {
    || (exists e :: e in Links(ds) && e.source == Seen && e.from == m && e.fromPort == port)
    || (exists e :: e in UnclaimedOf(ds) && e.from == m && e.fromPort == port)
  }

  lemma ReportedPortsClaimNothing(ds: seq<Device>, m: Mac, port: int)
    requires PortReported(ds, m, port)
    ensures !ClaimedOn(ds, m, port)
  {
    TransitIsReported(ds, m, port);
    LinksFacts(ds);
    ClaimedAreLinks(Sighted(ds), FactsOf(ds));
  }

  /** No link is inferred and no leaf counted on a port where a device hears a neighbour. */
  lemma NeighbourPortsClaimNothing(ds: seq<Device>, d: Device, l: Neighbour)
    requires d in ds && Hears(d, l) && l.port > 0
    ensures !ClaimedOn(ds, d.mac, l.port)
  {
    assert ReportsPort(d, d.mac, l.port);
    ReportedPortsClaimNothing(ds, d.mac, l.port);
  }

  /** Nor at either end of an uplink. */
  lemma UplinkPortsClaimNothing(ds: seq<Device>, d: Device, u: Uplink)
    requires d in ds && HangsOff(d, u)
    ensures u.localPort > 0 ==> !ClaimedOn(ds, d.mac, u.localPort)
    ensures u.remotePort > 0 ==> !ClaimedOn(ds, u.peer, u.remotePort)
  {
    if u.localPort > 0 {
      assert ReportsPort(d, d.mac, u.localPort);
      ReportedPortsClaimNothing(ds, d.mac, u.localPort);
    }
    if u.remotePort > 0 {
      assert ReportsPort(d, u.peer, u.remotePort);
      ReportedPortsClaimNothing(ds, u.peer, u.remotePort);
    }
  }

  // ---------------------------------------------------------------- what becomes of a sighting

  /** The controller has a record of m, or names it as the other end of an uplink. */
  predicate OnRecord(ds: seq<Device>, m: Mac) {
    || (m != "" && exists d :: d in ds && d.mac == m)
    || (exists d :: d in ds && d.uplink.Some? && HangsOff(d, d.uplink.value) && d.uplink.value.peer == m
                    && d.uplink.value.peerName != "")
  }

  predicate NamesWay(d: Device, g: Mac) { d.mac != "" && d.gateway == g && g != "" }

  predicate IsWayOut(ds: seq<Device>, g: Mac) { exists d :: d in ds && NamesWay(d, g) }

  lemma KnownIsOnRecord(ds: seq<Device>, m: Mac)
    ensures m in Known(ds) <==> OnRecord(ds, m)
    ensures m in Listed(ds) <==> m != "" && exists d :: d in ds && d.mac == m
    ensures m in Gateways(ds) <==> IsWayOut(ds, m)
  {
  }

  /**
   * An address seen on a port that carries a reported link, or reported elsewhere, means nothing. Otherwise it is
   * one inferred link if it is on record or a way out, and a leaf of the device that saw it if not.
   */
  lemma WhatBecomesOfASighting(ds: seq<Device>, d: Device, s: Sighting, e: Edge)
    requires d in ds && Sees(d, s) && IsSighting(e, d, s)
    ensures if PortReported(ds, d.mac, s.port) || EndReported(ds, s.peer) then e !in Links(ds) && e !in UnclaimedOf(ds)
            else if OnRecord(ds, s.peer) || IsWayOut(ds, s.peer) then
              e !in UnclaimedOf(ds) && exists l :: l in Links(ds) && l.source == Seen && l.to == s.peer
            else e in UnclaimedOf(ds) && e !in Links(ds)
  {
    TransitIsReported(ds, d.mac, s.port);
    TransitIsReported(ds, s.peer, 1);
    KnownIsOnRecord(ds, s.peer);
    ReadExactly(ds);
    assert Saw(d, e);
    LinksFacts(ds);
    ClaimedAreLinks(Sighted(ds), FactsOf(ds));
    SightingsReportNothing(ds, e);
    if !PortReported(ds, d.mac, s.port) && !EndReported(ds, s.peer) && (OnRecord(ds, s.peer) || IsWayOut(ds, s.peer)) {
      assert e.to in Targets(Claimed(Sighted(ds), FactsOf(ds)));
      var l :| l in Claimed(Sighted(ds), FactsOf(ds)) && l.to == e.to;
      assert l in Links(ds);
    }
  }

  lemma SightingsReportNothing(ds: seq<Device>, e: Edge)
    requires e.source == Seen
    ensures e !in Reported(ds)
  {
    LinksFromRecords(ds);
  }

  /** The links other than the inferred ones are those the records name. */
  lemma ReportedLinksAreRecords(ds: seq<Device>, e: Edge)
    ensures e in Links(ds) && e.source != Seen <==> exists d :: d in ds && Says(d, e)
  {
    ReadExactly(ds);
    LinksFacts(ds);
    LinksFromRecords(ds);
  }

  /** Every inferred link is a sighting, and so is every leaf. */
  lemma InferredLinksAreSightings(ds: seq<Device>, e: Edge)
    requires (e in Links(ds) && e.source == Seen) || e in UnclaimedOf(ds)
    ensures exists d :: d in ds && Saw(d, e)
  {
    ReadExactly(ds);
    ClaimedAreLinks(Sighted(ds), FactsOf(ds));
    if e in Links(ds) && e.source == Seen { SightingsReportNothing(ds, e); }
  }

  lemma ReportedComeFirst(ds: seq<Device>)
    ensures forall k :: 0 <= k < |Reported(ds)| ==> Links(ds)[k].source != Seen
  {
    LinksFromRecords(ds);
    assert forall k :: 0 <= k < |Reported(ds)| ==> Links(ds)[k] == Reported(ds)[k] && Reported(ds)[k] in Reported(ds);
  }

  /** No two inferred links lead to one address. */
  lemma InferredLinksDiffer(ds: seq<Device>, i: nat, j: nat)
    requires i < j < |Links(ds)| && Links(ds)[i].source == Seen && Links(ds)[j].source == Seen
    ensures Links(ds)[i].to != Links(ds)[j].to
  {
    var n, claimed := |Reported(ds)|, Claimed(Sighted(ds), FactsOf(ds));
    ReportedComeFirst(ds);
    assert Links(ds) == Reported(ds) + claimed && n <= i;
    ClaimedAreLinks(Sighted(ds), FactsOf(ds));
    assert claimed[i - n].to != claimed[j - n].to;
  }

  // ---------------------------------------------------------------- every record has its line

  /** An address as it is drawn: the way out also under its other addresses. */
  function Drawn(ds: seq<Device>, way: Mac, m: Mac): Mac {
    if m in AliasesOf(ds, way) then way else m
  }

  predicate Joins(o: Edge, a: Mac, b: Mac) { (o.from == a && o.to == b) || (o.from == b && o.to == a) }

  lemma SameCable(o: Edge, e: Edge)
    requires Cable(o) == Cable(e)
    ensures Joins(o, e.from, e.to)
  {
    assert o.from in Cable(e) && o.to in Cable(e) && e.from in Cable(o) && e.to in Cable(o);
  }

  lemma LinkIsDrawn(ds: seq<Device>, way: Mac, out: TopologyMap, l: Edge) returns (o: Edge)
    requires Mapped(ds, way, out) && l in Links(ds)
    ensures o in out.edges && Joins(o, Drawn(ds, way, l.from), Drawn(ds, way, l.to)) && Detail(l) <= Detail(o)
  {
    o := LineOf(ds, way, out, l);
    SameCable(o, Rename(l, AliasesOf(ds, way), way));
  }

  lemma ListedIsDrawnAsItself(ds: seq<Device>, way: Mac, d: Device)
    requires d in ds && d.mac != ""
    ensures Drawn(ds, way, d.mac) == d.mac
  {
    assert d.mac in Listed(ds);
  }

  /** A neighbour is joined to the device that hears it. */
  lemma NeighboursAreJoined(ds: seq<Device>, way: Mac, out: TopologyMap, d: Device, l: Neighbour)
    requires Mapped(ds, way, out) && d in ds && Hears(d, l)
    ensures exists o :: o in out.edges && Joins(o, d.mac, Drawn(ds, way, l.peer))
  {
    var e := Edge(d.mac, l.peer, l.port, 0, 0, ByLldp);
    assert IsNeighbour(e, d, l) && Says(d, e);
    ReadExactly(ds);
    ListedIsDrawnAsItself(ds, way, d);
    var o := LinkIsDrawn(ds, way, out, e);
  }

  /** A device is joined to what it hangs off, by an uplink record, whatever else is known of that cable. */
  lemma UplinksAreJoined(ds: seq<Device>, way: Mac, out: TopologyMap, d: Device, u: Uplink)
    requires Mapped(ds, way, out) && d in ds && HangsOff(d, u)
    ensures exists o :: o in out.edges && Joins(o, d.mac, Drawn(ds, way, u.peer)) && o.source == ByUplink
  {
    var e := Edge(u.peer, d.mac, u.remotePort, u.localPort, u.speed, ByUplink);
    assert IsUplink(e, d, u) && Says(d, e);
    ReadExactly(ds);
    ListedIsDrawnAsItself(ds, way, d);
    var o := LinkIsDrawn(ds, way, out, e);
  }

  function PortsOf(e: Edge): nat { (if e.fromPort > 0 then 1 else 0) + (if e.toPort > 0 then 1 else 0) }

  /** An uplink record is worth more than any other, and otherwise the one that names more ports. */
  predicate Better(e: Edge, q: Edge) {
    if e.source == ByUplink then q.source != ByUplink || PortsOf(e) > PortsOf(q)
    else q.source != ByUplink && PortsOf(e) > PortsOf(q)
  }

  /** Two links that are drawn between the same addresses. */
  predicate Parallel(ds: seq<Device>, way: Mac, e: Edge, q: Edge) {
    Joins(Rename(e, AliasesOf(ds, way), way), Drawn(ds, way, q.from), Drawn(ds, way, q.to))
  }

  lemma BetterHasMoreDetail(e: Edge, q: Edge)
    ensures Better(e, q) <==> Detail(e) > Detail(q)
  {
  }

  lemma ParallelIsOneCable(ds: seq<Device>, way: Mac, i: nat, j: nat)
    requires i < |Links(ds)| && j < |Links(ds)|
    ensures Parallel(ds, way, Links(ds)[i], Links(ds)[j])
            <==> Cable(FoldedLinks(ds, way)[j]) == Cable(FoldedLinks(ds, way)[i])
  {
    var a, b := FoldedLinks(ds, way)[i], FoldedLinks(ds, way)[j];
    if Cable(a) == Cable(b) { SameCable(a, b); }
  }

  lemma BestCopyBeats(ds: seq<Device>, way: Mac, i: nat, j: nat)
    requires i < |Links(ds)| == |FoldedLinks(ds, way)| && BestCopy(FoldedLinks(ds, way), i) && j < |Links(ds)|
    requires Parallel(ds, way, Links(ds)[i], Links(ds)[j])
    ensures !Better(Links(ds)[j], Links(ds)[i]) && (j < i ==> Better(Links(ds)[i], Links(ds)[j]))
  {
    ParallelIsOneCable(ds, way, i, j);
    BetterHasMoreDetail(Links(ds)[j], Links(ds)[i]);
    BetterHasMoreDetail(Links(ds)[i], Links(ds)[j]);
  }

  /** Of the links between two addresses the line drawn is none that another is better than, and the first of those. */
  lemma BestRecordIsDrawn(ds: seq<Device>, way: Mac, out: TopologyMap, o: Edge) returns (i: nat)
    requires Mapped(ds, way, out) && o in out.edges
    ensures i < |Links(ds)| && o == Rename(Links(ds)[i], AliasesOf(ds, way), way)
    ensures forall j :: 0 <= j < |Links(ds)| && Parallel(ds, way, Links(ds)[i], Links(ds)[j]) ==>
              !Better(Links(ds)[j], Links(ds)[i]) && (j < i ==> Better(Links(ds)[i], Links(ds)[j]))
  {
    i := DrawnCopy(ds, way, out, o);
    forall j | 0 <= j < |Links(ds)| && Parallel(ds, way, Links(ds)[i], Links(ds)[j])
      ensures !Better(Links(ds)[j], Links(ds)[i]) && (j < i ==> Better(Links(ds)[i], Links(ds)[j]))
    {
      BestCopyBeats(ds, way, i, j);
    }
  }

  /** Every line drawn is a record, with its ports and speed, between the addresses as they are drawn. */
  lemma LinesAreRecords(ds: seq<Device>, way: Mac, out: TopologyMap, o: Edge) returns (d: Device, e: Edge)
    requires Mapped(ds, way, out) && o in out.edges
    ensures d in ds && (Says(d, e) || Saw(d, e)) && o.from == Drawn(ds, way, e.from) && o.to == Drawn(ds, way, e.to)
    ensures o.fromPort == e.fromPort && o.toPort == e.toPort && o.speed == e.speed && o.source == e.source
  {
    e := BuiltEdge(ds, way, out, o);
    if e.source == Seen {
      InferredLinksAreSightings(ds, e);
      d :| d in ds && Saw(d, e);
    } else {
      ReportedLinksAreRecords(ds, e);
      d :| d in ds && Says(d, e);
    }
  }

  // ---------------------------------------------------------------- the way out and its other addresses

  predicate Linked(ds: seq<Device>, m: Mac) { exists l :: l in Links(ds) && (l.from == m || l.to == m) }

  lemma LinkedMeansEnd(ds: seq<Device>, m: Mac)
    ensures m in Ends(Links(ds)) <==> Linked(ds, m)
  {
  }

  /** An address is drawn as the way out's own exactly if it is linked, not on record, named by nobody as a way out
      that gets drawn, and differs from it at most in the last two characters. */
  lemma FoldedExactly(ds: seq<Device>, way: Mac, m: Mac)
    ensures m in AliasesOf(ds, way) <==>
            && |way| >= 2 && |m| == |way| && m[..|m| - 2] == way[..|way| - 2]
            && Linked(ds, m) && !OnRecord(ds, m) && m !in Ways(ds)
  {
    KnownIsOnRecord(ds, m);
    LinkedMeansEnd(ds, m);
    if |way| >= 2 && |m| == |way| {
      assert way[..|way| - 2] <= m <==> m[..|m| - 2] == way[..|way| - 2];
    }
  }

  lemma {:induction false} VotesMeanVoters(ds: seq<Device>, g: Mac)
    ensures Votes(ds, g) >= 1 <==> exists i :: 0 <= i < |ds| && NamesWay(ds[i], g)
    ensures Votes(ds, g) >= 2 <==> exists i, j :: 0 <= i < j < |ds| && NamesWay(ds[i], g) && NamesWay(ds[j], g)
  {
    if ds != [] {
      var pre, n := ds[..|ds| - 1], |ds| - 1;
      VotesMeanVoters(pre, g);
      assert forall i :: 0 <= i < n ==> pre[i] == ds[i];
      if Votes(pre, g) >= 1 && NamesWay(ds[n], g) {
        var i :| 0 <= i < n && NamesWay(pre[i], g);
        assert NamesWay(ds[i], g) && i < n;
      }
      if Votes(pre, g) >= 2 {
        var i, j :| 0 <= i < j < n && NamesWay(pre[i], g) && NamesWay(pre[j], g);
        assert NamesWay(ds[i], g) && NamesWay(ds[j], g);
      }
      if i, j :| 0 <= i < j < |ds| && NamesWay(ds[i], g) && NamesWay(ds[j], g) {
        assert NamesWay(pre[i], g);
        assert j < n ==> NamesWay(pre[j], g);
      }
    }
  }

  /** A way out is one that a device names and that is on record or linked anyway, or that two devices name. */
  lemma WaysExactly(ds: seq<Device>, g: Mac)
    ensures g in Ways(ds) <==>
            && IsWayOut(ds, g)
            && (|| OnRecord(ds, g) || Linked(ds, g)
                || exists i, j :: 0 <= i < j < |ds| && NamesWay(ds[i], g) && NamesWay(ds[j], g))
  {
    KnownIsOnRecord(ds, g);
    LinkedMeansEnd(ds, g);
    VotesMeanVoters(ds, g);
  }

  /** A way out that is drawn is the root, and otherwise the root is a node with the most lines. */
  lemma RootIsTheWayOut(ds: seq<Device>, way: Mac, out: TopologyMap)
    requires Mapped(ds, way, out) && Rooted(way, out)
    ensures way in Macs(out.nodes) ==> out.root == way
    ensures way !in Macs(out.nodes) ==> forall m :: m in Macs(out.nodes) ==> Lines(out.edges, m) <= Lines(out.edges, out.root)
    ensures (exists g :: g in Ways(ds)) ==> way in Ways(ds)
  {
    forall m ensures Lines(out.edges, m) == Degree(out.edges, m) { DegreeIsLines(out.edges, m); }
    RootIsDrawn(ds, way, out);
  }

  /** The places of the lines that start, and of those that end, at m. */
  function Starts(edges: seq<Edge>, m: Mac): set<int> { set i | 0 <= i < |edges| && edges[i].from == m }

  function Stops(edges: seq<Edge>, m: Mac): set<int> { set i | 0 <= i < |edges| && edges[i].to == m }

  /** How many line ends are at m. */
  function Lines(edges: seq<Edge>, m: Mac): nat { |Starts(edges, m)| + |Stops(edges, m)| }

  lemma OneMoreStart(edges: seq<Edge>, m: Mac)
    requires edges != []
    ensures |Starts(edges, m)| == |Starts(edges[..|edges| - 1], m)| + if edges[|edges| - 1].from == m then 1 else 0
  {
    var pre, n := edges[..|edges| - 1], |edges| - 1;
    var before := Starts(pre, m);
    assert n !in before;
    assert Starts(edges, m) == if edges[n].from == m then before + {n} else before;
  }

  lemma OneMoreStop(edges: seq<Edge>, m: Mac)
    requires edges != []
    ensures |Stops(edges, m)| == |Stops(edges[..|edges| - 1], m)| + if edges[|edges| - 1].to == m then 1 else 0
  {
    var pre, n := edges[..|edges| - 1], |edges| - 1;
    var before := Stops(pre, m);
    assert n !in before;
    assert Stops(edges, m) == if edges[n].to == m then before + {n} else before;
  }

  lemma {:induction false} DegreeIsLines(edges: seq<Edge>, m: Mac)
    ensures Degree(edges, m) == Lines(edges, m)
  {
    if edges != [] {
      DegreeIsLines(edges[..|edges| - 1], m);
      OneMoreStart(edges, m);
      OneMoreStop(edges, m);
    }
  }

  lemma {:induction false} SeenByCounts(edges: seq<Edge>, m: Mac)
    ensures SeenBy(edges, m) == |Starts(edges, m)|
  {
    if edges != [] {
      SeenByCounts(edges[..|edges| - 1], m);
      OneMoreStart(edges, m);
    }
  }

  /** The count on a node is that of the leaves its device saw. */
  lemma LeavesAreCounted(ds: seq<Device>, vendor: Mac -> string, way: Mac, out: TopologyMap, n: Node)
    requires Mapped(ds, way, out) && Labelled(ds, vendor, out) && n in out.nodes
    ensures n.leaves == |Starts(UnclaimedOf(ds), n.mac)|
  {
    SightingsAreCounted(ds, vendor, way, out);
    SeenByCounts(UnclaimedOf(ds), n.mac);
  }

  // ---------------------------------------------------------------- what the nodes say

  function FirstOf(a: string, b: string): string { if a == "" then b else a }

  /** Record i is the last of its address. */
  predicate LastRecord(ds: seq<Device>, i: nat, m: Mac) {
    i < |ds| && ds[i].mac == m && forall j :: i < j < |ds| ==> ds[j].mac != m
  }

  predicate ShowsRecord(n: Node, d: Device) {
    && n.mac == d.mac && n.name == FirstOf(d.name, FirstOf(d.model, d.mac))
    && n.model == d.model && n.kind == d.kind && n.ip == d.ip && n.up == d.up && n.leaves == 0 && n.checkID == ""
  }

  lemma RecordBecomesNode(ds: seq<Device>)
    requires ds != [] && ds[|ds| - 1].mac != ""
    ensures var d := ds[|ds| - 1]; d.mac in KnownNodes(ds) && ShowsRecord(KnownNodes(ds)[d.mac], d)
  {
  }

  lemma OthersStay(nodes: map<Mac, Node>, d: Device, m: Mac)
    requires m in nodes && m != d.mac
    ensures m in WithDevice(nodes, d) && WithDevice(nodes, d)[m] == nodes[m]
  {
  }

  lemma OtherRecordsStay(ds: seq<Device>, m: Mac)
    requires ds != [] && ds[|ds| - 1].mac != m && m in KnownNodes(ds[..|ds| - 1])
    ensures m in KnownNodes(ds) && KnownNodes(ds)[m] == KnownNodes(ds[..|ds| - 1])[m]
  {
    OthersStay(KnownNodes(ds[..|ds| - 1]), ds[|ds| - 1], m);
  }

  lemma {:induction false} RecordsBecomeNodes(ds: seq<Device>, m: Mac) returns (i: nat)
    requires m in Listed(ds)
    ensures m in KnownNodes(ds) && LastRecord(ds, i, m) && ShowsRecord(KnownNodes(ds)[m], ds[i])
  {
    var pre := ds[..|ds| - 1];
    if ds[|ds| - 1].mac == m {
      i := |ds| - 1;
      RecordBecomesNode(ds);
    } else {
      OneMoreDevice(ds);
      i := RecordsBecomeNodes(pre, m);
      OtherRecordsStay(ds, m);
      assert forall j :: 0 <= j < |pre| ==> pre[j] == ds[j];
    }
  }

  /** The other end of an uplink that is not in the list is a switch under the name its neighbour gives it. */
  predicate ShowsPeer(n: Node, m: Mac, d: Device) {
    && d.uplink.Some? && HangsOff(d, d.uplink.value) && d.uplink.value.peer == m && d.uplink.value.peerName != ""
    && n == Node(m, d.uplink.value.peerName, "", "switch", "", true, 0, "")
  }

  lemma {:induction false} NamedPeersBecomeNodes(ds: seq<Device>, m: Mac)
    requires m in NamedPeers(ds) && m !in Listed(ds)
    ensures m in KnownNodes(ds) && exists d :: d in ds && ShowsPeer(KnownNodes(ds)[m], m, d)
  {
    KnownNodesAreKnown(ds);
    var pre, d := ds[..|ds| - 1], ds[|ds| - 1];
    OneMoreDevice(ds);
    KnownNodesAreKnown(pre);
    assert forall x :: x in pre ==> x in ds;
    if m in NamedPeers(pre) {
      NamedPeersBecomeNodes(pre, m);
      assert KnownNodes(ds)[m] == KnownNodes(pre)[m];
    } else {
      assert m !in KnownNodes(pre) && ShowsPeer(KnownNodes(ds)[m], m, d) && d in ds;
    }
  }

  /** The node of a device in the list says what its last record says, and that it is the gateway if it is. */
  lemma ListedNodesShowTheirRecords(ds: seq<Device>, vendor: Mac -> string, way: Mac, out: TopologyMap, n: Node)
    returns (i: nat)
    requires Mapped(ds, way, out) && Labelled(ds, vendor, out) && n in out.nodes && n.mac in Listed(ds)
    ensures LastRecord(ds, i, n.mac) && ShowsRecord(n.(kind := ds[i].kind, leaves := 0), ds[i])
    ensures n.kind == if n.mac in Ways(ds) then "gateway" else ds[i].kind
  {
    i := RecordsBecomeNodes(ds, n.mac);
    KnownNodesAreKnown(ds);
    KnownNodeShows(ds, vendor, n.mac);
    assert n == NodesOf(ds, vendor)[n.mac];
  }

  /** What a node on record says beyond its record: the leaves counted, and that it is the gateway. */
  lemma KnownNodeShows(ds: seq<Device>, vendor: Mac -> string, m: Mac)
    requires m in Known(ds)
    ensures m in KnownNodes(ds) && m in NodesOf(ds, vendor)
    ensures var n, k := NodesOf(ds, vendor)[m], KnownNodes(ds)[m];
            n.(kind := k.kind, leaves := k.leaves) == k && n.kind == if m in Ways(ds) then "gateway" else k.kind
  {
    KnownNodesAreKnown(ds);
  }

  /** A node that only a neighbour names is a switch of that name, and the gateway if it is the way out. */
  lemma NamedNodesShowTheirNames(ds: seq<Device>, vendor: Mac -> string, way: Mac, out: TopologyMap, n: Node)
    requires Mapped(ds, way, out) && Labelled(ds, vendor, out) && n in out.nodes
    requires n.mac in NamedPeers(ds) && n.mac !in Listed(ds)
    ensures exists d :: d in ds && ShowsPeer(n.(kind := "switch", leaves := 0), n.mac, d)
    ensures n.kind == if n.mac in Ways(ds) then "gateway" else "switch"
  {
    NamedPeersBecomeNodes(ds, n.mac);
    KnownNodesAreKnown(ds);
    var d :| d in ds && ShowsPeer(KnownNodes(ds)[n.mac], n.mac, d);
    KnownNodeShows(ds, vendor, n.mac);
    assert n == NodesOf(ds, vendor)[n.mac];
    assert ShowsPeer(n.(kind := "switch", leaves := 0), n.mac, d);
  }

  /** Anything else is the gateway, or a device named after its maker. */
  lemma InventedNodesSayLittle(ds: seq<Device>, vendor: Mac -> string, way: Mac, out: TopologyMap, n: Node)
    requires Mapped(ds, way, out) && Labelled(ds, vendor, out) && n in out.nodes && !OnRecord(ds, n.mac)
    ensures n == if n.mac in Ways(ds) then Node(n.mac, "gateway", "", "gateway", "", true, 0, "")
                 else Node(n.mac, FirstOf(vendor(n.mac), n.mac), "", "device", "", true, 0, "")
  {
    KnownIsOnRecord(ds, n.mac);
    KnownNodesAreKnown(ds);
    assert n == NodesOf(ds, vendor)[n.mac];
  }

  /** Everything on record is drawn, and everything else that is drawn is at the end of a line. */
  lemma DrawnExactly(ds: seq<Device>, way: Mac, out: TopologyMap, m: Mac)
    requires Mapped(ds, way, out)
    ensures m in Macs(out.nodes) <==> OnRecord(ds, m) || exists o :: o in out.edges && (o.from == m || o.to == m)
  {
    KnownIsOnRecord(ds, m);
    LinesAndInventionsMeet(ds, way, out);
    FoldedFacts(ds, way);
  }

  // ---------------------------------------------------------------- naming

  /** This port carries a line of the map. */
  predicate CarriesLine(edges: seq<Edge>, m: Mac, port: int) {
    port > 0 && exists e :: e in edges && ((e.from == m && e.fromPort == port) || (e.to == m && e.toPort == port))
  }

  lemma {:induction false} AttachableIsAttached(unclaimed: seq<Edge>, transit: set<Port>, known: map<Mac, KnownMac>,
                                                macs: set<Mac>, e: Edge)
    requires e in unclaimed && Attachable(e, transit, known, macs)
    ensures e.to in Targets(Attached(unclaimed, transit, known, macs))
  {
    var pre, last := unclaimed[..|unclaimed| - 1], unclaimed[|unclaimed| - 1];
    var before, now := Attached(pre, transit, known, macs), Attached(unclaimed, transit, known, macs);
    assert Targets(before) <= Targets(now) by { assert forall x :: x in before ==> x in now; }
    if e == last {
      if e.to !in Targets(before) { assert now == before + [e] && e in now; }
    } else {
      assert e in pre;
      AttachableIsAttached(pre, transit, known, macs, e);
    }
  }

  /** A leaf the hub knows, off the ports that carry lines and not drawn yet, becomes a node, and nothing else does. */
  lemma NamedExactly(ds: seq<Device>, vendor: Mac -> string, way: Mac, t: TopologyMap, known: map<Mac, KnownMac>, m: Mac)
    requires Mapped(ds, way, t) && Labelled(ds, vendor, t)
    ensures var attached := Attached(UnclaimedOf(ds), Transit(t.edges), known, Macs(t.nodes));
            m in Targets(attached) <==>
            && m in known && m !in Macs(t.nodes)
            && exists e :: e in UnclaimedOf(ds) && e.to == m && !CarriesLine(t.edges, e.from, e.fromPort)
  {
    var leaves, transit, macs := UnclaimedOf(ds), Transit(t.edges), Macs(t.nodes);
    AttachedFacts(leaves, transit, known, macs);
    forall e: Edge ensures (e.from, e.fromPort) in transit <==> CarriesLine(t.edges, e.from, e.fromPort) {
    }
    if m in known && m !in macs {
      if e :| e in leaves && e.to == m && !CarriesLine(t.edges, e.from, e.fromPort) {
        AttachableIsAttached(leaves, transit, known, macs, e);
      }
    }
  }

  /** It carries what the hub knows of it, and hangs off the port it was seen on. */
  lemma NamedNodesSayWhatIsKnown(nodes: seq<Node>, attached: seq<Edge>, known: map<Mac, KnownMac>, e: Edge)
    requires e in attached && forall a :: a in attached ==> a.to in known
    ensures exists n :: n in WithNamed(nodes, attached, known) && n.mac == e.to
              && n.name == known[e.to].name && n.kind == known[e.to].kind && n.up == known[e.to].up
              && n.checkID == known[e.to].checkID && n.leaves == 0 && n.model == "" && n.ip == ""
    ensures exists o :: o in AsSeen(attached) && o.from == e.from && o.fromPort == e.fromPort && o.to == e.to
              && o.toPort == e.toPort && o.speed == e.speed && o.source == Seen
  {
    var i :| 0 <= i < |attached| && attached[i] == e;
    var n := WithNamed(nodes, attached, known)[|nodes| + i];
    assert n in WithNamed(nodes, attached, known) && n == NamedNode(e.to, known[e.to]);
    assert AsSeen(attached)[i] in AsSeen(attached);
  }
}
