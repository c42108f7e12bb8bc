/** How the logical device looks up a route.  The Go maps are visited in any order. */
module RouteLookup {
  import opened Voltha
  import opened OpenFlow
  import opened RouteSpec

  /** What the lookups and the decomposition read of a logical device; `portsNo` says of a port number whether it is an NNI. */
  datatype Agent = Agent(rootDeviceId: string, routes: Routes, rootPorts: map<uint32, uint32>, portsNo: map<uint32, bool>,
                         ports: seq<LogicalPort>)

  const NO_HOP := Hop("", 0, 0)

  predicate IsControllerPort(port: uint32) {
    port != 0 && port % 0x8000_0000 == CONTROLLER
  }

  predicate IsNni(agent: Agent, port: uint32) {
    port in agent.portsNo && agent.portsNo[port]
  }

  /** `port` is an NNI port, or there is none. */
  predicate AnyNni(agent: Agent, port: Option<uint32>) {
    if port.Some? then IsNni(agent, port.value) else forall no | no in agent.portsNo :: !agent.portsNo[no]
  }

  method GetFirstNniPort(agent: Agent) returns (port: Option<uint32>)
    ensures AnyNni(agent, port)
  {
    var todo := agent.portsNo.Keys;
    while todo != {}
      invariant forall no | no in agent.portsNo && no !in todo :: !agent.portsNo[no]
    {
      var no :| no in todo;
      if agent.portsNo[no] {
        return Some(no);
      }
      todo := todo - {no};
    }
    return None;
  }

  predicate TwoHops(routes: Routes) {
    forall key | key in routes :: |routes[key]| == 2
  }

  /** The first hop of some route from the port, or there is none. */
  predicate HalfRouteFrom(routes: Routes, ingress: uint32, r: Option<seq<Hop>>)
    requires TwoHops(routes)
  {
    if r.None? then forall key | key in routes :: key.ingress != ingress
    else exists key | key in routes :: key.ingress == ingress && r.value == [routes[key][0], NO_HOP]
  }

  method GetHalfRouteFrom(routes: Routes, ingress: uint32) returns (r: Option<seq<Hop>>)
    requires TwoHops(routes)
    ensures HalfRouteFrom(routes, ingress, r)
  {
    var todo := routes.Keys;
    while todo != {}
      invariant forall key | key in routes && key !in todo :: key.ingress != ingress
    {
      var key :| key in todo;
      if key.ingress == ingress {
        return Some([routes[key][0], NO_HOP]);
      }
      todo := todo - {key};
    }
    return None;
  }

  /** The second hop of some upstream route, or there is none. */
  predicate HalfRouteUp(agent: Agent, r: Option<seq<Hop>>)
    requires TwoHops(agent.routes)
  {
    if r.None? then forall key | key in agent.routes :: !IsNni(agent, key.egress)
    else exists key | key in agent.routes :: IsNni(agent, key.egress) && r.value == [NO_HOP, agent.routes[key][1]]
  }

  method GetHalfRouteUp(agent: Agent) returns (r: Option<seq<Hop>>)
    requires TwoHops(agent.routes)
    ensures HalfRouteUp(agent, r)
  {
    var todo := agent.routes.Keys;
    while todo != {}
      invariant forall key | key in agent.routes && key !in todo :: !IsNni(agent, key.egress)
    {
      var key :| key in todo;
      if IsNni(agent, key.egress) {
        return Some([NO_HOP, agent.routes[key][1]]);
      }
      todo := todo - {key};
    }
    return None;
  }

  function Cached(routes: Routes, ingress: uint32, egress: uint32): Option<seq<Hop>> {
    if PathID(ingress, egress) in routes then Some(routes[PathID(ingress, egress)]) else None
  }

  method GetPreCalculatedRoute(routes: Routes, ingress: uint32, egress: uint32) returns (r: Option<seq<Hop>>)
    ensures r == Cached(routes, ingress, egress)
  {
    var todo := routes.Keys;
    while todo != {}
      invariant PathID(ingress, egress) in routes ==> PathID(ingress, egress) in todo
    {
      var key :| key in todo;
      if ingress == key.ingress && egress == key.egress {
        assert key == PathID(ingress, egress);
        return Some(routes[key]);
      }
      todo := todo - {key};
    }
    return None;
  }

  /** The route between two given ports, or half of one when a port is not given. */
  ghost predicate IsRouteTo(agent: Agent, ingress: uint32, egress: uint32, r: Option<seq<Hop>>)
    requires TwoHops(agent.routes)
  {
    if ingress == 0 && IsNni(agent, egress) then HalfRouteUp(agent, r)
    else if egress == 0 then HalfRouteFrom(agent.routes, ingress, r)
    else r == Cached(agent.routes, ingress, egress)
  }

  method GetRouteTo(agent: Agent, ingress: uint32, egress: uint32) returns (r: Option<seq<Hop>>)
    requires TwoHops(agent.routes)
    ensures IsRouteTo(agent, ingress, egress, r)
  {
    if ingress == 0 && IsNni(agent, egress) {
      r := GetHalfRouteUp(agent);
    } else if egress == 0 {
      r := GetHalfRouteFrom(agent.routes, ingress);
    } else {
      r := GetPreCalculatedRoute(agent.routes, ingress, egress);
    }
  }

  /** The controller stands for an NNI port; a trap on an NNI port itself needs only that port's side. */
  ghost predicate IsRoute(agent: Agent, ingress: uint32, egress: uint32, r: Option<seq<Hop>>)
    requires TwoHops(agent.routes)
  {
    if !IsControllerPort(egress) then IsRouteTo(agent, ingress, egress, r)
    else if !IsNni(agent, ingress) then
      exists nni :: AnyNni(agent, nni) && if nni.None? then r.None? else IsRouteTo(agent, ingress, nni.value, r)
    else if |agent.routes| == 0 then
      var hop := Hop(agent.rootDeviceId, ingress, ingress);
      r == Some([hop, hop])
    else HalfRouteUp(agent, r)
  }

  method GetRoute(agent: Agent, ingress: uint32, egress: uint32) returns (r: Option<seq<Hop>>)
    requires TwoHops(agent.routes)
    ensures IsRoute(agent, ingress, egress, r)
  {
    if IsControllerPort(egress) {
      if IsNni(agent, ingress) {
        if |agent.routes| == 0 {
          var hop := Hop(agent.rootDeviceId, ingress, ingress);
          return Some([hop, hop]);
        }
        r := GetHalfRouteUp(agent);
        return;
      }
      var nni := GetFirstNniPort(agent);
      if nni.None? {
        return None;
      }
      r := GetRouteTo(agent, ingress, nni.value);
    } else {
      r := GetRouteTo(agent, ingress, egress);
    }
  }

  // On a cache that is exact for the pairs of the logical ports, the order of the visits does not matter

  /** The device knows the port under a number that is neither 0 nor that of the controller. */
  ghost predicate IsPortOf(agent: Agent, lp: LogicalPort) {
    && lp.portNo != 0 && !IsControllerPort(lp.portNo)
    && lp.portNo in agent.portsNo && agent.portsNo[lp.portNo] == lp.rootPort
  }

  ghost predicate IsNumberOf(lps: seq<LogicalPort>, no: uint32) {
    exists lp | lp in lps :: lp.portNo == no
  }

  /** The logical device knows its ports, and its route cache is exact for them. */
  ghost predicate Ready(t: Topology, lps: seq<LogicalPort>, agent: Agent) {
    && WellPlaced(t, lps) && Exactly(t, AllPairs(lps), agent.routes) && TwoHops(agent.routes)
    && (forall lp {:trigger IsPortOf(agent, lp)} | lp in lps :: IsPortOf(agent, lp))
    && (forall no {:trigger IsNumberOf(lps, no)} | no in agent.portsNo :: IsNumberOf(lps, no))
    && (forall no :: no in agent.rootPorts <==> IsNni(agent, no))
  }

  /** A half route from a UNI port has the hop of its ONU, whichever route was found first. */
  lemma HalfRouteFromUni(t: Topology, lps: seq<LogicalPort>, agent: Agent, p: Pair, r: Option<seq<Hop>>)
    requires Ready(t, lps, agent) && p in AllPairs(lps) && IsRoute(agent, p.uni.portNo, 0, r)
    ensures Fits(t, p) && r == Some([RouteUp(t, p)[0], NO_HOP])
  {
    assert IsPortOf(agent, p.uni) && IsPortOf(agent, p.nni);
    WellPlacedPairs(t, lps, AllPairs(lps));
    PairRoutes(t, AllPairs(lps), agent.routes, p);
    assert Up(p) in agent.routes && Up(p).ingress == p.uni.portNo;
    var key :| key in agent.routes && key.ingress == p.uni.portNo && r.value == [agent.routes[key][0], NO_HOP];
    SameFirstHop(t, AllPairs(lps), agent.routes, key, Up(p));
  }

  /** A half route from an NNI port starts at the OLT. */
  lemma HalfRouteFromNni(t: Topology, lps: seq<LogicalPort>, agent: Agent, p: Pair, r: Option<seq<Hop>>)
    requires Ready(t, lps, agent) && p in AllPairs(lps) && IsRoute(agent, p.nni.portNo, 0, r)
    ensures Fits(t, p) && r.Some? && |r.value| == 2 && r.value[0].deviceId == t.root
  {
    assert IsPortOf(agent, p.uni) && IsPortOf(agent, p.nni);
    WellPlacedPairs(t, lps, AllPairs(lps));
    PairRoutes(t, AllPairs(lps), agent.routes, p);
    assert Down(p) in agent.routes && Down(p).ingress == p.nni.portNo;
    var key :| key in agent.routes && key.ingress == p.nni.portNo && r.value == [agent.routes[key][0], NO_HOP];
    assert Explained(t, AllPairs(lps), agent.routes, key);
  }

  /** The route between the two ports of a pair. */
  lemma RouteOfPair(t: Topology, lps: seq<LogicalPort>, agent: Agent, p: Pair, r: Option<seq<Hop>>)
    requires Ready(t, lps, agent) && p in AllPairs(lps)
    ensures Fits(t, p)
    ensures IsRoute(agent, p.uni.portNo, p.nni.portNo, r) ==> r == Some(RouteUp(t, p))
    ensures IsRoute(agent, p.nni.portNo, p.uni.portNo, r) ==> r == Some(RouteDown(t, p))
  {
    assert IsPortOf(agent, p.uni) && IsPortOf(agent, p.nni);
    WellPlacedPairs(t, lps, AllPairs(lps));
    PairRoutes(t, AllPairs(lps), agent.routes, p);
  }

  /** A trap from a UNI port takes the route to some NNI port. */
  lemma RouteToController(t: Topology, lps: seq<LogicalPort>, agent: Agent, p: Pair, egress: uint32, r: Option<seq<Hop>>)
    returns (q: Pair)
    requires Ready(t, lps, agent) && p in AllPairs(lps)
    requires IsControllerPort(egress) && IsRoute(agent, p.uni.portNo, egress, r)
    ensures q in AllPairs(lps) && q.uni == p.uni && Fits(t, q) && r == Some(RouteUp(t, q))
  {
    assert IsPortOf(agent, p.uni) && IsPortOf(agent, p.nni);
    var nni :| AnyNni(agent, nni) && if nni.None? then r.None? else IsRouteTo(agent, p.uni.portNo, nni.value, r);
    assert IsNumberOf(lps, nni.value);
    var lp :| lp in lps && lp.portNo == nni.value;
    assert IsPortOf(agent, lp);
    q := Pair(lp, p.uni);
    RouteOfPair(t, lps, agent, q, r);
  }
}
