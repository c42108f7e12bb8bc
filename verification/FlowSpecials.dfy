/** Flows that are not between a UNI port and an NNI port: traps on NNI ports, multicast and traps without a port. */
module FlowSpecials {
  import opened Voltha
  import opened OpenFlow
  import opened RouteSpec
  import opened RouteLookup
  import opened FlowDecomposition
  import opened FlowRules

  // The second hop of some upstream route

  /** A half route to the NNI side ends at the OLT, at whichever NNI port. */
  lemma HalfRouteUpIs(t: Topology, lps: seq<LogicalPort>, agent: Agent, r: Option<seq<Hop>>) returns (q: Pair)
    requires Ready(t, lps, agent) && HalfRouteUp(agent, r) && r.Some?
    ensures q in AllPairs(lps) && Fits(t, q) && r == Some([NO_HOP, RouteUp(t, q)[1]])
  {
    var key :| key in agent.routes && IsNni(agent, key.egress) && r.value == [NO_HOP, agent.routes[key][1]];
    assert Explained(t, AllPairs(lps), agent.routes, key);
    q :| q in AllPairs(lps) && EntryOf(t, q, key, agent.routes[key]);
    assert IsPortOf(agent, q.uni) && IsPortOf(agent, q.nni);
  }

  /** Each pair gives such a half route. */
  lemma HalfRouteOf(t: Topology, lps: seq<LogicalPort>, agent: Agent, q: Pair)
    requires Ready(t, lps, agent) && q in AllPairs(lps)
    ensures Fits(t, q) && |agent.routes| > 0 && HalfRouteUp(agent, Some([NO_HOP, RouteUp(t, q)[1]]))
  {
    assert IsPortOf(agent, q.uni) && IsPortOf(agent, q.nni);
    WellPlacedPairs(t, lps, AllPairs(lps));
    PairRoutes(t, AllPairs(lps), agent.routes, q);
    assert Up(q) in agent.routes && IsNni(agent, Up(q).egress);
  }

  lemma RouteNeedsPair(t: Topology, pairs: iset<Pair>, routes: Routes, key: PathID)
    requires Exactly(t, pairs, routes) && key in routes
    ensures exists p :: p in pairs
  {
    assert Explained(t, pairs, routes, key);
  }

  lemma NoRoutes(t: Topology, lps: seq<LogicalPort>, agent: Agent)
    requires Ready(t, lps, agent) && UniPorts(lps) == {}
    ensures agent.routes == map[]
  {
    if key :| key in agent.routes {
      RouteNeedsPair(t, AllPairs(lps), agent.routes, key);
    }
  }

  // Traps on NNI ports

  /** The flow traps packets of the NNI port. */
  ghost predicate IsNniTrap(lps: seq<LogicalPort>, flow: Flow, n: LogicalPort) {
    n in NniPorts(lps) && IsControllerPort(GetOutPort(flow)) && GetInPort(flow) == n.portNo
  }

  /** One rule on the OLT, for the given port of it. */
  function TrapAt(t: Topology, flow: Flow, port: uint32): DeviceRules {
    map[t.root := [Retarget(NniTrapRule(flow, Hop(t.root, 0, port)))]]
  }

  /** A result for the flow is a rule for this port of the OLT. */
  ghost predicate TrapsAt(t: Topology, agent: Agent, devices: map<string, Device>, roots: set<string>, flow: Flow, groups: set<uint32>,
                          port: uint32)
    requires TwoHops(agent.routes)
  {
    IsDecomposed(agent, devices, roots, flow, groups, Rules(TrapAt(t, flow, port)))
  }

  lemma NniTrapRewritten(t: Topology, flow: Flow, hop: Hop, roots: set<string>, r: Decomposed)
    requires t.root in roots && hop.deviceId == t.root
    ensures IsRewritten(Rules(map[hop.deviceId := [NniTrapRule(flow, hop)]]), roots, r) <==> r == Rules(TrapAt(t, flow, hop.egress))
  {
    var rules: DeviceRules := map[t.root := [NniTrapRule(flow, hop)]];
    assert NniTrapRule(flow, hop) == NniTrapRule(flow, Hop(t.root, 0, hop.egress));
    RetargetOne(NniTrapRule(flow, hop));
    assert Rewritten(rules, roots, t.root) == [Retarget(NniTrapRule(flow, hop))];
    if r.Rules? && r.rules.Keys == rules.Keys && r.rules[t.root] == Rewritten(rules, roots, t.root) {
      assert r.rules == TrapAt(t, flow, hop.egress);
    }
  }

  /**
   With routes, a trap on an NNI port gets one rule on the OLT, for some NNI port: whichever route is visited first decides.
   Without any, it gets one for the port whose number on the OLT is that of the logical port.
   */
  lemma NniTrapRules(t: Topology, lps: seq<LogicalPort>, agent: Agent, devices: map<string, Device>, roots: set<string>, flow: Flow,
                     groups: set<uint32>, n: LogicalPort, r: Decomposed) returns (port: uint32)
    requires Ready(t, lps, agent) && agent.rootDeviceId == t.root && t.root in roots && IsNniTrap(lps, flow, n)
    requires IsDecomposed(agent, devices, roots, flow, groups, r)
    ensures r == Rules(TrapAt(t, flow, port))
    ensures if UniPorts(lps) == {} then port == n.portNo else exists m | m in NniPorts(lps) :: m.devicePortNo == port
  {
    var inPort, path, raw :| DecomposedBy(agent, devices, roots, flow, groups, inPort, path, raw, r);
    assert IsPortOf(agent, n);
    var hop: Hop;
    if UniPorts(lps) == {} {
      NoRoutes(t, lps, agent);
      hop := Hop(t.root, n.portNo, n.portNo);
    } else {
      var u :| u in UniPorts(lps);
      HalfRouteOf(t, lps, agent, Pair(n, u));
      var q := HalfRouteUpIs(t, lps, agent, path);
      hop := RouteUp(t, q)[1];
      assert q.nni in NniPorts(lps);
    }
    port := hop.egress;
    NniTrapRewritten(t, flow, hop, roots, r);
  }

  /** With routes, every NNI port is a possible outcome. */
  lemma AnyNniTrap(t: Topology, lps: seq<LogicalPort>, agent: Agent, devices: map<string, Device>, roots: set<string>, flow: Flow,
                   groups: set<uint32>, n: LogicalPort, m: LogicalPort, u: LogicalPort)
    requires Ready(t, lps, agent) && t.root in roots && IsNniTrap(lps, flow, n) && m in NniPorts(lps) && u in UniPorts(lps)
    ensures TrapsAt(t, agent, devices, roots, flow, groups, m.devicePortNo)
  {
    assert IsPortOf(agent, n);
    HalfRouteOf(t, lps, agent, Pair(m, u));
    var hop := RouteUp(t, Pair(m, u))[1];
    var raw, r := Rules(map[hop.deviceId := [NniTrapRule(flow, hop)]]), Rules(TrapAt(t, flow, m.devicePortNo));
    NniTrapRewritten(t, flow, hop, roots, r);
    assert DecomposedBy(agent, devices, roots, flow, groups, n.portNo, Some([NO_HOP, hop]), raw, r);
  }

  /** Every result for the flow is a rule for this port of the OLT. */
  ghost predicate SurelyAt(t: Topology, agent: Agent, devices: map<string, Device>, roots: set<string>, flow: Flow, groups: set<uint32>,
                           port: uint32)
    requires TwoHops(agent.routes)
  {
    forall r | IsDecomposed(agent, devices, roots, flow, groups, r) :: r == Rules(TrapAt(t, flow, port))
  }

  lemma WithoutUnis(t: Topology, lps: seq<LogicalPort>, agent: Agent, devices: map<string, Device>, roots: set<string>, flow: Flow,
                    groups: set<uint32>, n: LogicalPort)
    requires Ready(t, lps, agent) && agent.rootDeviceId == t.root && t.root in roots && IsNniTrap(lps, flow, n) && UniPorts(lps) == {}
    ensures SurelyAt(t, agent, devices, roots, flow, groups, n.devicePortNo) <==> n.portNo == n.devicePortNo
  {
    OnlyOutcome(t, lps, agent, devices, roots, flow, groups, n);
    TrapAtDiffers(t, flow, n.portNo, n.devicePortNo);
    forall r | IsDecomposed(agent, devices, roots, flow, groups, r) ensures r == Rules(TrapAt(t, flow, n.portNo)) {
      var _ := NniTrapRules(t, lps, agent, devices, roots, flow, groups, n, r);
    }
  }

  lemma WithTwoNnis(t: Topology, lps: seq<LogicalPort>, agent: Agent, devices: map<string, Device>, roots: set<string>, flow: Flow,
                    groups: set<uint32>, n: LogicalPort, m: LogicalPort, u: LogicalPort)
    requires Ready(t, lps, agent) && t.root in roots && IsNniTrap(lps, flow, n) && m in NniPorts(lps) && m != n && u in UniPorts(lps)
    ensures !SurelyAt(t, agent, devices, roots, flow, groups, n.devicePortNo)
  {
    AnyNniTrap(t, lps, agent, devices, roots, flow, groups, n, m, u);
    OtherPlace(t, lps, m, n);
    NotSurely(t, agent, devices, roots, flow, groups, m.devicePortNo, n.devicePortNo);
  }

  lemma OtherPlace(t: Topology, lps: seq<LogicalPort>, m: LogicalPort, n: LogicalPort)
    requires WellPlaced(t, lps) && m in NniPorts(lps) && n in NniPorts(lps) && m != n
    ensures m.devicePortNo != n.devicePortNo
  {
    assert m in lps && n in lps && m.deviceId == n.deviceId;
  }

  lemma NotSurely(t: Topology, agent: Agent, devices: map<string, Device>, roots: set<string>, flow: Flow, groups: set<uint32>,
                  a: uint32, b: uint32)
    requires TwoHops(agent.routes) && TrapsAt(t, agent, devices, roots, flow, groups, a) && a != b
    ensures !SurelyAt(t, agent, devices, roots, flow, groups, b)
  {
    TrapAtDiffers(t, flow, a, b);
  }

  lemma WithOneNni(t: Topology, lps: seq<LogicalPort>, agent: Agent, devices: map<string, Device>, roots: set<string>, flow: Flow,
                   groups: set<uint32>, n: LogicalPort)
    requires Ready(t, lps, agent) && agent.rootDeviceId == t.root && t.root in roots && IsNniTrap(lps, flow, n) && UniPorts(lps) != {}
    requires forall m | m in NniPorts(lps) :: m == n
    ensures SurelyAt(t, agent, devices, roots, flow, groups, n.devicePortNo)
  {
    forall r | IsDecomposed(agent, devices, roots, flow, groups, r) ensures r == Rules(TrapAt(t, flow, n.devicePortNo)) {
      var _ := NniTrapRules(t, lps, agent, devices, roots, flow, groups, n, r);
    }
  }

  /**
   A trap on an NNI port surely traps packets of that port if and only if it is the only NNI port, or there are no UNI ports
   and its number on the OLT is that of the logical port.
   */
  lemma NniTrapIff(t: Topology, lps: seq<LogicalPort>, agent: Agent, devices: map<string, Device>, roots: set<string>, flow: Flow,
                   groups: set<uint32>, n: LogicalPort)
    requires Ready(t, lps, agent) && agent.rootDeviceId == t.root && t.root in roots && IsNniTrap(lps, flow, n)
    ensures SurelyAt(t, agent, devices, roots, flow, groups, n.devicePortNo)
            <==> if UniPorts(lps) == {} then n.portNo == n.devicePortNo else forall m | m in NniPorts(lps) :: m == n
  {
    if UniPorts(lps) == {} {
      WithoutUnis(t, lps, agent, devices, roots, flow, groups, n);
    } else if m :| m in NniPorts(lps) && m != n {
      var u :| u in UniPorts(lps);
      WithTwoNnis(t, lps, agent, devices, roots, flow, groups, n, m, u);
    } else {
      WithOneNni(t, lps, agent, devices, roots, flow, groups, n);
    }
  }

  lemma OnlyOutcome(t: Topology, lps: seq<LogicalPort>, agent: Agent, devices: map<string, Device>, roots: set<string>, flow: Flow,
                    groups: set<uint32>, n: LogicalPort)
    requires Ready(t, lps, agent) && agent.rootDeviceId == t.root && t.root in roots && IsNniTrap(lps, flow, n) && UniPorts(lps) == {}
    ensures TrapsAt(t, agent, devices, roots, flow, groups, n.portNo)
  {
    assert IsPortOf(agent, n);
    NoRoutes(t, lps, agent);
    var hop := Hop(t.root, n.portNo, n.portNo);
    var raw, r := Rules(map[hop.deviceId := [NniTrapRule(flow, hop)]]), Rules(TrapAt(t, flow, n.portNo));
    NniTrapRewritten(t, flow, hop, roots, r);
    assert DecomposedBy(agent, devices, roots, flow, groups, n.portNo, Some([hop, hop]), raw, r);
  }

  lemma TrapAtDiffers(t: Topology, flow: Flow, a: uint32, b: uint32)
    ensures TrapAt(t, flow, a) == TrapAt(t, flow, b) <==> a == b
  {
    var f, g := Retarget(NniTrapRule(flow, Hop(t.root, 0, a))), Retarget(NniTrapRule(flow, Hop(t.root, 0, b)));
    assert f.fields[0] == Exact(InPort, a) && g.fields[0] == Exact(InPort, b);
    assert TrapAt(t, flow, a)[t.root] == [f] && TrapAt(t, flow, b)[t.root] == [g];
    assert [f][0] == f && [g][0] == g;
  }

  /** The rule takes packets of its port that the flow's own fields match, and does with them what the flow does. */
  lemma NniTrapDoes(t: Topology, flow: Flow, port: uint32, packet: Packet, out: uint32)
    requires WellFormed(flow) && EndsIn(GetActions(flow), out)
    ensures var rules := TrapAt(t, flow, port)[t.root];
            && |rules| == 1 && rules[0].priority == flow.priority && rules[0].cookie == flow.cookie
            && (Matches(rules[0], packet, Context(port, None, None)) <==> HeaderMatch(flow, packet))
            && (forall other: uint32 | other != port :: !Matches(rules[0], packet, Context(other, None, None)))
            && Emit(GetActions(rules[0]), packet) == [Emission(OltTarget(flow, out), Rewrite(Front(GetActions(flow)), packet))]
  {
    var rule := NniTrapRule(flow, Hop(t.root, 0, port));
    assert rule.fields[0] == Exact(InPort, port) && rule.fields[0] in rule.fields;
    RuleSplit(flow, Retarget(rule), port, packet);
    forall other: uint32 | other != port ensures !Matches(Retarget(rule), packet, Context(other, None, None)) {
      OtherPort(Retarget(rule), port, packet, Context(other, None, None));
    }
    SameTrapFields(flow, rule);
    NniTrapEmits(flow, rule, out, packet);
  }

  lemma NniTrapEmits(flow: Flow, rule: Flow, out: uint32, packet: Packet)
    requires EndsIn(GetActions(flow), out) && rule.instructions == [ApplyActions(GetActions(flow))]
    ensures Emit(GetActions(Retarget(rule)), packet)
            == [Emission(ToPort(if HasTrapField(rule) then CONTROLLER else out), Rewrite(Front(GetActions(flow)), packet))]
  {
    var actions := GetActions(flow);
    FlowEmits(actions, out, packet);
    assert actions == Front(actions) + [Output(out)];
    RedirectLast(Front(actions), out, CONTROLLER);
    EmitOnce(Front(actions), CONTROLLER, packet);
  }

  // Multicast

  /** The flow of table 0 sends packets of an NNI port, or of no given port, to a group. */
  ghost predicate IsMulticast(lps: seq<LogicalPort>, flow: Flow) {
    && flow.tableId == 0 && GetGotoTableId(flow) == 0 && GetOutPort(flow) == 0 && GetGroup(flow) != 0
    && (GetInPort(flow) == 0 || exists n | n in NniPorts(lps) :: n.portNo == GetInPort(flow))
  }

  /** With both kinds of ports, the OLT gets the flow as it is, if the group is known. */
  lemma MulticastRules(t: Topology, lps: seq<LogicalPort>, agent: Agent, devices: map<string, Device>, roots: set<string>, flow: Flow,
                       groups: set<uint32>, r: Decomposed)
    requires Ready(t, lps, agent) && DevicesOk(t, devices, roots) && NniPorts(lps) != [] && UniPorts(lps) != {}
    requires IsMulticast(lps, flow) && IsDecomposed(agent, devices, roots, flow, groups, r)
    ensures r == Rules(if GetGroup(flow) in groups then map[t.root := [Retarget(flow)]] else map[])
  {
    var inPort, path, raw :| DecomposedBy(agent, devices, roots, flow, groups, inPort, path, raw, r);
    var n := MulticastPort(t, lps, agent, flow, inPort);
    var u :| u in UniPorts(lps);
    assert Pair(n, u) in AllPairs(lps);
    HalfRouteFromNni(t, lps, agent, Pair(n, u), path);
    MulticastRewritten(t, flow, path.value, groups, roots, r);
  }

  lemma MulticastRewritten(t: Topology, flow: Flow, path: seq<Hop>, groups: set<uint32>, roots: set<string>, r: Decomposed)
    requires |path| == 2 && path[0].deviceId == t.root && t.root in roots
    requires IsRewritten(Rules(ProcessMulticast(path, flow, groups)), roots, r)
    ensures r == Rules(if GetGroup(flow) in groups then map[t.root := [Retarget(flow)]] else map[])
  {
    RetargetOne(flow);
    if GetGroup(flow) in groups {
      var rules: DeviceRules := map[t.root := [flow]];
      assert Rewritten(rules, roots, t.root) == [Retarget(flow)];
      assert r.rules == map[t.root := [Retarget(flow)]];
    } else {
      assert r.rules == map[];
    }
  }

  lemma MulticastPort(t: Topology, lps: seq<LogicalPort>, agent: Agent, flow: Flow, inPort: uint32) returns (n: LogicalPort)
    requires Ready(t, lps, agent) && IsMulticast(lps, flow) && TakenFrom(agent, flow, inPort) && NniPorts(lps) != []
    ensures n in NniPorts(lps) && n.portNo == inPort
  {
    if GetInPort(flow) == 0 {
      var nni: Option<uint32> :| AnyNni(agent, nni) && inPort == if nni.Some? then nni.value else 0;
      var first := NniPorts(lps)[0];
      assert first in NniPorts(lps) && IsPortOf(agent, first);
      assert IsNumberOf(lps, inPort);
      n :| n in lps && n.portNo == inPort;
      assert IsPortOf(agent, n);
    } else {
      n :| n in NniPorts(lps) && n.portNo == GetInPort(flow);
    }
  }

  // Traps without a port

  /** Of all ports, only the last one gets rules, and those of its ONU are filed under no device. */
  lemma {:induction false} LastPortOnly(path: seq<Hop>, inPorts: seq<uint32>, flow: Flow)
    requires |path| == 2 && inPorts != []
    ensures var last := inPorts[|inPorts| - 1];
            ProcessUniTraps(path, inPorts, flow)
            == map[path[1].deviceId := [ParentTrapRule(flow, path[1], last)]][path[0].deviceId := [ChildTrapRule(flow, path[0], last)]]
  {
    var n := |inPorts| - 1;
    if n > 0 {
      LastPortOnly(path, inPorts[..n], flow);
    }
  }

  /** A rule on the OLT and one for an ONU that is filed under no device. */
  function WildcardRules(t: Topology, flow: Flow, hop: Hop, no: uint32): DeviceRules {
    map[t.root := [Retarget(ParentTrapRule(flow, hop, no))], "" := [ChildTrapRule(flow, NO_HOP, no)]]
  }

  /** The port is the last one with another number. */
  ghost predicate IsLastOther(ports: seq<LogicalPort>, exclude: uint32, no: uint32) {
    exists k | 0 <= k < |ports| ::
      ports[k].portNo == no && no != exclude && forall j | k < j < |ports| :: ports[j].portNo == exclude
  }

  lemma {:induction false} LastOther(ports: seq<LogicalPort>, exclude: uint32)
    ensures var nos := WildcardInputPorts(ports, exclude);
            if nos == [] then forall lp | lp in ports :: lp.portNo == exclude else IsLastOther(ports, exclude, nos[|nos| - 1])
  {
    if ports != [] {
      LastOther(ports[1..], exclude);
      var rest := WildcardInputPorts(ports[1..], exclude);
      if rest != [] {
        var no := rest[|rest| - 1];
        var k :| 0 <= k < |ports| - 1 && ports[1..][k].portNo == no && no != exclude
                 && forall j | k < j < |ports| - 1 :: ports[1..][j].portNo == exclude;
        forall j | k + 1 < j < |ports| ensures ports[j].portNo == exclude {
          assert ports[1..][j - 1] == ports[j];
        }
        assert ports[k + 1].portNo == no;
      } else {
        forall j | 0 < j < |ports| ensures ports[j].portNo == exclude {
          assert ports[j] in ports[1..];
        }
      }
    }
  }

  /** There are rules for the last port with another number than the OLT's NNI port, if there is one. */
  ghost predicate LastOnly(t: Topology, flow: Flow, hop: Hop, ports: seq<LogicalPort>, r: Decomposed) {
    if forall lp | lp in ports :: lp.portNo == hop.egress then r == Rules(map[])
    else exists no :: IsLastOther(ports, hop.egress, no) && r == Rules(WildcardRules(t, flow, hop, no))
  }

  lemma LastOnlyIs(t: Topology, flow: Flow, hop: Hop, ports: seq<LogicalPort>, roots: set<string>, r: Decomposed)
    requires hop.deviceId == t.root && t.root in roots && "" !in roots
    requires IsRewritten(Rules(ProcessUniTraps([NO_HOP, hop], WildcardInputPorts(ports, hop.egress), flow)), roots, r)
    ensures LastOnly(t, flow, hop, ports, r)
  {
    LastOther(ports, hop.egress);
    WildcardRewritten(t, flow, hop, WildcardInputPorts(ports, hop.egress), roots, r);
  }

  /** A trap without a port gets a rule on the OLT for one port only, and none on any ONU. */
  lemma WildcardTrapRules(t: Topology, lps: seq<LogicalPort>, agent: Agent, devices: map<string, Device>, roots: set<string>, flow: Flow,
                          groups: set<uint32>, r: Decomposed) returns (q: Pair)
    requires Ready(t, lps, agent) && t.root in roots && "" !in roots && NniPorts(lps) != [] && UniPorts(lps) != {}
    requires IsControllerPort(GetOutPort(flow)) && GetInPort(flow) == 0 && GetGroup(flow) == 0
    requires IsDecomposed(agent, devices, roots, flow, groups, r)
    ensures q in AllPairs(lps) && Fits(t, q)
    ensures LastOnly(t, flow, RouteUp(t, q)[1], agent.ports, r)
  {
    var inPort, path, raw :| DecomposedBy(agent, devices, roots, flow, groups, inPort, path, raw, r);
    q := WildcardPath(t, lps, agent, GetOutPort(flow), path);
    LastOnlyIs(t, flow, RouteUp(t, q)[1], agent.ports, roots, r);
  }

  lemma NumberedPort(t: Topology, lps: seq<LogicalPort>, agent: Agent, no: uint32)
    requires Ready(t, lps, agent) && no in agent.portsNo
    ensures no != 0
  {
    assert IsNumberOf(lps, no);
    var lp :| lp in lps && lp.portNo == no;
    assert IsPortOf(agent, lp);
  }

  lemma WildcardPath(t: Topology, lps: seq<LogicalPort>, agent: Agent, egress: uint32, path: Option<seq<Hop>>) returns (q: Pair)
    requires Ready(t, lps, agent) && NniPorts(lps) != [] && UniPorts(lps) != {}
    requires IsControllerPort(egress) && IsRoute(agent, 0, egress, path)
    ensures q in AllPairs(lps) && Fits(t, q) && path == Some([NO_HOP, RouteUp(t, q)[1]])
    ensures 0 !in agent.rootPorts
  {
    var n := NniPorts(lps)[0];
    var u :| u in UniPorts(lps);
    assert n in NniPorts(lps) && IsPortOf(agent, n);
    forall no | no in agent.portsNo ensures no != 0 {
      NumberedPort(t, lps, agent, no);
    }
    HalfRouteOf(t, lps, agent, Pair(n, u));
    q := HalfRouteUpIs(t, lps, agent, path);
  }

  lemma WildcardRewritten(t: Topology, flow: Flow, hop: Hop, inPorts: seq<uint32>, roots: set<string>, r: Decomposed)
    requires hop.deviceId == t.root && t.root in roots && "" !in roots
    requires IsRewritten(Rules(ProcessUniTraps([NO_HOP, hop], inPorts, flow)), roots, r)
    ensures r == Rules(if inPorts == [] then map[] else WildcardRules(t, flow, hop, inPorts[|inPorts| - 1]))
  {
    if inPorts == [] {
      assert r.rules == map[];
    } else {
      var last := inPorts[|inPorts| - 1];
      LastPortOnly([NO_HOP, hop], inPorts, flow);
      BothRewritten(t.root, "", ParentTrapRule(flow, hop, last), ChildTrapRule(flow, NO_HOP, last), roots, r.rules);
    }
  }
}
