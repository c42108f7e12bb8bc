/** How the flows of a logical device become rules on its OLT and ONUs. */
module FlowDecomposition {
  import opened Voltha
  import opened OpenFlow
  import opened RouteSpec
  import opened RouteLookup

  /** The rules of each device, without repetitions. */
  type DeviceRules = map<string, seq<Flow>>

  datatype FlowError = NoRoute | InvalidRoute | DeviceNotFound | UnknownDownstreamFlow

  datatype Decomposed = Rules(rules: DeviceRules) | Failed(error: FlowError)

  // Building rules

  /** A rule with the priority, cookie, meter and metadata of the flow. */
  function Like(flow: Flow, fields: seq<Field>, actions: seq<Action>): Flow {
    var meter := GetMeterId(flow);
    var metadata := GetWriteMetadata(flow);
    Flow(0, flow.priority, 0, flow.cookie, fields,
         [ApplyActions(actions)] + (if meter != 0 then [Meter(meter)] else [])
         + (if metadata != 0 then [WriteMetadata(metadata)] else []))
  }

  function Restricted(flow: Flow, inPort: uint32, tunnel: uint32): seq<Field> {
    [Exact(InPort, inPort), Exact(TunnelId, tunnel)] + Excluding(flow.fields, {InPort})
  }

  function PassOn(flow: Flow, hop: Hop, tunnel: uint32): Flow {
    Like(flow, Restricted(flow, hop.ingress, tunnel), GetActions(flow) + [Output(hop.egress)])
  }

  function SendOut(flow: Flow, hop: Hop, tunnel: uint32): Flow {
    Like(flow, Restricted(flow, hop.ingress, tunnel), WithoutOutput(GetActions(flow)) + [Output(hop.egress)])
  }

  function ProcessUpstream(path: seq<Hop>, inPort: uint32, outPort: uint32, flow: Flow): DeviceRules
    requires |path| == 2
  {
    if flow.tableId == 0 && GetGotoTableId(flow) != 0 then
      if outPort != 0 then map[] else map[path[0].deviceId := [PassOn(flow, path[0], inPort)]]
    else if flow.tableId == 1 && outPort != 0 then
      map[path[1].deviceId := [SendOut(flow, path[1], inPort)]]
    else map[]
  }

  function MetadataRule(flow: Flow, hop: Hop): Flow {
    Like(flow,
         [Exact(InPort, hop.ingress), Exact(Metadata, GetInnerTag(flow)), Exact(TunnelId, GetEgressPort(flow))]
         + Excluding(flow.fields, {InPort, Metadata}),
         GetActions(flow) + [Output(hop.egress)])
  }

  function UnicastRule(flow: Flow, hop: Hop): Flow {
    Like(flow, [Exact(InPort, hop.ingress)] + Excluding(flow.fields, {InPort}),
         WithoutOutput(GetActions(flow)) + [Output(hop.egress)])
  }

  function ProcessUnicast(path: seq<Hop>, flow: Flow): DeviceRules
    requires |path| == 2
  {
    map[path[1].deviceId := [UnicastRule(flow, path[1])]]
  }

  function ProcessMulticast(path: seq<Hop>, flow: Flow, groups: set<uint32>): DeviceRules
    requires |path| == 2
  {
    if GetGroup(flow) in groups then map[path[0].deviceId := [flow]] else map[]
  }

  // Trap flows

  function NniTrapRule(flow: Flow, hop: Hop): Flow {
    Flow(0, flow.priority, 0, flow.cookie, [Exact(InPort, hop.egress)] + Excluding(flow.fields, {InPort}),
         [ApplyActions(GetActions(flow))])
  }

  function ParentTrapRule(flow: Flow, hop: Hop, inPort: uint32): Flow {
    Like(flow, Restricted(flow, hop.ingress, inPort), [Output(hop.egress)])
  }

  /** The child pushes the VLAN that the parent matches. */
  function ChildTrapRule(flow: Flow, hop: Hop, inPort: uint32): Flow {
    match GetVlanVid(flow)
    case None => Like(flow, Restricted(flow, hop.ingress, inPort), [Output(hop.egress)])
    case Some(vid) =>
      Like(flow, [Exact(InPort, hop.ingress), Exact(TunnelId, inPort)] + Excluding(flow.fields, {InPort, VlanVid}),
           [PushVlan(0x8100), SetField(Exact(VlanVid, vid)), Output(hop.egress)])
  }

  /** The rules for one port replace those for an earlier one. */
  function ProcessUniTraps(path: seq<Hop>, inPorts: seq<uint32>, flow: Flow): DeviceRules
    requires |path| == 2
  {
    if inPorts == [] then map[]
    else
      var n := |inPorts| - 1;
      ProcessUniTraps(path, inPorts[..n], flow)
        [path[1].deviceId := [ParentTrapRule(flow, path[1], inPorts[n])]]
        [path[0].deviceId := [ChildTrapRule(flow, path[0], inPorts[n])]]
  }

  /** The numbers of all ports but one. */
  function WildcardInputPorts(ports: seq<LogicalPort>, exclude: uint32): seq<uint32> {
    if ports == [] then []
    else if ports[0].portNo == exclude then WildcardInputPorts(ports[1..], exclude)
    else [ports[0].portNo] + WildcardInputPorts(ports[1..], exclude)
  }

  function ProcessControllerBound(agent: Agent, path: seq<Hop>, inPort: uint32, flow: Flow): DeviceRules
    requires |path| == 2
  {
    if inPort in agent.rootPorts then map[path[1].deviceId := [NniTrapRule(flow, path[1])]]
    else ProcessUniTraps(path, if inPort == 0 then WildcardInputPorts(agent.ports, path[1].egress) else [inPort], flow)
  }

  // The controller rewrite of the parent's rules

  const EAPOL := Exact(EthType, 0x888e)
  const IGMP := Exact(IpProto, 2)
  const UDP := Exact(IpProto, 17)

  predicate IsTrapField(field: Field) {
    field == EAPOL || field == IGMP || field == UDP
  }

  predicate HasTrapField(flow: Flow) {
    exists i | 0 <= i < |flow.fields| :: IsTrapField(flow.fields[i])
  }

  /** These are the Ethernet type of EAPOL and the IP protocols of IGMP and UDP, matched without a mask. */
  lemma TrapFieldIff(flow: Flow)
    ensures HasTrapField(flow) <==>
            || Field(EthType, 0x888e, None) in flow.fields
            || Field(IpProto, 2, None) in flow.fields
            || Field(IpProto, 17, None) in flow.fields
  {
    assert HasTrapField(flow) <==> exists f | f in flow.fields :: IsTrapField(f);
  }

  function RedirectActions(actions: seq<Action>, port: uint32): seq<Action> {
    if actions == [] then []
    else [if actions[0].Output? then Output(port) else actions[0]] + RedirectActions(actions[1..], port)
  }

  function Redirect(instructions: seq<Instruction>, port: uint32): seq<Instruction> {
    if instructions == [] then []
    else
      var first := if instructions[0].ApplyActions? then ApplyActions(RedirectActions(instructions[0].actions, port))
                   else instructions[0];
      [first] + Redirect(instructions[1..], port)
  }

  /** What the parent does with a rule: a rule for EAPOL, IGMP or UDP sends to the controller. */
  function Retarget(flow: Flow): Flow {
    if HasTrapField(flow) then flow.(instructions := Redirect(flow.instructions, CONTROLLER)) else flow
  }

  /** Every output among the applied actions goes to the controller, and the rest stays. */
  predicate Redirected(i: Instruction, j: Instruction) {
    if i.ApplyActions? then
      && j.ApplyActions? && |j.actions| == |i.actions|
      && forall k | 0 <= k < |i.actions| :: j.actions[k] == if i.actions[k].Output? then Output(0x7fff_fffd) else i.actions[k]
    else j == i
  }

  lemma {:induction false} RedirectActionsAre(actions: seq<Action>, port: uint32)
    ensures var r := RedirectActions(actions, port);
            |r| == |actions| && forall k | 0 <= k < |r| :: r[k] == if actions[k].Output? then Output(port) else actions[k]
  {
    if actions != [] {
      RedirectActionsAre(actions[1..], port);
    }
  }

  lemma {:induction false} RedirectIs(instructions: seq<Instruction>)
    ensures var r := Redirect(instructions, CONTROLLER);
            |r| == |instructions| && forall k | 0 <= k < |r| :: Redirected(instructions[k], r[k])
  {
    if instructions != [] {
      RedirectIs(instructions[1..]);
      if instructions[0].ApplyActions? {
        RedirectActionsAre(instructions[0].actions, CONTROLLER);
      }
    }
  }

  /** A rule for EAPOL, IGMP or UDP keeps all but its outputs, and any other rule stays. */
  lemma RetargetIs(flow: Flow)
    ensures var r := Retarget(flow);
            if HasTrapField(flow) then
              && r == flow.(instructions := r.instructions) && |r.instructions| == |flow.instructions|
              && forall k | 0 <= k < |r.instructions| :: Redirected(flow.instructions[k], r.instructions[k])
            else r == flow
  {
    RedirectIs(flow.instructions);
  }

  function RetargetAll(flows: seq<Flow>): seq<Flow> {
    if flows == [] then []
    else AddFlow(RetargetAll(flows[..|flows| - 1]), Retarget(flows[|flows| - 1]))
  }

  predicate NoRepetition(flows: seq<Flow>) {
    forall i, j | 0 <= i < j < |flows| :: flows[i] != flows[j]
  }

  lemma {:induction false} RetargetAllIs(flows: seq<Flow>)
    ensures forall rule :: rule in RetargetAll(flows) <==> exists f | f in flows :: rule == Retarget(f)
    ensures NoRepetition(RetargetAll(flows))
  {
    if flows != [] {
      var n := |flows| - 1;
      RetargetAllIs(flows[..n]);
      assert flows == flows[..n] + [flows[n]];
    }
  }

  method FindTrapField(flow: Flow) returns (found: bool)
    ensures found == HasTrapField(flow)
  {
    found := false;
    for i := 0 to |flow.fields|
      invariant !found && forall j | 0 <= j < i :: !IsTrapField(flow.fields[j])
    {
      var field := flow.fields[i];
      found := field == EAPOL;
      found := found || field == IGMP;
      found := found || field == UDP;
      if found {
        break;
      }
    }
  }

  method RetargetFlows(rules: seq<Flow>) returns (flows: seq<Flow>)
    ensures flows == RetargetAll(rules)
    ensures NoRepetition(flows) && forall rule :: rule in flows <==> exists f | f in rules :: rule == Retarget(f)
  {
    RetargetAllIs(rules);
    flows := [];
    for i := 0 to |rules|
      invariant flows == RetargetAll(rules[..i])
    {
      var flow := rules[i];
      var found := FindTrapField(flow);
      if found {
        flow := flow.(instructions := Redirect(flow.instructions, CONTROLLER));
      }
      flows := AddFlow(flows, flow);
      assert rules[..i + 1][..i] == rules[..i];
    }
    assert rules[..|rules|] == rules;
  }

  /** The rules of a device after the rewrite, which concerns parent devices only. */
  function Rewritten(rules: DeviceRules, roots: set<string>, d: string): seq<Flow>
    requires d in rules
  {
    if d in roots then RetargetAll(rules[d]) else rules[d]
  }

  method UpdateOutputPortOfParent(rules: DeviceRules, roots: set<string>) returns (r: DeviceRules)
    ensures r.Keys == rules.Keys && forall d | d in rules :: r[d] == Rewritten(rules, roots, d)
  {
    r := rules;
    var todo := rules.Keys;
    while todo != {}
      invariant todo <= rules.Keys == r.Keys
      invariant forall d | d in rules :: r[d] == if d in todo then rules[d] else Rewritten(rules, roots, d)
    {
      var d :| d in todo;
      if d in roots {
        var flows := RetargetFlows(rules[d]);
        r := r[d := flows];
      }
      todo := todo - {d};
    }
  }

  // One flow

  /** A downstream flow with a next table; metadata may name the port that the packets are for. */
  method ProcessDownstreamWithNextTable(agent: Agent, path: seq<Hop>, inPort: uint32, outPort: uint32, flow: Flow)
    returns (rules: DeviceRules)
    requires TwoHops(agent.routes) && |path| == 2
    ensures IsDownstream(agent, path, inPort, outPort, flow, rules)
  {
    if outPort != 0 {
      return map[];
    }
    if flow.tableId != 0 {
      return map[];
    }
    if GetWriteMetadata(flow) == 0 {
      return map[path[0].deviceId := [PassOn(flow, path[0], inPort)]];
    }
    var ingressHop := path[0];
    if GetEgressPort(flow) != 0 {
      var recalculated := GetRoute(agent, inPort, GetEgressPort(flow));
      if recalculated.None? || |recalculated.value| != 2 {
        assert IsFirstHop(agent, path, inPort, GetEgressPort(flow), None);
        return map[];
      }
      ingressHop := recalculated.value[0];
    }
    assert IsFirstHop(agent, path, inPort, GetEgressPort(flow), Some(ingressHop));
    if GetInnerTag(flow) == 0 {
      return map[];
    }
    return map[ingressHop.deviceId := [MetadataRule(flow, ingressHop)]];
  }

  /** The first hop towards the port that the metadata names, or that of the path when it names none. */
  ghost predicate IsFirstHop(agent: Agent, path: seq<Hop>, inPort: uint32, port: uint32, hop: Option<Hop>)
    requires TwoHops(agent.routes) && |path| == 2
  {
    if port == 0 then hop == Some(path[0])
    else
      exists r {:trigger IsRoute(agent, inPort, port, r)} :: IsRoute(agent, inPort, port, r)
        && hop == if r.None? || |r.value| != 2 then None else Some(r.value[0])
  }

  /** Nothing for a flow with an output port, or with metadata that has no inner tag or names a port without a route. */
  ghost predicate IsDownstream(agent: Agent, path: seq<Hop>, inPort: uint32, outPort: uint32, flow: Flow, rules: DeviceRules)
    requires TwoHops(agent.routes) && |path| == 2
  {
    if outPort != 0 || flow.tableId != 0 then rules == map[]
    else if GetWriteMetadata(flow) == 0 then rules == map[path[0].deviceId := [PassOn(flow, path[0], inPort)]]
    else if GetInnerTag(flow) == 0 then rules == map[]
    else
      exists hop: Option<Hop> :: IsFirstHop(agent, path, inPort, GetEgressPort(flow), hop)
        && rules == if hop.None? then map[] else map[hop.value.deviceId := [MetadataRule(flow, hop.value)]]
  }

  /** Which rules a flow gets along its path, or which error: traps first, then by direction, table and group. */
  ghost predicate Processed(agent: Agent, devices: map<string, Device>, path: seq<Hop>, inPort: uint32, outPort: uint32,
                            flow: Flow, groups: set<uint32>, r: Decomposed)
    requires TwoHops(agent.routes) && |path| == 2
  {
    if IsControllerPort(outPort) then r == Rules(ProcessControllerBound(agent, path, inPort, flow))
    else if path[0].deviceId !in devices then r == Failed(DeviceNotFound)
    else if !devices[path[0].deviceId].root then r == Rules(ProcessUpstream(path, inPort, outPort, flow))
    else if GetGotoTableId(flow) != 0 && flow.tableId == 0 then
      r.Rules? && IsDownstream(agent, path, inPort, outPort, flow, r.rules)
    else if flow.tableId == 1 && outPort != 0 then r == Rules(ProcessUnicast(path, flow))
    else if GetGroup(flow) != 0 && flow.tableId == 0 then r == Rules(ProcessMulticast(path, flow, groups))
    else r == Failed(UnknownDownstreamFlow)
  }

  /** The rules of a flow along its path, before the rewrite of the parent's rules. */
  method ProcessFlow(agent: Agent, devices: map<string, Device>, path: seq<Hop>, inPort: uint32, outPort: uint32, flow: Flow,
                     groups: set<uint32>) returns (r: Decomposed)
    requires TwoHops(agent.routes) && |path| == 2
    ensures Processed(agent, devices, path, inPort, outPort, flow, groups, r)
  {
    if IsControllerPort(outPort) {
      return Rules(ProcessControllerBound(agent, path, inPort, flow));
    }
    if path[0].deviceId !in devices {
      return Failed(DeviceNotFound);
    }
    if !devices[path[0].deviceId].root {
      return Rules(ProcessUpstream(path, inPort, outPort, flow));
    }
    if GetGotoTableId(flow) != 0 && flow.tableId == 0 {
      var rules := ProcessDownstreamWithNextTable(agent, path, inPort, outPort, flow);
      return Rules(rules);
    }
    if flow.tableId == 1 && outPort != 0 {
      return Rules(ProcessUnicast(path, flow));
    }
    if GetGroup(flow) != 0 && flow.tableId == 0 {
      return Rules(ProcessMulticast(path, flow, groups));
    }
    return Failed(UnknownDownstreamFlow);
  }

  // What the rules of a flow should be

  /** The five kinds of flows between a UNI port and an NNI port. */
  datatype Kind = UpFirst(p: Pair) | UpSecond(p: Pair) | DownFirst(p: Pair) | DownSecond(p: Pair) | Trap(p: Pair)

  /** No kind of field occurs twice, and the subscriber tag is left to the core. */
  ghost predicate WellFormed(flow: Flow) {
    && (forall i, j | 0 <= i < j < |flow.fields| :: flow.fields[i].kind != flow.fields[j].kind)
    && (forall f | f in flow.fields :: f.kind != TunnelId)
  }

  /** The actions rewrite the packet and then send it out, once. */
  predicate EndsIn(actions: seq<Action>, port: uint32) {
    actions != [] && actions[|actions| - 1] == Output(port) && Silent(actions[..|actions| - 1])
  }

  ghost predicate IsKind(lps: seq<LogicalPort>, flow: Flow, kind: Kind) {
    && WellFormed(flow) && kind.p in AllPairs(lps)
    && Exact(InPort, Source(kind).portNo) in flow.fields
    && match kind
       case UpFirst(p) => flow.tableId == 0 && GetGotoTableId(flow) == 1 && Silent(GetActions(flow))
       case UpSecond(p) => flow.tableId == 1 && GetGotoTableId(flow) == 0 && EndsIn(GetActions(flow), p.nni.portNo)
       case DownFirst(p) => flow.tableId == 0 && GetGotoTableId(flow) == 1 && Silent(GetActions(flow))
                            && GetEgressPort(flow) == p.uni.portNo && GetInnerTag(flow) != 0
       case DownSecond(p) => flow.tableId == 1 && GetGotoTableId(flow) == 0 && EndsIn(GetActions(flow), p.uni.portNo)
       case Trap(p) => IsControllerPort(GetOutPort(flow))
  }

  /** The port that the packets of the flow come from. */
  function Source(kind: Kind): LogicalPort {
    if kind.DownFirst? || kind.DownSecond? then kind.p.nni else kind.p.uni
  }

  /** The rules, in terms of the physical tree. */
  ghost predicate Expected(t: Topology, lps: seq<LogicalPort>, flow: Flow, kind: Kind, rules: DeviceRules) {
    && Fits(t, kind.p)
    && match kind
       case UpFirst(p) => rules == map[p.uni.deviceId := [PassOn(flow, RouteUp(t, p)[0], p.uni.portNo)]]
       case UpSecond(p) => rules == map[t.root := [Retarget(SendOut(flow, RouteUp(t, p)[1], p.uni.portNo))]]
       case DownFirst(p) => rules == map[t.root := [Retarget(MetadataRule(flow, RouteDown(t, p)[0]))]]
       case DownSecond(p) => rules == map[p.uni.deviceId := [UnicastRule(flow, RouteDown(t, p)[1])]]
       case Trap(p) => exists nni | nni in NniPorts(lps) :: TrapRules(t, flow, Pair(nni, p.uni), rules)
  }

  ghost predicate TrapRules(t: Topology, flow: Flow, p: Pair, rules: DeviceRules) {
    && Fits(t, p)
    && rules == map[t.root := [Retarget(ParentTrapRule(flow, RouteUp(t, p)[1], p.uni.portNo))],
                    p.uni.deviceId := [ChildTrapRule(flow, RouteUp(t, p)[0], p.uni.portNo)]]
  }

  /** The OLT is a parent device and the ONUs are not. */
  ghost predicate DevicesOk(t: Topology, devices: map<string, Device>, roots: set<string>) {
    && t.root in devices && devices[t.root].root && t.root in roots
    && forall onu | onu in t.links :: onu in devices && !devices[onu].root && onu !in roots
  }

  // The path of each kind of flow

  lemma {:induction false} FirstIs(fields: seq<Field>, field: Field)
    requires forall i, j | 0 <= i < j < |fields| :: fields[i].kind != fields[j].kind
    requires field in fields
    ensures FirstOf(fields, field.kind) == Some(field.value)
  {
    if fields[0] != field {
      FirstIs(fields[1..], field);
    }
  }

  lemma {:induction false} SilentHasNoOutput(actions: seq<Action>)
    requires Silent(actions)
    ensures FirstOutput(actions) == 0 && FirstGroup(actions) == 0 && WithoutOutput(actions) == actions
  {
    if actions != [] {
      assert actions[0] in actions;
      SilentHasNoOutput(actions[1..]);
    }
  }

  lemma {:induction false} LastOutput(actions: seq<Action>, port: uint32)
    requires EndsIn(actions, port)
    ensures FirstOutput(actions) == port && FirstGroup(actions) == 0 && WithoutOutput(actions) == actions[..|actions| - 1]
  {
    if |actions| == 1 {
      assert actions[1..] == [];
    } else {
      assert actions[..|actions| - 1][0] == actions[0] && actions[0] in actions[..|actions| - 1];
      assert actions[1..][..|actions| - 2] == actions[..|actions| - 1][1..];
      LastOutput(actions[1..], port);
    }
  }

  /** The path that the lookup finds for a flow of some kind, as far as the rules use it. */
  ghost predicate PathOk(t: Topology, lps: seq<LogicalPort>, kind: Kind, path: seq<Hop>) {
    && |path| == 2 && Fits(t, kind.p)
    && match kind
       case UpFirst(p) => path == [RouteUp(t, p)[0], NO_HOP]
       case UpSecond(p) => path == RouteUp(t, p)
       case DownFirst(p) => path[0].deviceId == t.root
       case DownSecond(p) => path == RouteDown(t, p)
       case Trap(p) => exists nni | nni in NniPorts(lps) :: Fits(t, Pair(nni, p.uni)) && path == RouteUp(t, Pair(nni, p.uni))
  }

  /** What the decomposition extracts from a flow of some kind. */
  lemma KindPorts(lps: seq<LogicalPort>, flow: Flow, kind: Kind)
    requires IsKind(lps, flow, kind)
    ensures GetInPort(flow) == Source(kind).portNo
    ensures !kind.Trap? ==>
              GetOutPort(flow) == match kind case UpSecond(p) => p.nni.portNo case DownSecond(p) => p.uni.portNo case _ => 0
  {
    FirstIs(flow.fields, Exact(InPort, Source(kind).portNo));
    match kind
    case UpFirst(p) => SilentHasNoOutput(GetActions(flow));
    case DownFirst(p) => SilentHasNoOutput(GetActions(flow));
    case UpSecond(p) => LastOutput(GetActions(flow), p.nni.portNo);
    case DownSecond(p) => LastOutput(GetActions(flow), p.uni.portNo);
    case Trap(p) =>
  }

  lemma KindPath(t: Topology, lps: seq<LogicalPort>, agent: Agent, flow: Flow, kind: Kind, r: Option<seq<Hop>>)
    requires Ready(t, lps, agent) && IsKind(lps, flow, kind) && IsRoute(agent, GetInPort(flow), GetOutPort(flow), r)
    ensures r.Some? && PathOk(t, lps, kind, r.value)
  {
    KindPorts(lps, flow, kind);
    match kind
    case UpFirst(p) => HalfRouteFromUni(t, lps, agent, p, r);
    case UpSecond(p) => RouteOfPair(t, lps, agent, p, r);
    case DownFirst(p) => HalfRouteFromNni(t, lps, agent, p, r);
    case DownSecond(p) => RouteOfPair(t, lps, agent, p, r);
    case Trap(p) =>
      var q := RouteToController(t, lps, agent, p, GetOutPort(flow), r);
      assert q.nni in NniPorts(lps) && q == Pair(q.nni, p.uni);
  }

  lemma RetargetOne(flow: Flow)
    ensures RetargetAll([flow]) == [Retarget(flow)]
  {
  }

  /** The unrewritten rules of a flow that is not a trap are one rule on one device. */
  function RuleOf(t: Topology, flow: Flow, kind: Kind): (r: (string, Flow))
    requires Fits(t, kind.p) && !kind.Trap?
  {
    match kind
    case UpFirst(p) => (p.uni.deviceId, PassOn(flow, RouteUp(t, p)[0], p.uni.portNo))
    case UpSecond(p) => (t.root, SendOut(flow, RouteUp(t, p)[1], p.uni.portNo))
    case DownFirst(p) => (t.root, MetadataRule(flow, RouteDown(t, p)[0]))
    case DownSecond(p) => (p.uni.deviceId, UnicastRule(flow, RouteDown(t, p)[1]))
  }

  lemma KindRule(t: Topology, lps: seq<LogicalPort>, agent: Agent, devices: map<string, Device>, roots: set<string>,
                 flow: Flow, kind: Kind, path: seq<Hop>, groups: set<uint32>, r: Decomposed)
    requires Ready(t, lps, agent) && DevicesOk(t, devices, roots) && IsKind(lps, flow, kind) && !kind.Trap?
    requires PathOk(t, lps, kind, path) && Processed(agent, devices, path, GetInPort(flow), GetOutPort(flow), flow, groups, r)
    ensures var (d, rule) := RuleOf(t, flow, kind); r == Rules(map[d := [rule]])
  {
    KindPorts(lps, flow, kind);
    assert IsPortOf(agent, kind.p.nni) && IsPortOf(agent, kind.p.uni);
    if kind.DownFirst? {
      var hop: Option<Hop> :| IsFirstHop(agent, path, GetInPort(flow), GetEgressPort(flow), hop)
        && r.rules == if hop.None? then map[] else map[hop.value.deviceId := [MetadataRule(flow, hop.value)]];
      var route :| IsRoute(agent, GetInPort(flow), GetEgressPort(flow), route)
        && hop == if route.None? || |route.value| != 2 then None else Some(route.value[0]);
      RouteOfPair(t, lps, agent, kind.p, route);
    }
  }

  lemma KindRewritten(t: Topology, lps: seq<LogicalPort>, devices: map<string, Device>, roots: set<string>, flow: Flow,
                      kind: Kind, rules: DeviceRules, rewritten: DeviceRules)
    requires DevicesOk(t, devices, roots) && Fits(t, kind.p) && !kind.Trap?
    requires var (d, rule) := RuleOf(t, flow, kind); rules == map[d := [rule]]
    requires rewritten.Keys == rules.Keys && forall d | d in rules :: rewritten[d] == Rewritten(rules, roots, d)
    ensures Expected(t, lps, flow, kind, rewritten)
  {
    var (d, rule) := RuleOf(t, flow, kind);
    RetargetOne(rule);
    assert rewritten == map[d := rewritten[d]];
  }

  lemma OneTrap(path: seq<Hop>, inPort: uint32, flow: Flow)
    requires |path| == 2
    ensures ProcessUniTraps(path, [inPort], flow)
            == map[path[1].deviceId := [ParentTrapRule(flow, path[1], inPort)],
                   path[0].deviceId := [ChildTrapRule(flow, path[0], inPort)]]
  {
  }

  lemma BothRewritten(parent: string, child: string, f: Flow, g: Flow, roots: set<string>, rewritten: DeviceRules)
    requires parent in roots && child !in roots && rewritten.Keys == {parent, child}
    requires var rules := map[parent := [f], child := [g]];
             forall d | d in rules :: rewritten[d] == Rewritten(rules, roots, d)
    ensures rewritten == map[parent := [Retarget(f)], child := [g]]
  {
    var rules := map[parent := [f], child := [g]];
    assert parent in rules && child in rules;
    RetargetOne(f);
  }

  lemma TrapRewritten(t: Topology, lps: seq<LogicalPort>, agent: Agent, devices: map<string, Device>, roots: set<string>,
                      flow: Flow, kind: Kind, path: seq<Hop>, rules: DeviceRules, rewritten: DeviceRules)
    requires Ready(t, lps, agent) && DevicesOk(t, devices, roots) && IsKind(lps, flow, kind) && kind.Trap?
    requires PathOk(t, lps, kind, path)
    requires rules == ProcessControllerBound(agent, path, GetInPort(flow), flow)
    requires rewritten.Keys == rules.Keys && forall d | d in rules :: rewritten[d] == Rewritten(rules, roots, d)
    ensures Expected(t, lps, flow, kind, rewritten)
  {
    KindPorts(lps, flow, kind);
    var uni := kind.p.uni;
    assert IsPortOf(agent, uni);
    var nni :| nni in NniPorts(lps) && Fits(t, Pair(nni, uni)) && path == RouteUp(t, Pair(nni, uni));
    OneTrap(path, uni.portNo, flow);
    BothRewritten(t.root, uni.deviceId, ParentTrapRule(flow, path[1], uni.portNo), ChildTrapRule(flow, path[0], uni.portNo),
                  roots, rewritten);
    assert TrapRules(t, flow, Pair(nni, uni), rewritten);
  }

  // What rules take over from their flows

  /** The rule has the priority, cookie, meter and metadata of the flow, and is in the one table of a device. */
  predicate Carries(flow: Flow, rule: Flow) {
    && rule.tableId == 0 && rule.flags == 0 && rule.priority == flow.priority && rule.cookie == flow.cookie
    && GetMeterId(rule) == GetMeterId(flow) && GetWriteMetadata(rule) == GetWriteMetadata(flow)
  }

  /** The first hop downstream is told the inner tag and the subscriber by the metadata. */
  predicate NamesSubscriber(flow: Flow, rule: Flow) {
    && FirstOf(rule.fields, Metadata) == Some(GetInnerTag(flow))
    && FirstOf(rule.fields, TunnelId) == Some(GetEgressPort(flow))
  }

  lemma LikeCarries(flow: Flow, fields: seq<Field>, actions: seq<Action>)
    ensures Carries(flow, Like(flow, fields, actions))
  {
    var meter, metadata, apply := GetMeterId(flow), GetWriteMetadata(flow), [ApplyActions(actions)];
    var instructions := Like(flow, fields, actions).instructions;
    NoInstruction(instructions);
    if meter != 0 {
      FirstInstruction(apply, Meter(meter), if metadata != 0 then [WriteMetadata(metadata)] else []);
      if metadata != 0 {
        FirstInstruction(apply + [Meter(meter)], WriteMetadata(metadata), []);
        assert apply + [Meter(meter)] + [WriteMetadata(metadata)] + [] == instructions;
      }
    } else if metadata != 0 {
      FirstInstruction(apply, WriteMetadata(metadata), []);
      assert apply + [WriteMetadata(metadata)] + [] == instructions;
    }
  }

  lemma {:induction false} RedirectKeeps(instructions: seq<Instruction>, port: uint32)
    ensures MeterOf(Redirect(instructions, port)) == MeterOf(instructions)
    ensures MetadataOf(Redirect(instructions, port)) == MetadataOf(instructions)
  {
    if instructions != [] {
      RedirectKeeps(instructions[1..], port);
      assert Redirect(instructions, port)[1..] == Redirect(instructions[1..], port);
    }
  }

  lemma RetargetCarries(flow: Flow, rule: Flow)
    requires Carries(flow, rule)
    ensures Carries(flow, Retarget(rule))
  {
    RedirectKeeps(rule.instructions, CONTROLLER);
  }

  lemma MetadataRuleNames(flow: Flow, hop: Hop)
    ensures NamesSubscriber(flow, Retarget(MetadataRule(flow, hop)))
  {
    var fields := MetadataRule(flow, hop).fields;
    assert fields[0].kind == InPort && fields[1] == Exact(Metadata, GetInnerTag(flow)) && fields[2] == Exact(TunnelId, GetEgressPort(flow));
    assert fields[1..][0] == fields[1] && fields[1..][1..] == fields[2..] && fields[2..][0] == fields[2];
    assert FirstOf(fields, TunnelId) == FirstOf(fields[1..], TunnelId) && FirstOf(fields, Metadata) == FirstOf(fields[1..], Metadata);
    assert FirstOf(fields[1..], TunnelId) == FirstOf(fields[2..], TunnelId);
  }

  ghost predicate Belongs(flow: Flow, kind: Kind, rule: Flow) {
    Carries(flow, rule) && (kind.DownFirst? ==> NamesSubscriber(flow, rule))
  }

  /** Every rule of a flow, on whichever device. */
  ghost predicate AllCarried(flow: Flow, kind: Kind, rules: DeviceRules) {
    forall d, rule | d in rules && rule in rules[d] :: Belongs(flow, kind, rule)
  }

  lemma ExpectedCarries(t: Topology, lps: seq<LogicalPort>, flow: Flow, kind: Kind, rules: DeviceRules)
    requires Expected(t, lps, flow, kind, rules)
    ensures AllCarried(flow, kind, rules)
  {
    var p := kind.p;
    match kind
    case UpFirst(_) => PassOnCarries(flow, RouteUp(t, p)[0], p.uni.portNo);
    case UpSecond(_) => SendOutCarries(flow, RouteUp(t, p)[1], p.uni.portNo);
    case DownFirst(_) => MetadataRuleCarries(flow, RouteDown(t, p)[0]);
    case DownSecond(_) => UnicastRuleCarries(flow, RouteDown(t, p)[1]);
    case Trap(_) =>
      var nni :| nni in NniPorts(lps) && TrapRules(t, flow, Pair(nni, p.uni), rules);
      TrapsCarry(flow, RouteUp(t, Pair(nni, p.uni))[0], RouteUp(t, Pair(nni, p.uni))[1], p.uni.portNo);
  }

  lemma PassOnCarries(flow: Flow, hop: Hop, tunnel: uint32)
    ensures Carries(flow, PassOn(flow, hop, tunnel))
  {
    LikeCarries(flow, Restricted(flow, hop.ingress, tunnel), GetActions(flow) + [Output(hop.egress)]);
  }

  lemma SendOutCarries(flow: Flow, hop: Hop, tunnel: uint32)
    ensures Carries(flow, Retarget(SendOut(flow, hop, tunnel)))
  {
    LikeCarries(flow, Restricted(flow, hop.ingress, tunnel), WithoutOutput(GetActions(flow)) + [Output(hop.egress)]);
    RetargetCarries(flow, SendOut(flow, hop, tunnel));
  }

  lemma MetadataRuleCarries(flow: Flow, hop: Hop)
    ensures Carries(flow, Retarget(MetadataRule(flow, hop))) && NamesSubscriber(flow, Retarget(MetadataRule(flow, hop)))
  {
    LikeCarries(flow, MetadataRule(flow, hop).fields, GetActions(flow) + [Output(hop.egress)]);
    RetargetCarries(flow, MetadataRule(flow, hop));
    MetadataRuleNames(flow, hop);
  }

  lemma UnicastRuleCarries(flow: Flow, hop: Hop)
    ensures Carries(flow, UnicastRule(flow, hop))
  {
    LikeCarries(flow, UnicastRule(flow, hop).fields, WithoutOutput(GetActions(flow)) + [Output(hop.egress)]);
  }

  lemma TrapsCarry(flow: Flow, onu: Hop, olt: Hop, inPort: uint32)
    ensures Carries(flow, ChildTrapRule(flow, onu, inPort)) && Carries(flow, Retarget(ParentTrapRule(flow, olt, inPort)))
  {
    LikeCarries(flow, Restricted(flow, olt.ingress, inPort), [Output(olt.egress)]);
    RetargetCarries(flow, ParentTrapRule(flow, olt, inPort));
    match GetVlanVid(flow)
    case None => LikeCarries(flow, Restricted(flow, onu.ingress, inPort), [Output(onu.egress)]);
    case Some(vid) =>
      LikeCarries(flow, [Exact(InPort, onu.ingress), Exact(TunnelId, inPort)] + Excluding(flow.fields, {InPort, VlanVid}),
                  [PushVlan(0x8100), SetField(Exact(VlanVid, vid)), Output(onu.egress)]);
  }

  // One flow, along its path

  /** The port that a flow is taken to come from: for a multicast flow without one, some NNI port. */
  ghost predicate TakenFrom(agent: Agent, flow: Flow, inPort: uint32) {
    if GetGroup(flow) != 0 && GetInPort(flow) == 0 then
      exists nni: Option<uint32> :: AnyNni(agent, nni) && inPort == if nni.Some? then nni.value else 0
    else inPort == GetInPort(flow)
  }

  ghost predicate IsRewritten(raw: Decomposed, roots: set<string>, r: Decomposed) {
    if raw.Failed? then r == raw
    else r.Rules? && r.rules.Keys == raw.rules.Keys && forall d | d in raw.rules :: r.rules[d] == Rewritten(raw.rules, roots, d)
  }

  /** How the rules of a flow, or its error, come about. */
  ghost predicate DecomposedBy(agent: Agent, devices: map<string, Device>, roots: set<string>, flow: Flow, groups: set<uint32>,
                               inPort: uint32, path: Option<seq<Hop>>, raw: Decomposed, r: Decomposed)
    requires TwoHops(agent.routes)
  {
    && TakenFrom(agent, flow, inPort) && IsRoute(agent, inPort, GetOutPort(flow), path)
    && if path.None? then r == Failed(NoRoute)
       else if |path.value| != 2 then r == Failed(InvalidRoute)
       else Processed(agent, devices, path.value, inPort, GetOutPort(flow), flow, groups, raw) && IsRewritten(raw, roots, r)
  }

  /** The possible results for a flow. */
  ghost predicate IsDecomposed(agent: Agent, devices: map<string, Device>, roots: set<string>, flow: Flow, groups: set<uint32>,
                               r: Decomposed)
    requires TwoHops(agent.routes)
  {
    exists inPort, path, raw :: DecomposedBy(agent, devices, roots, flow, groups, inPort, path, raw, r)
  }

  method DecomposeAlong(agent: Agent, devices: map<string, Device>, roots: set<string>, flow: Flow, groups: set<uint32>)
    returns (r: Decomposed, ghost inPort: uint32, ghost path: Option<seq<Hop>>, ghost raw: Decomposed)
    requires TwoHops(agent.routes)
    ensures DecomposedBy(agent, devices, roots, flow, groups, inPort, path, raw, r)
  {
    var inPortNo := GetInPort(flow);
    if GetGroup(flow) != 0 && inPortNo == 0 {
      var nni := GetFirstNniPort(agent);
      if nni.Some? {
        inPortNo := nni.value;
      }
      assert AnyNni(agent, nni) && inPortNo == if nni.Some? then nni.value else 0;
    }
    var outPort := GetOutPort(flow);
    var route := GetRoute(agent, inPortNo, outPort);
    inPort, path, raw := inPortNo, route, Failed(NoRoute);
    if route.None? {
      return Failed(NoRoute), inPort, path, raw;
    }
    if |route.value| != 2 {
      return Failed(InvalidRoute), inPort, path, raw;
    }
    r := ProcessFlow(agent, devices, route.value, inPortNo, outPort, flow, groups);
    raw := r;
    if r.Rules? {
      var rules := UpdateOutputPortOfParent(r.rules, roots);
      r := Rules(rules);
    }
  }

  /** A flow of one of the kinds gets the rules of the physical tree. */
  lemma KindDecomposed(t: Topology, lps: seq<LogicalPort>, agent: Agent, devices: map<string, Device>, roots: set<string>, flow: Flow,
                       groups: set<uint32>, kind: Kind, inPort: uint32, path: Option<seq<Hop>>, raw: Decomposed, r: Decomposed)
    requires Ready(t, lps, agent) && DevicesOk(t, devices, roots) && IsKind(lps, flow, kind)
    requires DecomposedBy(agent, devices, roots, flow, groups, inPort, path, raw, r)
    ensures r.Rules? && Expected(t, lps, flow, kind, r.rules)
  {
    KindPorts(lps, flow, kind);
    assert IsPortOf(agent, Source(kind));
    KindPath(t, lps, agent, flow, kind, path);
    if kind.Trap? {
      TrapRewritten(t, lps, agent, devices, roots, flow, kind, path.value, raw.rules, r.rules);
    } else {
      KindRule(t, lps, agent, devices, roots, flow, kind, path.value, groups, raw);
      KindRewritten(t, lps, devices, roots, flow, kind, raw.rules, r.rules);
    }
  }

  method DecomposeFlow(agent: Agent, devices: map<string, Device>, roots: set<string>, flow: Flow, groups: set<uint32>,
                       ghost t: Topology, ghost lps: seq<LogicalPort>, ghost kind: Kind)
    returns (r: Decomposed)
    requires TwoHops(agent.routes)
    ensures IsDecomposed(agent, devices, roots, flow, groups, r)
    ensures Ready(t, lps, agent) && DevicesOk(t, devices, roots) && IsKind(lps, flow, kind) ==>
              r.Rules? && Expected(t, lps, flow, kind, r.rules) && AllCarried(flow, kind, r.rules)
  {
    ghost var inPort, path, raw;
    r, inPort, path, raw := DecomposeAlong(agent, devices, roots, flow, groups);
    if Ready(t, lps, agent) && DevicesOk(t, devices, roots) && IsKind(lps, flow, kind) {
      KindDecomposed(t, lps, agent, devices, roots, flow, groups, kind, inPort, path, raw, r);
      ExpectedCarries(t, lps, flow, kind, r.rules);
    }
  }

  // All flows

  function Get(rules: DeviceRules, d: string): seq<Flow> {
    if d in rules then rules[d] else []
  }

  function AddAll(flows: seq<Flow>, more: seq<Flow>): seq<Flow> {
    if more == [] then flows else AddFlow(AddAll(flows, more[..|more| - 1]), more[|more| - 1])
  }

  method AddFrom(flows: seq<Flow>, more: seq<Flow>) returns (r: seq<Flow>)
    ensures r == AddAll(flows, more)
  {
    r := flows;
    for i := 0 to |more|
      invariant r == AddAll(flows, more[..i])
    {
      assert more[..i + 1][..i] == more[..i];
      if more[i] !in r {
        r := r + [more[i]];
      }
    }
    assert more[..|more|] == more;
  }

  method AddRules(all: DeviceRules, rules: DeviceRules) returns (r: DeviceRules)
    ensures r.Keys == all.Keys + rules.Keys && forall d | d in r :: r[d] == AddAll(Get(all, d), Get(rules, d))
  {
    r := all;
    var todo := rules.Keys;
    while todo != {}
      invariant todo <= rules.Keys && r.Keys == all.Keys + (rules.Keys - todo)
      invariant forall d | d in r :: r[d] == if d in todo then all[d] else AddAll(Get(all, d), Get(rules, d))
    {
      var d :| d in todo;
      var flows := AddFrom(Get(r, d), rules[d]);
      r := r[d := flows];
      todo := todo - {d};
    }
  }

  /** The table that a device ends up with: the rules of the flows in order, without repetitions. */
  function TableOf(parts: seq<DeviceRules>, d: string): seq<Flow> {
    if parts == [] then [] else AddAll(TableOf(parts[..|parts| - 1], d), Get(parts[|parts| - 1], d))
  }

  ghost predicate IsMerge(all: DeviceRules, parts: seq<DeviceRules>) {
    forall d :: Get(all, d) == TableOf(parts, d)
  }

  lemma MergeStep(all: DeviceRules, parts: seq<DeviceRules>, rules: DeviceRules, all': DeviceRules)
    requires IsMerge(all, parts)
    requires all'.Keys == all.Keys + rules.Keys && forall d | d in all' :: all'[d] == AddAll(Get(all, d), Get(rules, d))
    ensures IsMerge(all', parts + [rules])
  {
  }

  /** The flow at `i` is of its kind. */
  ghost predicate KindAt(lps: seq<LogicalPort>, flows: seq<Flow>, kinds: seq<Kind>, i: nat)
    requires i < |flows| && i < |kinds|
  {
    IsKind(lps, flows[i], kinds[i])
  }

  ghost predicate AllOfAKind(lps: seq<LogicalPort>, flows: seq<Flow>, kinds: seq<Kind>) {
    |flows| == |kinds| && forall i {:trigger KindAt(lps, flows, kinds, i)} | 0 <= i < |flows| :: KindAt(lps, flows, kinds, i)
  }

  /** The part at `i` is the rules of its flow. */
  ghost predicate ExpectedAt(t: Topology, lps: seq<LogicalPort>, flows: seq<Flow>, kinds: seq<Kind>, parts: seq<DeviceRules>,
                             i: nat)
    requires i < |flows| && i < |kinds| && i < |parts|
  {
    Expected(t, lps, flows[i], kinds[i], parts[i])
  }

  ghost predicate AllExpected(t: Topology, lps: seq<LogicalPort>, flows: seq<Flow>, kinds: seq<Kind>, parts: seq<DeviceRules>) {
    && |parts| <= |flows| && |parts| <= |kinds|
    && forall i {:trigger ExpectedAt(t, lps, flows, kinds, parts, i)} | 0 <= i < |parts| ::
         ExpectedAt(t, lps, flows, kinds, parts, i)
  }

  lemma OneMoreExpected(t: Topology, lps: seq<LogicalPort>, flows: seq<Flow>, kinds: seq<Kind>, parts: seq<DeviceRules>,
                        rules: DeviceRules)
    requires AllExpected(t, lps, flows, kinds, parts) && |parts| < |flows| && |parts| < |kinds|
    requires Expected(t, lps, flows[|parts|], kinds[|parts|], rules)
    ensures AllExpected(t, lps, flows, kinds, parts + [rules])
  {
    var parts' := parts + [rules];
    forall i {:trigger ExpectedAt(t, lps, flows, kinds, parts', i)} | 0 <= i < |parts'|
      ensures ExpectedAt(t, lps, flows, kinds, parts', i)
    {
      assert i < |parts| ==> ExpectedAt(t, lps, flows, kinds, parts, i);
    }
  }

  /** Each device has the rules of the flows, in order and without repetitions. */
  ghost predicate IsCompiled(t: Topology, lps: seq<LogicalPort>, flows: seq<Flow>, kinds: seq<Kind>, rules: DeviceRules) {
    exists parts: seq<DeviceRules> :: |parts| == |flows| && AllExpected(t, lps, flows, kinds, parts) && IsMerge(rules, parts)
  }

  /** A device has exactly the rules of the flows. */
  lemma {:induction false} TableMember(parts: seq<DeviceRules>, d: string, rule: Flow)
    ensures rule in TableOf(parts, d) <==> exists i | 0 <= i < |parts| :: rule in Get(parts[i], d)
  {
    if parts != [] {
      var n := |parts| - 1;
      TableMember(parts[..n], d, rule);
      AddAllMember(TableOf(parts[..n], d), Get(parts[n], d), rule);
      if rule in TableOf(parts[..n], d) {
        var i :| 0 <= i < n && rule in Get(parts[..n][i], d);
        assert rule in Get(parts[i], d);
      }
      if i :| 0 <= i < |parts| && rule in Get(parts[i], d) && i < n {
        assert rule in Get(parts[..n][i], d);
      }
    }
  }

  lemma {:induction false} AddAllMember(flows: seq<Flow>, more: seq<Flow>, rule: Flow)
    ensures rule in AddAll(flows, more) <==> rule in flows || rule in more
  {
    if more != [] {
      var n := |more| - 1;
      assert more == more[..n] + [more[n]];
      AddAllMember(flows, more[..n], rule);
    }
  }

  /** The devices that a flow has rules on. */
  function DevicesOf(t: Topology, kind: Kind): set<string> {
    match kind
    case UpFirst(p) => {p.uni.deviceId}
    case UpSecond(p) => {t.root}
    case DownFirst(p) => {t.root}
    case DownSecond(p) => {p.uni.deviceId}
    case Trap(p) => {t.root, p.uni.deviceId}
  }

  /** The device has a rule that carries what the flow does. */
  ghost predicate HasRuleOf(rules: DeviceRules, d: string, flow: Flow, kind: Kind) {
    exists rule | rule in Get(rules, d) :: Belongs(flow, kind, rule)
  }

  /** The rule carries what one of the flows does. */
  ghost predicate IsRuleOf(flows: seq<Flow>, kinds: seq<Kind>, rule: Flow)
    requires |flows| == |kinds|
  {
    exists i | 0 <= i < |flows| :: Belongs(flows[i], kinds[i], rule)
  }

  /** Every flow has its rules on its devices, and every rule is one of a flow. */
  ghost predicate Attributed(t: Topology, flows: seq<Flow>, kinds: seq<Kind>, rules: DeviceRules)
    requires |flows| == |kinds|
  {
    && (forall i, d {:trigger HasRuleOf(rules, d, flows[i], kinds[i])} | 0 <= i < |flows| && d in DevicesOf(t, kinds[i]) ::
          HasRuleOf(rules, d, flows[i], kinds[i]))
    && (forall d, rule | rule in Get(rules, d) :: IsRuleOf(flows, kinds, rule))
  }

  lemma PartHasRule(t: Topology, lps: seq<LogicalPort>, flow: Flow, kind: Kind, part: DeviceRules, d: string) returns (rule: Flow)
    requires Expected(t, lps, flow, kind, part) && d in DevicesOf(t, kind)
    ensures rule in Get(part, d) && Belongs(flow, kind, rule)
  {
    ExpectedCarries(t, lps, flow, kind, part);
    assert d in part && part[d] != [];
    rule := part[d][0];
  }

  lemma CompiledHasRule(t: Topology, lps: seq<LogicalPort>, flows: seq<Flow>, kinds: seq<Kind>, parts: seq<DeviceRules>, i: nat,
                        d: string)
    requires |parts| == |flows| == |kinds| && AllExpected(t, lps, flows, kinds, parts) && i < |flows| && d in DevicesOf(t, kinds[i])
    ensures exists rule | rule in TableOf(parts, d) :: Belongs(flows[i], kinds[i], rule)
  {
    assert ExpectedAt(t, lps, flows, kinds, parts, i);
    var rule := PartHasRule(t, lps, flows[i], kinds[i], parts[i], d);
    TableMember(parts, d, rule);
  }

  lemma CompiledRuleOf(t: Topology, lps: seq<LogicalPort>, flows: seq<Flow>, kinds: seq<Kind>, parts: seq<DeviceRules>, d: string,
                       rule: Flow)
    requires |parts| == |flows| == |kinds| && AllExpected(t, lps, flows, kinds, parts) && rule in TableOf(parts, d)
    ensures IsRuleOf(flows, kinds, rule)
  {
    TableMember(parts, d, rule);
    var i :| 0 <= i < |parts| && rule in Get(parts[i], d);
    assert ExpectedAt(t, lps, flows, kinds, parts, i);
    ExpectedCarries(t, lps, flows[i], kinds[i], parts[i]);
  }

  lemma CompiledIsAttributed(t: Topology, lps: seq<LogicalPort>, flows: seq<Flow>, kinds: seq<Kind>, rules: DeviceRules)
    requires |flows| == |kinds| && IsCompiled(t, lps, flows, kinds, rules)
    ensures Attributed(t, flows, kinds, rules)
  {
    var parts: seq<DeviceRules> :| |parts| == |flows| && AllExpected(t, lps, flows, kinds, parts) && IsMerge(rules, parts);
    forall i, d {:trigger HasRuleOf(rules, d, flows[i], kinds[i])} | 0 <= i < |flows| && d in DevicesOf(t, kinds[i])
      ensures HasRuleOf(rules, d, flows[i], kinds[i])
    {
      CompiledHasRule(t, lps, flows, kinds, parts, i, d);
      assert Get(rules, d) == TableOf(parts, d);
    }
    forall d, rule | rule in Get(rules, d) ensures IsRuleOf(flows, kinds, rule) {
      assert Get(rules, d) == TableOf(parts, d);
      CompiledRuleOf(t, lps, flows, kinds, parts, d, rule);
    }
  }

  method DecomposeRules(agent: Agent, devices: map<string, Device>, roots: set<string>, flows: seq<Flow>, groups: set<uint32>,
                        ghost t: Topology, ghost lps: seq<LogicalPort>, ghost kinds: seq<Kind>)
    returns (r: Decomposed)
    requires TwoHops(agent.routes) && |flows| == |kinds|
    ensures Ready(t, lps, agent) && DevicesOk(t, devices, roots) && AllOfAKind(lps, flows, kinds) ==>
              r.Rules? && IsCompiled(t, lps, flows, kinds, r.rules) && Attributed(t, flows, kinds, r.rules)
  {
    ghost var good := Ready(t, lps, agent) && DevicesOk(t, devices, roots) && AllOfAKind(lps, flows, kinds);
    var all: DeviceRules := map[];
    ghost var parts: seq<DeviceRules> := [];
    for i := 0 to |flows|
      invariant |parts| == i && IsMerge(all, parts)
      invariant good ==> AllExpected(t, lps, flows, kinds, parts)
    {
      assert good ==> KindAt(lps, flows, kinds, i);
      r := DecomposeFlow(agent, devices, roots, flows[i], groups, t, lps, kinds[i]);
      if r.Failed? {
        return;
      }
      if good {
        OneMoreExpected(t, lps, flows, kinds, parts, r.rules);
      }
      ghost var before := all;
      all := AddRules(all, r.rules);
      MergeStep(before, parts, r.rules, all);
      parts := parts + [r.rules];
    }
    if good {
      CompiledIsAttributed(t, lps, flows, kinds, all);
    }
    r := Rules(all);
  }
}
