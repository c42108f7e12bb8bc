/** The rules on the ONUs and the OLT do to an upstream packet what the flows of the logical switch say. */
module FlowMeaning {
  import opened Voltha
  import opened OpenFlow
  import opened RouteSpec
  import opened RouteLookup
  import opened FlowDecomposition
  import opened FlowChoice
  import opened FlowRules

  // Packets on the physical tree

  /** A packet that leaves the tree at a port of a device. */
  datatype Exit = Exit(deviceId: string, target: Target, packet: Packet)

  /** The UNI side and the PON side of a device have different port numbers, and no port has that of the controller. */
  ghost predicate PhysicalPorts(t: Topology, lps: seq<LogicalPort>) {
    && (forall u | u in lps && !u.rootPort && u.deviceId in t.links :: u.devicePortNo != t.links[u.deviceId].ponPort)
    && (forall n, onu | n in lps && n.rootPort && onu in t.links :: n.devicePortNo != t.links[onu].oltPort)
    && (forall n | n in lps && n.rootPort :: n.devicePortNo != CONTROLLER)
    && (forall onu | onu in t.links :: t.links[onu].oltPort != CONTROLLER)
  }

  function OnuContext(u: LogicalPort): Context {
    Context(u.devicePortNo, Some(0), Some(u.portNo))
  }

  function OltContext(t: Topology, u: LogicalPort): Context
    requires u.deviceId in t.links
  {
    Context(t.links[u.deviceId].oltPort, Some(0), Some(u.portNo))
  }

  function Exits(d: string, emissions: seq<Emission>): seq<Exit> {
    if emissions == [] then [] else [Exit(d, emissions[0].target, emissions[0].packet)] + Exits(d, emissions[1..])
  }

  lemma ExitsOne(d: string, target: Target, packet: Packet)
    ensures Exits(d, [Emission(target, packet)]) == [Exit(d, target, packet)]
  {
  }

  /** What leaves the ONU on its PON port goes on through the OLT, with the subscriber tag. */
  function CarryUp(t: Topology, rules: DeviceRules, u: LogicalPort, emissions: seq<Emission>): seq<Exit>
    requires u.deviceId in t.links
  {
    if emissions == [] then []
    else
      var e := emissions[0];
      (if e.target == ToPort(t.links[u.deviceId].ponPort)
       then Exits(t.root, RunTable(Get(rules, t.root), e.packet, OltContext(t, u)))
       else [Exit(u.deviceId, e.target, e.packet)])
      + CarryUp(t, rules, u, emissions[1..])
  }

  /** One packet on the PON link goes through the OLT. */
  lemma CarryOne(t: Topology, rules: DeviceRules, u: LogicalPort, packet: Packet)
    requires u.deviceId in t.links
    ensures CarryUp(t, rules, u, [Emission(ToPort(t.links[u.deviceId].ponPort), packet)])
            == Exits(t.root, RunTable(Get(rules, t.root), packet, OltContext(t, u)))
  {
  }

  /** A packet that enters at a UNI port. */
  function RunUp(t: Topology, rules: DeviceRules, u: LogicalPort, packet: Packet): seq<Exit>
    requires u.deviceId in t.links
  {
    CarryUp(t, rules, u, RunTable(Get(rules, u.deviceId), packet, OnuContext(u)))
  }

  function PortWith(lps: seq<LogicalPort>, portNo: nat): Option<LogicalPort> {
    if lps == [] then None else if lps[0].portNo == portNo then Some(lps[0]) else PortWith(lps[1..], portNo)
  }

  lemma {:induction false} PortWithIs(t: Topology, lps: seq<LogicalPort>, lp: LogicalPort)
    requires WellPlaced(t, lps) && lp in lps
    ensures PortWith(lps, lp.portNo) == Some(lp)
  {
    if lps[0] != lp {
      PortWithIs(t, lps[1..], lp);
    }
  }

  /** Where the emissions of the logical switch are on the physical tree. */
  function Located(lps: seq<LogicalPort>, emissions: seq<Emission>): seq<Exit> {
    if emissions == [] then []
    else
      var e := emissions[0];
      var port := if e.target.ToPort? then PortWith(lps, e.target.port) else None;
      [if port.None? then Exit("", e.target, e.packet) else Exit(port.value.deviceId, ToPort(port.value.devicePortNo), e.packet)]
      + Located(lps, emissions[1..])
  }

  lemma LocatedOne(t: Topology, lps: seq<LogicalPort>, lp: LogicalPort, packet: Packet)
    requires WellPlaced(t, lps) && lp in lps
    ensures Located(lps, [Emission(ToPort(lp.portNo), packet)]) == [Exit(lp.deviceId, ToPort(lp.devicePortNo), packet)]
  {
    PortWithIs(t, lps, lp);
  }

  /** The flows are those between UNI and NNI ports, and the rules are theirs. */
  ghost predicate RulesOf(t: Topology, lps: seq<LogicalPort>, flows: seq<Flow>, kinds: seq<Kind>, rules: DeviceRules) {
    WellPlaced(t, lps) && PhysicalPorts(t, lps) && AllOfAKind(lps, flows, kinds) && IsCompiled(t, lps, flows, kinds, rules)
  }

  /** The same, with the rules of each flow. */
  ghost predicate Compiled(t: Topology, lps: seq<LogicalPort>, flows: seq<Flow>, kinds: seq<Kind>, parts: seq<DeviceRules>) {
    && WellPlaced(t, lps) && PhysicalPorts(t, lps) && |flows| == |kinds| == |parts|
    && AllOfAKind(lps, flows, kinds) && AllExpected(t, lps, flows, kinds, parts)
  }

  /** One flow of the list with its rules. */
  ghost predicate Part(t: Topology, lps: seq<LogicalPort>, flow: Flow, kind: Kind, rules: DeviceRules) {
    && WellPlaced(t, lps) && PhysicalPorts(t, lps) && IsKind(lps, flow, kind) && Expected(t, lps, flow, kind, rules)
    && t.root !in t.links && kind.p.nni in lps && kind.p.nni.rootPort && kind.p.uni in lps && !kind.p.uni.rootPort
  }

  lemma PartAt(t: Topology, lps: seq<LogicalPort>, flows: seq<Flow>, kinds: seq<Kind>, parts: seq<DeviceRules>, i: nat)
    requires Compiled(t, lps, flows, kinds, parts) && i < |flows|
    ensures Part(t, lps, flows[i], kinds[i], parts[i])
  {
    assert KindAt(lps, flows, kinds, i) && ExpectedAt(t, lps, flows, kinds, parts, i);
    assert kinds[i].p in AllPairs(lps);
  }

  lemma OneRuleOf(t: Topology, lps: seq<LogicalPort>, flow: Flow, kind: Kind, rules: DeviceRules, d: string)
    requires Expected(t, lps, flow, kind, rules)
    ensures OneRule(flow, Get(rules, d))
  {
  }

  lemma OneRulesOf(t: Topology, lps: seq<LogicalPort>, flows: seq<Flow>, kinds: seq<Kind>, parts: seq<DeviceRules>, d: string)
    requires Compiled(t, lps, flows, kinds, parts)
    ensures OneRuleEach(flows, parts, d)
  {
    forall i | 0 <= i < |flows| ensures OneRule(flows[i], Get(parts[i], d)) {
      PartAt(t, lps, flows, kinds, parts, i);
      OneRuleOf(t, lps, flows[i], kinds[i], parts[i], d);
    }
  }

  // The two hops from a UNI port

  function OnuHop(t: Topology, u: LogicalPort): Hop
    requires u.deviceId in t.links
  {
    Hop(u.deviceId, u.devicePortNo, t.links[u.deviceId].ponPort)
  }

  function OltHop(t: Topology, u: LogicalPort, nni: LogicalPort): Hop
    requires u.deviceId in t.links
  {
    Hop(t.root, t.links[u.deviceId].oltPort, nni.devicePortNo)
  }

  /** The rules of a trap, whichever NNI port they were made for. */
  lemma TrapPart(t: Topology, lps: seq<LogicalPort>, flow: Flow, kind: Kind, rules: DeviceRules) returns (nni: LogicalPort)
    requires Part(t, lps, flow, kind, rules) && kind.Trap?
    ensures nni in NniPorts(lps) && kind.p.uni.deviceId in t.links
    ensures Get(rules, kind.p.uni.deviceId) == [ChildTrapRule(flow, OnuHop(t, kind.p.uni), kind.p.uni.portNo)]
    ensures Get(rules, t.root) == [Retarget(ParentTrapRule(flow, OltHop(t, kind.p.uni, nni), kind.p.uni.portNo))]
  {
    nni :| nni in NniPorts(lps) && TrapRules(t, flow, Pair(nni, kind.p.uni), rules);
  }

  /** The port that a rule on an ONU is for: the UNI port, or the PON port in the other direction. */
  lemma OnuRulePort(t: Topology, lps: seq<LogicalPort>, flow: Flow, kind: Kind, rules: DeviceRules, onu: string)
    requires Part(t, lps, flow, kind, rules) && onu != t.root && Get(rules, onu) != []
    ensures kind.p.uni.deviceId == onu && onu in t.links && (kind.UpFirst? || kind.DownSecond? || kind.Trap?)
    ensures Exact(InPort, if kind.DownSecond? then t.links[onu].ponPort else kind.p.uni.devicePortNo) in Get(rules, onu)[0].fields
  {
    if kind.Trap? {
      var _ := TrapPart(t, lps, flow, kind, rules);
    }
    assert Get(rules, onu)[0].fields[0] in Get(rules, onu)[0].fields;
  }

  /** The port that a rule on the OLT is for: the NNI port, or the PON port in the other direction. */
  lemma OltRulePort(t: Topology, lps: seq<LogicalPort>, flow: Flow, kind: Kind, rules: DeviceRules)
    requires Part(t, lps, flow, kind, rules) && Get(rules, t.root) != []
    ensures kind.UpSecond? || kind.DownFirst? || kind.Trap?
    ensures var rule := Get(rules, t.root)[0];
            if kind.DownFirst? then Exact(InPort, kind.p.nni.devicePortNo) in rule.fields
            else Exact(InPort, t.links[kind.p.uni.deviceId].oltPort) in rule.fields && Exact(TunnelId, kind.p.uni.portNo) in rule.fields
  {
    if kind.Trap? {
      var _ := TrapPart(t, lps, flow, kind, rules);
    }
    var rule := Get(rules, t.root)[0];
    assert rule.fields[0] in rule.fields && rule.fields[1] in rule.fields;
  }

  // The ONU

  /** The rule of the flow accepts a packet on the ONU. */
  ghost predicate OnuFires(flow: Flow, kind: Kind, u: LogicalPort, packet: Packet) {
    && kind.p.uni == u
    && if kind.UpFirst? then Matches(flow, packet, Context(u.portNo, Some(0), Some(0))) else kind.Trap? && ChildMatch(flow, packet)
  }

  /** A rule for another port of the ONU, or for the other direction, does not match. */
  lemma OtherOnuRule(t: Topology, lps: seq<LogicalPort>, flow: Flow, kind: Kind, rules: DeviceRules, u: LogicalPort, packet: Packet)
    requires Part(t, lps, flow, kind, rules) && u in UniPorts(lps) && !((kind.UpFirst? || kind.Trap?) && kind.p.uni == u)
    ensures !FiresIn(Get(rules, u.deviceId), packet, OnuContext(u))
  {
    if Get(rules, u.deviceId) != [] {
      OnuRulePort(t, lps, flow, kind, rules, u.deviceId);
      OtherPort(Get(rules, u.deviceId)[0], if kind.DownSecond? then t.links[u.deviceId].ponPort else kind.p.uni.devicePortNo, packet,
                OnuContext(u));
    }
  }

  lemma OnuFiresIff(t: Topology, lps: seq<LogicalPort>, flow: Flow, kind: Kind, rules: DeviceRules, u: LogicalPort, packet: Packet)
    requires Part(t, lps, flow, kind, rules) && u in UniPorts(lps)
    ensures FiresIn(Get(rules, u.deviceId), packet, OnuContext(u)) <==> OnuFires(flow, kind, u, packet)
  {
    if kind.UpFirst? && kind.p.uni == u {
      RestrictedMatches(flow, Get(rules, u.deviceId)[0], u.portNo, u.devicePortNo, u.portNo, packet);
    } else if kind.Trap? && kind.p.uni == u {
      var _ := TrapPart(t, lps, flow, kind, rules);
      ChildAccepts(flow, OnuHop(t, u), u.portNo, packet);
    } else {
      OtherOnuRule(t, lps, flow, kind, rules, u, packet);
    }
  }

  /** What the ONU makes of a packet that it passes on. */
  function Passed(flow: Flow, kind: Kind, packet: Packet): Packet {
    if kind.Trap? then Tagged(flow, packet) else Rewrite(GetActions(flow), packet)
  }

  lemma OnuEmits(t: Topology, lps: seq<LogicalPort>, flow: Flow, kind: Kind, rules: DeviceRules, u: LogicalPort, packet: Packet)
    requires Part(t, lps, flow, kind, rules) && u in UniPorts(lps) && OnuFires(flow, kind, u, packet)
    ensures Get(rules, u.deviceId) != []
    ensures Emit(GetActions(Get(rules, u.deviceId)[0]), packet)
            == [Emission(ToPort(t.links[u.deviceId].ponPort), Passed(flow, kind, packet))]
  {
    if kind.Trap? {
      var _ := TrapPart(t, lps, flow, kind, rules);
      ChildEmits(flow, OnuHop(t, u), u.portNo, packet);
    } else {
      PassOnEmits(flow, OnuHop(t, u), u.portNo, packet);
    }
  }

  // The OLT

  /** The rule of the flow accepts a packet of the UNI port on the OLT. */
  ghost predicate OltFires(flow: Flow, kind: Kind, u: LogicalPort, packet: Packet) {
    kind.p.uni == u && (kind.UpSecond? || kind.Trap?) && Matches(flow, packet, Context(u.portNo, Some(0), Some(0)))
  }

  lemma OtherOltRule(t: Topology, lps: seq<LogicalPort>, flow: Flow, kind: Kind, rules: DeviceRules, u: LogicalPort, packet: Packet)
    requires Part(t, lps, flow, kind, rules) && u in UniPorts(lps) && !((kind.UpSecond? || kind.Trap?) && kind.p.uni == u)
    ensures !FiresIn(Get(rules, t.root), packet, OltContext(t, u))
  {
    if Get(rules, t.root) != [] {
      OltRulePort(t, lps, flow, kind, rules);
      if kind.DownFirst? {
        OtherPort(Get(rules, t.root)[0], kind.p.nni.devicePortNo, packet, OltContext(t, u));
      } else {
        if kind.p.uni.portNo == u.portNo { NumberIdentifies(t, lps, kind.p.uni, u); }
        OtherTunnel(Get(rules, t.root)[0], kind.p.uni.portNo, packet, OltContext(t, u));
      }
    }
  }

  lemma OltFiresIff(t: Topology, lps: seq<LogicalPort>, flow: Flow, kind: Kind, rules: DeviceRules, u: LogicalPort, packet: Packet)
    requires Part(t, lps, flow, kind, rules) && u in UniPorts(lps)
    ensures FiresIn(Get(rules, t.root), packet, OltContext(t, u)) <==> OltFires(flow, kind, u, packet)
  {
    if (kind.UpSecond? || kind.Trap?) && kind.p.uni == u {
      if kind.Trap? {
        var _ := TrapPart(t, lps, flow, kind, rules);
      }
      RestrictedMatches(flow, Get(rules, t.root)[0], u.portNo, t.links[u.deviceId].oltPort, u.portNo, packet);
    } else {
      OtherOltRule(t, lps, flow, kind, rules, u, packet);
    }
  }

  /**
   What the OLT sends out for a flow: a data flow rewrites and goes to its NNI port, a trap goes unchanged to the NNI port of
   its route, and either goes to the controller instead for EAPOL, IGMP and UDP.
   */
  ghost predicate Sent(t: Topology, lps: seq<LogicalPort>, flow: Flow, kind: Kind, packet: Packet, exits: seq<Exit>) {
    match kind
    case UpSecond(p) => exits == [Exit(t.root, OltTarget(flow, p.nni.devicePortNo), Rewrite(Front(GetActions(flow)), packet))]
    case Trap(p) => exists nni | nni in NniPorts(lps) :: exits == [Exit(t.root, OltTarget(flow, nni.devicePortNo), packet)]
    case _ => false
  }

  lemma OltSends(t: Topology, lps: seq<LogicalPort>, flow: Flow, kind: Kind, rules: DeviceRules, u: LogicalPort, packet: Packet)
    requires Part(t, lps, flow, kind, rules) && u in UniPorts(lps) && OltFires(flow, kind, u, packet)
    ensures Get(rules, t.root) != [] && Sent(t, lps, flow, kind, packet, Exits(t.root, Emit(GetActions(Get(rules, t.root)[0]), packet)))
  {
    if kind.Trap? {
      var nni := TrapPart(t, lps, flow, kind, rules);
      ParentEmits(flow, OltHop(t, u, nni), u.portNo, packet);
      ExitsOne(t.root, OltTarget(flow, nni.devicePortNo), packet);
    } else {
      var nni := kind.p.nni;
      SendOutEmits(flow, OltHop(t, u, nni), u.portNo, nni.portNo, packet);
      ExitsOne(t.root, OltTarget(flow, nni.devicePortNo), Rewrite(Front(GetActions(flow)), packet));
    }
  }

  // The run

  ghost function OnuFiring(flows: seq<Flow>, kinds: seq<Kind>, u: LogicalPort, packet: Packet): (r: seq<bool>)
    requires |flows| == |kinds|
    ensures |r| == |flows| && forall i | 0 <= i < |r| :: r[i] == OnuFires(flows[i], kinds[i], u, packet)
  {
    seq(|flows|, i requires 0 <= i < |flows| => OnuFires(flows[i], kinds[i], u, packet))
  }

  ghost function OltFiring(flows: seq<Flow>, kinds: seq<Kind>, u: LogicalPort, packet: Packet): (r: seq<bool>)
    requires |flows| == |kinds|
    ensures |r| == |flows| && forall i | 0 <= i < |r| :: r[i] == OltFires(flows[i], kinds[i], u, packet)
  {
    seq(|flows|, i requires 0 <= i < |flows| => OltFires(flows[i], kinds[i], u, packet))
  }

  /** The flow whose rule the ONU selects for a packet of the UNI port. */
  ghost function OnuChoice(flows: seq<Flow>, kinds: seq<Kind>, u: LogicalPort, packet: Packet): Option<nat>
    requires |flows| == |kinds|
  {
    Pick(flows, OnuFiring(flows, kinds, u, packet))
  }

  /** The flow whose rule the OLT selects for a packet of the UNI port. */
  ghost function OltChoice(flows: seq<Flow>, kinds: seq<Kind>, u: LogicalPort, packet: Packet): Option<nat>
    requires |flows| == |kinds|
  {
    Pick(flows, OltFiring(flows, kinds, u, packet))
  }

  /** The ONU's table selects the rule of the chosen flow. */
  lemma OnuLookup(t: Topology, lps: seq<LogicalPort>, flows: seq<Flow>, kinds: seq<Kind>, parts: seq<DeviceRules>, u: LogicalPort,
                  packet: Packet)
    requires Compiled(t, lps, flows, kinds, parts) && u in UniPorts(lps)
    ensures var i := OnuChoice(flows, kinds, u, packet);
            var rule := Lookup(TableOf(parts, u.deviceId), 0, packet, OnuContext(u));
            if i.None? then rule == None else Get(parts[i.value], u.deviceId) != [] && rule == Some(Get(parts[i.value], u.deviceId)[0])
  {
    OneRulesOf(t, lps, flows, kinds, parts, u.deviceId);
    TableLookup(flows, parts, u.deviceId, packet, OnuContext(u));
    forall i | 0 <= i < |flows|
      ensures Firing(parts, u.deviceId, packet, OnuContext(u))[i] == OnuFiring(flows, kinds, u, packet)[i]
    {
      PartAt(t, lps, flows, kinds, parts, i);
      OnuFiresIff(t, lps, flows[i], kinds[i], parts[i], u, packet);
    }
    assert Firing(parts, u.deviceId, packet, OnuContext(u)) == OnuFiring(flows, kinds, u, packet);
  }

  /** The OLT's table selects the rule of the chosen flow. */
  lemma OltLookup(t: Topology, lps: seq<LogicalPort>, flows: seq<Flow>, kinds: seq<Kind>, parts: seq<DeviceRules>, u: LogicalPort,
                  packet: Packet)
    requires Compiled(t, lps, flows, kinds, parts) && u in UniPorts(lps)
    ensures var j := OltChoice(flows, kinds, u, packet);
            var rule := Lookup(TableOf(parts, t.root), 0, packet, OltContext(t, u));
            if j.None? then rule == None else Get(parts[j.value], t.root) != [] && rule == Some(Get(parts[j.value], t.root)[0])
  {
    OneRulesOf(t, lps, flows, kinds, parts, t.root);
    TableLookup(flows, parts, t.root, packet, OltContext(t, u));
    forall i | 0 <= i < |flows|
      ensures Firing(parts, t.root, packet, OltContext(t, u))[i] == OltFiring(flows, kinds, u, packet)[i]
    {
      PartAt(t, lps, flows, kinds, parts, i);
      OltFiresIff(t, lps, flows[i], kinds[i], parts[i], u, packet);
    }
    assert Firing(parts, t.root, packet, OltContext(t, u)) == OltFiring(flows, kinds, u, packet);
  }

  /** What the OLT makes of a packet of the UNI port. */
  ghost predicate OltResult(t: Topology, lps: seq<LogicalPort>, flows: seq<Flow>, kinds: seq<Kind>, u: LogicalPort, packet: Packet,
                            exits: seq<Exit>)
    requires |flows| == |kinds|
  {
    var j := OltChoice(flows, kinds, u, packet);
    if j.None? then exits == [] else Sent(t, lps, flows[j.value], kinds[j.value], packet, exits)
  }

  lemma OltRun(t: Topology, lps: seq<LogicalPort>, flows: seq<Flow>, kinds: seq<Kind>, parts: seq<DeviceRules>, u: LogicalPort,
               packet: Packet)
    requires Compiled(t, lps, flows, kinds, parts) && u in UniPorts(lps)
    ensures OltResult(t, lps, flows, kinds, u, packet, Exits(t.root, RunTable(TableOf(parts, t.root), packet, OltContext(t, u))))
  {
    OltLookup(t, lps, flows, kinds, parts, u, packet);
    var j := OltChoice(flows, kinds, u, packet);
    if j.Some? {
      PartAt(t, lps, flows, kinds, parts, j.value);
      OltSends(t, lps, flows[j.value], kinds[j.value], parts[j.value], u, packet);
    }
  }

  /**
   What becomes of any packet of a UNI port, for any list of flows, traps among them: the ONU passes on or tags by the flow it
   chooses, and the OLT sends out by the flow it chooses for the passed packet.
   */
  lemma UpstreamRun(t: Topology, lps: seq<LogicalPort>, flows: seq<Flow>, kinds: seq<Kind>, rules: DeviceRules, u: LogicalPort,
                    packet: Packet)
    requires RulesOf(t, lps, flows, kinds, rules) && u in UniPorts(lps)
    ensures var i := OnuChoice(flows, kinds, u, packet);
            if i.None? then RunUp(t, rules, u, packet) == []
            else OltResult(t, lps, flows, kinds, u, Passed(flows[i.value], kinds[i.value], packet), RunUp(t, rules, u, packet))
  {
    var parts :| |parts| == |flows| && AllExpected(t, lps, flows, kinds, parts) && IsMerge(rules, parts);
    assert Get(rules, u.deviceId) == TableOf(parts, u.deviceId) && Get(rules, t.root) == TableOf(parts, t.root);
    OnuLookup(t, lps, flows, kinds, parts, u, packet);
    var i := OnuChoice(flows, kinds, u, packet);
    if i.Some? {
      var passed := Passed(flows[i.value], kinds[i.value], packet);
      PartAt(t, lps, flows, kinds, parts, i.value);
      OnuEmits(t, lps, flows[i.value], kinds[i.value], parts[i.value], u, packet);
      CarryOne(t, rules, u, passed);
      OltRun(t, lps, flows, kinds, parts, u, passed);
    }
  }

  // The logical switch

  /** The flow of table 1 that gets a packet of a port with some metadata. */
  function SecondWith(flows: seq<Flow>, inPort: uint32, packet: Packet, metadata: nat): Option<Flow> {
    Lookup(flows, 1, packet, Context(inPort, Some(metadata), Some(0)))
  }

  function FirstChoice(flows: seq<Flow>, inPort: uint32, packet: Packet): Option<Flow> {
    Lookup(flows, 0, packet, Context(inPort, Some(0), Some(0)))
  }

  function Delivered(choice: Option<Flow>, packet: Packet): seq<Emission> {
    if choice.None? then [] else Emit(GetActions(choice.value), packet)
  }

  predicate IsTrapped(choice: Option<Flow>) {
    choice.Some? && HasTrapField(choice.value)
  }

  /** The same exits, all of them to the controller. */
  function ToController(exits: seq<Exit>): seq<Exit> {
    if exits == [] then [] else [exits[0].(target := ToPort(CONTROLLER))] + ToController(exits[1..])
  }

  lemma RunPipelineIs(flows: seq<Flow>, packet: Packet, inPort: uint32)
    requires var first := FirstChoice(flows, inPort, packet);
             first.Some? ==> Silent(GetActions(first.value)) && GetGotoTableId(first.value) == 1
    ensures var first := FirstChoice(flows, inPort, packet);
            RunPipeline(flows, packet, inPort)
            == if first.None? then []
               else var passed := Rewrite(GetActions(first.value), packet);
                    Delivered(SecondWith(flows, inPort, passed, GetWriteMetadata(first.value)), passed)
  {
    var first := FirstChoice(flows, inPort, packet);
    if first.Some? {
      EmitOnce(GetActions(first.value), 0, packet);
    }
  }

  // Packets that no trap is for

  /** The packet has the protocol of the flow, as far as the fields other than VLAN id and metadata tell. */
  ghost predicate ProtocolMatch(flow: Flow, packet: Packet) {
    forall f | f in flow.fields && f.kind != InPort && f.kind != VlanVid && f.kind != Metadata ::
      FieldMatches(f, packet, Context(0, None, None))
  }

  /** No trap flow of the port is for the packet. */
  ghost predicate NoTrapFor(flows: seq<Flow>, kinds: seq<Kind>, u: LogicalPort, packet: Packet)
    requires |flows| == |kinds|
  {
    forall i | 0 <= i < |flows| && kinds[i].Trap? && kinds[i].p.uni == u :: !ProtocolMatch(flows[i], packet)
  }

  ghost predicate Ordinary(t: Topology, lps: seq<LogicalPort>, flows: seq<Flow>, kinds: seq<Kind>, u: LogicalPort, packet: Packet) {
    WellPlaced(t, lps) && AllOfAKind(lps, flows, kinds) && u in UniPorts(lps) && NoTrapFor(flows, kinds, u, packet)
  }

  /** Nor is one for what table 0 makes of it. */
  ghost predicate Untrapped(flows: seq<Flow>, kinds: seq<Kind>, u: LogicalPort, packet: Packet)
    requires |flows| == |kinds|
  {
    && NoTrapFor(flows, kinds, u, packet)
    && var first := FirstChoice(flows, u.portNo, packet);
       first.Some? ==> NoTrapFor(flows, kinds, u, Rewrite(GetActions(first.value), packet))
  }

  lemma HasProtocol(flow: Flow, packet: Packet, ctx: Context)
    requires WellFormed(flow)
    ensures ChildMatch(flow, packet) || Matches(flow, packet, ctx) ==> ProtocolMatch(flow, packet)
  {
    forall f | f in flow.fields && f.kind != InPort && f.kind != VlanVid && f.kind != Metadata
      ensures FieldMatches(f, packet, Context(0, None, None)) == FieldMatches(f, packet, Context(0, Some(0), Some(0)))
      ensures FieldMatches(f, packet, Context(0, None, None)) == FieldMatches(f, packet, ctx)
    {
      SameFieldMatch(f, packet, Context(0, None, None), Context(0, Some(0), Some(0)));
      SameFieldMatch(f, packet, Context(0, None, None), ctx);
    }
  }

  /** For such a packet the ONU chooses as table 0 does. */
  lemma OnuChoosesFirst(t: Topology, lps: seq<LogicalPort>, flows: seq<Flow>, kinds: seq<Kind>, u: LogicalPort, packet: Packet)
    requires Ordinary(t, lps, flows, kinds, u, packet)
    ensures OnuFiring(flows, kinds, u, packet) == Matching(flows, 0, packet, Context(u.portNo, Some(0), Some(0)))
    ensures FirstChoice(flows, u.portNo, packet) == FlowAt(flows, OnuChoice(flows, kinds, u, packet))
  {
    var ctx := Context(u.portNo, Some(0), Some(0));
    FlowLookup(flows, 0, packet, ctx);
    forall i | 0 <= i < |flows| ensures OnuFiring(flows, kinds, u, packet)[i] == Matching(flows, 0, packet, ctx)[i] {
      assert KindAt(lps, flows, kinds, i);
      SourceMatches(t, lps, flows[i], kinds[i], u, packet, ctx);
      HasProtocol(flows[i], packet, ctx);
    }
  }

  /** A flow only matches packets of its own port. */
  lemma SourceMatches(t: Topology, lps: seq<LogicalPort>, flow: Flow, kind: Kind, lp: LogicalPort, packet: Packet, ctx: Context)
    requires WellPlaced(t, lps) && IsKind(lps, flow, kind) && lp in lps && ctx.inPort == lp.portNo
    ensures Matches(flow, packet, ctx) ==> Source(kind) == lp
  {
    if Source(kind).portNo == lp.portNo {
      NumberIdentifies(t, lps, Source(kind), lp);
    } else {
      OtherPort(flow, Source(kind).portNo, packet, ctx);
    }
  }

  /** And the OLT as table 1 does for a packet without metadata. */
  lemma OltChoosesSecond(t: Topology, lps: seq<LogicalPort>, flows: seq<Flow>, kinds: seq<Kind>, u: LogicalPort, packet: Packet)
    requires Ordinary(t, lps, flows, kinds, u, packet)
    ensures SecondWith(flows, u.portNo, packet, 0) == FlowAt(flows, OltChoice(flows, kinds, u, packet))
  {
    var ctx := Context(u.portNo, Some(0), Some(0));
    FlowLookup(flows, 1, packet, ctx);
    forall i | 0 <= i < |flows| ensures OltFiring(flows, kinds, u, packet)[i] == Matching(flows, 1, packet, ctx)[i] {
      assert KindAt(lps, flows, kinds, i);
      SourceMatches(t, lps, flows[i], kinds[i], u, packet, ctx);
      HasProtocol(flows[i], packet, ctx);
    }
    assert OltFiring(flows, kinds, u, packet) == Matching(flows, 1, packet, ctx);
  }

  /** A flow that table 1 selects for such a packet of a UNI port sends it to an NNI port. */
  lemma SecondIsData(t: Topology, lps: seq<LogicalPort>, flows: seq<Flow>, kinds: seq<Kind>, u: LogicalPort, packet: Packet,
                     metadata: nat) returns (nni: LogicalPort)
    requires Ordinary(t, lps, flows, kinds, u, packet)
    requires SecondWith(flows, u.portNo, packet, metadata).Some?
    ensures nni in lps && nni.rootPort
    ensures var f := SecondWith(flows, u.portNo, packet, metadata).value;
            && Emit(GetActions(f), packet) == [Emission(ToPort(nni.portNo), Rewrite(Front(GetActions(f)), packet))]
            && Located(lps, Emit(GetActions(f), packet))
               == [Exit(t.root, ToPort(nni.devicePortNo), Rewrite(Front(GetActions(f)), packet))]
  {
    var ctx := Context(u.portNo, Some(metadata), Some(0));
    var f := SecondWith(flows, u.portNo, packet, metadata).value;
    var i :| 0 <= i < |flows| && flows[i] == f;
    assert KindAt(lps, flows, kinds, i);
    SourceMatches(t, lps, f, kinds[i], u, packet, ctx);
    HasProtocol(f, packet, ctx);
    nni := kinds[i].p.nni;
    assert kinds[i].p in AllPairs(lps);
    FlowEmits(GetActions(f), nni.portNo, packet);
    LocatedOne(t, lps, nni, Rewrite(Front(GetActions(f)), packet));
  }

  // Meaning

  /** What the OLT sends out is what table 1 does without metadata, or goes to the controller. */
  lemma OltDelivers(t: Topology, lps: seq<LogicalPort>, flows: seq<Flow>, kinds: seq<Kind>, u: LogicalPort, packet: Packet,
                    exits: seq<Exit>)
    requires Ordinary(t, lps, flows, kinds, u, packet) && OltResult(t, lps, flows, kinds, u, packet, exits)
    ensures var choice := SecondWith(flows, u.portNo, packet, 0);
            var meant := Located(lps, Delivered(choice, packet));
            exits == if IsTrapped(choice) then ToController(meant) else meant
  {
    OltChoosesSecond(t, lps, flows, kinds, u, packet);
    var j := OltChoice(flows, kinds, u, packet);
    if j.Some? {
      var f, kind := flows[j.value], kinds[j.value];
      assert KindAt(lps, flows, kinds, j.value);
      HasProtocol(f, packet, Context(u.portNo, Some(0), Some(0)));
      assert kind.p in AllPairs(lps);
      FlowEmits(GetActions(f), kind.p.nni.portNo, packet);
      LocatedOne(t, lps, kind.p.nni, Rewrite(Front(GetActions(f)), packet));
    }
  }

  lemma PlaceIdentifies(t: Topology, lps: seq<LogicalPort>, a: LogicalPort, b: LogicalPort)
    requires WellPlaced(t, lps) && a in lps && b in lps && a.deviceId == b.deviceId && a.devicePortNo == b.devicePortNo
    ensures a == b
  {
  }

  /** It is what table 1 does with some metadata exactly if the two selected flows deliver the same and are for no trap. */
  lemma SameDelivery(t: Topology, lps: seq<LogicalPort>, flows: seq<Flow>, kinds: seq<Kind>, u: LogicalPort, packet: Packet,
                     exits: seq<Exit>, metadata: nat)
    requires Ordinary(t, lps, flows, kinds, u, packet) && PhysicalPorts(t, lps) && OltResult(t, lps, flows, kinds, u, packet, exits)
    ensures var a, b := SecondWith(flows, u.portNo, packet, 0), SecondWith(flows, u.portNo, packet, metadata);
            exits == Located(lps, Delivered(b, packet)) <==> Delivered(a, packet) == Delivered(b, packet) && !IsTrapped(a)
  {
    var a, b := SecondWith(flows, u.portNo, packet, 0), SecondWith(flows, u.portNo, packet, metadata);
    OltDelivers(t, lps, flows, kinds, u, packet, exits);
    if a.Some? {
      var n := SecondIsData(t, lps, flows, kinds, u, packet, 0);
      if b.Some? {
        var m := SecondIsData(t, lps, flows, kinds, u, packet, metadata);
        if n.devicePortNo == m.devicePortNo {
          PlaceIdentifies(t, lps, n, m);
        }
      }
    } else if b.Some? {
      var m := SecondIsData(t, lps, flows, kinds, u, packet, metadata);
    }
  }

  /** The metadata that table 0 writes does not matter to table 1, and the selected flow is not one for a trap. */
  ghost predicate UpstreamOk(flows: seq<Flow>, inPort: uint32, packet: Packet) {
    var first := FirstChoice(flows, inPort, packet);
    first.Some? ==>
      var passed := Rewrite(GetActions(first.value), packet);
      var a, b := SecondWith(flows, inPort, passed, 0), SecondWith(flows, inPort, passed, GetWriteMetadata(first.value));
      Delivered(a, passed) == Delivered(b, passed) && !IsTrapped(a)
  }

  /** A flow that table 0 selects for such a packet passes it on to table 1. */
  lemma FirstPassesOn(t: Topology, lps: seq<LogicalPort>, flows: seq<Flow>, kinds: seq<Kind>, u: LogicalPort, packet: Packet)
    requires Ordinary(t, lps, flows, kinds, u, packet)
    ensures var i := OnuChoice(flows, kinds, u, packet);
            i.Some? ==> kinds[i.value].UpFirst? && Silent(GetActions(flows[i.value])) && GetGotoTableId(flows[i.value]) == 1
  {
    var i := OnuChoice(flows, kinds, u, packet);
    if i.Some? {
      assert KindAt(lps, flows, kinds, i.value);
      HasProtocol(flows[i.value], packet, Context(u.portNo, Some(0), Some(0)));
    }
  }

  /**
   Any list of flows, traps among them: a packet from a UNI port that no trap is for leaves the OLT as the logical switch says
   if and only if table 1 delivers the same with and without the written metadata, by a flow that is not for EAPOL, IGMP or
   UDP.
   */
  lemma UpstreamIff(t: Topology, lps: seq<LogicalPort>, flows: seq<Flow>, kinds: seq<Kind>, rules: DeviceRules, u: LogicalPort,
                    packet: Packet)
    requires RulesOf(t, lps, flows, kinds, rules) && u in UniPorts(lps) && Untrapped(flows, kinds, u, packet)
    ensures RunUp(t, rules, u, packet) == Located(lps, RunPipeline(flows, packet, u.portNo)) <==> UpstreamOk(flows, u.portNo, packet)
  {
    UpstreamRun(t, lps, flows, kinds, rules, u, packet);
    OnuChoosesFirst(t, lps, flows, kinds, u, packet);
    FirstPassesOn(t, lps, flows, kinds, u, packet);
    RunPipelineIs(flows, packet, u.portNo);
    var first := FirstChoice(flows, u.portNo, packet);
    if first.Some? {
      SameDelivery(t, lps, flows, kinds, u, Rewrite(GetActions(first.value), packet), RunUp(t, rules, u, packet),
                   GetWriteMetadata(first.value));
    }
  }

  /** Table-1 flows do not look at metadata, or none is written. */
  ghost predicate MetadataFree(flows: seq<Flow>, kinds: seq<Kind>)
    requires |flows| == |kinds|
  {
    forall i, j | 0 <= i < |flows| && kinds[i].UpFirst? && GetWriteMetadata(flows[i]) != 0 && 0 <= j < |flows| && kinds[j].UpSecond? ::
      forall f | f in flows[j].fields :: f.kind != Metadata
  }

  /** Then table 1 selects the same flow with and without the written metadata. */
  lemma MetadataIgnored(t: Topology, lps: seq<LogicalPort>, flows: seq<Flow>, kinds: seq<Kind>, u: LogicalPort, packet: Packet, i: nat)
    requires Ordinary(t, lps, flows, kinds, u, packet) && MetadataFree(flows, kinds) && i < |flows| && kinds[i].UpFirst?
    ensures SecondWith(flows, u.portNo, packet, GetWriteMetadata(flows[i])) == SecondWith(flows, u.portNo, packet, 0)
  {
    var metadata := GetWriteMetadata(flows[i]);
    var a, b := Context(u.portNo, Some(0), Some(0)), Context(u.portNo, Some(metadata), Some(0));
    FlowLookup(flows, 1, packet, a);
    FlowLookup(flows, 1, packet, b);
    forall j | 0 <= j < |flows| ensures Matching(flows, 1, packet, a)[j] == Matching(flows, 1, packet, b)[j] {
      if flows[j].tableId == 1 {
        SecondMatches(t, lps, flows, kinds, u, packet, metadata, j);
      }
    }
    assert Matching(flows, 1, packet, a) == Matching(flows, 1, packet, b);
  }

  lemma SecondMatches(t: Topology, lps: seq<LogicalPort>, flows: seq<Flow>, kinds: seq<Kind>, u: LogicalPort, packet: Packet,
                      metadata: nat, j: nat)
    requires Ordinary(t, lps, flows, kinds, u, packet) && j < |flows| && flows[j].tableId == 1
    requires metadata == 0 || !kinds[j].UpSecond? || forall f | f in flows[j].fields :: f.kind != Metadata
    ensures Matches(flows[j], packet, Context(u.portNo, Some(metadata), Some(0)))
            == Matches(flows[j], packet, Context(u.portNo, Some(0), Some(0)))
  {
    assert KindAt(lps, flows, kinds, j);
    if kinds[j].UpSecond? && kinds[j].p.uni == u {
      FlowSplit(flows[j], u.portNo, metadata, packet);
      FlowSplit(flows[j], u.portNo, 0, packet);
    } else if kinds[j].Trap? && kinds[j].p.uni == u {
      HasProtocol(flows[j], packet, Context(u.portNo, Some(metadata), Some(0)));
      HasProtocol(flows[j], packet, Context(u.portNo, Some(0), Some(0)));
    } else {
      SourceMatches(t, lps, flows[j], kinds[j], u, packet, Context(u.portNo, Some(metadata), Some(0)));
      SourceMatches(t, lps, flows[j], kinds[j], u, packet, Context(u.portNo, Some(0), Some(0)));
    }
  }

  /** The flow of table 1 that gets the packets of a port. */
  function SecondChoice(flows: seq<Flow>, inPort: uint32, packet: Packet): Option<Flow> {
    match FirstChoice(flows, inPort, packet)
    case None => None
    case Some(flow) => SecondWith(flows, inPort, Rewrite(GetActions(flow), packet), GetWriteMetadata(flow))
  }

  /**
   When table-1 flows do not match on written metadata: such a packet leaves the OLT as the logical switch says, unless the
   selected table-1 flow is one for EAPOL, IGMP or UDP, in which case the same packet goes to the controller instead.
   */
  lemma UpstreamMeaning(t: Topology, lps: seq<LogicalPort>, flows: seq<Flow>, kinds: seq<Kind>, rules: DeviceRules,
                        u: LogicalPort, packet: Packet)
    requires RulesOf(t, lps, flows, kinds, rules) && u in UniPorts(lps) && Untrapped(flows, kinds, u, packet)
    requires MetadataFree(flows, kinds)
    ensures var meant := Located(lps, RunPipeline(flows, packet, u.portNo));
            var trapped := IsTrapped(SecondChoice(flows, u.portNo, packet));
            && RunUp(t, rules, u, packet) == (if trapped then ToController(meant) else meant)
            && (RunUp(t, rules, u, packet) == meant <==> !trapped)
  {
    UpstreamRun(t, lps, flows, kinds, rules, u, packet);
    OnuChoosesFirst(t, lps, flows, kinds, u, packet);
    FirstPassesOn(t, lps, flows, kinds, u, packet);
    RunPipelineIs(flows, packet, u.portNo);
    UpstreamIff(t, lps, flows, kinds, rules, u, packet);
    var i := OnuChoice(flows, kinds, u, packet);
    if i.Some? {
      var passed := Rewrite(GetActions(flows[i.value]), packet);
      MetadataIgnored(t, lps, flows, kinds, u, passed, i.value);
      OltDelivers(t, lps, flows, kinds, u, passed, RunUp(t, rules, u, packet));
    }
  }

  // One flow per table

  lemma ChoicesOfTwo(f0: Flow, f1: Flow, p: Pair, packet: Packet)
    ensures var flows, kinds, ctx := [f0, f1], [UpFirst(p), UpSecond(p)], Context(p.uni.portNo, Some(0), Some(0));
            && OnuChoice(flows, kinds, p.uni, packet) == (if Matches(f0, packet, ctx) then Some(0) else None)
            && OltChoice(flows, kinds, p.uni, packet) == (if Matches(f1, packet, ctx) then Some(1) else None)
  {
    var flows, kinds, ctx := [f0, f1], [UpFirst(p), UpSecond(p)], Context(p.uni.portNo, Some(0), Some(0));
    assert OnuFiring(flows, kinds, p.uni, packet) == [Matches(f0, packet, ctx), false];
    assert OltFiring(flows, kinds, p.uni, packet) == [false, Matches(f1, packet, ctx)];
    PickOfTwo(f0, f1, Matches(f0, packet, ctx), false);
    PickOfTwo(f0, f1, false, Matches(f1, packet, ctx));
  }

  lemma LookupOfTwo(f0: Flow, f1: Flow, packet: Packet, ctx: Context)
    requires f0.tableId == 0 && f1.tableId == 1
    ensures Lookup([f0, f1], 0, packet, ctx) == if Matches(f0, packet, ctx) then Some(f0) else None
    ensures Lookup([f0, f1], 1, packet, ctx) == if Matches(f1, packet, ctx) then Some(f1) else None
  {
    assert [f0] + [f1] == [f0, f1];
    LookupOne(f0, 0, packet, ctx);
    LookupOne(f0, 1, packet, ctx);
    LookupAppend([f0], f1, 0, packet, ctx);
    LookupAppend([f0], f1, 1, packet, ctx);
  }

  /**
   For one flow per table from a UNI port: the packet leaves as the logical switch says if and only if table 0 or the packet
   fields of table 1 do not match, or written metadata and none are the same to table 1, and table 1 does not match both that
   and EAPOL, IGMP or UDP.
   */
  lemma UpstreamOfTwo(t: Topology, lps: seq<LogicalPort>, f0: Flow, f1: Flow, p: Pair, rules: DeviceRules, packet: Packet)
    requires RulesOf(t, lps, [f0, f1], [UpFirst(p), UpSecond(p)], rules) && p.uni.deviceId in t.links
    ensures var ctx := Context(p.uni.portNo, Some(0), Some(0));
            var passed := Rewrite(GetActions(f0), packet);
            var sent := Rewrite(Front(GetActions(f1)), passed);
            var written := MetadataMatch(f1, GetWriteMetadata(f0));
            var run, meant := RunUp(t, rules, p.uni, packet), Located(lps, RunPipeline([f0, f1], packet, p.uni.portNo));
            && run == (if !Matches(f0, packet, ctx) || !HeaderMatch(f1, passed) || !MetadataMatch(f1, 0) then []
                       else [Exit(t.root, OltTarget(f1, p.nni.devicePortNo), sent)])
            && meant == (if !Matches(f0, packet, ctx) || !HeaderMatch(f1, passed) || !written then []
                         else [Exit(t.root, ToPort(p.nni.devicePortNo), sent)])
            && (run == meant <==>
                  || !Matches(f0, packet, ctx) || !HeaderMatch(f1, passed)
                  || (MetadataMatch(f1, 0) == written && (written ==> !HasTrapField(f1))))
  {
    var flows, kinds, ctx := [f0, f1], [UpFirst(p), UpSecond(p)], Context(p.uni.portNo, Some(0), Some(0));
    var passed := Rewrite(GetActions(f0), packet);
    assert KindAt(lps, flows, kinds, 0) && KindAt(lps, flows, kinds, 1);
    assert p in AllPairs(lps);
    UpstreamRun(t, lps, flows, kinds, rules, p.uni, packet);
    ChoicesOfTwo(f0, f1, p, packet);
    ChoicesOfTwo(f0, f1, p, passed);
    FlowSplit(f1, p.uni.portNo, 0, passed);
    MeantOfTwo(t, lps, f0, f1, p, packet);
  }

  lemma MeantOfTwo(t: Topology, lps: seq<LogicalPort>, f0: Flow, f1: Flow, p: Pair, packet: Packet)
    requires WellPlaced(t, lps) && IsKind(lps, f0, UpFirst(p)) && IsKind(lps, f1, UpSecond(p))
    ensures var passed := Rewrite(GetActions(f0), packet);
            Located(lps, RunPipeline([f0, f1], packet, p.uni.portNo))
            == if !Matches(f0, packet, Context(p.uni.portNo, Some(0), Some(0))) || !HeaderMatch(f1, passed)
                  || !MetadataMatch(f1, GetWriteMetadata(f0)) then []
               else [Exit(t.root, ToPort(p.nni.devicePortNo), Rewrite(Front(GetActions(f1)), passed))]
  {
    var passed, metadata := Rewrite(GetActions(f0), packet), GetWriteMetadata(f0);
    assert p in AllPairs(lps);
    LookupOfTwo(f0, f1, packet, Context(p.uni.portNo, Some(0), Some(0)));
    LookupOfTwo(f0, f1, passed, Context(p.uni.portNo, Some(metadata), Some(0)));
    FlowSplit(f1, p.uni.portNo, metadata, passed);
    RunPipelineIs([f0, f1], packet, p.uni.portNo);
    FlowEmits(GetActions(f1), p.nni.portNo, passed);
    LocatedOne(t, lps, p.nni, Rewrite(Front(GetActions(f1)), passed));
  }

  /** The rules that the core computes for a list of flows treat every packet of every UNI port as the flows say. */
  method CompileFlows(agent: Agent, devices: map<string, Device>, roots: set<string>, flows: seq<Flow>, groups: set<uint32>,
                      ghost t: Topology, ghost lps: seq<LogicalPort>, ghost kinds: seq<Kind>)
    returns (r: Decomposed)
    requires Ready(t, lps, agent) && DevicesOk(t, devices, roots) && PhysicalPorts(t, lps) && AllOfAKind(lps, flows, kinds)
    ensures r.Rules? && RulesOf(t, lps, flows, kinds, r.rules)
    ensures forall u, packet | u in UniPorts(lps) && Untrapped(flows, kinds, u, packet) ::
              RunUp(t, r.rules, u, packet) == Located(lps, RunPipeline(flows, packet, u.portNo)) <==> UpstreamOk(flows, u.portNo, packet)
  {
    r := DecomposeRules(agent, devices, roots, flows, groups, t, lps, kinds);
    forall u, packet | u in UniPorts(lps) && Untrapped(flows, kinds, u, packet)
      ensures RunUp(t, r.rules, u, packet) == Located(lps, RunPipeline(flows, packet, u.portNo)) <==> UpstreamOk(flows, u.portNo, packet)
    {
      UpstreamIff(t, lps, flows, kinds, r.rules, u, packet);
    }
  }
}
