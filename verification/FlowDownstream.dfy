/** Downstream packets: the OLT's rules and the ONU's rules together do what the logical switch does. */
module FlowDownstream {
  import opened Voltha
  import opened OpenFlow
  import opened RouteSpec
  import opened FlowDecomposition
  import opened FlowChoice
  import opened FlowRules
  import opened FlowMeaning

  // Packets on the physical tree

  /** The ONU of a subscriber tag. */
  function OnuOf(t: Topology, lps: seq<LogicalPort>, tag: Option<nat>): (onu: Option<string>)
    ensures onu.Some? ==> onu.value in t.links
  {
    var u := if tag.None? then None else PortWith(lps, tag.value);
    if u.Some? && u.value.deviceId in t.links then Some(u.value.deviceId) else None
  }

  /** What leaves the OLT on the PON port of the tagged ONU goes on through that ONU; all ONUs of a PON port share it. */
  function CarryDown(t: Topology, rules: DeviceRules, onu: Option<string>, emissions: seq<Emission>): seq<Exit>
    requires onu.Some? ==> onu.value in t.links
  {
    if emissions == [] then []
    else
      var e := emissions[0];
      (if onu.Some? && e.target == ToPort(t.links[onu.value].oltPort)
       then Exits(onu.value, RunTable(Get(rules, onu.value), e.packet, Context(t.links[onu.value].ponPort, None, None)))
       else [Exit(t.root, e.target, e.packet)])
      + CarryDown(t, rules, onu, emissions[1..])
  }

  /** A packet that enters at an NNI port; the subscriber tag of the selected rule says which ONU it is for. */
  function RunDown(t: Topology, lps: seq<LogicalPort>, rules: DeviceRules, nni: LogicalPort, packet: Packet): seq<Exit> {
    match Lookup(Get(rules, t.root), 0, packet, Context(nni.devicePortNo, None, None))
    case None => []
    case Some(rule) => CarryDown(t, rules, OnuOf(t, lps, FirstOf(rule.fields, TunnelId)), Emit(GetActions(rule), packet))
  }

  lemma CarryDownOne(t: Topology, rules: DeviceRules, onu: string, target: Target, packet: Packet)
    requires onu in t.links
    ensures CarryDown(t, rules, Some(onu), [Emission(target, packet)])
            == if target == ToPort(t.links[onu].oltPort)
               then Exits(onu, RunTable(Get(rules, onu), packet, Context(t.links[onu].ponPort, None, None)))
               else [Exit(t.root, target, packet)]
  {
  }

  // The OLT

  /** The rule of the flow accepts a packet of the NNI port on the OLT. */
  ghost predicate DownOltFires(flow: Flow, kind: Kind, n: LogicalPort, packet: Packet) {
    kind.DownFirst? && kind.p.nni == n && HeaderMatch(flow, packet)
  }

  lemma DownOltFiresIff(t: Topology, lps: seq<LogicalPort>, flow: Flow, kind: Kind, rules: DeviceRules, n: LogicalPort, packet: Packet)
    requires Part(t, lps, flow, kind, rules) && n in NniPorts(lps)
    ensures FiresIn(Get(rules, t.root), packet, Context(n.devicePortNo, None, None)) <==> DownOltFires(flow, kind, n, packet)
  {
    if kind.DownFirst? && kind.p.nni == n {
      MetadataRuleMatches(flow, RouteDown(t, kind.p)[0], packet);
    } else if Get(rules, t.root) != [] {
      OltRulePort(t, lps, flow, kind, rules);
      OtherPort(Get(rules, t.root)[0], if kind.DownFirst? then kind.p.nni.devicePortNo else t.links[kind.p.uni.deviceId].oltPort,
                packet, Context(n.devicePortNo, None, None));
    }
  }

  /** The OLT's rule sends the packet to the PON port of the named UNI's ONU, with its tag, or to the controller. */
  lemma OltDown(t: Topology, lps: seq<LogicalPort>, flow: Flow, kind: Kind, rules: DeviceRules, n: LogicalPort, packet: Packet)
    requires Part(t, lps, flow, kind, rules) && DownOltFires(flow, kind, n, packet)
    ensures Get(rules, t.root) != [] && kind.p.uni.deviceId in t.links
    ensures var rule := Get(rules, t.root)[0];
            var u := kind.p.uni;
            && OnuOf(t, lps, FirstOf(rule.fields, TunnelId)) == Some(u.deviceId)
            && Emit(GetActions(rule), packet)
               == [Emission(OltTarget(flow, t.links[u.deviceId].oltPort), Rewrite(GetActions(flow), packet))]
  {
    var hop := RouteDown(t, kind.p)[0];
    MetadataRuleNames(flow, hop);
    MetadataRuleEmits(flow, hop, packet);
    PortWithIs(t, lps, kind.p.uni);
  }

  // The ONU

  /** The rule of the flow accepts a packet from the OLT on the ONU. */
  ghost predicate DownOnuFires(flow: Flow, kind: Kind, onu: string, packet: Packet) {
    kind.DownSecond? && kind.p.uni.deviceId == onu && HeaderMatch(flow, packet)
  }

  lemma DownOnuFiresIff(t: Topology, lps: seq<LogicalPort>, flow: Flow, kind: Kind, rules: DeviceRules, onu: string, packet: Packet)
    requires Part(t, lps, flow, kind, rules) && onu in t.links
    ensures FiresIn(Get(rules, onu), packet, Context(t.links[onu].ponPort, None, None)) <==> DownOnuFires(flow, kind, onu, packet)
  {
    if kind.DownSecond? && kind.p.uni.deviceId == onu {
      UnicastRuleMatches(flow, RouteDown(t, kind.p)[1], packet);
    } else if Get(rules, onu) != [] {
      OnuRulePort(t, lps, flow, kind, rules, onu);
      OtherPort(Get(rules, onu)[0], kind.p.uni.devicePortNo, packet, Context(t.links[onu].ponPort, None, None));
    }
  }

  /** The ONU's rule delivers the packet at the UNI port. */
  lemma OnuDown(t: Topology, lps: seq<LogicalPort>, flow: Flow, kind: Kind, rules: DeviceRules, onu: string, packet: Packet)
    requires Part(t, lps, flow, kind, rules) && DownOnuFires(flow, kind, onu, packet)
    ensures Get(rules, onu) != []
    ensures Exits(onu, Emit(GetActions(Get(rules, onu)[0]), packet)) == [DeliveredAt(flow, kind.p.uni, packet)]
  {
    UnicastRuleEmits(flow, RouteDown(t, kind.p)[1], kind.p.uni.portNo, packet);
    ExitsOne(onu, ToPort(kind.p.uni.devicePortNo), Rewrite(Front(GetActions(flow)), packet));
  }

  /** The rewritten packet at the UNI port. */
  function DeliveredAt(flow: Flow, u: LogicalPort, packet: Packet): Exit {
    Exit(u.deviceId, ToPort(u.devicePortNo), Rewrite(Front(GetActions(flow)), packet))
  }

  // The run

  ghost function DownOltFiring(flows: seq<Flow>, kinds: seq<Kind>, n: LogicalPort, packet: Packet): (r: seq<bool>)
    requires |flows| == |kinds|
    ensures |r| == |flows| && forall i | 0 <= i < |r| :: r[i] == DownOltFires(flows[i], kinds[i], n, packet)
  {
    seq(|flows|, i requires 0 <= i < |flows| => DownOltFires(flows[i], kinds[i], n, packet))
  }

  ghost function DownOnuFiring(flows: seq<Flow>, kinds: seq<Kind>, onu: string, packet: Packet): (r: seq<bool>)
    requires |flows| == |kinds|
    ensures |r| == |flows| && forall i | 0 <= i < |r| :: r[i] == DownOnuFires(flows[i], kinds[i], onu, packet)
  {
    seq(|flows|, i requires 0 <= i < |flows| => DownOnuFires(flows[i], kinds[i], onu, packet))
  }

  /** The flow whose rule the OLT selects for a packet of the NNI port. */
  ghost function DownFirstChoice(flows: seq<Flow>, kinds: seq<Kind>, n: LogicalPort, packet: Packet): Option<nat>
    requires |flows| == |kinds|
  {
    Pick(flows, DownOltFiring(flows, kinds, n, packet))
  }

  /** The flow whose rule the ONU selects for a packet from the OLT. */
  ghost function DownSecondChoice(flows: seq<Flow>, kinds: seq<Kind>, onu: string, packet: Packet): Option<nat>
    requires |flows| == |kinds|
  {
    Pick(flows, DownOnuFiring(flows, kinds, onu, packet))
  }

  /** What the ONU delivers: only at its own UNI ports. */
  ghost function OnuExits(flows: seq<Flow>, kinds: seq<Kind>, onu: string, packet: Packet): seq<Exit>
    requires |flows| == |kinds|
  {
    var j := DownSecondChoice(flows, kinds, onu, packet);
    if j.None? then [] else [DeliveredAt(flows[j.value], kinds[j.value].p.uni, packet)]
  }

  /** What becomes of a packet of an NNI port, in terms of the flows. */
  ghost function DownExits(t: Topology, flows: seq<Flow>, kinds: seq<Kind>, n: LogicalPort, packet: Packet): seq<Exit>
    requires |flows| == |kinds|
  {
    match DownFirstChoice(flows, kinds, n, packet)
    case None => []
    case Some(i) =>
      var passed := Rewrite(GetActions(flows[i]), packet);
      if HasTrapField(flows[i]) then [Exit(t.root, ToPort(CONTROLLER), passed)]
      else OnuExits(flows, kinds, kinds[i].p.uni.deviceId, passed)
  }

  /** The OLT's table selects the rule of the chosen flow. */
  lemma DownOltLookup(t: Topology, lps: seq<LogicalPort>, flows: seq<Flow>, kinds: seq<Kind>, parts: seq<DeviceRules>, n: LogicalPort,
                      packet: Packet)
    requires Compiled(t, lps, flows, kinds, parts) && n in NniPorts(lps)
    ensures var i := DownFirstChoice(flows, kinds, n, packet);
            var rule := Lookup(TableOf(parts, t.root), 0, packet, Context(n.devicePortNo, None, None));
            if i.None? then rule == None else Get(parts[i.value], t.root) != [] && rule == Some(Get(parts[i.value], t.root)[0])
  {
    var ctx := Context(n.devicePortNo, None, None);
    OneRulesOf(t, lps, flows, kinds, parts, t.root);
    TableLookup(flows, parts, t.root, packet, ctx);
    forall i | 0 <= i < |flows| ensures Firing(parts, t.root, packet, ctx)[i] == DownOltFiring(flows, kinds, n, packet)[i] {
      PartAt(t, lps, flows, kinds, parts, i);
      DownOltFiresIff(t, lps, flows[i], kinds[i], parts[i], n, packet);
    }
    assert Firing(parts, t.root, packet, ctx) == DownOltFiring(flows, kinds, n, packet);
  }

  /** The ONU's table selects the rule of the chosen flow. */
  lemma DownOnuLookup(t: Topology, lps: seq<LogicalPort>, flows: seq<Flow>, kinds: seq<Kind>, parts: seq<DeviceRules>, onu: string,
                      packet: Packet)
    requires Compiled(t, lps, flows, kinds, parts) && onu in t.links
    ensures var j := DownSecondChoice(flows, kinds, onu, packet);
            var rule := Lookup(TableOf(parts, onu), 0, packet, Context(t.links[onu].ponPort, None, None));
            if j.None? then rule == None else Get(parts[j.value], onu) != [] && rule == Some(Get(parts[j.value], onu)[0])
  {
    var ctx := Context(t.links[onu].ponPort, None, None);
    OneRulesOf(t, lps, flows, kinds, parts, onu);
    TableLookup(flows, parts, onu, packet, ctx);
    forall i | 0 <= i < |flows| ensures Firing(parts, onu, packet, ctx)[i] == DownOnuFiring(flows, kinds, onu, packet)[i] {
      PartAt(t, lps, flows, kinds, parts, i);
      DownOnuFiresIff(t, lps, flows[i], kinds[i], parts[i], onu, packet);
    }
    assert Firing(parts, onu, packet, ctx) == DownOnuFiring(flows, kinds, onu, packet);
  }

  lemma OnuRun(t: Topology, lps: seq<LogicalPort>, flows: seq<Flow>, kinds: seq<Kind>, parts: seq<DeviceRules>, onu: string,
               packet: Packet)
    requires Compiled(t, lps, flows, kinds, parts) && onu in t.links
    ensures Exits(onu, RunTable(TableOf(parts, onu), packet, Context(t.links[onu].ponPort, None, None)))
            == OnuExits(flows, kinds, onu, packet)
  {
    DownOnuLookup(t, lps, flows, kinds, parts, onu, packet);
    var j := DownSecondChoice(flows, kinds, onu, packet);
    if j.Some? {
      PartAt(t, lps, flows, kinds, parts, j.value);
      OnuDown(t, lps, flows[j.value], kinds[j.value], parts[j.value], onu, packet);
    }
  }

  /**
   What becomes of any packet of an NNI port, for any list of flows, traps among them: the OLT hands it to the ONU of the UNI
   port that the metadata of the chosen flow names, or to the controller for EAPOL, IGMP and UDP, and that ONU alone delivers
   it, by the flow that it chooses.
   */
  lemma DownstreamRun(t: Topology, lps: seq<LogicalPort>, flows: seq<Flow>, kinds: seq<Kind>, rules: DeviceRules, n: LogicalPort,
                      packet: Packet)
    requires RulesOf(t, lps, flows, kinds, rules) && n in NniPorts(lps)
    ensures RunDown(t, lps, rules, n, packet) == DownExits(t, flows, kinds, n, packet)
  {
    var parts :| |parts| == |flows| && AllExpected(t, lps, flows, kinds, parts) && IsMerge(rules, parts);
    assert Get(rules, t.root) == TableOf(parts, t.root);
    DownOltLookup(t, lps, flows, kinds, parts, n, packet);
    var i := DownFirstChoice(flows, kinds, n, packet);
    if i.Some? {
      var flow, onu := flows[i.value], kinds[i.value].p.uni.deviceId;
      var passed := Rewrite(GetActions(flow), packet);
      PartAt(t, lps, flows, kinds, parts, i.value);
      OltDown(t, lps, flow, kinds[i.value], parts[i.value], n, packet);
      CarryDownOne(t, rules, onu, OltTarget(flow, t.links[onu].oltPort), passed);
      assert Get(rules, onu) == TableOf(parts, onu);
      OnuRun(t, lps, flows, kinds, parts, onu, passed);
    }
  }

  /** Only the UNI ports of the named ONU emit, and the controller gets what table 0 says is EAPOL, IGMP or UDP. */
  lemma OnlyNamedOnu(t: Topology, lps: seq<LogicalPort>, flows: seq<Flow>, kinds: seq<Kind>, rules: DeviceRules, n: LogicalPort,
                     packet: Packet, e: Exit)
    requires RulesOf(t, lps, flows, kinds, rules) && n in NniPorts(lps) && e in RunDown(t, lps, rules, n, packet)
    ensures var i := DownFirstChoice(flows, kinds, n, packet);
            && i.Some?
            && if HasTrapField(flows[i.value]) then e.deviceId == t.root && e.target == ToPort(CONTROLLER)
               else e.deviceId == kinds[i.value].p.uni.deviceId
                    && exists u | u in UniPorts(lps) && u.deviceId == e.deviceId :: e.target == ToPort(u.devicePortNo)
  {
    DownstreamRun(t, lps, flows, kinds, rules, n, packet);
    var i := DownFirstChoice(flows, kinds, n, packet).value;
    if !HasTrapField(flows[i]) {
      var j := DownSecondChoice(flows, kinds, kinds[i].p.uni.deviceId, Rewrite(GetActions(flows[i]), packet)).value;
      assert KindAt(lps, flows, kinds, j);
      assert kinds[j].p in AllPairs(lps);
    }
  }

  // The logical switch

  /** Which flows table 0 matches for a packet of an NNI port. */
  lemma FirstMatches(t: Topology, lps: seq<LogicalPort>, flow: Flow, kind: Kind, n: LogicalPort, packet: Packet)
    requires WellPlaced(t, lps) && IsKind(lps, flow, kind) && n in NniPorts(lps)
    ensures flow.tableId == 0 && Matches(flow, packet, Context(n.portNo, Some(0), Some(0)))
            <==> DownOltFires(flow, kind, n, packet) && MetadataMatch(flow, 0)
  {
    SourceMatches(t, lps, flow, kind, n, packet, Context(n.portNo, Some(0), Some(0)));
    assert kind.p in AllPairs(lps);
    if kind.DownFirst? && kind.p.nni == n {
      FlowSplit(flow, n.portNo, 0, packet);
    }
  }

  /** The table-1 flow is from the NNI port, and metadata and packet are for it. */
  ghost predicate NamedFires(flow: Flow, kind: Kind, n: LogicalPort, packet: Packet, metadata: nat) {
    kind.DownSecond? && kind.p.nni == n && HeaderMatch(flow, packet) && MetadataMatch(flow, metadata)
  }

  lemma SecondMatchesDown(t: Topology, lps: seq<LogicalPort>, flow: Flow, kind: Kind, n: LogicalPort, packet: Packet, metadata: nat)
    requires WellPlaced(t, lps) && IsKind(lps, flow, kind) && n in NniPorts(lps)
    ensures flow.tableId == 1 && Matches(flow, packet, Context(n.portNo, Some(metadata), Some(0)))
            <==> NamedFires(flow, kind, n, packet, metadata)
  {
    SourceMatches(t, lps, flow, kind, n, packet, Context(n.portNo, Some(metadata), Some(0)));
    assert kind.p in AllPairs(lps);
    if kind.DownSecond? && kind.p.nni == n {
      FlowSplit(flow, n.portNo, metadata, packet);
    }
  }

  ghost function NamedFiring(flows: seq<Flow>, kinds: seq<Kind>, n: LogicalPort, packet: Packet, metadata: nat): (r: seq<bool>)
    requires |flows| == |kinds|
    ensures |r| == |flows| && forall i | 0 <= i < |r| :: r[i] == NamedFires(flows[i], kinds[i], n, packet, metadata)
  {
    seq(|flows|, i requires 0 <= i < |flows| => NamedFires(flows[i], kinds[i], n, packet, metadata))
  }

  /** What table 1 delivers. */
  ghost function NamedExits(flows: seq<Flow>, kinds: seq<Kind>, n: LogicalPort, packet: Packet, metadata: nat): seq<Exit>
    requires |flows| == |kinds|
  {
    var j := Pick(flows, NamedFiring(flows, kinds, n, packet, metadata));
    if j.None? then [] else [DeliveredAt(flows[j.value], kinds[j.value].p.uni, packet)]
  }

  lemma SecondDelivers(t: Topology, lps: seq<LogicalPort>, flows: seq<Flow>, kinds: seq<Kind>, n: LogicalPort, packet: Packet,
                       metadata: nat)
    requires WellPlaced(t, lps) && AllOfAKind(lps, flows, kinds) && n in NniPorts(lps)
    ensures Located(lps, Delivered(SecondWith(flows, n.portNo, packet, metadata), packet)) == NamedExits(flows, kinds, n, packet, metadata)
  {
    var ctx := Context(n.portNo, Some(metadata), Some(0));
    FlowLookup(flows, 1, packet, ctx);
    forall i | 0 <= i < |flows| ensures Matching(flows, 1, packet, ctx)[i] == NamedFiring(flows, kinds, n, packet, metadata)[i] {
      assert KindAt(lps, flows, kinds, i);
      SecondMatchesDown(t, lps, flows[i], kinds[i], n, packet, metadata);
    }
    assert Matching(flows, 1, packet, ctx) == NamedFiring(flows, kinds, n, packet, metadata);
    var j := Pick(flows, NamedFiring(flows, kinds, n, packet, metadata));
    if j.Some? {
      assert KindAt(lps, flows, kinds, j.value);
      assert kinds[j.value].p in AllPairs(lps);
      FlowEmits(GetActions(flows[j.value]), kinds[j.value].p.uni.portNo, packet);
      LocatedOne(t, lps, kinds[j.value].p.uni, Rewrite(Front(GetActions(flows[j.value])), packet));
    }
  }

  ghost function FirstFiring(flows: seq<Flow>, kinds: seq<Kind>, n: LogicalPort, packet: Packet): (r: seq<bool>)
    requires |flows| == |kinds|
    ensures |r| == |flows|
    ensures forall i | 0 <= i < |r| :: r[i] == (DownOltFires(flows[i], kinds[i], n, packet) && MetadataMatch(flows[i], 0))
  {
    seq(|flows|, i requires 0 <= i < |flows| => DownOltFires(flows[i], kinds[i], n, packet) && MetadataMatch(flows[i], 0))
  }

  /** What the logical switch does with a packet of an NNI port, in terms of the flows. */
  lemma PipelineDown(t: Topology, lps: seq<LogicalPort>, flows: seq<Flow>, kinds: seq<Kind>, n: LogicalPort, packet: Packet)
    requires WellPlaced(t, lps) && AllOfAKind(lps, flows, kinds) && n in NniPorts(lps)
    ensures Located(lps, RunPipeline(flows, packet, n.portNo))
            == match Pick(flows, FirstFiring(flows, kinds, n, packet))
               case None => []
               case Some(i) => NamedExits(flows, kinds, n, Rewrite(GetActions(flows[i]), packet), GetWriteMetadata(flows[i]))
  {
    var ctx := Context(n.portNo, Some(0), Some(0));
    FlowLookup(flows, 0, packet, ctx);
    forall i | 0 <= i < |flows| ensures Matching(flows, 0, packet, ctx)[i] == FirstFiring(flows, kinds, n, packet)[i] {
      assert KindAt(lps, flows, kinds, i);
      FirstMatches(t, lps, flows[i], kinds[i], n, packet);
    }
    assert Matching(flows, 0, packet, ctx) == FirstFiring(flows, kinds, n, packet);
    var i := Pick(flows, FirstFiring(flows, kinds, n, packet));
    assert i.Some? ==> KindAt(lps, flows, kinds, i.value);
    RunPipelineIs(flows, packet, n.portNo);
    if i.Some? {
      SecondDelivers(t, lps, flows, kinds, n, Rewrite(GetActions(flows[i.value]), packet), GetWriteMetadata(flows[i.value]));
    }
  }

  // Meaning

  /** A packet that the own fields of no table-0 flow match goes nowhere. */
  lemma DownstreamDrop(t: Topology, lps: seq<LogicalPort>, flows: seq<Flow>, kinds: seq<Kind>, rules: DeviceRules, n: LogicalPort,
                       packet: Packet)
    requires RulesOf(t, lps, flows, kinds, rules) && n in NniPorts(lps) && DownFirstChoice(flows, kinds, n, packet).None?
    ensures RunDown(t, lps, rules, n, packet) == [] && Located(lps, RunPipeline(flows, packet, n.portNo)) == []
  {
    DownstreamRun(t, lps, flows, kinds, rules, n, packet);
    PipelineDown(t, lps, flows, kinds, n, packet);
  }

  /** The flow that table 1 selects, if table 0 selects one. */
  ghost function NamedChoice(flows: seq<Flow>, kinds: seq<Kind>, n: LogicalPort, packet: Packet): Option<nat>
    requires |flows| == |kinds|
  {
    match Pick(flows, FirstFiring(flows, kinds, n, packet))
    case None => None
    case Some(a) => Pick(flows, NamedFiring(flows, kinds, n, Rewrite(GetActions(flows[a]), packet), GetWriteMetadata(flows[a])))
  }

  /** The packet that goes through table 1 or the ONU, after the given flow. */
  function AfterFlow(flows: seq<Flow>, i: Option<nat>, packet: Packet): Packet
    requires i.Some? ==> i.value < |flows|
  {
    if i.None? then packet else Rewrite(GetActions(flows[i.value]), packet)
  }

  /**
   With and without a look at metadata, both tables select flows that bring the same packet to the same UNI port, or none; and
   table 0 does not match on EAPOL, IGMP or UDP.
   */
  ghost predicate DownstreamSame(flows: seq<Flow>, kinds: seq<Kind>, n: LogicalPort, packet: Packet)
    requires |flows| == |kinds|
  {
    var i, a := DownFirstChoice(flows, kinds, n, packet), Pick(flows, FirstFiring(flows, kinds, n, packet));
    i.Some? ==>
      && !HasTrapField(flows[i.value])
      && var j, k := DownSecondChoice(flows, kinds, kinds[i.value].p.uni.deviceId, AfterFlow(flows, i, packet)),
                     NamedChoice(flows, kinds, n, packet);
         && (j.None? <==> k.None?)
         && (j.Some? && k.Some? ==>
               && kinds[j.value].p.uni == kinds[k.value].p.uni
               && Rewrite(Front(GetActions(flows[j.value])), AfterFlow(flows, i, packet))
                  == Rewrite(Front(GetActions(flows[k.value])), AfterFlow(flows, a, packet)))
  }

  /** What table 1 does, by the flow it selects. */
  ghost function MeantExits(flows: seq<Flow>, kinds: seq<Kind>, n: LogicalPort, packet: Packet): seq<Exit>
    requires |flows| == |kinds|
  {
    var a, k := Pick(flows, FirstFiring(flows, kinds, n, packet)), NamedChoice(flows, kinds, n, packet);
    if k.None? then [] else [DeliveredAt(flows[k.value], kinds[k.value].p.uni, AfterFlow(flows, a, packet))]
  }

  lemma MeantIs(t: Topology, lps: seq<LogicalPort>, flows: seq<Flow>, kinds: seq<Kind>, n: LogicalPort, packet: Packet)
    requires WellPlaced(t, lps) && AllOfAKind(lps, flows, kinds) && n in NniPorts(lps)
    ensures Located(lps, RunPipeline(flows, packet, n.portNo)) == MeantExits(flows, kinds, n, packet)
  {
    PipelineDown(t, lps, flows, kinds, n, packet);
  }

  /** Without a flow that the OLT selects, table 0 selects none either. */
  lemma NothingMeant(flows: seq<Flow>, kinds: seq<Kind>, n: LogicalPort, packet: Packet)
    requires |flows| == |kinds| && DownFirstChoice(flows, kinds, n, packet).None?
    ensures MeantExits(flows, kinds, n, packet) == []
  {
    var fires := FirstFiring(flows, kinds, n, packet);
    assert forall i | 0 <= i < |fires| && fires[i] :: DownOltFiring(flows, kinds, n, packet)[i];
  }

  lemma ExitsCompared(t: Topology, lps: seq<LogicalPort>, flows: seq<Flow>, kinds: seq<Kind>, n: LogicalPort, packet: Packet, i: nat)
    requires WellPlaced(t, lps) && AllOfAKind(lps, flows, kinds) && DownFirstChoice(flows, kinds, n, packet) == Some(i)
    ensures DownExits(t, flows, kinds, n, packet) == MeantExits(flows, kinds, n, packet) <==> DownstreamSame(flows, kinds, n, packet)
  {
    var j := DownSecondChoice(flows, kinds, kinds[i].p.uni.deviceId, AfterFlow(flows, Some(i), packet));
    var k := NamedChoice(flows, kinds, n, packet);
    if k.Some? {
      UniOfFlow(t, lps, flows, kinds, k.value);
      if j.Some? {
        UniOfFlow(t, lps, flows, kinds, j.value);
        SameExit(t, lps, flows, kinds, j.value, k.value);
      }
    }
  }

  /** For any list of flows and any packet of an NNI port, the rules do what the logical switch does exactly then. */
  lemma DownstreamIff(t: Topology, lps: seq<LogicalPort>, flows: seq<Flow>, kinds: seq<Kind>, rules: DeviceRules, n: LogicalPort,
                      packet: Packet)
    requires RulesOf(t, lps, flows, kinds, rules) && n in NniPorts(lps)
    ensures RunDown(t, lps, rules, n, packet) == Located(lps, RunPipeline(flows, packet, n.portNo))
            <==> DownstreamSame(flows, kinds, n, packet)
  {
    DownstreamRun(t, lps, flows, kinds, rules, n, packet);
    MeantIs(t, lps, flows, kinds, n, packet);
    match DownFirstChoice(flows, kinds, n, packet)
    case None => NothingMeant(flows, kinds, n, packet);
    case Some(i) => ExitsCompared(t, lps, flows, kinds, n, packet, i);
  }

  lemma UniOfFlow(t: Topology, lps: seq<LogicalPort>, flows: seq<Flow>, kinds: seq<Kind>, i: nat)
    requires WellPlaced(t, lps) && AllOfAKind(lps, flows, kinds) && i < |flows|
    ensures kinds[i].p.uni in lps && kinds[i].p.uni.deviceId != t.root
  {
    assert KindAt(lps, flows, kinds, i);
    assert kinds[i].p in AllPairs(lps);
  }

  lemma SameExit(t: Topology, lps: seq<LogicalPort>, flows: seq<Flow>, kinds: seq<Kind>, j: nat, k: nat)
    requires WellPlaced(t, lps) && |flows| == |kinds| && j < |flows| && k < |flows| && kinds[j].p.uni in lps && kinds[k].p.uni in lps
    ensures forall a, b :: DeliveredAt(flows[j], kinds[j].p.uni, a) == DeliveredAt(flows[k], kinds[k].p.uni, b)
              <==> kinds[j].p.uni == kinds[k].p.uni && Rewrite(Front(GetActions(flows[j])), a) == Rewrite(Front(GetActions(flows[k])), b)
  {
    var u, v := kinds[j].p.uni, kinds[k].p.uni;
    if u.deviceId == v.deviceId && u.devicePortNo == v.devicePortNo {
      PlaceIdentifies(t, lps, u, v);
    }
  }

  /** Table-0 flows of the downstream direction match packets that carry no metadata yet. */
  ghost predicate NoMetadataYet(flows: seq<Flow>, kinds: seq<Kind>)
    requires |flows| == |kinds|
  {
    forall i | 0 <= i < |flows| && kinds[i].DownFirst? :: MetadataMatch(flows[i], 0)
  }

  /** Metadata that names a UNI port is accepted by the table-1 flows to that port and by no others from the same NNI port. */
  ghost predicate MetadataNames(flows: seq<Flow>, kinds: seq<Kind>)
    requires |flows| == |kinds|
  {
    forall i, j | 0 <= i < |flows| && 0 <= j < |flows| && kinds[i].DownFirst? && kinds[j].DownSecond? && kinds[i].p.nni == kinds[j].p.nni ::
      MetadataMatch(flows[j], GetWriteMetadata(flows[i])) <==> kinds[j].p == kinds[i].p
  }

  ghost predicate DifferentVlans(f: Flow, g: Flow) {
    exists a, b | a in f.fields && b in g.fields ::
      a.kind == VlanVid && b.kind == VlanVid && a.mask.None? && b.mask.None? && a.value != b.value
  }

  /** Table-1 flows on one ONU that are not between the same ports match different VLANs. */
  ghost predicate VlansTellApart(flows: seq<Flow>, kinds: seq<Kind>)
    requires |flows| == |kinds|
  {
    forall i, j | 0 <= i < |flows| && 0 <= j < |flows| && kinds[i].DownSecond? && kinds[j].DownSecond?
                  && kinds[i].p.uni.deviceId == kinds[j].p.uni.deviceId && kinds[i].p != kinds[j].p ::
      DifferentVlans(flows[i], flows[j])
  }

  lemma OneVlanOnly(f: Flow, g: Flow, packet: Packet)
    requires DifferentVlans(f, g) && HeaderMatch(f, packet)
    ensures !HeaderMatch(g, packet)
  {
  }

  /** Some table-1 flow between the ports matches the packet's own fields. */
  ghost predicate NamedMatches(flows: seq<Flow>, kinds: seq<Kind>, p: Pair, packet: Packet)
    requires |flows| == |kinds|
  {
    exists j | 0 <= j < |flows| :: kinds[j] == DownSecond(p) && HeaderMatch(flows[j], packet)
  }

  /** With a matching flow between the named ports, the ONU and table 1 consider the same flows. */
  lemma SameFlows(flows: seq<Flow>, kinds: seq<Kind>, i: nat, packet: Packet)
    requires |flows| == |kinds| && i < |flows| && kinds[i].DownFirst? && MetadataNames(flows, kinds) && VlansTellApart(flows, kinds)
    requires NamedMatches(flows, kinds, kinds[i].p, packet)
    ensures DownOnuFiring(flows, kinds, kinds[i].p.uni.deviceId, packet)
            == NamedFiring(flows, kinds, kinds[i].p.nni, packet, GetWriteMetadata(flows[i]))
  {
    var p := kinds[i].p;
    var k :| 0 <= k < |flows| && kinds[k] == DownSecond(p) && HeaderMatch(flows[k], packet);
    forall j | 0 <= j < |flows|
      ensures DownOnuFires(flows[j], kinds[j], p.uni.deviceId, packet)
              <==> NamedFires(flows[j], kinds[j], p.nni, packet, GetWriteMetadata(flows[i]))
    {
      if kinds[j].DownSecond? && kinds[j].p.uni.deviceId == p.uni.deviceId && kinds[j].p != p {
        OneVlanOnly(flows[k], flows[j], packet);
      }
    }
  }

  /** Without one, table 1 considers none. */
  lemma NoFlows(flows: seq<Flow>, kinds: seq<Kind>, i: nat, packet: Packet)
    requires |flows| == |kinds| && i < |flows| && kinds[i].DownFirst? && MetadataNames(flows, kinds)
    requires !NamedMatches(flows, kinds, kinds[i].p, packet)
    ensures NamedExits(flows, kinds, kinds[i].p.nni, packet, GetWriteMetadata(flows[i])) == []
  {
  }

  /** The ONU delivers what table 1 does exactly if there is a matching flow between the named ports, or none on the ONU. */
  lemma TablesAgree(flows: seq<Flow>, kinds: seq<Kind>, i: nat, packet: Packet)
    requires |flows| == |kinds| && i < |flows| && kinds[i].DownFirst? && MetadataNames(flows, kinds) && VlansTellApart(flows, kinds)
    ensures var p := kinds[i].p;
            var run := OnuExits(flows, kinds, p.uni.deviceId, packet);
            && (run == NamedExits(flows, kinds, p.nni, packet, GetWriteMetadata(flows[i]))
                <==> NamedMatches(flows, kinds, p, packet) || DownSecondChoice(flows, kinds, p.uni.deviceId, packet).None?)
            && (NamedMatches(flows, kinds, p, packet) ==> run != [])
  {
    var p, metadata := kinds[i].p, GetWriteMetadata(flows[i]);
    if NamedMatches(flows, kinds, p, packet) {
      SameFlows(flows, kinds, i, packet);
      var k :| 0 <= k < |flows| && kinds[k] == DownSecond(p) && HeaderMatch(flows[k], packet);
      assert DownOnuFiring(flows, kinds, p.uni.deviceId, packet)[k];
    } else {
      NoFlows(flows, kinds, i, packet);
    }
  }

  /** What table 1 delivers is for the named UNI port, which is not the controller. */
  lemma NamedAtUni(t: Topology, lps: seq<LogicalPort>, flows: seq<Flow>, kinds: seq<Kind>, n: LogicalPort, packet: Packet, i: nat)
    requires WellPlaced(t, lps) && AllOfAKind(lps, flows, kinds) && i < |flows| && kinds[i].DownFirst? && kinds[i].p.nni == n
    requires MetadataNames(flows, kinds)
    ensures forall e | e in NamedExits(flows, kinds, n, packet, GetWriteMetadata(flows[i])) ::
              e.deviceId == kinds[i].p.uni.deviceId != t.root && e.target == ToPort(kinds[i].p.uni.devicePortNo)
  {
    assert KindAt(lps, flows, kinds, i);
    assert kinds[i].p in AllPairs(lps);
  }

  /**
   When metadata names the flows of table 1 and VLANs tell those of an ONU apart: a packet that table 0 passes on is delivered
   as the logical switch says if and only if table 0 does not match on EAPOL, IGMP or UDP, and some table-1 flow between the
   named ports matches the packet's own fields or no flow on the ONU does.  With such a flow, only the named UNI port emits.
   */
  lemma DownstreamTables(t: Topology, lps: seq<LogicalPort>, flows: seq<Flow>, kinds: seq<Kind>, rules: DeviceRules, n: LogicalPort,
                         packet: Packet, i: nat)
    requires RulesOf(t, lps, flows, kinds, rules) && n in NniPorts(lps) && DownFirstChoice(flows, kinds, n, packet) == Some(i)
    requires NoMetadataYet(flows, kinds) && MetadataNames(flows, kinds) && VlansTellApart(flows, kinds)
    ensures var passed, p := Rewrite(GetActions(flows[i]), packet), kinds[i].p;
            var run, meant := RunDown(t, lps, rules, n, packet), Located(lps, RunPipeline(flows, packet, n.portNo));
            && (run == meant <==>
                  && !HasTrapField(flows[i])
                  && (NamedMatches(flows, kinds, p, passed) || DownSecondChoice(flows, kinds, p.uni.deviceId, passed).None?))
            && (!HasTrapField(flows[i]) && NamedMatches(flows, kinds, p, passed) ==>
                  |run| == 1 && run[0].deviceId == p.uni.deviceId && run[0].target == ToPort(p.uni.devicePortNo))
  {
    var passed, p := Rewrite(GetActions(flows[i]), packet), kinds[i].p;
    DownstreamRun(t, lps, flows, kinds, rules, n, packet);
    PipelineDown(t, lps, flows, kinds, n, packet);
    SameFirst(flows, kinds, n, packet);
    NamedAtUni(t, lps, flows, kinds, n, passed, i);
    TablesAgree(flows, kinds, i, passed);
    OneExit(flows, kinds, p.uni.deviceId, passed);
  }

  lemma SameFirst(flows: seq<Flow>, kinds: seq<Kind>, n: LogicalPort, packet: Packet)
    requires |flows| == |kinds| && NoMetadataYet(flows, kinds)
    ensures FirstFiring(flows, kinds, n, packet) == DownOltFiring(flows, kinds, n, packet)
  {
  }

  lemma OneExit(flows: seq<Flow>, kinds: seq<Kind>, onu: string, packet: Packet)
    requires |flows| == |kinds|
    ensures var exits := OnuExits(flows, kinds, onu, packet);
            |exits| <= 1 && (exits == [] <==> DownSecondChoice(flows, kinds, onu, packet).None?) && (exits != [] ==> exits[0] in exits)
  {
  }

  // One flow per table

  /** The flows agree on metadata and table 0 does not match on EAPOL, IGMP or UDP. */
  ghost predicate DownstreamOk(f0: Flow, f1: Flow) {
    !HasTrapField(f0) && MetadataMatch(f0, 0) && MetadataMatch(f1, GetWriteMetadata(f0))
  }

  lemma ChoicesOfTwo(f0: Flow, f1: Flow, p: Pair, packet: Packet)
    ensures var flows, kinds, passed := [f0, f1], [DownFirst(p), DownSecond(p)], Rewrite(GetActions(f0), packet);
            && DownFirstChoice(flows, kinds, p.nni, packet) == (if HeaderMatch(f0, packet) then Some(0) else None)
            && DownSecondChoice(flows, kinds, p.uni.deviceId, passed) == (if HeaderMatch(f1, passed) then Some(1) else None)
            && Pick(flows, FirstFiring(flows, kinds, p.nni, packet))
               == (if HeaderMatch(f0, packet) && MetadataMatch(f0, 0) then Some(0) else None)
            && Pick(flows, NamedFiring(flows, kinds, p.nni, passed, GetWriteMetadata(f0)))
               == (if HeaderMatch(f1, passed) && MetadataMatch(f1, GetWriteMetadata(f0)) then Some(1) else None)
  {
    var flows, kinds, passed := [f0, f1], [DownFirst(p), DownSecond(p)], Rewrite(GetActions(f0), packet);
    var metadata := GetWriteMetadata(f0);
    assert DownOltFiring(flows, kinds, p.nni, packet) == [HeaderMatch(f0, packet), false];
    assert DownOnuFiring(flows, kinds, p.uni.deviceId, passed) == [false, HeaderMatch(f1, passed)];
    assert FirstFiring(flows, kinds, p.nni, packet) == [HeaderMatch(f0, packet) && MetadataMatch(f0, 0), false];
    assert NamedFiring(flows, kinds, p.nni, passed, metadata) == [false, HeaderMatch(f1, passed) && MetadataMatch(f1, metadata)];
    PickOfTwo(f0, f1, HeaderMatch(f0, packet), false);
    PickOfTwo(f0, f1, false, HeaderMatch(f1, passed));
    PickOfTwo(f0, f1, HeaderMatch(f0, packet) && MetadataMatch(f0, 0), false);
    PickOfTwo(f0, f1, false, HeaderMatch(f1, passed) && MetadataMatch(f1, metadata));
  }

  /**
   A packet from an NNI port, for a table-0 flow whose metadata names the UNI port and the table-1 flow to that port: it is
   delivered as the logical switch says if and only if neither lets it through, or the flows agree on metadata and table 0
   does not match on EAPOL, IGMP or UDP; only the named UNI port ever emits it.
   */
  lemma DownstreamMeaning(t: Topology, lps: seq<LogicalPort>, f0: Flow, f1: Flow, p: Pair, rules: DeviceRules, packet: Packet)
    requires RulesOf(t, lps, [f0, f1], [DownFirst(p), DownSecond(p)], rules)
    ensures var passed := Rewrite(GetActions(f0), packet);
            var meant := Located(lps, RunPipeline([f0, f1], packet, p.nni.portNo));
            var run := RunDown(t, lps, rules, p.nni, packet);
            && run == (if !HeaderMatch(f0, packet) then []
                       else if HasTrapField(f0) then [Exit(t.root, ToPort(CONTROLLER), passed)]
                       else if !HeaderMatch(f1, passed) then []
                       else [DeliveredAt(f1, p.uni, passed)])
            && meant == (if !HeaderMatch(f0, packet) || !MetadataMatch(f0, 0) || !HeaderMatch(f1, passed)
                           || !MetadataMatch(f1, GetWriteMetadata(f0)) then []
                         else [DeliveredAt(f1, p.uni, passed)])
            && (run == meant <==>
                  !HeaderMatch(f0, packet) || (!HasTrapField(f0) && !HeaderMatch(f1, passed)) || DownstreamOk(f0, f1))
  {
    var flows, kinds := [f0, f1], [DownFirst(p), DownSecond(p)];
    assert KindAt(lps, flows, kinds, 0);
    assert p in AllPairs(lps);
    DownstreamRun(t, lps, flows, kinds, rules, p.nni, packet);
    PipelineDown(t, lps, flows, kinds, p.nni, packet);
    ChoicesOfTwo(f0, f1, p, packet);
  }
}
