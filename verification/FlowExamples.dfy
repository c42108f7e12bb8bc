/** Concrete flows and packets for which the rules do not do what the logical switch says. */
module FlowExamples {
  import opened Voltha
  import opened OpenFlow
  import opened RouteSpec
  import opened FlowDecomposition
  import opened FlowRules
  import opened FlowMeaning
  import opened FlowDownstream
  import opened FlowTraps

  // Every list of flows of the five kinds has rules

  lemma PartOf(t: Topology, lps: seq<LogicalPort>, flow: Flow, kind: Kind) returns (rules: DeviceRules)
    requires WellPlaced(t, lps) && IsKind(lps, flow, kind)
    ensures Expected(t, lps, flow, kind, rules)
  {
    var p := kind.p;
    assert p in AllPairs(lps);
    match kind
    case UpFirst(_) => rules := map[p.uni.deviceId := [PassOn(flow, RouteUp(t, p)[0], p.uni.portNo)]];
    case UpSecond(_) => rules := map[t.root := [Retarget(SendOut(flow, RouteUp(t, p)[1], p.uni.portNo))]];
    case DownFirst(_) => rules := map[t.root := [Retarget(MetadataRule(flow, RouteDown(t, p)[0]))]];
    case DownSecond(_) => rules := map[p.uni.deviceId := [UnicastRule(flow, RouteDown(t, p)[1])]];
    case Trap(_) =>
      rules := map[t.root := [Retarget(ParentTrapRule(flow, RouteUp(t, p)[1], p.uni.portNo))],
                   p.uni.deviceId := [ChildTrapRule(flow, RouteUp(t, p)[0], p.uni.portNo)]];
      assert TrapRules(t, flow, Pair(p.nni, p.uni), rules);
  }

  lemma SomeRules(t: Topology, lps: seq<LogicalPort>, flows: seq<Flow>, kinds: seq<Kind>) returns (rules: DeviceRules)
    requires WellPlaced(t, lps) && PhysicalPorts(t, lps) && AllOfAKind(lps, flows, kinds)
    ensures RulesOf(t, lps, flows, kinds, rules)
  {
    var parts: seq<DeviceRules> := [];
    rules := map[];
    for i := 0 to |flows|
      invariant |parts| == i && AllExpected(t, lps, flows, kinds, parts) && IsMerge(rules, parts)
    {
      assert KindAt(lps, flows, kinds, i);
      var part := PartOf(t, lps, flows[i], kinds[i]);
      var all := map d | d in rules.Keys + part.Keys :: AddAll(Get(rules, d), Get(part, d));
      OneMoreExpected(t, lps, flows, kinds, parts, part);
      MergeStep(rules, parts, part, all);
      rules, parts := all, parts + [part];
    }
  }

  // An OLT with one NNI port and an ONU with one UNI port

  const TREE := Topology("olt", map["onu" := Link(31, 21)])
  const NNI := LogicalPort("nni", 1, "olt", 11, true)
  const UNI := LogicalPort("uni", 4, "onu", 14, false)
  const PORTS := [NNI, UNI]
  const PAIR := Pair(NNI, UNI)

  lemma SmallTree()
    ensures WellPlaced(TREE, PORTS) && PhysicalPorts(TREE, PORTS) && PAIR in AllPairs(PORTS)
    ensures NNI in NniPorts(PORTS) && UNI in UniPorts(PORTS)
  {
    assert "olt"[1] != "onu"[1];
    assert PORTS[0] == NNI && PORTS[1] == UNI;
  }

  lemma TwoOfAKind(f0: Flow, k0: Kind, f1: Flow, k1: Kind) returns (rules: DeviceRules)
    requires IsKind(PORTS, f0, k0) && IsKind(PORTS, f1, k1)
    ensures RulesOf(TREE, PORTS, [f0, f1], [k0, k1], rules)
  {
    SmallTree();
    var flows, kinds := [f0, f1], [k0, k1];
    forall i {:trigger KindAt(PORTS, flows, kinds, i)} | 0 <= i < 2 ensures KindAt(PORTS, flows, kinds, i) {
    }
    rules := SomeRules(TREE, PORTS, flows, kinds);
  }

  // The controller rewrite of flows that are no traps

  const UDP_PACKET := Packet([], map[IpProto := 17])

  function UpFlow(metadata: uint64): Flow {
    Flow(0, 1000, 0, 0, [Exact(InPort, 4)], [WriteMetadata(metadata), GotoTable(1)])
  }

  function ToNni(f: Field): Flow {
    Flow(1, 1000, 0, 0, [Exact(InPort, 4), f], [ApplyActions([Output(1)])])
  }

  lemma UpFlowIsOfAKind(metadata: uint64)
    ensures IsKind(PORTS, UpFlow(metadata), UpFirst(PAIR)) && Matches(UpFlow(metadata), UDP_PACKET, Context(4, Some(0), Some(0)))
    ensures GetActions(UpFlow(metadata)) == [] && GetWriteMetadata(UpFlow(metadata)) == metadata
  {
    SmallTree();
    var instructions := [WriteMetadata(metadata), GotoTable(1)];
    assert instructions[1..] == [GotoTable(1)] && [GotoTable(1)][1..] == [];
    assert ActionsOf([GotoTable(1)]) == [] && ActionsOf(instructions) == [] && GotoOf(instructions) == 1;
    assert UpFlow(metadata).fields[0] in UpFlow(metadata).fields;
  }

  lemma ToNniIsOfAKind(f: Field)
    requires f.kind != InPort && f.kind != TunnelId
    ensures IsKind(PORTS, ToNni(f), UpSecond(PAIR))
    ensures forall packet :: Rewrite(Front(GetActions(ToNni(f))), packet) == packet
  {
    SmallTree();
    assert GotoOf([ApplyActions([Output(1)])]) == 0 && [Output(1)][..0] == [];
    assert ToNni(f).fields[0] in ToNni(f).fields;
  }

  /** What two such flows do to a packet. */
  lemma TwoUp(metadata: uint64, f: Field) returns (rules: DeviceRules)
    requires f.kind != InPort && f.kind != TunnelId && HeaderMatch(ToNni(f), UDP_PACKET)
    ensures RulesOf(TREE, PORTS, [UpFlow(metadata), ToNni(f)], [UpFirst(PAIR), UpSecond(PAIR)], rules)
    ensures RunUp(TREE, rules, UNI, UDP_PACKET)
            == if MetadataMatch(ToNni(f), 0) then [Exit("olt", OltTarget(ToNni(f), 11), UDP_PACKET)] else []
    ensures Located(PORTS, RunPipeline([UpFlow(metadata), ToNni(f)], UDP_PACKET, 4))
            == if MetadataMatch(ToNni(f), metadata) then [Exit("olt", ToPort(11), UDP_PACKET)] else []
  {
    UpFlowIsOfAKind(metadata);
    ToNniIsOfAKind(f);
    rules := TwoOfAKind(UpFlow(metadata), UpFirst(PAIR), ToNni(f), UpSecond(PAIR));
    assert Rewrite([], UDP_PACKET) == UDP_PACKET;
    UpstreamOfTwo(TREE, PORTS, UpFlow(metadata), ToNni(f), PAIR, rules, UDP_PACKET);
  }

  lemma UdpToNni()
    ensures HeaderMatch(ToNni(UDP), UDP_PACKET) && MetadataMatch(ToNni(UDP), 0) && HasTrapField(ToNni(UDP))
  {
    assert IsTrapField(ToNni(UDP).fields[1]);
  }

  /** A UDP data packet goes to the controller and not out at the NNI port. */
  lemma UdpUpstreamIsRetargeted() returns (rules: DeviceRules)
    ensures RulesOf(TREE, PORTS, [UpFlow(0), ToNni(UDP)], [UpFirst(PAIR), UpSecond(PAIR)], rules)
    ensures RunUp(TREE, rules, UNI, UDP_PACKET) == [Exit("olt", ToPort(CONTROLLER), UDP_PACKET)]
    ensures Located(PORTS, RunPipeline([UpFlow(0), ToNni(UDP)], UDP_PACKET, 4)) == [Exit("olt", ToPort(11), UDP_PACKET)]
  {
    UdpToNni();
    rules := TwoUp(0, UDP);
  }

  lemma MetadataToNni()
    ensures var flow := ToNni(Exact(Metadata, 7));
            HeaderMatch(flow, UDP_PACKET) && MetadataMatch(flow, 7) && !MetadataMatch(flow, 0) && !HasTrapField(flow)
  {
    var flow := ToNni(Exact(Metadata, 7));
    assert flow.fields[1] in flow.fields;
  }

  /** A table-1 flow that asks for the metadata that table 0 writes does not get the packet on the OLT. */
  lemma WrittenMetadataIsLost() returns (rules: DeviceRules)
    ensures RulesOf(TREE, PORTS, [UpFlow(7), ToNni(Exact(Metadata, 7))], [UpFirst(PAIR), UpSecond(PAIR)], rules)
    ensures RunUp(TREE, rules, UNI, UDP_PACKET) == []
    ensures Located(PORTS, RunPipeline([UpFlow(7), ToNni(Exact(Metadata, 7))], UDP_PACKET, 4)) == [Exit("olt", ToPort(11), UDP_PACKET)]
  {
    MetadataToNni();
    rules := TwoUp(7, Exact(Metadata, 7));
  }

  /** Metadata for the UNI port, with an inner tag. */
  const NAMES_UNI: uint64 := 0x0001_0000_0000_0004

  function DownFlow(fields: seq<Field>): Flow {
    Flow(0, 1000, 0, 0, [Exact(InPort, 1)] + fields, [WriteMetadata(NAMES_UNI), GotoTable(1)])
  }

  function ToUni(fields: seq<Field>): Flow {
    Flow(1, 1000, 0, 0, [Exact(InPort, 1)] + fields, [ApplyActions([Output(4)])])
  }

  lemma DownFlowDoes(fields: seq<Field>)
    ensures var flow := DownFlow(fields);
            GetActions(flow) == [] && GetWriteMetadata(flow) == NAMES_UNI && GetGotoTableId(flow) == 1
            && GetEgressPort(flow) == 4 && GetInnerTag(flow) == 1 && Exact(InPort, 1) in flow.fields
  {
    var instructions := [WriteMetadata(NAMES_UNI), GotoTable(1)];
    assert instructions[1..] == [GotoTable(1)] && [GotoTable(1)][1..] == [];
    assert ActionsOf([GotoTable(1)]) == [] && ActionsOf(instructions) == [] && GotoOf(instructions) == 1;
    assert DownFlow(fields).fields[0] in DownFlow(fields).fields;
  }

  lemma DownFlowIsOfAKind(f: Field)
    requires f.kind != InPort && f.kind != TunnelId
    ensures IsKind(PORTS, DownFlow([]), DownFirst(PAIR)) && IsKind(PORTS, DownFlow([f]), DownFirst(PAIR))
    ensures GetActions(DownFlow([])) == GetActions(DownFlow([f])) == []
    ensures GetWriteMetadata(DownFlow([])) == GetWriteMetadata(DownFlow([f])) == NAMES_UNI
  {
    SmallTree();
    DownFlowDoes([]);
    DownFlowDoes([f]);
  }

  lemma ToUniIsOfAKind(f: Field)
    requires f.kind != InPort && f.kind != TunnelId
    ensures IsKind(PORTS, ToUni([]), DownSecond(PAIR)) && IsKind(PORTS, ToUni([f]), DownSecond(PAIR))
    ensures forall fields, packet :: Rewrite(Front(GetActions(ToUni(fields))), packet) == packet
  {
    SmallTree();
    assert GotoOf([ApplyActions([Output(4)])]) == 0 && [Output(4)][..0] == [];
    assert ToUni([]).fields[0] in ToUni([]).fields && ToUni([f]).fields[0] in ToUni([f]).fields;
  }

  /** What two such flows do to a packet that neither rewrites. */
  lemma TwoDown(f0: Flow, f1: Flow, packet: Packet) returns (rules: DeviceRules)
    requires IsKind(PORTS, f0, DownFirst(PAIR)) && IsKind(PORTS, f1, DownSecond(PAIR)) && HeaderMatch(f0, packet) && MetadataMatch(f0, 0)
    requires GetActions(f0) == [] && HeaderMatch(f1, packet) && Rewrite(Front(GetActions(f1)), packet) == packet
    ensures RulesOf(TREE, PORTS, [f0, f1], [DownFirst(PAIR), DownSecond(PAIR)], rules)
    ensures RunDown(TREE, PORTS, rules, NNI, packet)
            == [if HasTrapField(f0) then Exit("olt", ToPort(CONTROLLER), packet) else Exit("onu", ToPort(14), packet)]
    ensures Located(PORTS, RunPipeline([f0, f1], packet, 1))
            == if MetadataMatch(f1, GetWriteMetadata(f0)) then [Exit("onu", ToPort(14), packet)] else []
  {
    rules := TwoOfAKind(f0, DownFirst(PAIR), f1, DownSecond(PAIR));
    assert Rewrite([], packet) == packet;
    DownstreamMeaning(TREE, PORTS, f0, f1, PAIR, rules, packet);
  }

  lemma UdpMatches()
    ensures HeaderMatch(DownFlow([UDP]), UDP_PACKET) && MetadataMatch(DownFlow([UDP]), 0) && HasTrapField(DownFlow([UDP]))
    ensures HeaderMatch(DownFlow([]), UDP_PACKET) && MetadataMatch(DownFlow([]), 0) && !HasTrapField(DownFlow([]))
    ensures HeaderMatch(ToUni([]), UDP_PACKET) && MetadataMatch(ToUni([]), NAMES_UNI)
    ensures HeaderMatch(ToUni([Exact(Metadata, 5)]), UDP_PACKET) && !MetadataMatch(ToUni([Exact(Metadata, 5)]), NAMES_UNI)
  {
    assert IsTrapField(DownFlow([UDP]).fields[1]);
    var f := ToUni([Exact(Metadata, 5)]);
    assert f.fields[1] in f.fields;
  }

  /** A UDP packet for the subscriber goes to the controller and not out at the UNI port. */
  lemma UdpDownstreamIsRetargeted() returns (rules: DeviceRules)
    ensures RulesOf(TREE, PORTS, [DownFlow([UDP]), ToUni([])], [DownFirst(PAIR), DownSecond(PAIR)], rules)
    ensures RunDown(TREE, PORTS, rules, NNI, UDP_PACKET) == [Exit("olt", ToPort(CONTROLLER), UDP_PACKET)]
    ensures Located(PORTS, RunPipeline([DownFlow([UDP]), ToUni([])], UDP_PACKET, 1)) == [Exit("onu", ToPort(14), UDP_PACKET)]
  {
    DownFlowIsOfAKind(UDP);
    ToUniIsOfAKind(UDP);
    UdpMatches();
    rules := TwoDown(DownFlow([UDP]), ToUni([]), UDP_PACKET);
  }

  /** A table-1 flow that asks for other metadata than table 0 writes still delivers on the ONU. */
  lemma MetadataIsNotCompared() returns (rules: DeviceRules)
    ensures RulesOf(TREE, PORTS, [DownFlow([]), ToUni([Exact(Metadata, 5)])], [DownFirst(PAIR), DownSecond(PAIR)], rules)
    ensures RunDown(TREE, PORTS, rules, NNI, UDP_PACKET) == [Exit("onu", ToPort(14), UDP_PACKET)]
    ensures Located(PORTS, RunPipeline([DownFlow([]), ToUni([Exact(Metadata, 5)])], UDP_PACKET, 1)) == []
  {
    DownFlowIsOfAKind(UDP);
    ToUniIsOfAKind(Exact(Metadata, 5));
    UdpMatches();
    rules := TwoDown(DownFlow([]), ToUni([Exact(Metadata, 5)]), UDP_PACKET);
  }

  // Traps

  function TrapFor(fields: seq<Field>): Flow {
    Flow(0, 1000, 0, 0, [Exact(InPort, 4)] + fields, [ApplyActions([Output(CONTROLLER)])])
  }

  function TrapParts(flow: Flow): DeviceRules {
    map["olt" := [Retarget(ParentTrapRule(flow, OltHop(TREE, UNI, NNI), 4))], "onu" := [ChildTrapRule(flow, OnuHop(TREE, UNI), 4)]]
  }

  lemma TrapIsOfAKind(f: Field)
    requires f.kind != InPort && f.kind != TunnelId
    ensures IsKind(PORTS, TrapFor([f]), Trap(PAIR)) && TrapRules(TREE, TrapFor([f]), PAIR, TrapParts(TrapFor([f])))
  {
    SmallTree();
    assert TrapFor([f]).fields[0] in TrapFor([f]).fields;
  }

  lemma VlanTrapIsOfAKind(f: Field, vid: nat)
    requires f.kind != InPort && f.kind != TunnelId && f.kind != VlanVid
    ensures var flow := TrapFor([f, Exact(VlanVid, vid)]);
            IsKind(PORTS, flow, Trap(PAIR)) && TrapRules(TREE, flow, PAIR, TrapParts(flow)) && Exact(VlanVid, vid) in flow.fields
  {
    SmallTree();
    var flow := TrapFor([f, Exact(VlanVid, vid)]);
    assert flow.fields[0] in flow.fields && flow.fields[2] in flow.fields;
  }

  /** What the rules of a trap do to a packet of the UNI port. */
  lemma OneTrapRun(flow: Flow, packet: Packet)
    requires IsKind(PORTS, flow, Trap(PAIR)) && TrapRules(TREE, flow, PAIR, TrapParts(flow)) && ChildMatch(flow, packet)
    ensures RunUp(TREE, TrapParts(flow), UNI, packet)
            == if !Pushable(flow) then [] else [Exit("olt", ToPort(if HasTrapField(flow) then CONTROLLER else 11), Tagged(flow, packet))]
  {
    SmallTree();
    TrapMeaning(TREE, PORTS, flow, PAIR, TrapParts(flow), packet);
  }

  const ARP := Exact(EthType, 0x0806)
  const ARP_PACKET := Packet([], map[EthType := 0x0806])

  lemma ArpMatches()
    ensures var flow := TrapFor([ARP]);
            && Matches(flow, ARP_PACKET, Context(4, Some(0), Some(0))) && ChildMatch(flow, ARP_PACKET)
            && Pushable(flow) && !HasTrapField(flow) && Tagged(flow, ARP_PACKET) == ARP_PACKET
  {
    NoFirst(TrapFor([ARP]).fields, VlanVid);
  }

  /** A trap for ARP sends the packet out at the NNI port. */
  lemma ArpTrapIsSentOut()
    ensures Matches(TrapFor([ARP]), ARP_PACKET, Context(4, Some(0), Some(0)))
    ensures RunUp(TREE, TrapParts(TrapFor([ARP])), UNI, ARP_PACKET) == [Exit("olt", ToPort(11), ARP_PACKET)]
  {
    TrapIsOfAKind(ARP);
    ArpMatches();
    OneTrapRun(TrapFor([ARP]), ARP_PACKET);
  }

  const EAPOL_PACKET := Packet([], map[EthType := 0x888e])

  function EapolTrap(vid: nat): Flow {
    TrapFor([EAPOL, Exact(VlanVid, vid)])
  }

  lemma EapolMatches(vid: nat)
    ensures ChildMatch(EapolTrap(vid), EAPOL_PACKET) && HasTrapField(EapolTrap(vid)) && GetVlanVid(EapolTrap(vid)) == Some(vid)
    ensures Matches(EapolTrap(vid), EAPOL_PACKET, Context(4, Some(0), Some(0))) <==> vid == 0
  {
    var flow := EapolTrap(vid);
    assert IsTrapField(flow.fields[1]) && flow.fields[2] in flow.fields;
    FirstIs(flow.fields, Exact(VlanVid, vid));
  }

  /** A trap for untagged EAPOL packets loses them: the child tags them, and the parent wants no tag. */
  lemma UntaggedTrapIsLost()
    ensures Matches(EapolTrap(0), EAPOL_PACKET, Context(4, Some(0), Some(0)))
    ensures RunUp(TREE, TrapParts(EapolTrap(0)), UNI, EAPOL_PACKET) == []
  {
    VlanTrapIsOfAKind(EAPOL, 0);
    EapolMatches(0);
    PushableIff(EapolTrap(0), 0);
    OneTrapRun(EapolTrap(0), EAPOL_PACKET);
  }

  /** A trap for EAPOL packets of VLAN 100 hands an untagged one to the controller, as one of VLAN 100. */
  lemma UntaggedIsTrappedUnasked()
    ensures !Matches(EapolTrap(0x1064), EAPOL_PACKET, Context(4, Some(0), Some(0)))
    ensures RunUp(TREE, TrapParts(EapolTrap(0x1064)), UNI, EAPOL_PACKET)
            == [Exit("olt", ToPort(CONTROLLER), EAPOL_PACKET.(tags := [Tag(100, 0)]))]
  {
    VlanTrapIsOfAKind(EAPOL, 0x1064);
    EapolMatches(0x1064);
    EapolTagged(0x1064);
    PushableIff(EapolTrap(0x1064), 0x1064);
    OneTrapRun(EapolTrap(0x1064), EAPOL_PACKET);
  }

  lemma EapolTagged(vid: nat)
    ensures Tagged(EapolTrap(vid), EAPOL_PACKET) == EAPOL_PACKET.(tags := [Tag(vid % 0x1000, 0)])
  {
    EapolMatches(vid);
    assert [Tag(vid % 0x1000, 0)] + [] == [Tag(vid % 0x1000, 0)];
  }
}
