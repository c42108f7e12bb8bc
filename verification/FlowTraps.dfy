/** Trap flows: which packets end up at the controller, and which do not. */
module FlowTraps {
  import opened Voltha
  import opened OpenFlow
  import opened RouteSpec
  import opened FlowDecomposition
  import opened FlowChoice
  import opened FlowRules
  import opened FlowMeaning

  /**
   What becomes of any packet of the UNI port under one trap flow.  The ONU accepts it whatever its VLAN and pushes the VLAN
   of the flow; the OLT drops it if that tag does not satisfy the match, and sends it to the controller for EAPOL, IGMP and
   UDP, but out at the NNI port for anything else.
   */
  lemma TrapMeaning(t: Topology, lps: seq<LogicalPort>, flow: Flow, p: Pair, rules: DeviceRules, packet: Packet)
    requires IsKind(lps, flow, Trap(p)) && TrapRules(t, flow, p, rules) && p.uni.deviceId != t.root
    ensures RunUp(t, rules, p.uni, packet)
            == if !ChildMatch(flow, packet) || !Pushable(flow) then []
               else [Exit(t.root, OltTarget(flow, p.nni.devicePortNo), Tagged(flow, packet))]
  {
    var onu, olt := OnuHop(t, p.uni), OltHop(t, p.uni, p.nni);
    var child := ChildTrapRule(flow, onu, p.uni.portNo);
    var parent := Retarget(ParentTrapRule(flow, olt, p.uni.portNo));
    assert Get(rules, p.uni.deviceId) == [child] && Get(rules, t.root) == [parent];
    LookupOne(child, 0, packet, OnuContext(p.uni));
    ChildAccepts(flow, onu, p.uni.portNo, packet);
    if ChildMatch(flow, packet) {
      var tagged := Tagged(flow, packet);
      ChildEmits(flow, onu, p.uni.portNo, packet);
      CarryOne(t, rules, p.uni, tagged);
      LookupOne(parent, 0, tagged, OltContext(t, p.uni));
      RestrictedMatches(flow, parent, p.uni.portNo, olt.ingress, p.uni.portNo, tagged);
      ParentAccepts(flow, p.uni.portNo, packet);
      ParentEmits(flow, olt, p.uni.portNo, tagged);
      ExitsOne(t.root, OltTarget(flow, p.nni.devicePortNo), tagged);
    }
  }

  /**
   A packet reaches the controller although the trap flow does not match it exactly if its VLAN, and nothing else, is not the
   one that the flow asks for.
   */
  lemma TrappedUnasked(t: Topology, lps: seq<LogicalPort>, flow: Flow, p: Pair, rules: DeviceRules, packet: Packet)
    requires WellPlaced(t, lps) && PhysicalPorts(t, lps) && IsKind(lps, flow, Trap(p)) && TrapRules(t, flow, p, rules)
    ensures RunUp(t, rules, p.uni, packet) == [Exit(t.root, ToPort(CONTROLLER), Tagged(flow, packet))]
            && !Matches(flow, packet, Context(p.uni.portNo, Some(0), Some(0)))
            <==> HasTrapField(flow) && Pushable(flow) && ChildMatch(flow, packet) && !VlanMatch(flow, packet)
  {
    assert p in AllPairs(lps);
    TrapMeaning(t, lps, flow, p, rules, packet);
    TrapSplit(flow, p.uni.portNo, packet);
  }

  /**
   In any list of flows: a packet that the ONU handles by a trap reaches the controller as the ONU tagged it if and only if the
   OLT selects for it a rule for EAPOL, IGMP or UDP that does not rewrite it.
   */
  lemma TrapTables(t: Topology, lps: seq<LogicalPort>, flows: seq<Flow>, kinds: seq<Kind>, rules: DeviceRules, u: LogicalPort,
                   packet: Packet, i: nat)
    requires RulesOf(t, lps, flows, kinds, rules) && u in UniPorts(lps)
    requires OnuChoice(flows, kinds, u, packet) == Some(i) && kinds[i].Trap?
    ensures var tagged := Tagged(flows[i], packet);
            var j := OltChoice(flows, kinds, u, tagged);
            RunUp(t, rules, u, packet) == [Exit(t.root, ToPort(CONTROLLER), tagged)]
            <==> && j.Some? && HasTrapField(flows[j.value])
                 && (kinds[j.value].Trap? || Rewrite(Front(GetActions(flows[j.value])), tagged) == tagged)
  {
    UpstreamRun(t, lps, flows, kinds, rules, u, packet);
    var tagged := Tagged(flows[i], packet);
    var j := OltChoice(flows, kinds, u, tagged);
    if j.Some? {
      assert KindAt(lps, flows, kinds, j.value);
      assert kinds[j.value].p in AllPairs(lps);
      SentTo(t, lps, flows[j.value], kinds[j.value], tagged, RunUp(t, rules, u, packet));
    }
  }

  lemma SentTo(t: Topology, lps: seq<LogicalPort>, flow: Flow, kind: Kind, packet: Packet, exits: seq<Exit>)
    requires PhysicalPorts(t, lps) && Sent(t, lps, flow, kind, packet, exits) && kind.p.nni in lps && kind.p.nni.rootPort
    ensures exits == [Exit(t.root, ToPort(CONTROLLER), packet)]
            <==> HasTrapField(flow) && (kind.Trap? || Rewrite(Front(GetActions(flow)), packet) == packet)
  {
    if kind.Trap? {
      var nni :| nni in NniPorts(lps) && exits == [Exit(t.root, OltTarget(flow, nni.devicePortNo), packet)];
    }
  }

  /** The OLT considers the trap itself for the tagged packet exactly if its VLAN match accepts the pushed tag. */
  lemma TrapAtOlt(lps: seq<LogicalPort>, flows: seq<Flow>, kinds: seq<Kind>, u: LogicalPort, packet: Packet, i: nat)
    requires AllOfAKind(lps, flows, kinds) && OnuChoice(flows, kinds, u, packet) == Some(i) && kinds[i].Trap?
    ensures OltFires(flows[i], kinds[i], u, Tagged(flows[i], packet)) <==> Pushable(flows[i])
  {
    assert KindAt(lps, flows, kinds, i);
    ParentAccepts(flows[i], u.portNo, packet);
  }

  /** With a VLAN match that accepts the pushed tag, and above all other flows that match the tagged packet, it gets there. */
  lemma TrapOutranks(t: Topology, lps: seq<LogicalPort>, flows: seq<Flow>, kinds: seq<Kind>, rules: DeviceRules, u: LogicalPort,
                     packet: Packet, i: nat)
    requires RulesOf(t, lps, flows, kinds, rules) && u in UniPorts(lps)
    requires OnuChoice(flows, kinds, u, packet) == Some(i) && kinds[i].Trap? && HasTrapField(flows[i]) && Pushable(flows[i])
    requires forall j | 0 <= j < |flows| && j != i && OltFires(flows[j], kinds[j], u, Tagged(flows[i], packet)) ::
               flows[j].priority < flows[i].priority
    ensures RunUp(t, rules, u, packet) == [Exit(t.root, ToPort(CONTROLLER), Tagged(flows[i], packet))]
  {
    var tagged := Tagged(flows[i], packet);
    TrapAtOlt(lps, flows, kinds, u, packet, i);
    PickIsBest(flows, OltFiring(flows, kinds, u, tagged), i);
    TrapTables(t, lps, flows, kinds, rules, u, packet, i);
  }
}
