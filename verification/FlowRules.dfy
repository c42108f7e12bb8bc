/** What each rule of a decomposed flow matches and sends out, in terms of its flow. */
module FlowRules {
  import opened Voltha
  import opened OpenFlow
  import opened RouteSpec
  import opened FlowDecomposition

  // Matching on ports and subscriber tags

  lemma SameFieldMatch(f: Field, packet: Packet, a: Context, b: Context)
    requires f.kind != InPort && f.kind != TunnelId && (f.kind == Metadata ==> a.metadata == b.metadata)
    ensures FieldMatches(f, packet, a) == FieldMatches(f, packet, b)
  {
  }

  /** With its own port and subscriber tag, a rule matches the packets of its flow. */
  lemma RestrictedMatches(flow: Flow, rule: Flow, inPort: uint32, port: uint32, tunnel: uint32, packet: Packet)
    requires WellFormed(flow) && Exact(InPort, inPort) in flow.fields && rule.fields == Restricted(flow, port, tunnel)
    ensures Matches(rule, packet, Context(port, Some(0), Some(tunnel))) <==> Matches(flow, packet, Context(inPort, Some(0), Some(0)))
  {
    var a, b := Context(port, Some(0), Some(tunnel)), Context(inPort, Some(0), Some(0));
    var rest := Excluding(flow.fields, {InPort});
    forall f | f in flow.fields && f.kind != InPort ensures FieldMatches(f, packet, a) == FieldMatches(f, packet, b) {
      SameFieldMatch(f, packet, a, b);
    }
    assert forall f | f in flow.fields && f.kind == InPort :: f == Exact(InPort, inPort);
    assert forall f :: f in rule.fields <==> f == Exact(InPort, port) || f == Exact(TunnelId, tunnel) || f in rest;
  }

  lemma OtherPort(flow: Flow, inPort: nat, packet: Packet, ctx: Context)
    requires Exact(InPort, inPort) in flow.fields && ctx.inPort != inPort
    ensures !Matches(flow, packet, ctx)
  {
  }

  lemma OtherTunnel(flow: Flow, tunnel: nat, packet: Packet, ctx: Context)
    requires Exact(TunnelId, tunnel) in flow.fields && ctx.tunnel.Some? && ctx.tunnel.value != tunnel
    ensures !Matches(flow, packet, ctx)
  {
  }

  // Matching on the packet alone

  /** The fields of the packet itself match. */
  ghost predicate HeaderMatch(flow: Flow, packet: Packet) {
    forall f | f in flow.fields && f.kind != InPort && f.kind != Metadata :: FieldMatches(f, packet, Context(0, None, None))
  }

  ghost predicate MetadataMatch(flow: Flow, metadata: nat) {
    forall f | f in flow.fields && f.kind == Metadata :: Accepts(f, metadata)
  }

  lemma FlowSplit(flow: Flow, inPort: uint32, metadata: nat, packet: Packet)
    requires WellFormed(flow) && Exact(InPort, inPort) in flow.fields
    ensures Matches(flow, packet, Context(inPort, Some(metadata), Some(0))) <==> HeaderMatch(flow, packet) && MetadataMatch(flow, metadata)
  {
  }

  /** A rule whose further fields are annotations or come from the flow matches on the packet's own fields. */
  lemma RuleSplit(flow: Flow, rule: Flow, port: uint32, packet: Packet)
    requires WellFormed(flow) && Exact(InPort, port) in rule.fields
    requires forall f | f in flow.fields && f.kind != InPort && f.kind != Metadata :: f in rule.fields
    requires forall f | f in rule.fields ::
               f == Exact(InPort, port) || f.kind == Metadata || f.kind == TunnelId || (f in flow.fields && f.kind != InPort)
    ensures Matches(rule, packet, Context(port, None, None)) <==> HeaderMatch(flow, packet)
  {
  }

  lemma MetadataRuleMatches(flow: Flow, hop: Hop, packet: Packet)
    requires WellFormed(flow)
    ensures Matches(Retarget(MetadataRule(flow, hop)), packet, Context(hop.ingress, None, None)) <==> HeaderMatch(flow, packet)
  {
    var rule := MetadataRule(flow, hop);
    assert rule.fields[0] in rule.fields;
    RuleSplit(flow, Retarget(rule), hop.ingress, packet);
  }

  lemma UnicastRuleMatches(flow: Flow, hop: Hop, packet: Packet)
    requires WellFormed(flow)
    ensures Matches(UnicastRule(flow, hop), packet, Context(hop.ingress, None, None)) <==> HeaderMatch(flow, packet)
  {
    var rule := UnicastRule(flow, hop);
    assert rule.fields[0] in rule.fields;
    RuleSplit(flow, rule, hop.ingress, packet);
  }

  // Traps: what the ONU accepts and tags, and what the OLT then accepts

  /** All fields match but the VLAN id, which the child leaves out. */
  ghost predicate ChildMatch(flow: Flow, packet: Packet) {
    forall f | f in flow.fields && f.kind != InPort && f.kind != VlanVid :: FieldMatches(f, packet, Context(0, Some(0), Some(0)))
  }

  /** The VLAN match of the flow, if it has one, accepts the packet. */
  ghost predicate VlanMatch(flow: Flow, packet: Packet) {
    forall f | f in flow.fields && f.kind == VlanVid :: Accepts(f, VidValue(packet))
  }

  /** The tag that the child pushes satisfies the VLAN match of the flow. */
  ghost predicate Pushable(flow: Flow) {
    forall f | f in flow.fields && f.kind == VlanVid :: Accepts(f, 0x1000 + f.value % 0x1000)
  }

  /** For a match without a mask that means a VLAN id with the bit that says that there is a tag. */
  lemma PushableIff(flow: Flow, vid: nat)
    requires WellFormed(flow) && Exact(VlanVid, vid) in flow.fields
    ensures Pushable(flow) <==> 0x1000 <= vid < 0x2000
  {
  }

  /** What the child makes of a packet. */
  function Tagged(flow: Flow, packet: Packet): Packet {
    match GetVlanVid(flow)
    case None => packet
    case Some(vid) =>
      packet.(tags := [if packet.tags == [] then Tag(vid % 0x1000, 0) else packet.tags[0].(vid := vid % 0x1000)] + packet.tags)
  }

  lemma {:induction false} NoFirst(fields: seq<Field>, kind: FieldKind)
    ensures FirstOf(fields, kind).None? <==> forall f | f in fields :: f.kind != kind
  {
    if fields != [] {
      NoFirst(fields[1..], kind);
      assert fields[0] in fields;
    }
  }

  /** The VLAN match of a flow, if it has one, is the one that the child goes by. */
  lemma OneVlan(flow: Flow)
    requires WellFormed(flow)
    ensures forall f | f in flow.fields && f.kind == VlanVid :: GetVlanVid(flow) == Some(f.value)
    ensures GetVlanVid(flow).Some? ==> exists f | f in flow.fields :: f.kind == VlanVid
  {
    NoFirst(flow.fields, VlanVid);
    forall f | f in flow.fields && f.kind == VlanVid ensures GetVlanVid(flow) == Some(f.value) {
      FirstIs(flow.fields, f);
    }
  }

  /** A trap flow matches what its child rule accepts and its VLAN match accepts as well. */
  lemma TrapSplit(flow: Flow, inPort: uint32, packet: Packet)
    requires WellFormed(flow) && Exact(InPort, inPort) in flow.fields
    ensures Matches(flow, packet, Context(inPort, Some(0), Some(0))) <==> ChildMatch(flow, packet) && VlanMatch(flow, packet)
  {
    var a, b := Context(inPort, Some(0), Some(0)), Context(0, Some(0), Some(0));
    forall f | f in flow.fields && f.kind != InPort ensures FieldMatches(f, packet, a) == FieldMatches(f, packet, b) {
      SameFieldMatch(f, packet, a, b);
    }
    assert forall f | f in flow.fields && f.kind == InPort :: f == Exact(InPort, inPort);
  }

  /** The child accepts packets whatever their VLAN. */
  lemma ChildAccepts(flow: Flow, hop: Hop, tunnel: uint32, packet: Packet)
    requires WellFormed(flow)
    ensures Matches(ChildTrapRule(flow, hop, tunnel), packet, Context(hop.ingress, Some(0), Some(tunnel))) <==> ChildMatch(flow, packet)
  {
    var rule := ChildTrapRule(flow, hop, tunnel);
    var a, b := Context(hop.ingress, Some(0), Some(tunnel)), Context(0, Some(0), Some(0));
    NoFirst(flow.fields, VlanVid);
    forall f | f in flow.fields && f.kind != InPort && f.kind != VlanVid
      ensures FieldMatches(f, packet, a) == FieldMatches(f, packet, b) && f in rule.fields
    {
      SameFieldMatch(f, packet, a, b);
    }
    assert forall f | f in rule.fields ::
        f == Exact(InPort, hop.ingress) || f == Exact(TunnelId, tunnel) || (f in flow.fields && f.kind != InPort && f.kind != VlanVid);
  }

  /** Apart from the VLAN id, the pushed tag changes no field that a match could see. */
  lemma TaggedMatch(flow: Flow, f: Field, packet: Packet, ctx: Context)
    requires f.kind != InPort && f.kind != TunnelId && f.kind != VlanVid && FieldMatches(f, packet, ctx)
    ensures FieldMatches(f, Tagged(flow, packet), ctx)
  {
  }

  /** A packet that the child accepts and tags is one that the flow matches if and only if the VLAN fits. */
  lemma ParentAccepts(flow: Flow, inPort: uint32, packet: Packet)
    requires WellFormed(flow) && Exact(InPort, inPort) in flow.fields && ChildMatch(flow, packet)
    ensures Matches(flow, Tagged(flow, packet), Context(inPort, Some(0), Some(0))) <==> Pushable(flow)
  {
    var tagged, ctx := Tagged(flow, packet), Context(0, Some(0), Some(0));
    TrapSplit(flow, inPort, tagged);
    OneVlan(flow);
    forall f | f in flow.fields && f.kind != InPort && f.kind != VlanVid ensures FieldMatches(f, tagged, ctx) {
      TaggedMatch(flow, f, packet, ctx);
    }
    assert forall f | f in flow.fields && f.kind == VlanVid :: VidValue(tagged) == 0x1000 + f.value % 0x1000;
  }

  // What the rules send out

  function Front(actions: seq<Action>): seq<Action> {
    if actions == [] then [] else actions[..|actions| - 1]
  }

  /** A flow that rewrites and then outputs. */
  lemma FlowEmits(actions: seq<Action>, port: uint32, packet: Packet)
    requires EndsIn(actions, port)
    ensures Emit(actions, packet) == [Emission(ToPort(port), Rewrite(Front(actions), packet))]
    ensures WithoutOutput(actions) == Front(actions)
  {
    assert actions == Front(actions) + [Output(port)];
    EmitOnce(Front(actions), port, packet);
    LastOutput(actions, port);
  }

  lemma SameTrapFields(flow: Flow, rule: Flow)
    requires forall f | IsTrapField(f) :: f in flow.fields <==> f in rule.fields
    ensures HasTrapField(rule) <==> HasTrapField(flow)
  {
    assert HasTrapField(flow) <==> exists f | f in flow.fields :: IsTrapField(f);
    assert HasTrapField(rule) <==> exists f | f in rule.fields :: IsTrapField(f);
  }

  lemma {:induction false} RedirectLast(actions: seq<Action>, port: uint32, to: uint32)
    requires Silent(actions)
    ensures RedirectActions(actions + [Output(port)], to) == actions + [Output(to)]
  {
    var all := actions + [Output(port)];
    if actions == [] {
      assert all[1..] == [];
    } else {
      assert all[1..] == actions[1..] + [Output(port)] && actions[0] in actions;
      RedirectLast(actions[1..], port, to);
    }
  }

  /** A rule that rewrites and then sends out, after the controller rewrite. */
  lemma RetargetEmits(flow: Flow, fields: seq<Field>, actions: seq<Action>, port: uint32, packet: Packet)
    requires Silent(actions)
    ensures var rule := Like(flow, fields, actions + [Output(port)]);
            Emit(GetActions(Retarget(rule)), packet)
            == [Emission(ToPort(if HasTrapField(rule) then CONTROLLER else port), Rewrite(actions, packet))]
  {
    var rule := Like(flow, fields, actions + [Output(port)]);
    assert rule.instructions[0] == ApplyActions(actions + [Output(port)]);
    RedirectLast(actions, port, CONTROLLER);
    EmitOnce(actions, port, packet);
    EmitOnce(actions, CONTROLLER, packet);
  }

  /** Where the OLT sends the packets of a flow: to the controller, or to the given port. */
  function OltTarget(flow: Flow, port: uint32): Target {
    ToPort(if HasTrapField(flow) then CONTROLLER else port)
  }

  lemma PassOnEmits(flow: Flow, hop: Hop, tunnel: uint32, packet: Packet)
    requires Silent(GetActions(flow))
    ensures Emit(GetActions(PassOn(flow, hop, tunnel)), packet) == [Emission(ToPort(hop.egress), Rewrite(GetActions(flow), packet))]
  {
    EmitOnce(GetActions(flow), hop.egress, packet);
  }

  lemma SendOutEmits(flow: Flow, hop: Hop, tunnel: uint32, port: uint32, packet: Packet)
    requires EndsIn(GetActions(flow), port)
    ensures Emit(GetActions(Retarget(SendOut(flow, hop, tunnel))), packet)
            == [Emission(OltTarget(flow, hop.egress), Rewrite(Front(GetActions(flow)), packet))]
  {
    var pre := Front(GetActions(flow));
    FlowEmits(GetActions(flow), port, packet);
    RetargetEmits(flow, Restricted(flow, hop.ingress, tunnel), pre, hop.egress, packet);
    SameTrapFields(flow, SendOut(flow, hop, tunnel));
  }

  lemma MetadataRuleEmits(flow: Flow, hop: Hop, packet: Packet)
    requires Silent(GetActions(flow))
    ensures Emit(GetActions(Retarget(MetadataRule(flow, hop))), packet)
            == [Emission(OltTarget(flow, hop.egress), Rewrite(GetActions(flow), packet))]
  {
    RetargetEmits(flow, MetadataRule(flow, hop).fields, GetActions(flow), hop.egress, packet);
    SameTrapFields(flow, MetadataRule(flow, hop));
  }

  lemma UnicastRuleEmits(flow: Flow, hop: Hop, port: uint32, packet: Packet)
    requires EndsIn(GetActions(flow), port)
    ensures Emit(GetActions(UnicastRule(flow, hop)), packet)
            == [Emission(ToPort(hop.egress), Rewrite(Front(GetActions(flow)), packet))]
  {
    FlowEmits(GetActions(flow), port, packet);
    EmitOnce(Front(GetActions(flow)), hop.egress, packet);
  }

  lemma ParentEmits(flow: Flow, hop: Hop, tunnel: uint32, packet: Packet)
    ensures Emit(GetActions(Retarget(ParentTrapRule(flow, hop, tunnel))), packet)
            == [Emission(OltTarget(flow, hop.egress), packet)]
  {
    assert [] + [Output(hop.egress)] == [Output(hop.egress)];
    RetargetEmits(flow, Restricted(flow, hop.ingress, tunnel), [], hop.egress, packet);
    SameTrapFields(flow, ParentTrapRule(flow, hop, tunnel));
  }

  lemma ChildEmits(flow: Flow, hop: Hop, tunnel: uint32, packet: Packet)
    ensures Emit(GetActions(ChildTrapRule(flow, hop, tunnel)), packet) == [Emission(ToPort(hop.egress), Tagged(flow, packet))]
  {
    match GetVlanVid(flow)
    case None => EmitOnce([], hop.egress, packet);
      assert [] + [Output(hop.egress)] == [Output(hop.egress)];
    case Some(vid) =>
      var push, set_ := PushVlan(0x8100), SetField(Exact(VlanVid, vid));
      EmitOnce([push, set_], hop.egress, packet);
      assert [push, set_] + [Output(hop.egress)] == [push, set_, Output(hop.egress)];
      RewriteTwo(push, set_, packet);
      assert Apply(set_, Apply(push, packet)) == Tagged(flow, packet);
  }

  lemma RewriteTwo(a: Action, b: Action, packet: Packet)
    ensures Rewrite([a, b], packet) == Apply(b, Apply(a, packet))
  {
    assert [a, b][1..] == [b] && [b][1..] == [];
    assert Rewrite([b], Apply(a, packet)) == Apply(b, Apply(a, packet));
  }
}
