/**
 Flows, packets and what a flow table does with a packet, after the OpenFlow Switch Specification 1.3.  A flow is its own
 identity: the id that the core computes is a hash of exactly these components.
 */
module OpenFlow {
  import opened Voltha

  type uint64 = x: int | 0 <= x < 0x1_0000_0000_0000_0000

  const CONTROLLER: uint32 := 0x7fff_fffd

  datatype FieldKind = InPort | TunnelId | Metadata | VlanVid | VlanPcp | EthType | IpProto | OtherField(code: nat)

  datatype Field = Field(kind: FieldKind, value: nat, mask: Option<nat>)

  datatype Action = Output(port: uint32) | PushVlan(etherType: nat) | PopVlan | SetField(field: Field) | Group(id: uint32)

  datatype Instruction =
    | ApplyActions(actions: seq<Action>)
    | GotoTable(table: uint32)
    | Meter(meterId: uint32)
    | WriteMetadata(metadata: uint64)
    | OtherInstruction(code: nat)

  datatype Flow = Flow(tableId: uint32, priority: uint32, flags: uint32, cookie: uint64, fields: seq<Field>,
                       instructions: seq<Instruction>)

  function Exact(kind: FieldKind, value: nat): Field {
    Field(kind, value, None)
  }

  // What the flow helpers extract from a flow

  function ActionsOf(instructions: seq<Instruction>): seq<Action> {
    if instructions == [] then []
    else if instructions[0].ApplyActions? then instructions[0].actions
    else ActionsOf(instructions[1..])
  }

  function GetActions(flow: Flow): seq<Action> {
    ActionsOf(flow.instructions)
  }

  function WithoutOutput(actions: seq<Action>): seq<Action> {
    if actions == [] then []
    else if actions[0].Output? then WithoutOutput(actions[1..])
    else [actions[0]] + WithoutOutput(actions[1..])
  }

  function FirstOutput(actions: seq<Action>): uint32 {
    if actions == [] then 0
    else if actions[0].Output? then actions[0].port
    else FirstOutput(actions[1..])
  }

  function GetOutPort(flow: Flow): uint32 {
    FirstOutput(GetActions(flow))
  }

  function FirstGroup(actions: seq<Action>): uint32 {
    if actions == [] then 0
    else if actions[0].Group? then actions[0].id
    else FirstGroup(actions[1..])
  }

  function GetGroup(flow: Flow): uint32 {
    FirstGroup(GetActions(flow))
  }

  /** The fields without those of the excluded kinds. */
  function Excluding(fields: seq<Field>, exclude: set<FieldKind>): (r: seq<Field>)
    ensures forall f :: f in r <==> f in fields && f.kind !in exclude
  {
    if fields == [] then []
    else if fields[0].kind in exclude then Excluding(fields[1..], exclude)
    else [fields[0]] + Excluding(fields[1..], exclude)
  }

  function FirstOf(fields: seq<Field>, kind: FieldKind): Option<nat> {
    if fields == [] then None
    else if fields[0].kind == kind then Some(fields[0].value)
    else FirstOf(fields[1..], kind)
  }

  /** The port of the first such field, which is a 32-bit number. */
  function GetInPort(flow: Flow): uint32 {
    match FirstOf(flow.fields, InPort)
    case None => 0
    case Some(port) => port % 0x1_0000_0000
  }

  function GetVlanVid(flow: Flow): Option<nat> {
    FirstOf(flow.fields, VlanVid)
  }

  function GotoOf(instructions: seq<Instruction>): uint32 {
    if instructions == [] then 0
    else if instructions[0].GotoTable? then instructions[0].table
    else GotoOf(instructions[1..])
  }

  function GetGotoTableId(flow: Flow): uint32 {
    GotoOf(flow.instructions)
  }

  function MeterOf(instructions: seq<Instruction>): uint32 {
    if instructions == [] then 0
    else if instructions[0].Meter? then instructions[0].meterId
    else MeterOf(instructions[1..])
  }

  function GetMeterId(flow: Flow): uint32 {
    MeterOf(flow.instructions)
  }

  function MetadataOf(instructions: seq<Instruction>): uint64 {
    if instructions == [] then 0
    else if instructions[0].WriteMetadata? then instructions[0].metadata
    else MetadataOf(instructions[1..])
  }

  function GetWriteMetadata(flow: Flow): uint64 {
    MetadataOf(flow.instructions)
  }

  /** The low 32 bits of the written metadata name the egress port. */
  function GetEgressPort(flow: Flow): uint32 {
    GetWriteMetadata(flow) % 0x1_0000_0000
  }

  /** The high 16 bits are the inner VLAN tag. */
  function GetInnerTag(flow: Flow): nat {
    GetWriteMetadata(flow) / 0x1_0000_0000_0000 % 0x1_0000
  }

  /** The meter, metadata and next table of a flow are those of the first such instruction, and 0 without one. */
  lemma {:induction false} FirstInstruction(pre: seq<Instruction>, x: Instruction, post: seq<Instruction>)
    ensures var all := pre + [x] + post;
            && (x.Meter? && (forall i | i in pre :: !i.Meter?) ==> MeterOf(all) == x.meterId)
            && (x.WriteMetadata? && (forall i | i in pre :: !i.WriteMetadata?) ==> MetadataOf(all) == x.metadata)
            && (x.GotoTable? && (forall i | i in pre :: !i.GotoTable?) ==> GotoOf(all) == x.table)
            && (x.ApplyActions? && (forall i | i in pre :: !i.ApplyActions?) ==> ActionsOf(all) == x.actions)
  {
    var all := pre + [x] + post;
    if pre != [] {
      assert pre[0] in pre && all[0] == pre[0] && all[1..] == pre[1..] + [x] + post;
      FirstInstruction(pre[1..], x, post);
    }
  }

  lemma {:induction false} NoInstruction(instructions: seq<Instruction>)
    ensures (forall i | i in instructions :: !i.Meter?) ==> MeterOf(instructions) == 0
    ensures (forall i | i in instructions :: !i.WriteMetadata?) ==> MetadataOf(instructions) == 0
    ensures (forall i | i in instructions :: !i.GotoTable?) ==> GotoOf(instructions) == 0
    ensures (forall i | i in instructions :: !i.ApplyActions?) ==> ActionsOf(instructions) == []
  {
    if instructions != [] {
      assert instructions[0] in instructions;
      NoInstruction(instructions[1..]);
    }
  }

  /** The output port and the group of a flow are those of the first such action; outputs are taken out wherever they stand. */
  lemma {:induction false} FirstAction(pre: seq<Action>, x: Action, post: seq<Action>)
    ensures var all := pre + [x] + post;
            && (x.Output? && (forall a | a in pre :: !a.Output?) ==> FirstOutput(all) == x.port)
            && (x.Group? && (forall a | a in pre :: !a.Group?) ==> FirstGroup(all) == x.id)
            && WithoutOutput(all) == WithoutOutput(pre) + (if x.Output? then [] else [x]) + WithoutOutput(post)
  {
    var all := pre + [x] + post;
    if pre == [] {
      assert all == [x] + post && all[1..] == post;
    } else {
      assert pre[0] in pre && all[0] == pre[0] && all[1..] == pre[1..] + [x] + post;
      FirstAction(pre[1..], x, post);
    }
  }

  /** The written metadata is made of the inner tag, 16 bits that nobody reads, and the egress port. */
  lemma MetadataParts(flow: Flow)
    ensures GetInnerTag(flow) < 0x1_0000
    ensures exists rest | 0 <= rest < 0x1_0000 ::
              GetWriteMetadata(flow) == GetInnerTag(flow) * 0x1_0000_0000_0000 + rest * 0x1_0000_0000 + GetEgressPort(flow)
  {
    var rest := GetWriteMetadata(flow) / 0x1_0000_0000 % 0x1_0000;
    assert GetWriteMetadata(flow) / 0x1_0000_0000 / 0x1_0000 == GetWriteMetadata(flow) / 0x1_0000_0000_0000;
    assert GetWriteMetadata(flow) == GetInnerTag(flow) * 0x1_0000_0000_0000 + rest * 0x1_0000_0000 + GetEgressPort(flow);
  }

  // Packets

  datatype Tag = Tag(vid: nat, pcp: nat)

  /** A packet with its VLAN tags, the outer one first, and its other header fields. */
  datatype Packet = Packet(tags: seq<Tag>, headers: map<FieldKind, nat>)

  /** What a table sees besides the packet. */
  datatype Context = Context(inPort: nat, metadata: Option<nat>, tunnel: Option<nat>)

  function BitAnd(a: nat, b: nat): nat {
    if a == 0 || b == 0 then 0 else a % 2 * (b % 2) + 2 * BitAnd(a / 2, b / 2)
  }

  predicate Accepts(field: Field, value: nat) {
    if field.mask.None? then value == field.value else BitAnd(value, field.mask.value) == field.value
  }

  /** The VLAN id with the bit that says that there is one; no tag is 0. */
  function VidValue(packet: Packet): nat {
    if packet.tags == [] then 0 else 0x1000 + packet.tags[0].vid % 0x1000
  }

  /** Pipeline fields that the context leaves open are not compared. */
  predicate FieldMatches(field: Field, packet: Packet, ctx: Context) {
    match field.kind
    case InPort => Accepts(field, ctx.inPort)
    case TunnelId => ctx.tunnel.None? || Accepts(field, ctx.tunnel.value)
    case Metadata => ctx.metadata.None? || Accepts(field, ctx.metadata.value)
    case VlanVid => Accepts(field, VidValue(packet))
    case VlanPcp => packet.tags != [] && Accepts(field, packet.tags[0].pcp)
    case kind => kind in packet.headers && Accepts(field, packet.headers[kind])
  }

  predicate Matches(flow: Flow, packet: Packet, ctx: Context) {
    forall f | f in flow.fields :: FieldMatches(f, packet, ctx)
  }

  // Actions

  datatype Target = ToPort(port: uint32) | ToGroup(id: uint32)

  datatype Emission = Emission(target: Target, packet: Packet)

  function ApplySet(field: Field, packet: Packet): Packet {
    match field.kind
    case VlanVid => if packet.tags == [] then packet else packet.(tags := packet.tags[0 := packet.tags[0].(vid := field.value % 0x1000)])
    case VlanPcp => if packet.tags == [] then packet else packet.(tags := packet.tags[0 := packet.tags[0].(pcp := field.value % 8)])
    case InPort => packet
    case TunnelId => packet
    case Metadata => packet
    case kind => packet.(headers := packet.headers[kind := field.value])
  }

  /** A pushed tag starts as a copy of the outer one. */
  function Apply(action: Action, packet: Packet): Packet {
    match action
    case PushVlan(_) => packet.(tags := [if packet.tags == [] then Tag(0, 0) else packet.tags[0]] + packet.tags)
    case PopVlan => if packet.tags == [] then packet else packet.(tags := packet.tags[1..])
    case SetField(field) => ApplySet(field, packet)
    case Output(_) => packet
    case Group(_) => packet
  }

  /** The packet after all the actions. */
  function Rewrite(actions: seq<Action>, packet: Packet): Packet {
    if actions == [] then packet else Rewrite(actions[1..], Apply(actions[0], packet))
  }

  /** What the actions send out, in order. */
  function Emit(actions: seq<Action>, packet: Packet): seq<Emission> {
    if actions == [] then []
    else
      var rest := Emit(actions[1..], Apply(actions[0], packet));
      match actions[0]
      case Output(port) => [Emission(ToPort(port), packet)] + rest
      case Group(id) => [Emission(ToGroup(id), packet)] + rest
      case _ => rest
  }

  predicate Silent(actions: seq<Action>) {
    forall a | a in actions :: !a.Output? && !a.Group?
  }

  /** Actions that only rewrite, followed by one output, send out the rewritten packet. */
  lemma {:induction false} EmitOnce(actions: seq<Action>, port: uint32, packet: Packet)
    requires Silent(actions)
    ensures Emit(actions + [Output(port)], packet) == [Emission(ToPort(port), Rewrite(actions, packet))]
    ensures Emit(actions, packet) == []
  {
    var all := actions + [Output(port)];
    if actions == [] {
      assert all == [Output(port)];
      assert Emit(all[1..], packet) == [];
    } else {
      assert all[1..] == actions[1..] + [Output(port)];
      assert actions[0] in actions && Silent(actions[1..]);
      EmitOnce(actions[1..], port, Apply(actions[0], packet));
    }
  }

  // Flow tables

  /** The matching flow of the highest priority; of several such flows the first. */
  function Lookup(flows: seq<Flow>, tableId: uint32, packet: Packet, ctx: Context): (r: Option<Flow>)
    ensures r.Some? ==> r.value in flows && r.value.tableId == tableId && Matches(r.value, packet, ctx)
  {
    if flows == [] then None
    else
      var n := |flows| - 1;
      var best := Lookup(flows[..n], tableId, packet, ctx);
      Better(best, flows[n], tableId, packet, ctx)
  }

  function Better(best: Option<Flow>, flow: Flow, tableId: uint32, packet: Packet, ctx: Context): Option<Flow> {
    if flow.tableId == tableId && Matches(flow, packet, ctx) && (best.None? || flow.priority > best.value.priority)
    then Some(flow) else best
  }

  lemma LookupAppend(flows: seq<Flow>, flow: Flow, tableId: uint32, packet: Packet, ctx: Context)
    ensures Lookup(flows + [flow], tableId, packet, ctx) == Better(Lookup(flows, tableId, packet, ctx), flow, tableId, packet, ctx)
  {
  }

  lemma LookupOne(flow: Flow, tableId: uint32, packet: Packet, ctx: Context)
    ensures Lookup([flow], tableId, packet, ctx) == if flow.tableId == tableId && Matches(flow, packet, ctx) then Some(flow) else None
  {
  }

  /** The selected flow has the highest priority among the matching ones. */
  lemma {:induction false} LookupIsBest(flows: seq<Flow>, flow: Flow, tableId: uint32, packet: Packet, ctx: Context)
    requires flow in flows && flow.tableId == tableId && Matches(flow, packet, ctx)
    ensures Lookup(flows, tableId, packet, ctx).Some?
    ensures Lookup(flows, tableId, packet, ctx).value.priority >= flow.priority
  {
    var n := |flows| - 1;
    if flow in flows[..n] {
      LookupIsBest(flows[..n], flow, tableId, packet, ctx);
    } else {
      assert flow == flows[n];
    }
  }

  /** A table without a further copy of a flow it holds selects the same. */
  function AddFlow(flows: seq<Flow>, flow: Flow): seq<Flow> {
    if flow in flows then flows else flows + [flow]
  }

  lemma LookupAddFlow(flows: seq<Flow>, flow: Flow, tableId: uint32, packet: Packet, ctx: Context)
    ensures Lookup(AddFlow(flows, flow), tableId, packet, ctx)
            == Better(Lookup(flows, tableId, packet, ctx), flow, tableId, packet, ctx)
  {
    if flow in flows {
      if flow.tableId == tableId && Matches(flow, packet, ctx) {
        LookupIsBest(flows, flow, tableId, packet, ctx);
      }
    } else {
      LookupAppend(flows, flow, tableId, packet, ctx);
    }
  }

  /** What one table sends out for a packet. */
  function RunTable(flows: seq<Flow>, packet: Packet, ctx: Context): seq<Emission> {
    match Lookup(flows, 0, packet, ctx)
    case None => []
    case Some(flow) => Emit(GetActions(flow), packet)
  }

  /** A two-table switch: table 0 may write metadata and pass the rewritten packet on to table 1. */
  function RunPipeline(flows: seq<Flow>, packet: Packet, inPort: nat): seq<Emission> {
    match Lookup(flows, 0, packet, Context(inPort, Some(0), Some(0)))
    case None => []
    case Some(flow) =>
      var first := Emit(GetActions(flow), packet);
      if GetGotoTableId(flow) != 1 then first
      else first + RunSecond(flows, Rewrite(GetActions(flow), packet), Context(inPort, Some(GetWriteMetadata(flow)), Some(0)))
  }

  function RunSecond(flows: seq<Flow>, packet: Packet, ctx: Context): seq<Emission> {
    match Lookup(flows, 1, packet, ctx)
    case None => []
    case Some(flow) => Emit(GetActions(flow), packet)
  }
}
