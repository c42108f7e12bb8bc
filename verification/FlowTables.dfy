/**
 The flow, meter and group tables of a logical device and what the OpenFlow mods do to them.  An operation may write the
 store more than once; which writes succeed, and whether the flows can be decomposed, is up to the environment.
 */
module FlowTables {
  import opened Voltha
  import opened OpenFlow
  import opened FlowMerge

  /** A flow in the table, with its counters. */
  datatype Entry = Entry(flow: Flow, packets: uint64, bytes: uint64)

  datatype MeterEntry = MeterEntry(meterId: uint32, config: seq<nat>, flowCount: uint32)

  datatype Tables = Tables(flows: seq<Entry>, meters: seq<MeterEntry>, groups: seq<GroupEntry>)

  datatype FlowMod = FlowMod(flow: Flow, cookieMask: uint64, outPort: uint32, outGroup: uint32)

  /** Whether decomposition succeeds, and the first and second write of the store. */
  datatype Env = Env(rules: bool, first: bool, second: bool)

  datatype Outcome =
    | Success | MeterMissing | NotDecomposed | StoreFailed | FlowAbsent | MeterAbsent | GroupPresent | GroupAbsent

  const CHECK_OVERLAP := 2
  const RESET_COUNTS := 4
  const ALL_TABLES: uint32 := 255
  const ANY: uint32 := 0x7fff_ffff
  const ALL_GROUPS: uint32 := 0x7fff_fffc

  predicate HasFlag(flags: uint32, flag: nat)
    requires flag > 0
  {
    flags / flag % 2 == 1
  }

  function KeyOfEntry(e: Entry): FlowKey {
    KeyOfFlow(e.flow)
  }

  function MeterOfEntry(e: Entry): uint32 {
    GetMeterId(e.flow)
  }

  // Meters

  function FindMeter(meters: seq<MeterEntry>, id: uint32): (i: int)
    ensures -1 <= i < |meters|
    ensures i == -1 ==> forall m | m in meters :: m.meterId != id
    ensures i != -1 ==> meters[i].meterId == id && forall j | 0 <= j < i :: meters[j].meterId != id
  {
    if meters == [] then -1
    else if meters[0].meterId == id then 0
    else
      var i := FindMeter(meters[1..], id);
      if i == -1 then -1 else i + 1
  }

  predicate HasMeter(meters: seq<MeterEntry>, id: uint32) {
    exists m | m in meters :: m.meterId == id
  }

  lemma FindMeterIff(meters: seq<MeterEntry>, id: uint32)
    ensures FindMeter(meters, id) != -1 <==> HasMeter(meters, id)
  {
  }

  /** The meter of the flow, if it has one, is in the table. */
  predicate MeterThere(meters: seq<MeterEntry>, e: Entry) {
    MeterOfEntry(e) != 0 ==> HasMeter(meters, MeterOfEntry(e))
  }

  predicate AllMetersThere(meters: seq<MeterEntry>, flows: seq<Entry>) {
    forall e | e in flows :: MeterThere(meters, e)
  }

  predicate UniqueMeters(meters: seq<MeterEntry>) {
    forall i, j | 0 <= i < j < |meters| :: meters[i].meterId != meters[j].meterId
  }

  /** Every meter that a flow names is in the meter table, under a unique id. */
  predicate Integrity(t: Tables) {
    AllMetersThere(t.meters, t.flows) && UniqueMeters(t.meters)
  }

  /** Counters have 32 bits and wrap. */
  function Counted(meters: seq<MeterEntry>, i: nat, up: bool): (r: seq<MeterEntry>)
    requires i < |meters|
    ensures |r| == |meters| && forall j | 0 <= j < |r| :: r[j].meterId == meters[j].meterId
  {
    meters[i := meters[i].(flowCount := if up then (meters[i].flowCount + 1) % 0x1_0000_0000
                                        else (meters[i].flowCount + 0xffff_ffff) % 0x1_0000_0000)]
  }

  function RemoveAt<T>(s: seq<T>, i: nat): seq<T>
    requires i < |s|
  {
    s[..i] + s[i + 1..]
  }

  // Flows

  function EntryOf(mod: FlowMod): Entry {
    Entry(mod.flow, 0, 0)
  }

  /** Adds or replaces the flow: decomposes it, writes the flows, then counts a new flow on its meter. */
  function Installed(t: Tables, flows: seq<Entry>, e: Entry, isNew: bool, env: Env): (Tables, Outcome) {
    if !MeterThere(t.meters, e) then (t, MeterMissing)
    else if !env.rules then (t, NotDecomposed)
    else if !env.first then (t, StoreFailed)
    else
      var i := FindMeter(t.meters, MeterOfEntry(e));
      if !isNew || MeterOfEntry(e) == 0 || i == -1 then (t.(flows := flows), Success)
      else if !env.second then (t.(flows := flows), StoreFailed)
      else (t.(flows := flows, meters := Counted(t.meters, i, true)), Success)
  }

  function FlowAdd(t: Tables, mod: FlowMod, env: Env): (Tables, Outcome) {
    var e := EntryOf(mod);
    var i := Find(KeyOfEntry, t.flows, KeyOfEntry(e));
    if HasFlag(mod.flow.flags, CHECK_OVERLAP) || i == -1 then Installed(t, t.flows + [e], e, true, env)
    else
      var old_ := t.flows[i];
      var e' := if HasFlag(mod.flow.flags, RESET_COUNTS) then e.(packets := old_.packets, bytes := old_.bytes) else e;
      if e' == old_ then (t, Success) else Installed(t, t.flows[i := e'], e', false, env)
  }

  function OutPorts(actions: seq<Action>): set<uint32> {
    set a | a in actions && a.Output? :: a.port
  }

  function OutGroups(actions: seq<Action>): set<uint32> {
    set a | a in actions && a.Group? :: a.id
  }

  /** Some apply-actions instruction sends to the port, or to the group. */
  predicate HasOutPort(flow: Flow, port: uint32) {
    exists i | i in flow.instructions :: i.ApplyActions? && port in OutPorts(i.actions)
  }

  predicate HasOutGroup(flow: Flow, id: uint32) {
    exists i | i in flow.instructions :: i.ApplyActions? && id in OutGroups(i.actions)
  }

  /** The wildcard match of a delete: cookie, table, output port and group; a non-empty match covers nothing. */
  predicate Covers(mod: FlowMod, flow: Flow) {
    && BitAnd(flow.cookie, mod.cookieMask) == BitAnd(mod.flow.cookie, mod.cookieMask)
    && (mod.flow.tableId == ALL_TABLES || flow.tableId == mod.flow.tableId)
    && (mod.outPort % 0x8000_0000 == ANY || HasOutPort(flow, mod.outPort))
    && (mod.outGroup % 0x8000_0000 == ANY || HasOutGroup(flow, mod.outGroup))
    && mod.flow.fields == []
  }

  predicate Deletes(mod: FlowMod, e: Entry) {
    KeyOfEntry(e) == KeyOfFlow(mod.flow) || Covers(mod, e.flow)
  }

  /** The flows that a delete takes out, or leaves. */
  function Selected(flows: seq<Entry>, mod: FlowMod, deleted: bool): seq<Entry> {
    if flows == [] then []
    else
      var n := |flows| - 1;
      var rest := Selected(flows[..n], mod, deleted);
      if Deletes(mod, flows[n]) == deleted then rest + [flows[n]] else rest
  }

  lemma {:induction false} SelectedIs(flows: seq<Entry>, mod: FlowMod, deleted: bool)
    ensures forall e :: e in Selected(flows, mod, deleted) <==> e in flows && Deletes(mod, e) == deleted
  {
    if flows != [] {
      var n := |flows| - 1;
      assert flows == flows[..n] + [flows[n]];
      SelectedIs(flows[..n], mod, deleted);
    }
  }

  function FlowDelete(t: Tables, mod: FlowMod, env: Env): (Tables, Outcome) {
    var toDelete := Selected(t.flows, mod, true);
    if toDelete == [] then (t, Success)
    else if !AllMetersThere(t.meters, toDelete) then (t, MeterMissing)
    else if !env.rules then (t, NotDecomposed)
    else if !env.first then (t, StoreFailed)
    else (t.(flows := Selected(t.flows, mod, false)), Success)
  }

  /** Counts the flow off its meter, then decomposes it, then writes the flows without it. */
  function Uninstalled(t: Tables, i: nat, env: Env): (Tables, Outcome)
    requires i < |t.flows|
  {
    var m := FindMeter(t.meters, MeterOfEntry(t.flows[i]));
    var counts := MeterOfEntry(t.flows[i]) != 0 && m != -1;
    if counts && !env.first then (t, StoreFailed)
    else
      var t' := if counts then t.(meters := Counted(t.meters, m, false)) else t;
      if !MeterThere(t.meters, t.flows[i]) then (t', MeterMissing)
      else if !env.rules then (t', NotDecomposed)
      else if !env.second then (t', StoreFailed)
      else (t'.(flows := RemoveAt(t.flows, i)), Success)
  }

  function FlowDeleteStrict(t: Tables, mod: FlowMod, env: Env): (Tables, Outcome) {
    var i := Find(KeyOfEntry, t.flows, KeyOfFlow(mod.flow));
    if i == -1 then (t, FlowAbsent) else Uninstalled(t, i, env)
  }

  // Meters and groups

  function MeterAdd(t: Tables, id: uint32, config: seq<nat>, env: Env): (Tables, Outcome) {
    if FindMeter(t.meters, id) != -1 then (t, Success)
    else if !env.first then (t, StoreFailed)
    else (t.(meters := t.meters + [MeterEntry(id, config, 0)]), Success)
  }

  /** The flows that do not name the meter. */
  function WithoutMeter(flows: seq<Entry>, id: uint32): seq<Entry> {
    if flows == [] then []
    else
      var n := |flows| - 1;
      var rest := WithoutMeter(flows[..n], id);
      if MeterOfEntry(flows[n]) != 0 && MeterOfEntry(flows[n]) == id then rest else rest + [flows[n]]
  }

  lemma {:induction false} WithoutMeterIs(flows: seq<Entry>, id: uint32)
    ensures var r := WithoutMeter(flows, id);
            && (forall e :: e in r <==> e in flows && (id == 0 || MeterOfEntry(e) != id))
            && |r| <= |flows| && (|r| == |flows| ==> r == flows)
  {
    if flows != [] {
      var n := |flows| - 1;
      assert flows == flows[..n] + [flows[n]];
      WithoutMeterIs(flows[..n], id);
    }
  }

  /** Deletes the meter, and then, in a second write, the flows that name it. */
  function MeterDelete(t: Tables, id: uint32, env: Env): (Tables, Outcome) {
    var i := FindMeter(t.meters, id);
    if i == -1 then (t, Success)
    else if !env.first then (t, StoreFailed)
    else
      var t' := t.(meters := RemoveAt(t.meters, i));
      var flows := WithoutMeter(t.flows, id);
      if |flows| == |t.flows| then (t', Success)
      else if !env.second then (t', StoreFailed)
      else (t'.(flows := flows), Success)
  }

  function MeterModify(t: Tables, id: uint32, config: seq<nat>, env: Env): (Tables, Outcome) {
    var i := FindMeter(t.meters, id);
    if i == -1 then (t, MeterAbsent)
    else if !env.first then (t, StoreFailed)
    else (t.(meters := t.meters[i := MeterEntry(id, config, t.meters[i].flowCount)]), Success)
  }

  function GroupAdd(t: Tables, g: GroupEntry, env: Env): (Tables, Outcome) {
    if Find(KeyOfGroup, t.groups, g.groupId) != -1 then (t, GroupPresent)
    else if !env.first then (t, StoreFailed)
    else (t.(groups := t.groups + [g]), Success)
  }

  /** The flows that do not send to the group. */
  function WithoutGroup(flows: seq<Entry>, id: uint32): seq<Entry> {
    if flows == [] then []
    else
      var n := |flows| - 1;
      var rest := WithoutGroup(flows[..n], id);
      if HasOutGroup(flows[n].flow, id) then rest else rest + [flows[n]]
  }

  lemma {:induction false} WithoutGroupIs(flows: seq<Entry>, id: uint32)
    ensures forall e :: e in WithoutGroup(flows, id) <==> e in flows && !HasOutGroup(e.flow, id)
  {
    if flows != [] {
      var n := |flows| - 1;
      assert flows == flows[..n] + [flows[n]];
      WithoutGroupIs(flows[..n], id);
    }
  }

  /** Deleting all groups leaves the flows; deleting one takes the flows that send to it along. */
  function GroupDelete(t: Tables, id: uint32, env: Env): (Tables, Outcome) {
    var i := Find(KeyOfGroup, t.groups, id);
    if id != ALL_GROUPS && i == -1 then (t, Success)
    else
      var groups := if id == ALL_GROUPS then [] else RemoveAt(t.groups, i);
      var flows := if id == ALL_GROUPS then t.flows else WithoutGroup(t.flows, id);
      if !env.rules then (t, NotDecomposed)
      else if !env.first then (t, StoreFailed)
      else if |flows| == |t.flows| then (t.(groups := groups), Success)
      else if !env.second then (t.(groups := groups), StoreFailed)
      else (t.(groups := groups, flows := flows), Success)
  }

  function GroupModify(t: Tables, g: GroupEntry, env: Env): (Tables, Outcome) {
    var i := Find(KeyOfGroup, t.groups, g.groupId);
    if i == -1 then (t, GroupAbsent)
    else if !env.first then (t, StoreFailed)
    else (t.(groups := t.groups[i := g]), Success)
  }

  // Runs

  datatype Mod =
    | AddFlow(mod: FlowMod)
    | DeleteFlow(mod: FlowMod)
    | DeleteFlowStrict(mod: FlowMod)
    | AddMeter(id: uint32, config: seq<nat>)
    | DeleteMeter(id: uint32)
    | ModifyMeter(id: uint32, config: seq<nat>)
    | AddGroup(group: GroupEntry)
    | DeleteGroup(id: uint32)
    | ModifyGroup(group: GroupEntry)

  function Apply(t: Tables, mod: Mod, env: Env): (Tables, Outcome) {
    match mod
    case AddFlow(m) => FlowAdd(t, m, env)
    case DeleteFlow(m) => FlowDelete(t, m, env)
    case DeleteFlowStrict(m) => FlowDeleteStrict(t, m, env)
    case AddMeter(id, config) => MeterAdd(t, id, config, env)
    case DeleteMeter(id) => MeterDelete(t, id, env)
    case ModifyMeter(id, config) => MeterModify(t, id, config, env)
    case AddGroup(g) => GroupAdd(t, g, env)
    case DeleteGroup(id) => GroupDelete(t, id, env)
    case ModifyGroup(g) => GroupModify(t, g, env)
  }

  function Run(t: Tables, mods: seq<(Mod, Env)>): Tables {
    if mods == [] then t
    else
      var n := |mods| - 1;
      Apply(Run(t, mods[..n]), mods[n].0, mods[n].1).0
  }

  const EMPTY := Tables([], [], [])

  // Integrity

  /** The one way to lose integrity: the meter is gone from the store and the write of the remaining flows fails. */
  predicate LosesMeter(t: Tables, mod: Mod, env: Env) {
    mod.DeleteMeter? && env.first && !env.second && mod.id != 0 && exists e | e in t.flows :: MeterOfEntry(e) == mod.id
  }

  /** Meters under the same ids serve the same flows. */
  lemma SameIds(meters: seq<MeterEntry>, meters': seq<MeterEntry>, flows: seq<Entry>)
    requires |meters| == |meters'| && forall j | 0 <= j < |meters| :: meters[j].meterId == meters'[j].meterId
    ensures AllMetersThere(meters, flows) ==> AllMetersThere(meters', flows)
    ensures UniqueMeters(meters) ==> UniqueMeters(meters')
  {
  }

  lemma FlowAddKeepsIntegrity(t: Tables, mod: FlowMod, env: Env)
    requires Integrity(t)
    ensures Integrity(FlowAdd(t, mod, env).0)
  {
  }

  lemma FlowDeleteStrictKeepsIntegrity(t: Tables, mod: FlowMod, env: Env)
    requires Integrity(t)
    ensures Integrity(FlowDeleteStrict(t, mod, env).0) && FlowDeleteStrict(t, mod, env).1 != MeterMissing
  {
    var i := Find(KeyOfEntry, t.flows, KeyOfFlow(mod.flow));
    if i != -1 {
      assert t.flows[i] in t.flows;
      var m := FindMeter(t.meters, MeterOfEntry(t.flows[i]));
      if m != -1 {
        SameIds(t.meters, Counted(t.meters, m, false), t.flows);
      }
    }
  }

  lemma FlowDeleteKeepsIntegrity(t: Tables, mod: FlowMod, env: Env)
    requires Integrity(t)
    ensures Integrity(FlowDelete(t, mod, env).0) && FlowDelete(t, mod, env).1 != MeterMissing
  {
    SelectedIs(t.flows, mod, true);
    SelectedIs(t.flows, mod, false);
  }

  lemma GroupDeleteKeepsIntegrity(t: Tables, id: uint32, env: Env)
    requires Integrity(t)
    ensures Integrity(GroupDelete(t, id, env).0)
  {
    WithoutGroupIs(t.flows, id);
  }

  /** Deleting a meter keeps integrity if and only if no flow is left behind without it. */
  lemma MeterDeleteIntegrity(t: Tables, id: uint32, env: Env)
    requires Integrity(t)
    ensures Integrity(MeterDelete(t, id, env).0) <==> !LosesMeter(t, DeleteMeter(id), env)
  {
    var i := FindMeter(t.meters, id);
    FindMeterIff(t.meters, id);
    WithoutMeterIs(t.flows, id);
    if i != -1 {
      OthersRemain(t.meters, i, t.flows);
    }
  }

  /** Without one meter, the flows of the others still find theirs. */
  lemma OthersRemain(meters: seq<MeterEntry>, i: nat, flows: seq<Entry>)
    requires i < |meters| && UniqueMeters(meters) && AllMetersThere(meters, flows)
    ensures UniqueMeters(RemoveAt(meters, i)) && !HasMeter(RemoveAt(meters, i), meters[i].meterId)
    ensures forall e | e in flows && MeterOfEntry(e) != meters[i].meterId :: MeterThere(RemoveAt(meters, i), e)
  {
  }

  lemma MeterModifyKeepsIntegrity(t: Tables, id: uint32, config: seq<nat>, env: Env)
    requires Integrity(t)
    ensures Integrity(MeterModify(t, id, config, env).0)
  {
    var i := FindMeter(t.meters, id);
    if i != -1 {
      SameIds(t.meters, t.meters[i := MeterEntry(id, config, t.meters[i].flowCount)], t.flows);
    }
  }

  lemma MeterAddKeepsIntegrity(t: Tables, id: uint32, config: seq<nat>, env: Env)
    requires Integrity(t)
    ensures Integrity(MeterAdd(t, id, config, env).0)
  {
  }

  /** One mod, with any of its writes failing, keeps integrity exactly when it does not lose a meter in use. */
  lemma ApplyIntegrity(t: Tables, mod: Mod, env: Env)
    requires Integrity(t)
    ensures Integrity(Apply(t, mod, env).0) <==> !LosesMeter(t, mod, env)
    ensures mod.DeleteFlow? || mod.DeleteFlowStrict? ==> Apply(t, mod, env).1 != MeterMissing
  {
    match mod
    case AddFlow(m) => FlowAddKeepsIntegrity(t, m, env);
    case DeleteFlow(m) => FlowDeleteKeepsIntegrity(t, m, env);
    case DeleteFlowStrict(m) => FlowDeleteStrictKeepsIntegrity(t, m, env);
    case AddMeter(id, config) => MeterAddKeepsIntegrity(t, id, config, env);
    case DeleteMeter(id) => MeterDeleteIntegrity(t, id, env);
    case ModifyMeter(id, config) => MeterModifyKeepsIntegrity(t, id, config, env);
    case DeleteGroup(id) => GroupDeleteKeepsIntegrity(t, id, env);
    case _ =>
  }

  /** No mod of the run loses a meter in use; a run whose writes all succeed is one such. */
  predicate NeverLoses(t: Tables, mods: seq<(Mod, Env)>) {
    mods == [] || (var n := |mods| - 1; NeverLoses(t, mods[..n]) && !LosesMeter(Run(t, mods[..n]), mods[n].0, mods[n].1))
  }

  lemma {:induction false} WritesSucceed(t: Tables, mods: seq<(Mod, Env)>)
    requires forall i | 0 <= i < |mods| :: mods[i].1.second
    ensures NeverLoses(t, mods)
  {
    if mods != [] {
      WritesSucceed(t, mods[..|mods| - 1]);
    }
  }

  /** Over every run, meters in use stay in the table, and the deletes never miss one. */
  lemma {:induction false} RunIntegrity(mods: seq<(Mod, Env)>)
    requires NeverLoses(EMPTY, mods)
    ensures Integrity(Run(EMPTY, mods))
    ensures forall mod: Mod, env: Env | mod.DeleteFlow? || mod.DeleteFlowStrict? :: Apply(Run(EMPTY, mods), mod, env).1 != MeterMissing
  {
    if mods != [] {
      var n := |mods| - 1;
      RunIntegrity(mods[..n]);
      ApplyIntegrity(Run(EMPTY, mods[..n]), mods[n].0, mods[n].1);
    }
    forall mod: Mod, env: Env | mod.DeleteFlow? || mod.DeleteFlowStrict? ensures Apply(Run(EMPTY, mods), mod, env).1 != MeterMissing {
      ApplyIntegrity(Run(EMPTY, mods), mod, env);
    }
  }

  /** A run in which every second write succeeds loses no meter, and none of its deletes misses one. */
  lemma SuccessfulRunIntegrity(mods: seq<(Mod, Env)>, i: nat)
    requires forall j | 0 <= j < |mods| :: mods[j].1.second
    ensures Integrity(Run(EMPTY, mods))
    ensures i < |mods| && (mods[i].0.DeleteFlow? || mods[i].0.DeleteFlowStrict?) ==>
              Apply(Run(EMPTY, mods[..i]), mods[i].0, mods[i].1).1 != MeterMissing
  {
    WritesSucceed(EMPTY, mods);
    RunIntegrity(mods);
    if i < |mods| {
      WritesSucceed(EMPTY, mods[..i]);
      RunIntegrity(mods[..i]);
    }
  }

  const METERED := Flow(0, 1, 0, 0, [], [Meter(7)])

  /** Three mods: a meter, a flow that names it, and a deletion of the meter whose second write fails. */
  lemma MeterLost()
    ensures var ok := Env(true, true, true);
            Run(EMPTY, [(AddMeter(7, []), ok), (Mod.AddFlow(FlowMod(METERED, 0, ANY, ANY)), ok), (DeleteMeter(7), Env(true, true, false))])
            == Tables([Entry(METERED, 0, 0)], [], [])
  {
    var mod := FlowMod(METERED, 0, ANY, ANY);
    var ok := Env(true, true, true);
    RunThree((AddMeter(7, []), ok), (Mod.AddFlow(mod), ok), (DeleteMeter(7), Env(true, true, false)));
    assert MeterAdd(EMPTY, 7, [], ok).0 == Tables([], [MeterEntry(7, [], 0)], []);
    MeteredAdded();
    MeteredLeft();
  }

  lemma MeteredAdded()
    ensures FlowAdd(Tables([], [MeterEntry(7, [], 0)], []), FlowMod(METERED, 0, ANY, ANY), Env(true, true, true)).0
            == Tables([Entry(METERED, 0, 0)], [MeterEntry(7, [], 1)], [])
  {
    var meters := [MeterEntry(7, [], 0)];
    assert MeterOf([Meter(7)]) == 7 && meters[0] in meters && FindMeter(meters, 7) == 0;
    assert meters[0 := MeterEntry(7, [], 1)] == [MeterEntry(7, [], 1)];
  }

  lemma MeteredLeft()
    ensures MeterDelete(Tables([Entry(METERED, 0, 0)], [MeterEntry(7, [], 1)], []), 7, Env(true, true, false)).0
            == Tables([Entry(METERED, 0, 0)], [], [])
  {
    var flows, meters := [Entry(METERED, 0, 0)], [MeterEntry(7, [], 1)];
    assert MeterOf([Meter(7)]) == 7 && flows[..0] == [] && WithoutMeter(flows, 7) == [];
    assert FindMeter(meters, 7) == 0 && RemoveAt(meters, 0) == [];
  }

  /** A delete fails for a missing meter exactly if it selects a flow whose meter is missing, and then changes nothing. */
  lemma LostMeterBlocksDelete(t: Tables, mod: FlowMod, env: Env)
    ensures FlowDelete(t, mod, env).1 == MeterMissing <==> exists e | e in t.flows :: Deletes(mod, e) && !MeterThere(t.meters, e)
    ensures FlowDelete(t, mod, env).1 == MeterMissing ==> FlowDelete(t, mod, env).0 == t
  {
    SelectedIs(t.flows, mod, true);
  }

  /** So does a strict delete, exactly if the flow that it finds has lost its meter. */
  lemma LostMeterBlocksStrictDelete(t: Tables, mod: FlowMod, env: Env)
    ensures var i := Find(KeyOfEntry, t.flows, KeyOfFlow(mod.flow));
            FlowDeleteStrict(t, mod, env).1 == MeterMissing <==> i != -1 && !MeterThere(t.meters, t.flows[i])
    ensures FlowDeleteStrict(t, mod, env).1 == MeterMissing ==> FlowDeleteStrict(t, mod, env).0 == t
  {
    var i := Find(KeyOfEntry, t.flows, KeyOfFlow(mod.flow));
    if i != -1 {
      FindMeterIff(t.meters, MeterOfEntry(t.flows[i]));
    }
  }

  /** A flow that has lost its meter survives every delete of flows, whatever that selects. */
  lemma LostMeterKeepsFlow(t: Tables, mod: FlowMod, env: Env, e: Entry)
    requires e in t.flows && !MeterThere(t.meters, e)
    ensures e in FlowDelete(t, mod, env).0.flows && e in FlowDeleteStrict(t, mod, env).0.flows
  {
    SelectedIs(t.flows, mod, true);
    SelectedIs(t.flows, mod, false);
    var i := Find(KeyOfEntry, t.flows, KeyOfFlow(mod.flow));
    if i != -1 && t.flows[i] != e {
      var j :| 0 <= j < |t.flows| && t.flows[j] == e;
      assert e == RemoveAt(t.flows, i)[if j < i then j else j - 1];
    }
  }

  lemma RunThree(a: (Mod, Env), b: (Mod, Env), c: (Mod, Env))
    ensures Run(EMPTY, [a, b, c]) == Apply(Apply(Apply(EMPTY, a.0, a.1).0, b.0, b.1).0, c.0, c.1).0
  {
    assert [a, b, c][..2] == [a, b] && [a, b][..1] == [a] && [a][..0] == [];
    assert Run(EMPTY, []) == EMPTY;
    assert Run(EMPTY, [a]) == Apply(EMPTY, a.0, a.1).0;
    assert Run(EMPTY, [a, b]) == Apply(Run(EMPTY, [a]), b.0, b.1).0;
  }
}
