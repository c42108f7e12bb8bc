/** The operations of a logical device agent on its flow, meter and group tables. */
module LogicalAgents {
  import opened Voltha
  import opened FlowMerge
  import Spec = FlowTables
  import opened FlowTables
  import opened FlowEffects

  method FindInSeq<E, K(==)>(key: E -> K, s: seq<E>, k: K) returns (i: int)
    ensures i == Find(key, s, k)
  {
    i := 0;
    while i < |s|
      invariant 0 <= i <= |s| && forall j | 0 <= j < i :: key(s[j]) != k
    {
      if key(s[i]) == k {
        return;
      }
      i := i + 1;
    }
    i := -1;
  }

  method FindMeterIndex(meters: seq<MeterEntry>, id: uint32) returns (i: int)
    ensures i == FindMeter(meters, id)
  {
    i := 0;
    while i < |meters|
      invariant 0 <= i <= |meters| && forall j | 0 <= j < i :: meters[j].meterId != id
    {
      if meters[i].meterId == id {
        return;
      }
      i := i + 1;
    }
    i := -1;
  }

  /** The configurations of the meters that the flows name, each once; nothing if one of them is missing. */
  method GetMeterConfig(flows: seq<Entry>, meters: seq<MeterEntry>) returns (r: Option<seq<MeterEntry>>)
    ensures r.Some? <==> AllMetersThere(meters, flows)
    ensures r.Some? ==> UniqueMeters(r.value)
    ensures r.Some? ==> forall m | m in r.value :: m in meters
    ensures r.Some? ==> forall id :: HasMeter(r.value, id) <==> id != 0 && exists e | e in flows :: MeterOfEntry(e) == id
  {
    var found: seq<MeterEntry> := [];
    var seen: set<uint32> := {};
    for i := 0 to |flows|
      invariant AllMetersThere(meters, flows[..i])
      invariant seen == set e | e in flows[..i] && MeterOfEntry(e) != 0 :: MeterOfEntry(e)
      invariant UniqueMeters(found) && forall id :: HasMeter(found, id) <==> id in seen
      invariant forall m | m in found :: m in meters
    {
      assert flows[..i + 1] == flows[..i] + [flows[i]];
      var id := MeterOfEntry(flows[i]);
      if id != 0 && id !in seen {
        var k := FindMeterIndex(meters, id);
        FindMeterIff(meters, id);
        if k == -1 {
          assert flows[i] in flows && !MeterThere(meters, flows[i]);
          return None;
        }
        NewMeter(found, meters[k], seen);
        found := found + [meters[k]];
        seen := seen + {id};
      }
    }
    assert flows[..|flows|] == flows;
    return Some(found);
  }

  lemma NewMeter(found: seq<MeterEntry>, m: MeterEntry, seen: set<uint32>)
    requires UniqueMeters(found) && m.meterId !in seen && forall id :: HasMeter(found, id) <==> id in seen
    ensures UniqueMeters(found + [m]) && forall id :: HasMeter(found + [m], id) <==> id in seen + {m.meterId}
  {
  }

  /** Deletes the flows that name the meter, from the last to the first. */
  method GetUpdatedFlowsAfterDeleteByMeterId(flows: seq<Entry>, id: uint32) returns (changed: bool, updated: seq<Entry>)
    ensures updated == WithoutMeter(flows, id) && |updated| <= |flows| && (changed <==> |updated| < |flows|)
  {
    changed, updated := false, flows;
    var index := |flows| - 1;
    ghost var tail: seq<Entry> := [];
    assert flows[..index + 1] == flows && WithoutMeter(flows, id) + [] == WithoutMeter(flows, id);
    while index >= 0
      invariant -1 <= index < |flows|
      invariant updated == flows[..index + 1] + tail
      invariant WithoutMeter(flows[..index + 1], id) + tail == WithoutMeter(flows, id)
      invariant |updated| <= |flows| && (changed <==> |updated| < |flows|)
    {
      KeepOrDrop(flows, index, id, tail);
      var m := MeterOfEntry(updated[index]);
      if m != 0 && m == id {
        updated := updated[..index] + updated[index + 1..];
        changed := true;
      } else {
        tail := [flows[index]] + tail;
      }
      index := index - 1;
    }
  }

  lemma KeepOrDrop(flows: seq<Entry>, index: nat, id: uint32, tail: seq<Entry>)
    requires index < |flows|
    ensures flows[..index + 1] + tail == flows[..index] + ([flows[index]] + tail)
    ensures (flows[..index + 1] + tail)[..index] == flows[..index] && (flows[..index + 1] + tail)[index + 1..] == tail
    ensures var m := MeterOfEntry(flows[index]);
            WithoutMeter(flows[..index + 1], id) + tail
            == WithoutMeter(flows[..index], id) + if m != 0 && m == id then tail else [flows[index]] + tail
  {
    assert flows[..index + 1][..index] == flows[..index];
    var w := WithoutMeter(flows[..index], id);
    assert (w + [flows[index]]) + tail == w + ([flows[index]] + tail);
  }

  /** Splits the flows into those that a delete takes out and those it leaves. */
  method SplitFlows(flows: seq<Entry>, mod: FlowMod) returns (toKeep: seq<Entry>, toDelete: seq<Entry>)
    ensures toKeep == Selected(flows, mod, false) && toDelete == Selected(flows, mod, true)
  {
    toKeep, toDelete := [], [];
    for i := 0 to |flows|
      invariant toKeep == Selected(flows[..i], mod, false) && toDelete == Selected(flows[..i], mod, true)
    {
      var e := flows[i];
      assert flows[..i + 1][..i] == flows[..i];
      if KeyOfEntry(e) == KeyOfFlow(mod.flow) {
        toDelete := toDelete + [e];
        continue;
      }
      if !Covers(mod, e.flow) {
        toKeep := toKeep + [e];
      } else {
        toDelete := toDelete + [e];
      }
    }
    assert flows[..|flows|] == flows;
  }

  method FlowsDeleteByGroupId(flows: seq<Entry>, id: uint32) returns (changed: bool, toKeep: seq<Entry>)
    ensures toKeep == WithoutGroup(flows, id) && (changed <==> |toKeep| != |flows|)
  {
    toKeep := [];
    for i := 0 to |flows|
      invariant toKeep == WithoutGroup(flows[..i], id) && |toKeep| <= i
    {
      assert flows[..i + 1][..i] == flows[..i];
      if !HasOutGroup(flows[i].flow, id) {
        toKeep := toKeep + [flows[i]];
      }
    }
    assert flows[..|flows|] == flows;
    changed := |toKeep| < |flows|;
  }

  /** Counts a flow on or off its meter, if it has one. */
  method UpdateFlowCountOfMeterStats(up: bool, meters: seq<MeterEntry>, e: Entry) returns (changed: bool, updated: seq<MeterEntry>)
    ensures var i := FindMeter(meters, MeterOfEntry(e));
            && (changed <==> MeterOfEntry(e) != 0 && i != -1)
            && updated == if changed then Counted(meters, i, up) else meters
  {
    changed, updated := false, meters;
    if MeterOfEntry(e) == 0 {
      return;
    }
    var i := FindMeterIndex(meters, MeterOfEntry(e));
    if i != -1 {
      changed, updated := true, Counted(meters, i, up);
    }
  }

  lemma OneMeterThere(meters: seq<MeterEntry>, counted: seq<MeterEntry>, e: Entry)
    requires |meters| == |counted| && forall j | 0 <= j < |meters| :: meters[j].meterId == counted[j].meterId
    ensures AllMetersThere(counted, [e]) <==> MeterThere(meters, e)
  {
    assert e in [e];
    SameIds(meters, counted, [e]);
    SameIds(counted, meters, [e]);
  }

  /** The flow, meter and group tables of a logical device; every write replaces one of them. */
  class LogicalDeviceAgent {
    var flows: seq<Entry>
    var meters: seq<MeterEntry>
    var groups: seq<GroupEntry>

    ghost function State(): Tables
      reads this
    {
      Tables(flows, meters, groups)
    }

    constructor ()
      ensures State() == EMPTY
    {
      flows, meters, groups := [], [], [];
    }

    method FlowAdd(mod: FlowMod, env: Env) returns (r: Outcome)
      modifies this
      ensures (State(), r) == Spec.FlowAdd(old(State()), mod, env)
      ensures old(Integrity(State())) ==> Integrity(State())
    {
      if Integrity(State()) {
        ApplyIntegrity(State(), Mod.AddFlow(mod), env);
      }
      var e := EntryOf(mod);
      var isNew, updated := true, flows + [e];
      if !HasFlag(mod.flow.flags, CHECK_OVERLAP) {
        var idx := FindInSeq(KeyOfEntry, flows, KeyOfEntry(e));
        if idx >= 0 {
          var oldFlow := flows[idx];
          if HasFlag(mod.flow.flags, RESET_COUNTS) {
            e := e.(packets := oldFlow.packets, bytes := oldFlow.bytes);
          }
          if e == oldFlow {
            return Success;
          }
          isNew, updated := false, flows[idx := e];
        }
      }
      r := Install(updated, e, isNew, env);
    }

    method Install(updated: seq<Entry>, e: Entry, isNew: bool, env: Env) returns (r: Outcome)
      modifies this
      ensures (State(), r) == Installed(old(State()), updated, e, isNew, env)
    {
      var config := GetMeterConfig([e], meters);
      OneMeterThere(meters, meters, e);
      if config.None? {
        return MeterMissing;
      }
      if !env.rules {
        return NotDecomposed;
      }
      if !env.first {
        return StoreFailed;
      }
      flows := updated;
      if isNew {
        var changed, counted := UpdateFlowCountOfMeterStats(true, meters, e);
        if changed {
          if !env.second {
            return StoreFailed;
          }
          meters := counted;
        }
      }
      return Success;
    }

    method FlowDelete(mod: FlowMod, env: Env) returns (r: Outcome)
      modifies this
      ensures (State(), r) == Spec.FlowDelete(old(State()), mod, env)
      ensures old(Integrity(State())) ==> Integrity(State()) && r != MeterMissing
    {
      if Integrity(State()) {
        ApplyIntegrity(State(), DeleteFlow(mod), env);
      }
      var toKeep, toDelete := SplitFlows(flows, mod);
      if |toDelete| > 0 {
        var config := GetMeterConfig(toDelete, meters);
        if config.None? {
          return MeterMissing;
        }
        if !env.rules {
          return NotDecomposed;
        }
        if !env.first {
          return StoreFailed;
        }
        flows := toKeep;
      }
      return Success;
    }

    method FlowDeleteStrict(mod: FlowMod, env: Env) returns (r: Outcome)
      modifies this
      ensures (State(), r) == Spec.FlowDeleteStrict(old(State()), mod, env)
      ensures old(Integrity(State())) ==> Integrity(State()) && r != MeterMissing
    {
      if Integrity(State()) {
        ApplyIntegrity(State(), DeleteFlowStrict(mod), env);
      }
      var idx := FindInSeq(KeyOfEntry, flows, KeyOfFlow(mod.flow));
      if idx < 0 {
        return FlowAbsent;
      }
      r := Uninstall(idx, env);
    }

    method Uninstall(idx: nat, env: Env) returns (r: Outcome)
      requires idx < |flows|
      modifies this
      ensures (State(), r) == Uninstalled(old(State()), idx, env)
    {
      var e := flows[idx];
      var changed, counted := UpdateFlowCountOfMeterStats(false, meters, e);
      if changed && !env.first {
        return StoreFailed;
      }
      var config := GetMeterConfig([e], counted);
      OneMeterThere(meters, counted, e);
      meters := counted;
      if config.None? {
        return MeterMissing;
      }
      if !env.rules {
        return NotDecomposed;
      }
      if !env.second {
        return StoreFailed;
      }
      flows := flows[..idx] + flows[idx + 1..];
      return Success;
    }

    method MeterAdd(id: uint32, config: seq<nat>, env: Env) returns (r: Outcome)
      modifies this
      ensures (State(), r) == Spec.MeterAdd(old(State()), id, config, env)
      ensures old(Integrity(State())) ==> Integrity(State())
    {
      if Integrity(State()) {
        ApplyIntegrity(State(), AddMeter(id, config), env);
      }
      var i := FindMeterIndex(meters, id);
      if i >= 0 {
        return Success;
      }
      if !env.first {
        return StoreFailed;
      }
      meters := meters + [MeterEntry(id, config, 0)];
      return Success;
    }

    method MeterDelete(id: uint32, env: Env) returns (r: Outcome)
      modifies this
      ensures (State(), r) == Spec.MeterDelete(old(State()), id, env)
      ensures old(Integrity(State())) ==> (Integrity(State()) <==> !LosesMeter(old(State()), DeleteMeter(id), env))
    {
      if Integrity(State()) {
        ApplyIntegrity(State(), DeleteMeter(id), env);
      }
      var changedFlow, updatedFlows := false, [];
      var i := FindMeterIndex(meters, id);
      if i >= 0 {
        changedFlow, updatedFlows := GetUpdatedFlowsAfterDeleteByMeterId(flows, id);
        if !env.first {
          return StoreFailed;
        }
        meters := meters[..i] + meters[i + 1..];
      }
      if changedFlow {
        if !env.second {
          return StoreFailed;
        }
        flows := updatedFlows;
      }
      return Success;
    }

    method MeterModify(id: uint32, config: seq<nat>, env: Env) returns (r: Outcome)
      modifies this
      ensures (State(), r) == Spec.MeterModify(old(State()), id, config, env)
      ensures old(Integrity(State())) ==> Integrity(State())
    {
      if Integrity(State()) {
        ApplyIntegrity(State(), ModifyMeter(id, config), env);
      }
      var i := FindMeterIndex(meters, id);
      if i >= 0 {
        if !env.first {
          return StoreFailed;
        }
        meters := meters[i := MeterEntry(id, config, meters[i].flowCount)];
        return Success;
      }
      return MeterAbsent;
    }

    method GroupAdd(g: GroupEntry, env: Env) returns (r: Outcome)
      modifies this
      ensures (State(), r) == Spec.GroupAdd(old(State()), g, env)
      ensures old(Integrity(State())) ==> Integrity(State())
    {
      if Integrity(State()) {
        ApplyIntegrity(State(), AddGroup(g), env);
      }
      var i := FindInSeq(KeyOfGroup, groups, g.groupId);
      if i == -1 {
        if !env.first {
          return StoreFailed;
        }
        groups := groups + [g];
        return Success;
      }
      return GroupPresent;
    }

    method GroupDelete(id: uint32, env: Env) returns (r: Outcome)
      modifies this
      ensures (State(), r) == Spec.GroupDelete(old(State()), id, env)
      ensures old(Integrity(State())) ==> Integrity(State())
    {
      if Integrity(State()) {
        ApplyIntegrity(State(), DeleteGroup(id), env);
      }
      var updatedGroups: seq<GroupEntry>, flowsChanged, updatedFlows := [], false, flows;
      if id != ALL_GROUPS {
        var i := FindInSeq(KeyOfGroup, groups, id);
        if i == -1 {
          return Success;
        }
        flowsChanged, updatedFlows := FlowsDeleteByGroupId(flows, id);
        updatedGroups := groups[..i] + groups[i + 1..];
      }
      if !env.rules {
        return NotDecomposed;
      }
      if !env.first {
        return StoreFailed;
      }
      groups := updatedGroups;
      if flowsChanged {
        if !env.second {
          return StoreFailed;
        }
        flows := updatedFlows;
      }
      return Success;
    }

    method GroupModify(g: GroupEntry, env: Env) returns (r: Outcome)
      modifies this
      ensures (State(), r) == Spec.GroupModify(old(State()), g, env)
      ensures old(Integrity(State())) ==> Integrity(State())
    {
      if Integrity(State()) {
        ApplyIntegrity(State(), ModifyGroup(g), env);
      }
      var i := FindInSeq(KeyOfGroup, groups, g.groupId);
      if i == -1 {
        return GroupAbsent;
      }
      if !env.first {
        return StoreFailed;
      }
      groups := groups[i := g];
      return Success;
    }

    /** What the controller asks for, by its command. */
    method UpdateTables(mod: Mod, env: Env) returns (r: Outcome)
      modifies this
      ensures (State(), r) == Apply(old(State()), mod, env)
      ensures Effect(old(State()), mod, env, State(), r)
      ensures old(Integrity(State())) ==> (Integrity(State()) <==> !LosesMeter(old(State()), mod, env))
    {
      ghost var before := State();
      match mod {
        case AddFlow(m) => r := FlowAdd(m, env);
        case DeleteFlow(m) => r := FlowDelete(m, env);
        case DeleteFlowStrict(m) => r := FlowDeleteStrict(m, env);
        case AddMeter(id, config) => r := MeterAdd(id, config, env);
        case DeleteMeter(id) => r := MeterDelete(id, env);
        case ModifyMeter(id, config) => r := MeterModify(id, config, env);
        case AddGroup(g) => r := GroupAdd(g, env);
        case DeleteGroup(id) => r := GroupDelete(id, env);
        case ModifyGroup(g) => r := GroupModify(g, env);
      }
      ApplyEffect(before, mod, env);
      if Integrity(before) {
        ApplyIntegrity(before, mod, env);
      }
    }
  }
}
