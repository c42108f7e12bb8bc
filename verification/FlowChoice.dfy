/** Which flow of a list wins, and that the rules of a device compete as their flows do. */
module FlowChoice {
  import opened Voltha
  import opened OpenFlow
  import opened FlowDecomposition

  /** The position of the flow with the highest priority among those that fire; of several such flows the first. */
  function Pick(flows: seq<Flow>, fires: seq<bool>): (r: Option<nat>)
    requires |flows| == |fires|
    ensures r.Some? ==> r.value < |flows| && fires[r.value]
    ensures r.None? ==> forall i | 0 <= i < |fires| :: !fires[i]
  {
    if flows == [] then None
    else
      var n := |flows| - 1;
      var best := Pick(flows[..n], fires[..n]);
      if fires[n] && (best.None? || flows[n].priority > flows[best.value].priority) then Some(n) else best
  }

  /** No flow that fires has a higher priority than the picked one, and no earlier one the same. */
  lemma {:induction false} PickIsBest(flows: seq<Flow>, fires: seq<bool>, j: nat)
    requires |flows| == |fires| && j < |flows| && fires[j]
    ensures var i := Pick(flows, fires);
            && i.Some? && flows[j].priority <= flows[i.value].priority
            && (flows[j].priority == flows[i.value].priority ==> i.value <= j)
  {
    var n := |flows| - 1;
    if j < n {
      PickIsBest(flows[..n], fires[..n], j);
    }
  }

  /** Of two flows of which only one may fire, that one is picked if it does. */
  lemma PickOfTwo(f0: Flow, f1: Flow, a: bool, b: bool)
    requires !(a && b)
    ensures Pick([f0, f1], [a, b]) == if a then Some(0) else if b then Some(1) else None
  {
    assert [f0, f1][..1] == [f0] && [a, b][..1] == [a] && [f0][..0] == [] && [a][..0] == [];
    assert Pick([f0], [a]) == if a then Some(0) else None;
  }

  function FlowAt(flows: seq<Flow>, i: Option<nat>): Option<Flow>
    requires i.Some? ==> i.value < |flows|
  {
    if i.None? then None else Some(flows[i.value])
  }

  /** Which flows match in a table. */
  function Matching(flows: seq<Flow>, tableId: uint32, packet: Packet, ctx: Context): (r: seq<bool>)
    ensures |r| == |flows|
    ensures forall i | 0 <= i < |r| :: r[i] == (flows[i].tableId == tableId && Matches(flows[i], packet, ctx))
  {
    seq(|flows|, i requires 0 <= i < |flows| => flows[i].tableId == tableId && Matches(flows[i], packet, ctx))
  }

  /** A table selects the picked flow. */
  lemma {:induction false} FlowLookup(flows: seq<Flow>, tableId: uint32, packet: Packet, ctx: Context)
    ensures Lookup(flows, tableId, packet, ctx) == FlowAt(flows, Pick(flows, Matching(flows, tableId, packet, ctx)))
  {
    if flows != [] {
      var n := |flows| - 1;
      FlowLookup(flows[..n], tableId, packet, ctx);
      assert Matching(flows, tableId, packet, ctx)[..n] == Matching(flows[..n], tableId, packet, ctx);
    }
  }

  // Tables of devices

  /** At most one rule, which competes with the priority of the flow. */
  predicate OneRule(flow: Flow, rules: seq<Flow>) {
    |rules| <= 1 && (rules != [] ==> rules[0].tableId == 0 && rules[0].priority == flow.priority)
  }

  predicate OneRuleEach(flows: seq<Flow>, parts: seq<DeviceRules>, d: string) {
    |flows| == |parts| && forall i | 0 <= i < |flows| :: OneRule(flows[i], Get(parts[i], d))
  }

  predicate FiresIn(rules: seq<Flow>, packet: Packet, ctx: Context) {
    rules != [] && Matches(rules[0], packet, ctx)
  }

  /** Which flows have a rule on the device that matches. */
  function Firing(parts: seq<DeviceRules>, d: string, packet: Packet, ctx: Context): (r: seq<bool>)
    ensures |r| == |parts| && forall i | 0 <= i < |r| :: r[i] == FiresIn(Get(parts[i], d), packet, ctx)
  {
    seq(|parts|, i requires 0 <= i < |parts| => FiresIn(Get(parts[i], d), packet, ctx))
  }

  lemma AddOne(flows: seq<Flow>, flow: Flow)
    ensures AddAll(flows, [flow]) == AddFlow(flows, flow) && AddAll(flows, []) == flows
  {
  }

  /** At most one rule more in a table. */
  lemma OneMore(table: seq<Flow>, added: seq<Flow>, packet: Packet, ctx: Context)
    requires |added| <= 1
    ensures Lookup(AddAll(table, added), 0, packet, ctx)
            == if added == [] then Lookup(table, 0, packet, ctx) else Better(Lookup(table, 0, packet, ctx), added[0], 0, packet, ctx)
  {
    if added != [] {
      AddOne(table, added[0]);
      assert added == [added[0]];
      LookupAddFlow(table, added[0], 0, packet, ctx);
    }
  }

  /** The table of a device selects the rule of the flow that is picked among those whose rule matches. */
  lemma {:induction false} TableLookup(flows: seq<Flow>, parts: seq<DeviceRules>, d: string, packet: Packet, ctx: Context)
    requires OneRuleEach(flows, parts, d)
    ensures var i := Pick(flows, Firing(parts, d, packet, ctx));
            Lookup(TableOf(parts, d), 0, packet, ctx) == if i.None? then None else Some(Get(parts[i.value], d)[0])
  {
    if flows != [] {
      var n := |flows| - 1;
      TableLookup(flows[..n], parts[..n], d, packet, ctx);
      assert Firing(parts, d, packet, ctx)[..n] == Firing(parts[..n], d, packet, ctx);
      assert OneRule(flows[n], Get(parts[n], d));
      OneMore(TableOf(parts[..n], d), Get(parts[n], d), packet, ctx);
      var i := Pick(flows[..n], Firing(parts[..n], d, packet, ctx));
      assert i.Some? ==> OneRule(flows[i.value], Get(parts[i.value], d));
    }
  }
}
