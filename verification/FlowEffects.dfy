/** What each OpenFlow mod does to the tables, in terms of their entries. */
module FlowEffects {
  import opened Voltha
  import opened OpenFlow
  import opened FlowMerge
  import opened FlowTables

  // Changing a list at one place, or leaving some of it out

  predicate ReplacedAt<T(==)>(s: seq<T>, r: seq<T>, i: int, x: T) {
    |r| == |s| && 0 <= i < |s| && r[i] == x && forall j | 0 <= j < |s| && j != i :: r[j] == s[j]
  }

  predicate RemovedAt<T(==)>(s: seq<T>, r: seq<T>, i: int) {
    && 0 <= i < |s| && |r| == |s| - 1
    && (forall j | 0 <= j < i :: r[j] == s[j]) && forall j | i <= j < |r| :: r[j] == s[j + 1]
  }

  /** `r` has elements of `s` in the same order, at the given places of `s`. */
  ghost predicate AtPlaces<T(!new)>(s: seq<T>, r: seq<T>, places: seq<nat>) {
    && |places| == |r|
    && (forall k | 0 <= k < |r| :: places[k] < |s| && r[k] == s[places[k]])
    && forall k, l | 0 <= k < l < |r| :: places[k] < places[l]
  }

  /** What is kept of a list. */
  ghost function Filter<T(!new)>(s: seq<T>, keep: T -> bool): seq<T> {
    if s == [] then []
    else
      var rest := Filter(s[..|s| - 1], keep);
      if keep(s[|s| - 1]) then rest + [s[|s| - 1]] else rest
  }

  lemma PlacesNext<T(!new)>(s: seq<T>, r: seq<T>, places: seq<nat>, x: T)
    requires AtPlaces(s, r, places)
    ensures AtPlaces(s + [x], r, places) && AtPlaces(s + [x], r + [x], places + [|s|])
  {
  }

  /** A filter keeps the order. */
  lemma {:induction false} FilterOrder<T(!new)>(s: seq<T>, keep: T -> bool) returns (places: seq<nat>)
    ensures AtPlaces(s, Filter(s, keep), places)
  {
    places := [];
    if s != [] {
      var n := |s| - 1;
      places := FilterOrder(s[..n], keep);
      PlacesNext(s[..n], Filter(s[..n], keep), places, s[n]);
      assert s == s[..n] + [s[n]];
      if keep(s[n]) {
        places := places + [n];
      }
    }
  }

  /** A filter leaves all copies of what is kept, and nothing else. */
  lemma {:induction false} FilterCount<T(!new)>(s: seq<T>, keep: T -> bool, x: T)
    ensures multiset(Filter(s, keep))[x] == if keep(x) then multiset(s)[x] else 0
  {
    if s != [] {
      var n := |s| - 1;
      FilterCount(s[..n], keep, x);
      assert s == s[..n] + [s[n]];
    }
  }

  lemma RemoveAtIs<T(!new)>(s: seq<T>, i: nat)
    requires i < |s|
    ensures RemovedAt(s, RemoveAt(s, i), i)
  {
  }

  // Flags and masks

  /** The bit of a number at a place. */
  function Bit(x: nat, k: nat): nat
    decreases k
  {
    if k == 0 then x % 2 else Bit(x / 2, k - 1)
  }

  lemma Halves(p: nat, q: nat)
    requires p <= 1
    ensures (p + 2 * q) % 2 == p && (p + 2 * q) / 2 == q
  {
  }

  lemma BitProduct(p: nat, q: nat)
    requires p <= 1 && q <= 1
    ensures p * q == if q == 1 then p else 0
  {
  }

  lemma HalfOfAnd(a: nat, b: nat)
    ensures BitAnd(a, b) % 2 == (if b % 2 == 1 then a % 2 else 0) && BitAnd(a, b) / 2 == BitAnd(a / 2, b / 2)
  {
    if a == 0 || b == 0 {
      assert BitAnd(a, b) == 0 && BitAnd(a / 2, b / 2) == 0;
    } else {
      BitProduct(a % 2, b % 2);
      Halves(a % 2 * (b % 2), BitAnd(a / 2, b / 2));
    }
  }

  /** A bit of the masked number is the bit of both. */
  lemma {:induction false} BitOfAnd(a: nat, b: nat, k: nat)
    ensures Bit(BitAnd(a, b), k) == if Bit(b, k) == 1 then Bit(a, k) else 0
    decreases k
  {
    HalfOfAnd(a, b);
    if k > 0 {
      BitOfAnd(a / 2, b / 2, k - 1);
    }
  }

  /** Numbers with the same bits are the same. */
  lemma {:induction false} SameBits(x: nat, y: nat)
    requires forall k: nat :: Bit(x, k) == Bit(y, k)
    ensures x == y
    decreases x + y
  {
    assert Bit(x, 0) == Bit(y, 0);
    if x > 0 || y > 0 {
      forall k: nat ensures Bit(x / 2, k) == Bit(y / 2, k) {
        assert Bit(x, k + 1) == Bit(y, k + 1);
      }
      SameBits(x / 2, y / 2);
    }
  }

  /** The numbers have the same bits where the mask has one. */
  ghost predicate SameUnder(a: nat, b: nat, mask: nat) {
    forall k: nat | Bit(mask, k) == 1 :: Bit(a, k) == Bit(b, k)
  }

  /** Two numbers agree under a mask if and only if they have the same bits where the mask has one. */
  lemma MaskedIff(a: nat, b: nat, mask: nat)
    ensures BitAnd(a, mask) == BitAnd(b, mask) <==> SameUnder(a, b, mask)
  {
    if BitAnd(a, mask) == BitAnd(b, mask) {
      forall k: nat | Bit(mask, k) == 1 ensures Bit(a, k) == Bit(b, k) {
        BitOfAnd(a, mask, k);
        BitOfAnd(b, mask, k);
      }
    }
    if SameUnder(a, b, mask) {
      forall k: nat ensures Bit(BitAnd(a, mask), k) == Bit(BitAnd(b, mask), k) {
        BitOfAnd(a, mask, k);
        BitOfAnd(b, mask, k);
      }
      SameBits(BitAnd(a, mask), BitAnd(b, mask));
    }
  }

  /** The two flags that matter are bits 1 and 2. */
  lemma FlagsAreBits(flags: uint32)
    ensures HasFlag(flags, CHECK_OVERLAP) <==> Bit(flags, 1) == 1
    ensures HasFlag(flags, RESET_COUNTS) <==> Bit(flags, 2) == 1
  {
    assert Bit(flags, 1) == Bit(flags / 2, 0);
    assert Bit(flags, 2) == Bit(flags / 2, 1) && Bit(flags / 2, 1) == Bit(flags / 2 / 2, 0);
    assert flags / 2 / 2 == flags / 4;
  }

  // Which entries a mod is about

  predicate IsFirstAlike(flows: seq<Entry>, flow: Flow, i: int) {
    0 <= i < |flows| && Alike(flows[i].flow, flow) && forall j | 0 <= j < i :: !Alike(flows[j].flow, flow)
  }

  predicate NoneIsAlike(flows: seq<Entry>, flow: Flow) {
    forall j | 0 <= j < |flows| :: !Alike(flows[j].flow, flow)
  }

  lemma FindAlike(flows: seq<Entry>, flow: Flow)
    ensures var i := Find(KeyOfEntry, flows, KeyOfFlow(flow));
            if i == -1 then NoneIsAlike(flows, flow) else IsFirstAlike(flows, flow, i)
  {
    forall e: Entry ensures KeyOfEntry(e) == KeyOfFlow(flow) <==> Alike(e.flow, flow) {
      KeyIsAlike(e.flow, flow);
    }
  }

  predicate IsFirstMeter(meters: seq<MeterEntry>, id: uint32, i: int) {
    0 <= i < |meters| && meters[i].meterId == id && forall j | 0 <= j < i :: meters[j].meterId != id
  }

  predicate IsFirstGroup(groups: seq<GroupEntry>, id: uint32, i: int) {
    0 <= i < |groups| && groups[i].groupId == id && forall j | 0 <= j < i :: groups[j].groupId != id
  }

  lemma OneFirstMeter(meters: seq<MeterEntry>, id: uint32, i: int)
    requires IsFirstMeter(meters, id, i)
    ensures forall j :: IsFirstMeter(meters, id, j) <==> j == i
  {
  }

  lemma OneFirstGroup(groups: seq<GroupEntry>, id: uint32, i: int)
    requires IsFirstGroup(groups, id, i)
    ensures forall j :: IsFirstGroup(groups, id, j) <==> j == i
  {
  }

  lemma FindFirstMeter(meters: seq<MeterEntry>, id: uint32)
    ensures var i := FindMeter(meters, id);
            if i == -1 then !HasMeter(meters, id) else IsFirstMeter(meters, id, i) && HasMeter(meters, id)
  {
    FindMeterIff(meters, id);
  }

  lemma FindFirstGroup(groups: seq<GroupEntry>, id: uint32)
    ensures var i := Find(KeyOfGroup, groups, id);
            if i == -1 then !HasId(groups, id) else IsFirstGroup(groups, id, i) && HasId(groups, id)
  {
    var i := Find(KeyOfGroup, groups, id);
    assert i != -1 ==> groups[i] in groups;
  }

  /** One flow more, or less, is counted on the first meter with the id, with 32 bits. */
  ghost predicate CountedOn(meters: seq<MeterEntry>, meters': seq<MeterEntry>, id: uint32, more: int) {
    forall i | IsFirstMeter(meters, id, i) ::
      ReplacedAt(meters, meters', i, meters[i].(flowCount := (meters[i].flowCount + more) % 0x1_0000_0000))
  }

  /** Some apply-actions instruction has the action. */
  predicate Does(flow: Flow, action: Action) {
    exists i, a | i in flow.instructions && i.ApplyActions? && a in i.actions :: a == action
  }

  lemma DoesIs(flow: Flow, no: uint32)
    ensures HasOutPort(flow, no) <==> Does(flow, Output(no))
    ensures HasOutGroup(flow, no) <==> Does(flow, Group(no))
  {
  }

  // Adding flows

  /** The entry that a mod puts in the place of another one. */
  function Successor(mod: FlowMod, old_: Entry): Entry {
    if Bit(mod.flow.flags, 2) == 1 then Entry(mod.flow, old_.packets, old_.bytes) else Entry(mod.flow, 0, 0)
  }

  /** The mod leaves the table as it is. */
  ghost predicate AddsNothing(flows: seq<Entry>, mod: FlowMod) {
    Bit(mod.flow.flags, 1) == 0 && exists i | IsFirstAlike(flows, mod.flow, i) :: flows[i] == Successor(mod, flows[i])
  }

  /** The mod adds an entry; otherwise it replaces the first one that is alike. */
  predicate Appends(flows: seq<Entry>, mod: FlowMod) {
    Bit(mod.flow.flags, 1) == 1 || NoneIsAlike(flows, mod.flow)
  }

  ghost predicate FlowsWith(flows: seq<Entry>, flows': seq<Entry>, mod: FlowMod) {
    if Appends(flows, mod) then flows' == flows + [Entry(mod.flow, 0, 0)]
    else forall i | IsFirstAlike(flows, mod.flow, i) :: ReplacedAt(flows, flows', i, Successor(mod, flows[i]))
  }

  ghost predicate FlowAdded(t: Tables, mod: FlowMod, env: Env, t': Tables, r: Outcome) {
    var id := GetMeterId(mod.flow);
    && t'.groups == t.groups
    && (r == MeterMissing <==> !AddsNothing(t.flows, mod) && id != 0 && !HasMeter(t.meters, id))
    && (r == NotDecomposed <==> !AddsNothing(t.flows, mod) && r != MeterMissing && !env.rules)
    && (r == StoreFailed <==> !AddsNothing(t.flows, mod) && r != MeterMissing && env.rules
                              && (!env.first || (Appends(t.flows, mod) && id != 0 && !env.second)))
    && (r == Success || r == MeterMissing || r == NotDecomposed || r == StoreFailed)
    && (if r == Success || (r == StoreFailed && env.first) then FlowsWith(t.flows, t'.flows, mod) else t'.flows == t.flows)
    && (if r == Success && Appends(t.flows, mod) && id != 0 then CountedOn(t.meters, t'.meters, id, 1) else t'.meters == t.meters)
  }

  lemma CountedIs(meters: seq<MeterEntry>, i: nat, up: bool)
    requires i < |meters| && IsFirstMeter(meters, meters[i].meterId, i)
    ensures CountedOn(meters, Counted(meters, i, up), meters[i].meterId, if up then 1 else -1)
  {
  }

  lemma InstalledIs(t: Tables, flows: seq<Entry>, e: Entry, isNew: bool, env: Env)
    ensures var (t', r) := Installed(t, flows, e, isNew, env);
            var id := GetMeterId(e.flow);
            && t'.groups == t.groups
            && (r == MeterMissing <==> id != 0 && !HasMeter(t.meters, id))
            && (r == NotDecomposed <==> r != MeterMissing && !env.rules)
            && (r == StoreFailed <==> r != MeterMissing && env.rules && (!env.first || (isNew && id != 0 && !env.second)))
            && (r == Success || r == MeterMissing || r == NotDecomposed || r == StoreFailed)
            && (t'.flows == if r == Success || (r == StoreFailed && env.first) then flows else t.flows)
            && (if r == Success && isNew && id != 0 then CountedOn(t.meters, t'.meters, id, 1) else t'.meters == t.meters)
  {
    var i := FindMeter(t.meters, GetMeterId(e.flow));
    FindFirstMeter(t.meters, GetMeterId(e.flow));
    if i != -1 {
      CountedIs(t.meters, i, true);
    }
  }

  lemma FlowAddIs(t: Tables, mod: FlowMod, env: Env)
    ensures FlowAdded(t, mod, env, FlowAdd(t, mod, env).0, FlowAdd(t, mod, env).1)
  {
    FlagsAreBits(mod.flow.flags);
    FindAlike(t.flows, mod.flow);
    var e := EntryOf(mod);
    var i := Find(KeyOfEntry, t.flows, KeyOfEntry(e));
    if HasFlag(mod.flow.flags, CHECK_OVERLAP) || i == -1 {
      InstalledIs(t, t.flows + [e], e, true, env);
    } else {
      var next := Successor(mod, t.flows[i]);
      OneFirst(t.flows, mod.flow, i);
      InstalledIs(t, t.flows[i := next], next, false, env);
    }
  }

  lemma OneFirst(flows: seq<Entry>, flow: Flow, i: int)
    requires IsFirstAlike(flows, flow, i)
    ensures forall j :: IsFirstAlike(flows, flow, j) <==> j == i
  {
  }

  // Deleting flows

  /** The entry goes, and no other; its meter counts one less even if a later write fails. */
  ghost predicate DeletedAt(t: Tables, env: Env, t': Tables, r: Outcome, i: nat)
    requires i < |t.flows|
  {
    var id := GetMeterId(t.flows[i].flow);
    && (r == Success ==> RemovedAt(t.flows, t'.flows, i))
    && (r == MeterMissing <==> id != 0 && !HasMeter(t.meters, id))
    && (r == NotDecomposed <==> r != MeterMissing && (id == 0 || env.first) && !env.rules)
    && (r == Success <==> r != MeterMissing && (id == 0 || env.first) && env.rules && env.second)
    && (if id != 0 && HasMeter(t.meters, id) && env.first then CountedOn(t.meters, t'.meters, id, -1) else t'.meters == t.meters)
  }

  /** A strict delete is about the first flow that is alike. */
  ghost predicate FlowDeletedStrict(t: Tables, mod: FlowMod, env: Env, t': Tables, r: Outcome) {
    && t'.groups == t.groups
    && (r == FlowAbsent <==> NoneIsAlike(t.flows, mod.flow))
    && (r == FlowAbsent ==> t' == t)
    && (r == Success || r == FlowAbsent || r == MeterMissing || r == NotDecomposed || r == StoreFailed)
    && (r != Success ==> t'.flows == t.flows)
    && forall i | IsFirstAlike(t.flows, mod.flow, i) :: DeletedAt(t, env, t', r, i)
  }

  lemma DeletedAtIs(t: Tables, mod: FlowMod, env: Env, i: nat)
    requires i == Find(KeyOfEntry, t.flows, KeyOfFlow(mod.flow))
    ensures DeletedAt(t, env, FlowDeleteStrict(t, mod, env).0, FlowDeleteStrict(t, mod, env).1, i)
  {
    var m := FindMeter(t.meters, GetMeterId(t.flows[i].flow));
    FindFirstMeter(t.meters, GetMeterId(t.flows[i].flow));
    RemoveAtIs(t.flows, i);
    if m != -1 {
      CountedIs(t.meters, m, false);
    }
  }

  lemma FlowDeleteStrictIs(t: Tables, mod: FlowMod, env: Env)
    ensures FlowDeletedStrict(t, mod, env, FlowDeleteStrict(t, mod, env).0, FlowDeleteStrict(t, mod, env).1)
  {
    FindAlike(t.flows, mod.flow);
    var i := Find(KeyOfEntry, t.flows, KeyOfFlow(mod.flow));
    if i != -1 {
      OneFirst(t.flows, mod.flow, i);
      DeletedAtIs(t, mod, env, i);
    }
  }

  /**
   A wildcard delete covers the flows whose cookie agrees where the mask has a bit, that are in the table and send to the port
   and to the group, if these are given; a match covers nothing.
   */
  ghost predicate Covered(mod: FlowMod, flow: Flow) {
    && SameUnder(flow.cookie, mod.flow.cookie, mod.cookieMask)
    && (mod.flow.tableId == 255 || flow.tableId == mod.flow.tableId)
    && (mod.outPort == 0x7fff_ffff || mod.outPort == 0xffff_ffff || Does(flow, Output(mod.outPort)))
    && (mod.outGroup == 0x7fff_ffff || mod.outGroup == 0xffff_ffff || Does(flow, Group(mod.outGroup)))
    && mod.flow.fields == []
  }

  lemma CoversIff(mod: FlowMod, flow: Flow)
    ensures Covers(mod, flow) <==> Covered(mod, flow)
  {
    MaskedIff(flow.cookie, mod.flow.cookie, mod.cookieMask);
    DoesIs(flow, mod.outPort);
    DoesIs(flow, mod.outGroup);
  }

  ghost predicate Goes(mod: FlowMod, e: Entry) {
    Alike(e.flow, mod.flow) || Covered(mod, e.flow)
  }

  ghost function NotGoing(mod: FlowMod): Entry -> bool {
    (e: Entry) => !Goes(mod, e)
  }

  ghost predicate FlowDeleted(t: Tables, mod: FlowMod, env: Env, t': Tables, r: Outcome) {
    && t'.groups == t.groups && t'.meters == t.meters
    && (r == Success || r == MeterMissing || r == NotDecomposed || r == StoreFailed)
    && (r != Success ==> t' == t)
    && (r == Success ==> t'.flows == Filter(t.flows, NotGoing(mod)))
    && (r == MeterMissing <==>
          exists e | e in t.flows :: Goes(mod, e) && GetMeterId(e.flow) != 0 && !HasMeter(t.meters, GetMeterId(e.flow)))
    && (r == NotDecomposed <==> r != MeterMissing && !env.rules && exists e | e in t.flows :: Goes(mod, e))
    && (r == StoreFailed <==> r != MeterMissing && env.rules && !env.first && exists e | e in t.flows :: Goes(mod, e))
  }

  lemma DeletesIff(mod: FlowMod, e: Entry)
    ensures Deletes(mod, e) <==> Goes(mod, e)
  {
    KeyIsAlike(e.flow, mod.flow);
    CoversIff(mod, e.flow);
  }

  lemma {:induction false} SelectedLeft(flows: seq<Entry>, mod: FlowMod)
    ensures Selected(flows, mod, false) == Filter(flows, NotGoing(mod))
    ensures Selected(flows, mod, true) == [] ==> Filter(flows, NotGoing(mod)) == flows
  {
    if flows != [] {
      var n := |flows| - 1;
      SelectedLeft(flows[..n], mod);
      DeletesIff(mod, flows[n]);
    }
  }

  lemma SomeGoes(flows: seq<Entry>, mod: FlowMod)
    ensures Selected(flows, mod, true) == [] <==> forall e | e in flows :: !Goes(mod, e)
  {
    var toDelete := Selected(flows, mod, true);
    SelectedIs(flows, mod, true);
    forall e | e in flows ensures Deletes(mod, e) <==> Goes(mod, e) {
      DeletesIff(mod, e);
    }
    assert toDelete != [] ==> toDelete[0] in toDelete;
  }

  lemma FlowDeleteIs(t: Tables, mod: FlowMod, env: Env)
    ensures FlowDeleted(t, mod, env, FlowDelete(t, mod, env).0, FlowDelete(t, mod, env).1)
  {
    SelectedLeft(t.flows, mod);
    LostMeterBlocksDelete(t, mod, env);
    forall e | e in t.flows ensures Deletes(mod, e) <==> Goes(mod, e) {
      DeletesIff(mod, e);
    }
    SomeGoes(t.flows, mod);
  }

  // Meters

  ghost predicate MeterAdded(t: Tables, id: uint32, config: seq<nat>, env: Env, t': Tables, r: Outcome) {
    && t'.flows == t.flows && t'.groups == t.groups
    && (r == if HasMeter(t.meters, id) || env.first then Success else StoreFailed) && (r != Success ==> t' == t)
    && (r == Success ==> t'.meters == if HasMeter(t.meters, id) then t.meters else t.meters + [MeterEntry(id, config, 0)])
  }

  lemma MeterAddIs(t: Tables, id: uint32, config: seq<nat>, env: Env)
    ensures MeterAdded(t, id, config, env, MeterAdd(t, id, config, env).0, MeterAdd(t, id, config, env).1)
  {
    FindFirstMeter(t.meters, id);
  }

  ghost predicate MeterModified(t: Tables, id: uint32, config: seq<nat>, env: Env, t': Tables, r: Outcome) {
    && t'.flows == t.flows && t'.groups == t.groups
    && (r == if !HasMeter(t.meters, id) then MeterAbsent else if env.first then Success else StoreFailed)
    && (r != Success ==> t' == t)
    && (r == Success ==> forall i | IsFirstMeter(t.meters, id, i) ::
          ReplacedAt(t.meters, t'.meters, i, MeterEntry(id, config, t.meters[i].flowCount)))
  }

  lemma MeterModifyIs(t: Tables, id: uint32, config: seq<nat>, env: Env)
    ensures MeterModified(t, id, config, env, MeterModify(t, id, config, env).0, MeterModify(t, id, config, env).1)
  {
    FindFirstMeter(t.meters, id);
  }

  ghost function NotMetered(id: uint32): Entry -> bool {
    (e: Entry) => id == 0 || GetMeterId(e.flow) != id
  }

  /** The meter goes first, and then the flows that name it; the second write may fail alone. */
  ghost predicate MeterDeleted(t: Tables, id: uint32, env: Env, t': Tables, r: Outcome) {
    && t'.groups == t.groups
    && (r == Success || r == StoreFailed)
    && (r == StoreFailed <==> HasMeter(t.meters, id)
                              && (!env.first || (!env.second && Filter(t.flows, NotMetered(id)) != t.flows)))
    && (!HasMeter(t.meters, id) || !env.first ==> t' == t)
    && (HasMeter(t.meters, id) && env.first ==> forall i | IsFirstMeter(t.meters, id, i) :: RemovedAt(t.meters, t'.meters, i))
    && (HasMeter(t.meters, id) && r == Success ==> t'.flows == Filter(t.flows, NotMetered(id)))
    && (r == StoreFailed ==> t'.flows == t.flows)
  }

  lemma {:induction false} WithoutMeterLeft(flows: seq<Entry>, id: uint32)
    ensures WithoutMeter(flows, id) == Filter(flows, NotMetered(id))
    ensures |WithoutMeter(flows, id)| <= |flows| && (|WithoutMeter(flows, id)| == |flows| ==> WithoutMeter(flows, id) == flows)
  {
    if flows != [] {
      WithoutMeterLeft(flows[..|flows| - 1], id);
    }
  }

  lemma MeterDeleteIs(t: Tables, id: uint32, env: Env)
    ensures MeterDeleted(t, id, env, MeterDelete(t, id, env).0, MeterDelete(t, id, env).1)
  {
    FindFirstMeter(t.meters, id);
    WithoutMeterLeft(t.flows, id);
    var i := FindMeter(t.meters, id);
    assert |WithoutMeter(t.flows, id)| == |t.flows| <==> Filter(t.flows, NotMetered(id)) == t.flows;
    if i != -1 {
      RemoveAtIs(t.meters, i);
      OneFirstMeter(t.meters, id, i);
    }
  }

  // Groups

  ghost predicate GroupAdded(t: Tables, g: GroupEntry, env: Env, t': Tables, r: Outcome) {
    && t'.flows == t.flows && t'.meters == t.meters
    && (r == if HasId(t.groups, g.groupId) then GroupPresent else if env.first then Success else StoreFailed)
    && t'.groups == if r == Success then t.groups + [g] else t.groups
  }

  lemma GroupAddIs(t: Tables, g: GroupEntry, env: Env)
    ensures GroupAdded(t, g, env, GroupAdd(t, g, env).0, GroupAdd(t, g, env).1)
  {
    FindFirstGroup(t.groups, g.groupId);
  }

  ghost predicate GroupModified(t: Tables, g: GroupEntry, env: Env, t': Tables, r: Outcome) {
    && t'.flows == t.flows && t'.meters == t.meters
    && (r == if !HasId(t.groups, g.groupId) then GroupAbsent else if env.first then Success else StoreFailed)
    && (r != Success ==> t' == t)
    && (r == Success ==> forall i | IsFirstGroup(t.groups, g.groupId, i) :: ReplacedAt(t.groups, t'.groups, i, g))
  }

  lemma GroupModifyIs(t: Tables, g: GroupEntry, env: Env)
    ensures GroupModified(t, g, env, GroupModify(t, g, env).0, GroupModify(t, g, env).1)
  {
    FindFirstGroup(t.groups, g.groupId);
  }

  ghost function NotSending(id: uint32): Entry -> bool {
    (e: Entry) => !Does(e.flow, Group(id))
  }

  /** One group goes with the flows that send to it; all groups go without any flow. */
  ghost predicate GroupDeleted(t: Tables, id: uint32, env: Env, t': Tables, r: Outcome) {
    var all := id == 0x7fff_fffc;
    var there := all || HasId(t.groups, id);
    && t'.meters == t.meters
    && (r == Success || r == StoreFailed || r == NotDecomposed)
    && (r == NotDecomposed <==> there && !env.rules)
    && (r == StoreFailed <==> there && env.rules
                              && (!env.first || (!env.second && !all && Filter(t.flows, NotSending(id)) != t.flows)))
    && (!there || !env.rules || !env.first ==> t' == t)
    && (there && env.rules && env.first ==>
          && (all ==> t'.groups == [])
          && (!all ==> forall i | IsFirstGroup(t.groups, id, i) :: RemovedAt(t.groups, t'.groups, i)))
    && (there && r == Success ==> if all then t'.flows == t.flows else t'.flows == Filter(t.flows, NotSending(id)))
    && (r != Success ==> t'.flows == t.flows)
  }

  lemma {:induction false} WithoutGroupLeft(flows: seq<Entry>, id: uint32)
    ensures WithoutGroup(flows, id) == Filter(flows, NotSending(id))
    ensures |WithoutGroup(flows, id)| <= |flows| && (|WithoutGroup(flows, id)| == |flows| ==> WithoutGroup(flows, id) == flows)
  {
    if flows != [] {
      var n := |flows| - 1;
      WithoutGroupLeft(flows[..n], id);
      DoesIs(flows[n].flow, id);
    }
  }

  lemma GroupDeleteIs(t: Tables, id: uint32, env: Env)
    ensures GroupDeleted(t, id, env, GroupDelete(t, id, env).0, GroupDelete(t, id, env).1)
  {
    FindFirstGroup(t.groups, id);
    WithoutGroupLeft(t.flows, id);
    var i := Find(KeyOfGroup, t.groups, id);
    assert |WithoutGroup(t.flows, id)| == |t.flows| <==> Filter(t.flows, NotSending(id)) == t.flows;
    if i != -1 {
      RemoveAtIs(t.groups, i);
      OneFirstGroup(t.groups, id, i);
    }
  }

  // Every mod

  ghost predicate Effect(t: Tables, mod: Mod, env: Env, t': Tables, r: Outcome) {
    match mod
    case AddFlow(m) => FlowAdded(t, m, env, t', r)
    case DeleteFlow(m) => FlowDeleted(t, m, env, t', r)
    case DeleteFlowStrict(m) => FlowDeletedStrict(t, m, env, t', r)
    case AddMeter(id, config) => MeterAdded(t, id, config, env, t', r)
    case DeleteMeter(id) => MeterDeleted(t, id, env, t', r)
    case ModifyMeter(id, config) => MeterModified(t, id, config, env, t', r)
    case AddGroup(g) => GroupAdded(t, g, env, t', r)
    case DeleteGroup(id) => GroupDeleted(t, id, env, t', r)
    case ModifyGroup(g) => GroupModified(t, g, env, t', r)
  }

  /** For every table, mod and outcome of the writes. */
  lemma ApplyEffect(t: Tables, mod: Mod, env: Env)
    ensures Effect(t, mod, env, FlowTables.Apply(t, mod, env).0, FlowTables.Apply(t, mod, env).1)
  {
    match mod
    case AddFlow(m) => FlowAddIs(t, m, env);
    case DeleteFlow(m) => FlowDeleteIs(t, m, env);
    case DeleteFlowStrict(m) => FlowDeleteStrictIs(t, m, env);
    case AddMeter(id, config) => MeterAddIs(t, id, config, env);
    case DeleteMeter(id) => MeterDeleteIs(t, id, env);
    case ModifyMeter(id, config) => MeterModifyIs(t, id, config, env);
    case AddGroup(g) => GroupAddIs(t, g, env);
    case DeleteGroup(id) => GroupDeleteIs(t, id, env);
    case ModifyGroup(g) => GroupModifyIs(t, g, env);
  }
}
