/** How a device agent merges new flows, or groups, into the existing ones. */
module FlowMerge {
  import opened Voltha
  import opened OpenFlow

  /** What identifies a flow; the rest of it may change. */
  datatype FlowKey = FlowKey(tableId: uint32, priority: uint32, flags: uint32, cookie: uint64, fields: seq<Field>)

  function KeyOfFlow(flow: Flow): FlowKey {
    FlowKey(flow.tableId, flow.priority, flow.flags, flow.cookie, flow.fields)
  }

  /** The flows agree on table, priority, flags, cookie and match, whatever they do with a packet. */
  predicate Alike(f: Flow, g: Flow) {
    f.tableId == g.tableId && f.priority == g.priority && f.flags == g.flags && f.cookie == g.cookie && f.fields == g.fields
  }

  lemma KeyIsAlike(f: Flow, g: Flow)
    ensures KeyOfFlow(f) == KeyOfFlow(g) <==> Alike(f, g)
  {
  }

  datatype Bucket = Bucket(weight: nat, actions: seq<Action>)

  datatype GroupEntry = GroupEntry(groupId: uint32, groupType: nat, buckets: seq<Bucket>)

  function KeyOfGroup(group: GroupEntry): uint32 {
    group.groupId
  }

  // The merge, on sequences

  /** The position of the first element with the key, or -1. */
  function Find<T, K(==)>(key: T -> K, s: seq<T>, k: K): (i: int)
    ensures -1 <= i < |s|
    ensures i == -1 ==> forall j | 0 <= j < |s| :: key(s[j]) != k
    ensures i != -1 ==> key(s[i]) == k && forall j | 0 <= j < i :: key(s[j]) != k
  {
    if s == [] then -1
    else if key(s[0]) == k then 0
    else
      var i := Find(key, s[1..], k);
      if i == -1 then -1 else i + 1
  }

  /** The last element takes the place of the deleted one. */
  function SwapDelete<T>(s: seq<T>, i: nat): seq<T>
    requires i < |s|
  {
    s[i := s[|s| - 1]][..|s| - 1]
  }

  /** What is left of the new ones, which existing ones go, and which stay. */
  datatype Merge<T> = Merge(news: seq<T>, deleted: seq<T>, kept: seq<T>)

  function Absorb<T(==), K(==)>(key: T -> K, m: Merge<T>, x: T): Merge<T> {
    var i := Find(key, m.news, key(x));
    if i == -1 then m.(kept := m.kept + [x])
    else if m.news[i] == x then m.(news := SwapDelete(m.news, i), kept := m.kept + [x])
    else m.(deleted := m.deleted + [x])
  }

  function AbsorbAll<T(==), K(==)>(key: T -> K, news: seq<T>, existing: seq<T>): Merge<T> {
    if existing == [] then Merge(news, [], [])
    else Absorb(key, AbsorbAll(key, news, existing[..|existing| - 1]), existing[|existing| - 1])
  }

  function All<T>(m: Merge<T>): seq<T> {
    m.kept + m.news
  }

  // The code

  /** The slots of an array hold pointers, nil is None: the first `m` hold elements, the others up to `n` are nil. */
  predicate Packed<T>(slots: seq<Option<T>>, m: nat, n: nat) {
    m <= n <= |slots| && (forall i | 0 <= i < m :: slots[i].Some?) && forall i | m <= i < n :: slots[i].None?
  }

  function Values<T>(slots: seq<Option<T>>, m: nat): (r: seq<T>)
    requires m <= |slots| && forall i | 0 <= i < m :: slots[i].Some?
    ensures |r| == m && forall i | 0 <= i < m :: r[i] == slots[i].value
  {
    seq(m, i requires 0 <= i < m => slots[i].value)
  }

  /** The last element takes the place of the deleted one, and its own slot becomes nil. */
  function Vacate<T>(slots: seq<Option<T>>, m: nat, i: nat): seq<Option<T>>
    requires i < m <= |slots|
  {
    slots[i := slots[m - 1]][m - 1 := None]
  }

  lemma VacateDeletes<T>(slots: seq<Option<T>>, m: nat, n: nat, i: nat)
    requires Packed(slots, m, n) && i < m
    ensures var slots' := Vacate(slots, m, i);
            Packed(slots', m - 1, n) && Values(slots', m - 1) == SwapDelete(Values(slots, m), i) && slots'[n..] == slots[n..]
  {
  }

  method DeleteWithoutPreservingOrder<T>(a: array<Option<T>>, m: nat, index: nat) returns (m': nat)
    requires index < m <= a.Length
    modifies a
    ensures m' == m - 1 && a[..] == Vacate(old(a[..]), m, index)
  {
    a[index] := a[m - 1];
    a[m - 1] := None;
    m' := m - 1;
  }

  method FindFirst<T, K(==)>(key: T -> K, a: array<Option<T>>, m: nat, k: K) returns (i: int)
    requires m <= a.Length && Packed(a[..], m, m)
    ensures i == Find(key, Values(a[..], m), k)
  {
    i := 0;
    while i < m
      invariant 0 <= i <= m && forall j | 0 <= j < i :: key(Values(a[..], m)[j]) != k
    {
      if key(a[i].value) == k {
        return;
      }
      i := i + 1;
    }
    i := -1;
  }

  /**
   The new ones are in the first `n` slots of `a`; what is left of them ends up in the first `m`, the vacated slots become
   nil, and the slots beyond stay.
   */
  method ToUpdateToDelete<T(==), K(==)>(key: T -> K, a: array<Option<T>>, n: nat, existing: seq<T>)
    returns (m: nat, toDelete: seq<T>, all: seq<T>)
    requires n <= a.Length && Packed(a[..], n, n)
    modifies a
    ensures Packed(a[..], m, n) && a[..][n..] == old(a[..][n..])
    ensures var merge := AbsorbAll(key, old(Values(a[..], n)), existing);
            Values(a[..], m) == merge.news && toDelete == merge.deleted && all == All(merge)
  {
    m, toDelete, all := n, [], [];
    ghost var news := Values(a[..], n);
    for i := 0 to |existing|
      invariant Packed(a[..], m, n) && a[..][n..] == old(a[..][n..])
      invariant AbsorbAll(key, news, existing[..i]) == Merge(Values(a[..], m), toDelete, all)
    {
      var x := existing[i];
      AbsorbNext(key, news, existing, i);
      var idx := FindFirst(key, a, m, key(x));
      if idx == -1 {
        all := all + [x];
      } else if a[idx].value == x {
        VacateDeletes(a[..], m, n, idx);
        m := DeleteWithoutPreservingOrder(a, m, idx);
        all := all + [x];
      } else {
        toDelete := toDelete + [x];
      }
    }
    assert existing[..|existing|] == existing;
    all := all + Values(a[..], m);
  }

  lemma AbsorbNext<T, K>(key: T -> K, news: seq<T>, existing: seq<T>, i: nat)
    requires i < |existing|
    ensures AbsorbAll(key, news, existing[..i + 1]) == Absorb(key, AbsorbAll(key, news, existing[..i]), existing[i])
  {
    assert existing[..i + 1][..i] == existing[..i];
  }

  // As multisets

  /** Every existing element stays or goes. */
  lemma {:induction false} KeptOrDeleted<T, K>(key: T -> K, news: seq<T>, existing: seq<T>)
    ensures var m := AbsorbAll(key, news, existing);
            multiset(m.kept) + multiset(m.deleted) == multiset(existing)
  {
    if existing != [] {
      var n := |existing| - 1;
      assert existing == existing[..n] + [existing[n]];
      KeptOrDeleted(key, news, existing[..n]);
    }
  }

  /** Removing what is to be deleted and adding what is left of the new ones gives the whole result. */
  lemma MergeLaw<T, K>(key: T -> K, news: seq<T>, existing: seq<T>)
    ensures var m := AbsorbAll(key, news, existing);
            && multiset(m.deleted) <= multiset(existing)
            && multiset(existing) - multiset(m.deleted) + multiset(m.news) == multiset(All(m))
  {
    KeptOrDeleted(key, news, existing);
  }

  // With unique keys

  predicate UniqueKeys<T, K(==)>(key: T -> K, s: seq<T>) {
    forall i, j | 0 <= i < j < |s| :: key(s[i]) != key(s[j])
  }

  predicate HasKey<T(==), K(==)>(key: T -> K, s: seq<T>, k: K) {
    exists x | x in s :: key(x) == k
  }

  lemma SwapDeleteIs<T, K>(key: T -> K, s: seq<T>, i: nat)
    requires i < |s| && UniqueKeys(key, s)
    ensures UniqueKeys(key, SwapDelete(s, i))
    ensures forall x :: x in SwapDelete(s, i) <==> x in s && x != s[i]
  {
    var r := SwapDelete(s, i);
    forall x ensures x in r <==> x in s && x != s[i] {
      if x in s && x != s[i] {
        var j :| 0 <= j < |s| && s[j] == x;
        assert r[if j == |s| - 1 then i else j] == x;
      }
    }
  }

  /** How the parts of a merge relate to the existing elements that were absorbed. */
  ghost predicate Accounted<T(!new), K(!new)>(key: T -> K, news: seq<T>, existing: seq<T>, m: Merge<T>) {
    && UniqueKeys(key, m.news) && UniqueKeys(key, m.kept)
    && (forall x :: x in m.news <==> x in news && x !in existing)
    && (forall x :: x in m.kept <==> x in existing && (x in news || !HasKey(key, news, key(x))))
    && (forall x :: x in m.deleted <==> x in existing && x !in news && HasKey(key, news, key(x)))
  }

  /** Whether a new element has the key of one more existing element, and is it. */
  lemma FindAccounted<T(!new), K(!new)>(key: T -> K, news: seq<T>, existing: seq<T>, m: Merge<T>, x: T)
    requires UniqueKeys(key, news) && Accounted(key, news, existing, m) && !HasKey(key, existing, key(x))
    ensures var i := Find(key, m.news, key(x));
            && (i == -1 ==> !HasKey(key, news, key(x)) && x !in news)
            && (i != -1 ==> HasKey(key, news, key(x)) && (x in news <==> m.news[i] == x))
  {
  }

  lemma AbsorbAccounted<T(!new), K(!new)>(key: T -> K, news: seq<T>, existing: seq<T>, m: Merge<T>, x: T)
    requires UniqueKeys(key, news) && Accounted(key, news, existing, m) && !HasKey(key, existing, key(x))
    ensures Accounted(key, news, existing + [x], Absorb(key, m, x))
  {
    FindAccounted(key, news, existing, m, x);
    var i := Find(key, m.news, key(x));
    var m' := Absorb(key, m, x);
    assert forall y :: y in existing + [x] <==> y in existing || y == x;
    assert forall y | y in m.kept :: key(y) != key(x);
    if i != -1 && m.news[i] == x {
      SwapDeleteIs(key, m.news, i);
    }
  }

  lemma {:induction false} AllAccounted<T(!new), K(!new)>(key: T -> K, news: seq<T>, existing: seq<T>)
    requires UniqueKeys(key, news) && UniqueKeys(key, existing)
    ensures Accounted(key, news, existing, AbsorbAll(key, news, existing))
  {
    if existing != [] {
      var n := |existing| - 1;
      assert existing == existing[..n] + [existing[n]];
      AllAccounted(key, news, existing[..n]);
      AbsorbAccounted(key, news, existing[..n], AbsorbAll(key, news, existing[..n]), existing[n]);
    }
  }

  /** With unique keys, the result is the override of the existing elements by the new ones. */
  lemma MergeIsOverride<T(!new), K(!new)>(key: T -> K, news: seq<T>, existing: seq<T>)
    requires UniqueKeys(key, news) && UniqueKeys(key, existing)
    ensures var all := All(AbsorbAll(key, news, existing));
            && UniqueKeys(key, all)
            && forall x :: x in all <==> x in news || (x in existing && !HasKey(key, news, key(x)))
  {
    AllAccounted(key, news, existing);
    var m := AbsorbAll(key, news, existing);
    forall x, y | x in m.kept && y in m.news ensures key(x) != key(y) {
      assert y in news && y !in existing;
      assert x in news ==> x != y;
      assert HasKey(key, news, key(y));
      if key(x) == key(y) { SameKey(key, news, x, y); }
    }
    forall x ensures x in All(m) <==> x in news || (x in existing && !HasKey(key, news, key(x))) {
      assert x in All(m) <==> x in m.kept || x in m.news;
    }
  }

  lemma SameKey<T, K>(key: T -> K, s: seq<T>, x: T, y: T)
    requires UniqueKeys(key, s) && x in s && y in s && key(x) == key(y)
    ensures x == y
  {
  }

  lemma FirstIsMember<T>(s: seq<T>)
    ensures s == [] || s[0] in s
  {
  }

  /** Merging the same new elements again leaves nothing to add and nothing to delete. */
  lemma MergeTwice<T(!new), K(!new)>(key: T -> K, news: seq<T>, existing: seq<T>)
    requires UniqueKeys(key, news) && UniqueKeys(key, existing)
    ensures var again := AbsorbAll(key, news, All(AbsorbAll(key, news, existing)));
            again.news == [] && again.deleted == []
  {
    var all := All(AbsorbAll(key, news, existing));
    MergeIsOverride(key, news, existing);
    AllAccounted(key, news, all);
    var again := AbsorbAll(key, news, all);
    FirstIsMember(again.news);
    FirstIsMember(again.deleted);
  }

  // The merge of flows and of groups, on their own components

  predicate NoTwoAlike(flows: seq<Flow>) {
    forall i, j | 0 <= i < j < |flows| :: !Alike(flows[i], flows[j])
  }

  predicate HasAlike(flows: seq<Flow>, f: Flow) {
    exists g | g in flows :: Alike(g, f)
  }

  /** An existing flow goes if a new one is alike and it is not itself among the new ones; what is not there yet is left to add. */
  ghost predicate FlowsMerged(news: seq<Flow>, existing: seq<Flow>, left: seq<Flow>, toDelete: seq<Flow>, all: seq<Flow>) {
    && multiset(existing) - multiset(toDelete) + multiset(left) == multiset(all)
    && (NoTwoAlike(news) && NoTwoAlike(existing) ==>
          && (forall f :: f in toDelete <==> f in existing && f !in news && HasAlike(news, f))
          && (forall f :: f in left <==> f in news && f !in existing)
          && (forall f :: f in all <==> f in news || (f in existing && !HasAlike(news, f)))
          && NoTwoAlike(all))
  }

  lemma AlikeKeys(flows: seq<Flow>)
    ensures NoTwoAlike(flows) <==> UniqueKeys(KeyOfFlow, flows)
    ensures forall f :: HasAlike(flows, f) <==> HasKey(KeyOfFlow, flows, KeyOfFlow(f))
  {
    forall f, g ensures KeyOfFlow(f) == KeyOfFlow(g) <==> Alike(f, g) {
      KeyIsAlike(f, g);
    }
  }

  lemma FlowMergeIs(news: seq<Flow>, existing: seq<Flow>)
    ensures var m := AbsorbAll(KeyOfFlow, news, existing); FlowsMerged(news, existing, m.news, m.deleted, All(m))
  {
    var m := AbsorbAll(KeyOfFlow, news, existing);
    MergeLaw(KeyOfFlow, news, existing);
    AlikeKeys(news);
    AlikeKeys(existing);
    AlikeKeys(All(m));
    if NoTwoAlike(news) && NoTwoAlike(existing) {
      AllAccounted(KeyOfFlow, news, existing);
      MergeIsOverride(KeyOfFlow, news, existing);
    }
  }

  predicate DifferentIds(groups: seq<GroupEntry>) {
    forall i, j | 0 <= i < j < |groups| :: groups[i].groupId != groups[j].groupId
  }

  predicate HasId(groups: seq<GroupEntry>, id: uint32) {
    exists g | g in groups :: g.groupId == id
  }

  ghost predicate GroupsMerged(news: seq<GroupEntry>, existing: seq<GroupEntry>, left: seq<GroupEntry>, toDelete: seq<GroupEntry>,
                               all: seq<GroupEntry>)
  {
    && multiset(existing) - multiset(toDelete) + multiset(left) == multiset(all)
    && (DifferentIds(news) && DifferentIds(existing) ==>
          && (forall g :: g in toDelete <==> g in existing && g !in news && HasId(news, g.groupId))
          && (forall g :: g in left <==> g in news && g !in existing)
          && (forall g :: g in all <==> g in news || (g in existing && !HasId(news, g.groupId)))
          && DifferentIds(all))
  }

  lemma GroupMergeIs(news: seq<GroupEntry>, existing: seq<GroupEntry>)
    ensures var m := AbsorbAll(KeyOfGroup, news, existing); GroupsMerged(news, existing, m.news, m.deleted, All(m))
  {
    var m := AbsorbAll(KeyOfGroup, news, existing);
    MergeLaw(KeyOfGroup, news, existing);
    assert forall s: seq<GroupEntry> :: DifferentIds(s) <==> UniqueKeys(KeyOfGroup, s);
    if DifferentIds(news) && DifferentIds(existing) {
      AllAccounted(KeyOfGroup, news, existing);
      MergeIsOverride(KeyOfGroup, news, existing);
      forall g: GroupEntry ensures HasId(news, g.groupId) <==> HasKey(KeyOfGroup, news, KeyOfGroup(g)) {
      }
    }
  }

  method FlowsToUpdateToDelete(newFlows: array<Option<Flow>>, n: nat, existing: seq<Flow>)
    returns (m: nat, toDelete: seq<Flow>, all: seq<Flow>)
    requires n <= newFlows.Length && Packed(newFlows[..], n, n)
    modifies newFlows
    ensures Packed(newFlows[..], m, n) && newFlows[..][n..] == old(newFlows[..][n..])
    ensures var merge := AbsorbAll(KeyOfFlow, old(Values(newFlows[..], n)), existing);
            Values(newFlows[..], m) == merge.news && toDelete == merge.deleted && all == All(merge)
    ensures FlowsMerged(old(Values(newFlows[..], n)), existing, Values(newFlows[..], m), toDelete, all)
  {
    FlowMergeIs(Values(newFlows[..], n), existing);
    m, toDelete, all := ToUpdateToDelete(KeyOfFlow, newFlows, n, existing);
  }

  method GroupsToUpdateToDelete(newGroups: array<Option<GroupEntry>>, n: nat, existing: seq<GroupEntry>)
    returns (m: nat, toDelete: seq<GroupEntry>, all: seq<GroupEntry>)
    requires n <= newGroups.Length && Packed(newGroups[..], n, n)
    modifies newGroups
    ensures Packed(newGroups[..], m, n) && newGroups[..][n..] == old(newGroups[..][n..])
    ensures var merge := AbsorbAll(KeyOfGroup, old(Values(newGroups[..], n)), existing);
            Values(newGroups[..], m) == merge.news && toDelete == merge.deleted && all == All(merge)
    ensures GroupsMerged(old(Values(newGroups[..], n)), existing, Values(newGroups[..], m), toDelete, all)
  {
    GroupMergeIs(Values(newGroups[..], n), existing);
    m, toDelete, all := ToUpdateToDelete(KeyOfGroup, newGroups, n, existing);
  }
}
