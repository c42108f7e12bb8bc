/** The table of device state changes and how the handlers of a change are found in it. */
module Transitions {
  import opened Voltha

  datatype DeviceType = Parent | Child | AnyType

  datatype DeviceState = DeviceState(admin: AdminState, connection: ConnectStatus, operational: OperStatus)

  datatype Handler =
    | CreateLogicalDevice | SetupUniLogicalPorts | RunPostDeviceDelete | DisableAllChildDevices | DeleteAllUniLogicalPorts
    | DeleteAllChildDevices | DeleteAllLogicalPorts | DeleteLogicalDevice | DeleteAllDeviceFlows | ChildDeviceLost
    | DeleteLogicalPorts | NotifyInvalidTransition

  /** The handlers may be nil, which is not the same as an empty list. */
  datatype Transition = Transition(deviceType: DeviceType, previousState: DeviceState, currentState: DeviceState,
                                   handlers: Option<seq<Handler>>)

  type Level = x: int | 0 <= x <= 3

  const NO_MATCH: Level := 0
  const CURR_WILDCARD: Level := 1
  const CURR_STATE_ONLY: Level := 2
  const CURR_PREV_STATE: Level := 3

  datatype Match = Match(admin: Level, oper: Level, conn: Level) {
    /** The three levels packed into two bits each. */
    function ToInt(): int {
      16 * admin + 4 * oper + conn
    }

    predicate IsExact() {
      admin == CURR_PREV_STATE && oper == CURR_PREV_STATE && conn == CURR_PREV_STATE
    }

    method IsBetter(other: Match) returns (better: bool)
      ensures better <==> LexGreater(this, other)
    {
      BetterIsLexicographic(this, other);
      better := ToInt() > other.ToInt();
    }
  }

  const EXACT := Match(CURR_PREV_STATE, CURR_PREV_STATE, CURR_PREV_STATE)

  predicate LexGreater(a: Match, b: Match) {
    || a.admin > b.admin
    || (a.admin == b.admin && a.oper > b.oper)
    || (a.admin == b.admin && a.oper == b.oper && a.conn > b.conn)
  }

  /** The packed score orders matches lexicographically. */
  lemma BetterIsLexicographic(a: Match, b: Match)
    ensures a.ToInt() > b.ToInt() <==> LexGreater(a, b)
    ensures a.ToInt() == b.ToInt() <==> a == b
  {
  }

  // What a match should be

  function AdminLevel(prev: AdminState, cur: AdminState, from: AdminState, to: AdminState): Level {
    if cur != to then NO_MATCH
    else if to.AdminUnknown? then if prev == from || from.AdminUnknown? then CURR_WILDCARD else NO_MATCH
    else if prev == from then CURR_PREV_STATE
    else if from.AdminUnknown? then CURR_STATE_ONLY
    else NO_MATCH
  }

  /** An unknown previous state in the table is a wildcard, whatever the device had. */
  function StatusLevel<T(==)>(prev: T, cur: T, from: T, to: T, unknown: T): Level {
    if cur != to then NO_MATCH
    else if from == unknown then CURR_WILDCARD
    else if prev == from then CURR_PREV_STATE
    else CURR_STATE_ONLY
  }

  function MatchOf(prev: DeviceState, cur: DeviceState, tr: Transition): Match {
    if prev == tr.previousState && cur == tr.currentState then EXACT
    else Match(AdminLevel(prev.admin, cur.admin, tr.previousState.admin, tr.currentState.admin),
               StatusLevel(prev.operational, cur.operational, tr.previousState.operational, tr.currentState.operational, OperUnknown),
               StatusLevel(prev.connection, cur.connection, tr.previousState.connection, tr.currentState.connection, ConnectUnknown))
  }

  /** A match is exact only for the very states of the entry. */
  lemma ExactIsEqual(prev: DeviceState, cur: DeviceState, tr: Transition)
    ensures MatchOf(prev, cur, tr).IsExact() <==> prev == tr.previousState && cur == tr.currentState
  {
  }

  predicate IsType(tr: Transition, deviceType: DeviceType) {
    tr.deviceType == deviceType || tr.deviceType == AnyType
  }

  /** The entry is for this type of device, matches the admin state and has handlers. */
  predicate Applies(tr: Transition, deviceType: DeviceType, prev: DeviceState, cur: DeviceState) {
    IsType(tr, deviceType) && tr.handlers.Some? && MatchOf(prev, cur, tr).admin != NO_MATCH
  }

  method GetHandler(prev: DeviceState, cur: DeviceState, tr: Transition) returns (handlers: Option<seq<Handler>>, m: Match)
    ensures handlers == if MatchOf(prev, cur, tr).admin == NO_MATCH then None else tr.handlers
    ensures handlers.Some? ==> m == MatchOf(prev, cur, tr)
  {
    m := Match(NO_MATCH, NO_MATCH, NO_MATCH);
    if prev == tr.previousState && cur == tr.currentState {
      return tr.handlers, EXACT;
    }
    if cur.admin == tr.currentState.admin && !tr.currentState.admin.AdminUnknown? {
      if prev.admin == tr.previousState.admin {
        m := m.(admin := CURR_PREV_STATE);
      } else if tr.previousState.admin.AdminUnknown? {
        m := m.(admin := CURR_STATE_ONLY);
      }
    } else if cur.admin == tr.currentState.admin && tr.currentState.admin.AdminUnknown? {
      if prev.admin == tr.previousState.admin || tr.previousState.admin.AdminUnknown? {
        m := m.(admin := CURR_WILDCARD);
      }
    }
    if m.admin == NO_MATCH {
      return None, m;
    }
    if cur.operational == tr.currentState.operational && !tr.previousState.operational.OperUnknown? {
      if prev.operational == tr.previousState.operational || tr.previousState.operational.OperUnknown? {
        m := m.(oper := CURR_PREV_STATE);
      } else {
        m := m.(oper := CURR_STATE_ONLY);
      }
    } else if cur.operational == tr.currentState.operational && tr.previousState.operational.OperUnknown? {
      if prev.operational == tr.previousState.operational || tr.previousState.operational.OperUnknown? {
        m := m.(oper := CURR_WILDCARD);
      }
    }
    if cur.connection == tr.currentState.connection && !tr.previousState.connection.ConnectUnknown? {
      if prev.connection == tr.previousState.connection || tr.previousState.connection.ConnectUnknown? {
        m := m.(conn := CURR_PREV_STATE);
      } else {
        m := m.(conn := CURR_STATE_ONLY);
      }
    } else if cur.connection == tr.currentState.connection && tr.previousState.connection.ConnectUnknown? {
      if prev.connection == tr.previousState.connection || tr.previousState.connection.ConnectUnknown? {
        m := m.(conn := CURR_WILDCARD);
      }
    }
    return tr.handlers, m;
  }

  // The selected entry

  /** What the selection sees of an entry: whether it applies, whether it is for the device's own type, and its match. */
  datatype Candidate = Candidate(applies: bool, own: bool, m: Match) {
    predicate IsExact() {
      applies && m.IsExact()
    }

    predicate IsOwnExact() {
      IsExact() && own
    }
  }

  function CandidateOf(tr: Transition, deviceType: DeviceType, prev: DeviceState, cur: DeviceState): Candidate {
    Candidate(Applies(tr, deviceType, prev, cur), tr.deviceType == deviceType, MatchOf(prev, cur, tr))
  }

  function Candidates(table: seq<Transition>, deviceType: DeviceType, prev: DeviceState, cur: DeviceState): (cs: seq<Candidate>)
    ensures |cs| == |table| && forall i | 0 <= i < |cs| :: cs[i] == CandidateOf(table[i], deviceType, prev, cur)
  {
    seq(|table|, i requires 0 <= i < |table| => CandidateOf(table[i], deviceType, prev, cur))
  }

  /**
   The best entry: no applicable entry has a greater match.  Among exact ones the first for the device's own type comes
   before the others, of which the last counts; otherwise the first of the best counts.
   */
  ghost predicate IsBest(cs: seq<Candidate>, k: int) {
    && 0 <= k < |cs| && cs[k].applies
    && (forall j | 0 <= j < |cs| && cs[j].applies :: !LexGreater(cs[j].m, cs[k].m))
    && (forall j | 0 <= j < |cs| && cs[j].IsOwnExact() :: cs[k].IsOwnExact() && k <= j)
    && (cs[k].IsExact() && !cs[k].own ==> forall j | 0 <= j < |cs| && cs[j].IsExact() :: j <= k)
    && (!cs[k].IsExact() ==> forall j | 0 <= j < |cs| && cs[j].applies && cs[j].m == cs[k].m :: k <= j)
  }

  /** There is at most one best entry. */
  lemma BestIsUnique(cs: seq<Candidate>, k: int, k': int)
    requires IsBest(cs, k) && IsBest(cs, k')
    ensures k == k'
  {
  }

  /** The best entry has the lexicographically greatest match, and it is exact if any applicable entry is. */
  lemma BestIsGreatest(table: seq<Transition>, deviceType: DeviceType, prev: DeviceState, cur: DeviceState, k: int, j: int)
    requires IsBestEntry(table, deviceType, prev, cur, k) && 0 <= j < |table| && Applies(table[j], deviceType, prev, cur)
    ensures !LexGreater(MatchOf(prev, cur, table[j]), MatchOf(prev, cur, table[k]))
    ensures MatchOf(prev, cur, table[j]).IsExact() ==> MatchOf(prev, cur, table[k]).IsExact()
    ensures MatchOf(prev, cur, table[j]).IsExact() && table[j].deviceType == deviceType ==> table[k].deviceType == deviceType
  {
    var cs := Candidates(table, deviceType, prev, cur);
    assert cs[j] == CandidateOf(table[j], deviceType, prev, cur) && cs[k] == CandidateOf(table[k], deviceType, prev, cur);
    assert cs[j].IsOwnExact() ==> cs[k].IsOwnExact();
  }

  /** The search as a fold: what is chosen so far, its match, and whether the search has ended. */
  datatype Choice = Choice(index: Option<int>, best: Match, ended: bool)

  function Consider(choice: Choice, c: Candidate, n: int): Choice {
    if choice.ended || !c.applies then choice
    else if c.IsOwnExact() then Choice(Some(n), c.m, true)
    else if c.IsExact() || LexGreater(c.m, choice.best) then Choice(Some(n), c.m, false)
    else choice
  }

  function Search(cs: seq<Candidate>): Choice {
    if cs == [] then Choice(None, Match(0, 0, 0), false) else Consider(Search(cs[..|cs| - 1]), cs[|cs| - 1], |cs| - 1)
  }

  lemma SearchNext(cs: seq<Candidate>, i: nat)
    requires i < |cs|
    ensures Search(cs[..i + 1]) == Consider(Search(cs[..i]), cs[i], i)
  {
    assert cs[..i + 1][..i] == cs[..i];
  }

  lemma {:induction false} SearchEnded(cs: seq<Candidate>, n: nat)
    requires n <= |cs| && Search(cs[..n]).ended
    ensures Search(cs) == Search(cs[..n])
    decreases |cs| - n
  {
    if n == |cs| {
      assert cs[..n] == cs;
    } else {
      SearchNext(cs, n);
      SearchEnded(cs, n + 1);
    }
  }

  /** Whatever is chosen so far is the best so far. */
  ghost predicate BestSoFar(cs: seq<Candidate>, choice: Choice) {
    && (choice.ended <==> exists j | 0 <= j < |cs| :: cs[j].IsOwnExact())
    && if choice.index.None? then choice.best == Match(0, 0, 0) && forall j | 0 <= j < |cs| :: !cs[j].applies
       else IsBest(cs, choice.index.value) && choice.best == cs[choice.index.value].m
  }

  lemma ConsiderIsBest(cs: seq<Candidate>, c: Candidate, choice: Choice)
    requires BestSoFar(cs, choice) && (c.applies ==> c.m.admin != NO_MATCH)
    ensures BestSoFar(cs + [c], Consider(choice, c, |cs|))
  {
    var all := cs + [c];
    assert all[|cs|] == c && forall j | 0 <= j < |cs| :: all[j] == cs[j];
    if choice.ended {
      var j :| 0 <= j < |cs| && cs[j].IsOwnExact();
      assert all[j].IsOwnExact();
    } else if c.IsOwnExact() {
      assert all[|cs|].IsOwnExact();
    }
  }

  lemma {:induction false} SearchIsBest(cs: seq<Candidate>)
    requires forall j | 0 <= j < |cs| && cs[j].applies :: cs[j].m.admin != NO_MATCH
    ensures BestSoFar(cs, Search(cs))
  {
    if cs != [] {
      var init := cs[..|cs| - 1];
      assert cs == init + [cs[|cs| - 1]];
      SearchIsBest(init);
      ConsiderIsBest(init, cs[|cs| - 1], Search(init));
    }
  }

  /** `k` is the best entry of the table. */
  ghost predicate IsBestEntry(table: seq<Transition>, deviceType: DeviceType, prev: DeviceState, cur: DeviceState, k: int) {
    IsBest(Candidates(table, deviceType, prev, cur), k)
  }

  ghost predicate NoneApplies(table: seq<Transition>, deviceType: DeviceType, prev: DeviceState, cur: DeviceState) {
    forall j | 0 <= j < |table| :: !Applies(table[j], deviceType, prev, cur)
  }

  /** What the search ends with is the best entry. */
  lemma SearchFinds(table: seq<Transition>, deviceType: DeviceType, prev: DeviceState, cur: DeviceState)
    ensures var k := Search(Candidates(table, deviceType, prev, cur)).index;
            if k.None? then NoneApplies(table, deviceType, prev, cur) else IsBestEntry(table, deviceType, prev, cur, k.value)
  {
    var cs := Candidates(table, deviceType, prev, cur);
    forall j | 0 <= j < |table|
      ensures cs[j].applies == Applies(table[j], deviceType, prev, cur) && (cs[j].applies ==> cs[j].m.admin != NO_MATCH)
    {
      assert cs[j] == CandidateOf(table[j], deviceType, prev, cur);
    }
    SearchIsBest(cs);
  }

  /** Looks at one entry, unless it is for another type of device. */
  method GetHandlerAt(tr: Transition, deviceType: DeviceType, prev: DeviceState, cur: DeviceState)
    returns (handlers: Option<seq<Handler>>, m: Match)
    ensures var c := CandidateOf(tr, deviceType, prev, cur);
            (handlers.Some? <==> c.applies) && (c.applies ==> handlers == tr.handlers && m == c.m)
  {
    if tr.deviceType != deviceType && tr.deviceType != AnyType {
      return None, Match(0, 0, 0);
    }
    handlers, m := GetHandler(prev, cur, tr);
  }

  method GetTransitionHandler(table: seq<Transition>, root: bool, prev: DeviceState, cur: DeviceState)
    returns (r: Option<seq<Handler>>)
    ensures prev == cur ==> r.None?
    ensures prev != cur ==>
              var deviceType := if root then Parent else Child;
              if r.None? then NoneApplies(table, deviceType, prev, cur)
              else exists k :: IsBestEntry(table, deviceType, prev, cur, k) && r == table[k].handlers
  {
    if prev == cur {
      return None;
    }
    var deviceType := Parent;
    if !root {
      deviceType := Child;
    }
    ghost var cs := Candidates(table, deviceType, prev, cur);
    SearchFinds(table, deviceType, prev, cur);
    var best := Match(0, 0, 0);
    r := None;
    ghost var k := None;
    for i := 0 to |table|
      invariant Search(cs[..i]) == Choice(k, best, false)
      invariant if k.None? then r.None? else 0 <= k.value < |table| && r == table[k.value].handlers && r.Some?
    {
      SearchNext(cs, i);
      var handlers, m := GetHandlerAt(table[i], deviceType, prev, cur);
      if handlers.Some? {
        var better := m.IsBetter(best);
        if m.IsExact() && table[i].deviceType == deviceType {
          SearchEnded(cs, i + 1);
          return handlers;
        } else if m.IsExact() || better {
          r, best, k := handlers, m, Some(i);
        }
      }
    }
    assert cs[..|table|] == cs;
  }

  // The shipped table

  function Entry(deviceType: DeviceType, fromAdmin: AdminState, fromOper: OperStatus, toAdmin: AdminState, toOper: OperStatus,
                 handlers: seq<Handler>): Transition
  {
    Transition(deviceType, DeviceState(fromAdmin, ConnectUnknown, fromOper), DeviceState(toAdmin, ConnectUnknown, toOper),
               Some(handlers))
  }

  const PARENT_TEARDOWN := [DisableAllChildDevices, DeleteAllUniLogicalPorts, DeleteAllChildDevices, DeleteAllLogicalPorts,
                            DeleteLogicalDevice, RunPostDeviceDelete]

  const CHILD_TEARDOWN := [ChildDeviceLost, DeleteLogicalPorts, RunPostDeviceDelete]

  function Shipped(): seq<Transition> {
    [ Entry(Parent, AdminEnabled, Activating, AdminEnabled, OperActive, [CreateLogicalDevice]),
      Entry(Child, AdminEnabled, Discovered, AdminEnabled, Activating, []),
      Entry(Child, AdminEnabled, Discovered, AdminEnabled, OperActive, [SetupUniLogicalPorts]),
      Entry(Child, AdminEnabled, Activating, AdminEnabled, Discovered, []),
      Entry(Child, AdminEnabled, Activating, AdminEnabled, OperActive, [SetupUniLogicalPorts]),
      Entry(AnyType, Preprovisioned, OperUnknown, AdminDeleted, OperUnknown, [RunPostDeviceDelete]),
      Entry(Parent, AdminUnknown, OperUnknown, AdminDeleted, OperUnknown, PARENT_TEARDOWN),
      Transition(Parent, DeviceState(AdminEnabled, Reachable, OperActive), DeviceState(AdminEnabled, Unreachable, OperUnknown),
                 Some([DeleteAllLogicalPorts, DeleteLogicalDevice, DeleteAllChildDevices, DeleteAllDeviceFlows])),
      Transition(Parent, DeviceState(AdminEnabled, Unreachable, OperUnknown), DeviceState(AdminEnabled, Reachable, OperActive),
                 Some([CreateLogicalDevice])),
      Entry(Child, AdminUnknown, OperUnknown, AdminDeleted, OperUnknown, CHILD_TEARDOWN),
      Entry(Child, AdminEnabled, OperUnknown, AdminDeleted, OperUnknown, CHILD_TEARDOWN),
      Entry(AnyType, AdminEnabled, OperActive, AdminEnabled, Activating, [NotifyInvalidTransition]),
      Entry(AnyType, AdminEnabled, Activating, AdminEnabled, OperUnknown, [NotifyInvalidTransition]),
      Entry(AnyType, Preprovisioned, OperUnknown, AdminUnknown, OperUnknown, [NotifyInvalidTransition]),
      Entry(AnyType, AdminEnabled, OperUnknown, DownloadingImage, OperUnknown, [NotifyInvalidTransition]),
      Entry(AnyType, AdminEnabled, OperUnknown, AdminUnknown, OperUnknown, [NotifyInvalidTransition]),
      Entry(Parent, AdminEnabled, OperActive, AdminEnabled, Activating, [NotifyInvalidTransition]),
      Entry(AnyType, AdminEnabled, Activating, AdminEnabled, OperUnknown, [NotifyInvalidTransition]),
      Entry(AnyType, AdminEnabled, OperUnknown, Preprovisioned, OperUnknown, [NotifyInvalidTransition]),
      Entry(Child, AdminDisabled, OperUnknown, AdminUnknown, OperUnknown, [NotifyInvalidTransition]),
      Entry(AnyType, AdminDisabled, OperUnknown, Preprovisioned, OperUnknown, [NotifyInvalidTransition]),
      Entry(AnyType, DownloadingImage, OperUnknown, AdminDisabled, OperUnknown, [NotifyInvalidTransition]) ]
  }

  // What the shipped table answers, for every change

  const LOST := [DeleteAllLogicalPorts, DeleteLogicalDevice, DeleteAllChildDevices, DeleteAllDeviceFlows]

  /** What a device that is deleted must go through. */
  function Teardown(deviceType: DeviceType, prev: DeviceState): seq<Handler> {
    if prev.admin.Preprovisioned? then [RunPostDeviceDelete]
    else if deviceType.Parent? then PARENT_TEARDOWN
    else CHILD_TEARDOWN
  }

  /**
   An OLT that stays enabled: the logical device is created or taken down by the new operational status; for a status that no
   entry names, the new connection status decides.
   */
  function EnabledParent(prev: DeviceState, cur: DeviceState): seq<Handler> {
    match cur.operational
    case OperActive => [CreateLogicalDevice]
    case Activating => [NotifyInvalidTransition]
    case OperUnknown =>
      if cur.connection.ConnectUnknown? then if prev.operational.OperActive? then LOST else [NotifyInvalidTransition]
      else if prev.operational.Activating? then [NotifyInvalidTransition] else LOST
    case _ => if cur.connection.Unreachable? then LOST else [CreateLogicalDevice]
  }

  /** An ONU that stays enabled: its UNI ports are set up whenever it becomes active. */
  function EnabledChild(prev: DeviceState, cur: DeviceState): seq<Handler> {
    match cur.operational
    case OperActive => [SetupUniLogicalPorts]
    case OperUnknown => [NotifyInvalidTransition]
    case Activating => if prev.operational.OperActive? then [NotifyInvalidTransition] else []
    case _ => []
  }

  /** Changes of the admin state that are reported as invalid. */
  predicate InvalidAdmin(deviceType: DeviceType, from: AdminState, to: AdminState) {
    match to
    case AdminUnknown => from.Preprovisioned? || from.AdminEnabled? || (from.AdminDisabled? && deviceType.Child?)
    case Preprovisioned => from.AdminEnabled? || from.AdminDisabled?
    case DownloadingImage => from.AdminEnabled?
    case AdminDisabled => from.DownloadingImage?
    case _ => false
  }

  /** Everything that the shipped table says, by the states alone. */
  function Answer(deviceType: DeviceType, prev: DeviceState, cur: DeviceState): Option<seq<Handler>> {
    if cur.admin.AdminDeleted? then Some(Teardown(deviceType, prev))
    else if prev.admin.AdminEnabled? && cur.admin.AdminEnabled? then
      Some(if deviceType.Parent? then EnabledParent(prev, cur) else EnabledChild(prev, cur))
    else if InvalidAdmin(deviceType, prev.admin, cur.admin) then Some([NotifyInvalidTransition])
    else None
  }

  /** The position of each entry, by the admin states that it is for. */
  lemma EntriesByAdmin(k: int)
    requires 0 <= k < |Shipped()|
    ensures var tr := Shipped()[k];
            && (tr.currentState.admin.AdminDeleted? <==> k in {5, 6, 9, 10})
            && (tr.currentState.admin.AdminEnabled? <==> k in {0, 1, 2, 3, 4, 7, 8, 11, 12, 16, 17})
            && (k in {0, 1, 2, 3, 4, 7, 8, 11, 12, 16, 17} ==> tr.previousState.admin.AdminEnabled?)
            && (k in {13, 14, 15, 18, 19, 20, 21} ==> tr.handlers == Some([NotifyInvalidTransition]))
  {
  }

  /** The best entry applies, no applicable one is greater, and among equals that are not exact it is the first. */
  lemma BestBeats(table: seq<Transition>, deviceType: DeviceType, prev: DeviceState, cur: DeviceState, k: int, j: int)
    requires IsBestEntry(table, deviceType, prev, cur, k) && 0 <= j < |table| && Applies(table[j], deviceType, prev, cur)
    ensures 0 <= k < |table| && Applies(table[k], deviceType, prev, cur)
    ensures var mj, mk := MatchOf(prev, cur, table[j]), MatchOf(prev, cur, table[k]);
            !LexGreater(mj, mk) && (mj == mk && !mk.IsExact() ==> k <= j)
  {
    var cs := Candidates(table, deviceType, prev, cur);
    assert cs[j] == CandidateOf(table[j], deviceType, prev, cur) && cs[k] == CandidateOf(table[k], deviceType, prev, cur);
  }

  lemma BestApplies(table: seq<Transition>, deviceType: DeviceType, prev: DeviceState, cur: DeviceState, k: int)
    requires IsBestEntry(table, deviceType, prev, cur, k)
    ensures 0 <= k < |table| && Applies(table[k], deviceType, prev, cur)
  {
  }

  // Into the deleted state

  /** An entry that applies to a change into the deleted state is one of those. */
  lemma AppliesToDeletion(deviceType: DeviceType, prev: DeviceState, cur: DeviceState, k: int)
    requires cur.admin.AdminDeleted? && 0 <= k < |Shipped()| && Applies(Shipped()[k], deviceType, prev, cur)
    ensures k in {5, 6, 9, 10}
    ensures k == 5 ==> prev.admin.Preprovisioned? && Shipped()[k].handlers == Some([RunPostDeviceDelete])
    ensures k == 6 ==> deviceType == Parent && Shipped()[k].handlers == Some(PARENT_TEARDOWN)
    ensures k == 9 || k == 10 ==> deviceType == Child && Shipped()[k].handlers == Some(CHILD_TEARDOWN)
    ensures k != 5 && prev.admin.Preprovisioned? ==> MatchOf(prev, cur, Shipped()[k]).admin < CURR_PREV_STATE
  {
    EntriesByAdmin(k);
  }

  /** From the preprovisioned state, the entry for that state matches both admin states. */
  lemma PreprovisionedApplies(deviceType: DeviceType, prev: DeviceState, cur: DeviceState)
    requires cur.admin.AdminDeleted? && prev.admin.Preprovisioned?
    ensures Applies(Shipped()[5], deviceType, prev, cur) && MatchOf(prev, cur, Shipped()[5]).admin == CURR_PREV_STATE
  {
  }

  lemma DeletionIsTeardown(deviceType: DeviceType, prev: DeviceState, cur: DeviceState, k: int)
    requires !deviceType.AnyType? && cur.admin.AdminDeleted? && IsBestEntry(Shipped(), deviceType, prev, cur, k)
    ensures Shipped()[k].handlers == Some(Teardown(deviceType, prev))
  {
    var table := Shipped();
    BestApplies(table, deviceType, prev, cur, k);
    AppliesToDeletion(deviceType, prev, cur, k);
    if prev.admin.Preprovisioned? {
      PreprovisionedApplies(deviceType, prev, cur);
      BestIsGreatest(table, deviceType, prev, cur, k, 5);
    }
  }

  lemma DeletionApplies(deviceType: DeviceType, prev: DeviceState, cur: DeviceState)
    requires !deviceType.AnyType? && cur.admin.AdminDeleted?
    ensures !NoneApplies(Shipped(), deviceType, prev, cur)
  {
    assert deviceType.Parent? ==> Applies(Shipped()[6], Parent, prev, cur);
    assert deviceType.Child? ==> Applies(Shipped()[9], Child, prev, cur);
  }

  // Within the enabled state

  ghost predicate StaysEnabled(prev: DeviceState, cur: DeviceState) {
    prev.admin.AdminEnabled? && cur.admin.AdminEnabled?
  }

  lemma ParentEntries(prev: DeviceState, cur: DeviceState, k: int)
    requires StaysEnabled(prev, cur) && 0 <= k < |Shipped()|
    ensures Applies(Shipped()[k], Parent, prev, cur) <==> k in {0, 7, 8, 11, 12, 16, 17}
  {
    EntriesByAdmin(k);
  }

  lemma ChildEntries(prev: DeviceState, cur: DeviceState, k: int)
    requires StaysEnabled(prev, cur) && 0 <= k < |Shipped()|
    ensures Applies(Shipped()[k], Child, prev, cur) <==> k in {1, 2, 3, 4, 11, 12, 17}
  {
    EntriesByAdmin(k);
  }

  /** The level of the match of an entry for changes within the enabled state, by its position. */
  function EnabledMatch(prev: DeviceState, cur: DeviceState, k: int): Match {
    if k == 0 then StatusMatch(prev, cur, ConnectUnknown, Activating, ConnectUnknown, OperActive)
    else if k == 1 then StatusMatch(prev, cur, ConnectUnknown, Discovered, ConnectUnknown, Activating)
    else if k == 2 then StatusMatch(prev, cur, ConnectUnknown, Discovered, ConnectUnknown, OperActive)
    else if k == 3 then StatusMatch(prev, cur, ConnectUnknown, Activating, ConnectUnknown, Discovered)
    else if k == 4 then StatusMatch(prev, cur, ConnectUnknown, Activating, ConnectUnknown, OperActive)
    else if k == 7 then StatusMatch(prev, cur, Reachable, OperActive, Unreachable, OperUnknown)
    else if k == 8 then StatusMatch(prev, cur, Unreachable, OperUnknown, Reachable, OperActive)
    else if k == 11 || k == 16 then StatusMatch(prev, cur, ConnectUnknown, OperActive, ConnectUnknown, Activating)
    else StatusMatch(prev, cur, ConnectUnknown, Activating, ConnectUnknown, OperUnknown)
  }

  function StatusMatch(prev: DeviceState, cur: DeviceState, fromConn: ConnectStatus, fromOper: OperStatus, toConn: ConnectStatus,
                       toOper: OperStatus): Match
  {
    if prev.connection == fromConn && prev.operational == fromOper && cur.connection == toConn && cur.operational == toOper then EXACT
    else Match(CURR_PREV_STATE, StatusLevel(prev.operational, cur.operational, fromOper, toOper, OperUnknown),
               StatusLevel(prev.connection, cur.connection, fromConn, toConn, ConnectUnknown))
  }

  lemma EnabledMatchIs(prev: DeviceState, cur: DeviceState, k: int)
    requires StaysEnabled(prev, cur) && k in {0, 1, 2, 3, 4, 7, 8, 11, 12, 16, 17}
    ensures MatchOf(prev, cur, Shipped()[k]) == EnabledMatch(prev, cur, k)
  {
  }

  function EnabledHandlers(k: int): seq<Handler> {
    if k == 0 || k == 8 then [CreateLogicalDevice]
    else if k == 1 || k == 3 then []
    else if k == 2 || k == 4 then [SetupUniLogicalPorts]
    else if k == 7 then LOST
    else [NotifyInvalidTransition]
  }

  lemma EnabledHandlersAre(k: int)
    requires k in {0, 1, 2, 3, 4, 7, 8, 11, 12, 16, 17}
    ensures Shipped()[k].handlers == Some(EnabledHandlers(k))
  {
  }

  /** The entry at `k` comes before the one at `j`. */
  ghost predicate Beats(prev: DeviceState, cur: DeviceState, k: int, j: int) {
    var mj, mk := EnabledMatch(prev, cur, j), EnabledMatch(prev, cur, k);
    !LexGreater(mj, mk) && (mj == mk && !mk.IsExact() ==> k <= j)
  }

  lemma ParentBeats(prev: DeviceState, cur: DeviceState, k: int, j: int)
    requires StaysEnabled(prev, cur) && IsBestEntry(Shipped(), Parent, prev, cur, k) && j in {0, 7, 8, 11, 12, 16, 17}
    ensures k in {0, 7, 8, 11, 12, 16, 17}
    ensures Beats(prev, cur, k, j)
  {
    BestApplies(Shipped(), Parent, prev, cur, k);
    ParentEntries(prev, cur, k);
    ParentEntries(prev, cur, j);
    BestBeats(Shipped(), Parent, prev, cur, k, j);
    EnabledMatchIs(prev, cur, k);
    EnabledMatchIs(prev, cur, j);
  }

  lemma ParentIsAnswer(prev: DeviceState, cur: DeviceState, k: int)
    requires StaysEnabled(prev, cur) && prev != cur && IsBestEntry(Shipped(), Parent, prev, cur, k)
    ensures 0 <= k < |Shipped()| && Shipped()[k].handlers == Some(EnabledParent(prev, cur))
  {
    ParentBeats(prev, cur, k, 0);
    ParentBeats(prev, cur, k, 7);
    ParentBeats(prev, cur, k, 8);
    ParentBeats(prev, cur, k, 11);
    ParentBeats(prev, cur, k, 12);
    ParentWins(prev, cur, k);
    EnabledHandlersAre(k);
  }

  lemma ParentWins(prev: DeviceState, cur: DeviceState, k: int)
    requires k in {0, 7, 8, 11, 12, 16, 17}
    requires Beats(prev, cur, k, 0) && Beats(prev, cur, k, 7) && Beats(prev, cur, k, 8)
    requires Beats(prev, cur, k, 11) && Beats(prev, cur, k, 12)
    ensures EnabledHandlers(k) == EnabledParent(prev, cur)
  {
  }

  lemma ChildBeats(prev: DeviceState, cur: DeviceState, k: int, j: int)
    requires StaysEnabled(prev, cur) && IsBestEntry(Shipped(), Child, prev, cur, k) && j in {1, 2, 3, 4, 11, 12, 17}
    ensures k in {1, 2, 3, 4, 11, 12, 17}
    ensures Beats(prev, cur, k, j)
  {
    BestApplies(Shipped(), Child, prev, cur, k);
    ChildEntries(prev, cur, k);
    ChildEntries(prev, cur, j);
    BestBeats(Shipped(), Child, prev, cur, k, j);
    EnabledMatchIs(prev, cur, k);
    EnabledMatchIs(prev, cur, j);
  }

  lemma ChildIsAnswer(prev: DeviceState, cur: DeviceState, k: int)
    requires StaysEnabled(prev, cur) && prev != cur && IsBestEntry(Shipped(), Child, prev, cur, k)
    ensures 0 <= k < |Shipped()| && Shipped()[k].handlers == Some(EnabledChild(prev, cur))
  {
    ChildBeats(prev, cur, k, 1);
    ChildBeats(prev, cur, k, 2);
    ChildBeats(prev, cur, k, 3);
    ChildBeats(prev, cur, k, 4);
    ChildBeats(prev, cur, k, 11);
    ChildBeats(prev, cur, k, 12);
    ChildWins(prev, cur, k);
    EnabledHandlersAre(k);
  }

  lemma ChildWins(prev: DeviceState, cur: DeviceState, k: int)
    requires k in {1, 2, 3, 4, 11, 12, 17}
    requires Beats(prev, cur, k, 1) && Beats(prev, cur, k, 2) && Beats(prev, cur, k, 3)
    requires Beats(prev, cur, k, 4) && Beats(prev, cur, k, 11) && Beats(prev, cur, k, 12)
    ensures EnabledHandlers(k) == EnabledChild(prev, cur)
  {
  }

  // Other changes of the admin state

  lemma OtherEntries(deviceType: DeviceType, prev: DeviceState, cur: DeviceState, k: int)
    requires !deviceType.AnyType? && !cur.admin.AdminDeleted? && !StaysEnabled(prev, cur)
    requires 0 <= k < |Shipped()| && Applies(Shipped()[k], deviceType, prev, cur)
    ensures InvalidAdmin(deviceType, prev.admin, cur.admin) && Shipped()[k].handlers == Some([NotifyInvalidTransition])
  {
    EntriesByAdmin(k);
  }

  lemma InvalidApplies(deviceType: DeviceType, prev: DeviceState, cur: DeviceState)
    requires !deviceType.AnyType? && InvalidAdmin(deviceType, prev.admin, cur.admin)
    ensures !NoneApplies(Shipped(), deviceType, prev, cur)
  {
    var k := match cur.admin
      case AdminUnknown => if prev.admin.Preprovisioned? then 13 else if prev.admin.AdminEnabled? then 15 else 19
      case Preprovisioned => if prev.admin.AdminEnabled? then 18 else 20
      case DownloadingImage => 14
      case _ => 21;
    assert Applies(Shipped()[k], deviceType, prev, cur);
  }

  lemma EnabledApplies(deviceType: DeviceType, prev: DeviceState, cur: DeviceState)
    requires !deviceType.AnyType? && StaysEnabled(prev, cur)
    ensures !NoneApplies(Shipped(), deviceType, prev, cur)
  {
    assert Applies(Shipped()[11], deviceType, prev, cur);
  }

  /** For every change and either type of device, the shipped table answers as `Answer` says. */
  lemma ShippedAnswers(deviceType: DeviceType, prev: DeviceState, cur: DeviceState)
    requires !deviceType.AnyType? && prev != cur
    ensures NoneApplies(Shipped(), deviceType, prev, cur) <==> Answer(deviceType, prev, cur).None?
    ensures forall k | IsBestEntry(Shipped(), deviceType, prev, cur, k) :: Shipped()[k].handlers == Answer(deviceType, prev, cur)
  {
    if cur.admin.AdminDeleted? {
      DeletionApplies(deviceType, prev, cur);
    } else if StaysEnabled(prev, cur) {
      EnabledApplies(deviceType, prev, cur);
    } else if InvalidAdmin(deviceType, prev.admin, cur.admin) {
      InvalidApplies(deviceType, prev, cur);
    } else {
      forall k | 0 <= k < |Shipped()| ensures !Applies(Shipped()[k], deviceType, prev, cur) {
        if Applies(Shipped()[k], deviceType, prev, cur) {
          OtherEntries(deviceType, prev, cur, k);
        }
      }
    }
    forall k | IsBestEntry(Shipped(), deviceType, prev, cur, k) ensures Shipped()[k].handlers == Answer(deviceType, prev, cur) {
      BestIsAnswer(deviceType, prev, cur, k);
    }
  }

  lemma BestIsAnswer(deviceType: DeviceType, prev: DeviceState, cur: DeviceState, k: int)
    requires !deviceType.AnyType? && prev != cur && IsBestEntry(Shipped(), deviceType, prev, cur, k)
    ensures 0 <= k < |Shipped()| && Shipped()[k].handlers == Answer(deviceType, prev, cur)
  {
    BestApplies(Shipped(), deviceType, prev, cur, k);
    if cur.admin.AdminDeleted? {
      DeletionIsTeardown(deviceType, prev, cur, k);
    } else if !StaysEnabled(prev, cur) {
      OtherEntries(deviceType, prev, cur, k);
    } else if deviceType.Parent? {
      ParentIsAnswer(prev, cur, k);
    } else {
      ChildIsAnswer(prev, cur, k);
    }
  }

  /** The change is reported as invalid. */
  predicate IsInvalid(root: bool, prev: DeviceState, cur: DeviceState) {
    || InvalidAdmin(if root then Parent else Child, prev.admin, cur.admin)
    || (prev.admin.AdminEnabled? && cur.admin.AdminEnabled?
        && if root then
             || cur.operational.Activating?
             || (cur.operational.OperUnknown?
                 && if cur.connection.ConnectUnknown? then !prev.operational.OperActive? else prev.operational.Activating?)
           else
             cur.operational.OperUnknown? || (cur.operational.Activating? && prev.operational.OperActive?))
  }

  /** What the answers come to, change by change. */
  lemma AnswersAre(root: bool, prev: DeviceState, cur: DeviceState)
    ensures var r := Answer(if root then Parent else Child, prev, cur);
            var enabled := prev.admin.AdminEnabled? && cur.admin.AdminEnabled?;
            && (root && enabled && cur.operational.OperActive? ==> r == Some([CreateLogicalDevice]))
            && (!root && enabled && cur.operational.OperActive? ==> r == Some([SetupUniLogicalPorts]))
            && (root && enabled && cur.connection.Unreachable? && cur.operational.OperUnknown? && !prev.operational.Activating? ==>
                  r == Some([DeleteAllLogicalPorts, DeleteLogicalDevice, DeleteAllChildDevices, DeleteAllDeviceFlows]))
            && (r == Some([NotifyInvalidTransition]) <==> IsInvalid(root, prev, cur))
            && (r.None? <==> !cur.admin.AdminDeleted? && !enabled && !InvalidAdmin(if root then Parent else Child, prev.admin, cur.admin))
  {
  }

  /** The handlers that the shipped table gives for a change of a device. */
  method GetShippedHandlers(root: bool, prev: DeviceState, cur: DeviceState) returns (r: Option<seq<Handler>>)
    ensures r == if prev == cur then None else Answer(if root then Parent else Child, prev, cur)
    ensures r == Some([NotifyInvalidTransition]) <==> prev != cur && IsInvalid(root, prev, cur)
  {
    var table := Shipped();
    r := GetTransitionHandler(table, root, prev, cur);
    if prev != cur {
      ShippedAnswers(if root then Parent else Child, prev, cur);
      AnswersAre(root, prev, cur);
    }
  }

  /** The handlers of a change into the deleted state, from any other state, end with the removal of the device. */
  method GetDeletionHandlers(root: bool, prev: DeviceState, cur: DeviceState) returns (handlers: seq<Handler>)
    requires cur.admin.AdminDeleted? && prev != cur
    ensures handlers == Teardown(if root then Parent else Child, prev)
    ensures |handlers| > 0 && handlers[|handlers| - 1] == RunPostDeviceDelete
  {
    var r := GetShippedHandlers(root, prev, cur);
    handlers := r.value;
  }

  /** An OLT that fails while it is reachable is treated as one that comes up, because that entry matches its connection. */
  method FailedOltCreatesLogicalDevice() returns (r: Option<seq<Handler>>)
    ensures r == Some([CreateLogicalDevice])
  {
    r := GetShippedHandlers(true, DeviceState(AdminEnabled, Reachable, OperActive), DeviceState(AdminEnabled, Reachable, OperFailed));
  }
}
