/** What the controller is told when the ports of a logical device change. */
module PortDiff {
  import opened Voltha

  datatype OfpPort = OfpPort(portNo: uint32, name: string, config: uint32, state: uint32)

  /** A logical port with its OpenFlow description. */
  datatype SwitchPort = SwitchPort(id: string, ofpPort: OfpPort, deviceId: string, devicePortNo: uint32, rootPort: bool)

  datatype Reason = Add | Modify | Delete

  datatype Event = Event(reason: Reason, desc: OfpPort)

  // The difference

  predicate HasId(ports: seq<SwitchPort>, id: string) {
    exists p | p in ports :: p.id == id
  }

  predicate HasNumber(ports: seq<SwitchPort>, no: uint32) {
    exists p | p in ports :: p.ofpPort.portNo == no
  }

  /** The first port with the id differs. */
  predicate IsChanged(ports: seq<SwitchPort>, p: SwitchPort) {
    if ports == [] then false else if ports[0].id == p.id then ports[0] != p else IsChanged(ports[1..], p)
  }

  /** The ports of `ports` whose id `others` does not have. */
  function Missing(ports: seq<SwitchPort>, others: seq<SwitchPort>): seq<SwitchPort> {
    if ports == [] then []
    else
      var n := |ports| - 1;
      var rest := Missing(ports[..n], others);
      if HasId(others, ports[n].id) then rest else rest + [ports[n]]
  }

  function Changed(ports: seq<SwitchPort>, others: seq<SwitchPort>): seq<SwitchPort> {
    if ports == [] then []
    else
      var n := |ports| - 1;
      var rest := Changed(ports[..n], others);
      if IsChanged(others, ports[n]) then rest + [ports[n]] else rest
  }

  method FindPort(ports: seq<SwitchPort>, p: SwitchPort) returns (found: bool, changed: bool)
    ensures found == HasId(ports, p.id) && changed == IsChanged(ports, p)
  {
    found, changed := false, false;
    for i := 0 to |ports|
      invariant !found && !changed && (forall j | 0 <= j < i :: ports[j].id != p.id)
      invariant IsChanged(ports, p) == IsChanged(ports[i..], p)
    {
      assert ports[i..][1..] == ports[i + 1..];
      if ports[i].id == p.id {
        changed := ports[i] != p;
        found := true;
        break;
      }
    }
  }

  method Diff(oldList: seq<SwitchPort>, newList: seq<SwitchPort>)
    returns (newPorts: seq<SwitchPort>, changedPorts: seq<SwitchPort>, deletedPorts: seq<SwitchPort>)
    ensures newPorts == Missing(newList, oldList)
    ensures changedPorts == Changed(newList, oldList)
    ensures deletedPorts == Missing(oldList, newList)
  {
    newPorts, changedPorts, deletedPorts := [], [], [];
    for i := 0 to |oldList|
      invariant deletedPorts == Missing(oldList[..i], newList)
    {
      assert oldList[..i + 1][..i] == oldList[..i];
      var found, _ := FindPort(newList, oldList[i]);
      if !found {
        deletedPorts := deletedPorts + [oldList[i]];
      }
    }
    assert oldList[..|oldList|] == oldList;
    for i := 0 to |newList|
      invariant newPorts == Missing(newList[..i], oldList) && changedPorts == Changed(newList[..i], oldList)
    {
      assert newList[..i + 1][..i] == newList[..i];
      var found, changed := FindPort(oldList, newList[i]);
      if !found {
        newPorts := newPorts + [newList[i]];
      }
      if changed {
        changedPorts := changedPorts + [newList[i]];
      }
    }
    assert newList[..|newList|] == newList;
  }

  function Events(reason: Reason, ports: seq<SwitchPort>): (r: seq<Event>)
    ensures |r| == |ports| && forall i | 0 <= i < |r| :: r[i] == Event(reason, ports[i].ofpPort)
  {
    seq(|ports|, i requires 0 <= i < |ports| => Event(reason, ports[i].ofpPort))
  }

  /** The events of a change: additions, modifications and deletions. */
  function AllEvents(oldList: seq<SwitchPort>, newList: seq<SwitchPort>): seq<Event> {
    Events(Add, Missing(newList, oldList)) + Events(Modify, Changed(newList, oldList)) + Events(Delete, Missing(oldList, newList))
  }

  method SendAll(reason: Reason, ports: seq<SwitchPort>) returns (events: seq<Event>)
    ensures events == Events(reason, ports)
  {
    events := [];
    for i := 0 to |ports|
      invariant events == Events(reason, ports[..i])
    {
      assert ports[..i + 1][..i] == ports[..i];
      events := events + [Event(reason, ports[i].ofpPort)];
    }
    assert ports[..|ports|] == ports;
  }

  /** The events are handed to goroutines, so they may be delivered in any order. */
  method PortUpdated(oldPorts: seq<SwitchPort>, newPorts: seq<SwitchPort>) returns (events: seq<Event>)
    ensures events == if oldPorts == newPorts then [] else AllEvents(oldPorts, newPorts)
  {
    if oldPorts == newPorts {
      return [];
    }
    var added, changed, deleted := Diff(oldPorts, newPorts);
    var a := SendAll(Add, added);
    var m := SendAll(Modify, changed);
    var d := SendAll(Delete, deleted);
    return a + m + d;
  }

  // The controller's view

  type View = map<uint32, OfpPort>

  function Seen(view: View, e: Event): View {
    if e.reason == Delete then view - {e.desc.portNo} else view[e.desc.portNo := e.desc]
  }

  function Replay(view: View, events: seq<Event>): View {
    if events == [] then view else Seen(Replay(view, events[..|events| - 1]), events[|events| - 1])
  }

  function ViewOf(ports: seq<SwitchPort>): View {
    if ports == [] then map[]
    else
      var p := ports[|ports| - 1];
      ViewOf(ports[..|ports| - 1])[p.ofpPort.portNo := p.ofpPort]
  }

  predicate UniqueIds(ports: seq<SwitchPort>) {
    forall i, j | 0 <= i < j < |ports| :: ports[i].id != ports[j].id
  }

  predicate UniqueNumbers(ports: seq<SwitchPort>) {
    forall i, j | 0 <= i < j < |ports| :: ports[i].ofpPort.portNo != ports[j].ofpPort.portNo
  }

  predicate Proper(ports: seq<SwitchPort>) {
    UniqueIds(ports) && UniqueNumbers(ports)
  }

  lemma {:induction false} ViewOfIs(ports: seq<SwitchPort>)
    requires UniqueNumbers(ports)
    ensures forall no :: no in ViewOf(ports) <==> HasNumber(ports, no)
    ensures forall p | p in ports :: p.ofpPort.portNo in ViewOf(ports) && ViewOf(ports)[p.ofpPort.portNo] == p.ofpPort
  {
    if ports != [] {
      var n := |ports| - 1;
      ViewOfIs(ports[..n]);
      assert ports == ports[..n] + [ports[n]];
      forall no ensures no in ViewOf(ports) <==> HasNumber(ports, no) {
        assert no in ViewOf(ports[..n]) <==> HasNumber(ports[..n], no);
        assert ports[n] in ports;
      }
    }
  }

  lemma {:induction false} MissingIs(ports: seq<SwitchPort>, others: seq<SwitchPort>)
    ensures forall p :: p in Missing(ports, others) <==> p in ports && !HasId(others, p.id)
  {
    if ports != [] {
      assert ports == ports[..|ports| - 1] + [ports[|ports| - 1]];
      MissingIs(ports[..|ports| - 1], others);
    }
  }

  lemma {:induction false} ChangedIs(ports: seq<SwitchPort>, others: seq<SwitchPort>)
    requires UniqueIds(others)
    ensures forall p :: p in Changed(ports, others) <==> p in ports && HasId(others, p.id) && p !in others
  {
    if ports != [] {
      assert ports == ports[..|ports| - 1] + [ports[|ports| - 1]];
      ChangedIs(ports[..|ports| - 1], others);
      IsChangedIs(others, ports[|ports| - 1]);
    }
  }

  lemma {:induction false} IsChangedIs(ports: seq<SwitchPort>, p: SwitchPort)
    requires UniqueIds(ports)
    ensures IsChanged(ports, p) <==> HasId(ports, p.id) && p !in ports
  {
    if ports != [] {
      assert ports == [ports[0]] + ports[1..];
      IsChangedIs(ports[1..], p);
    }
  }

  // Events by number

  predicate At(e: Event, no: uint32) {
    e.desc.portNo == no
  }

  /** Where the events come from. */
  lemma EventIs(oldList: seq<SwitchPort>, newList: seq<SwitchPort>, e: Event)
    requires UniqueIds(oldList)
    ensures e in AllEvents(oldList, newList) <==>
            if e.reason == Delete then exists o | o in oldList :: !HasId(newList, o.id) && o.ofpPort == e.desc
            else exists n | n in newList :: n !in oldList && (e.reason == Add <==> !HasId(oldList, n.id)) && n.ofpPort == e.desc
  {
    MissingIs(newList, oldList);
    MissingIs(oldList, newList);
    ChangedIs(newList, oldList);
    EventsMember(Add, Missing(newList, oldList), e);
    EventsMember(Modify, Changed(newList, oldList), e);
    EventsMember(Delete, Missing(oldList, newList), e);
    assert forall n | n in oldList :: HasId(oldList, n.id);
  }

  lemma EventsMember(reason: Reason, ports: seq<SwitchPort>, e: Event)
    ensures e in Events(reason, ports) <==> e.reason == reason && exists p | p in ports :: p.ofpPort == e.desc
  {
  }

  // Replaying events on one number

  lemma {:induction false} ReplayUntouched(view: View, events: seq<Event>, no: uint32)
    requires forall e | e in events :: !At(e, no)
    ensures no in Replay(view, events) <==> no in view
    ensures no in view ==> Replay(view, events)[no] == view[no]
  {
    if events != [] {
      var n := |events| - 1;
      assert events[n] in events;
      assert forall e | e in events[..n] :: e in events;
      ReplayUntouched(view, events[..n], no);
    }
  }

  /** When all events on a number agree, the last of them decides. */
  lemma {:induction false} ReplayAgreed(view: View, events: seq<Event>, no: uint32, last: Event)
    requires last in events && At(last, no)
    requires forall e | e in events && At(e, no) :: e.desc == last.desc && (e.reason == Delete <==> last.reason == Delete)
    ensures if last.reason == Delete then no !in Replay(view, events)
            else no in Replay(view, events) && Replay(view, events)[no] == last.desc
  {
    var n := |events| - 1;
    assert events[n] in events;
    assert forall e | e in events[..n] :: e in events;
    if !At(events[n], no) {
      assert last in events[..n];
      ReplayAgreed(view, events[..n], no, last);
    }
  }

  /** A deletion after all events that set a number wins. */
  lemma {:induction false} ReplayDeletedLast(view: View, events: seq<Event>, deleted: seq<SwitchPort>, p: SwitchPort)
    requires p in deleted
    ensures p.ofpPort.portNo !in Replay(view, events + Events(Delete, deleted))
  {
    var n := |deleted| - 1;
    var all := events + Events(Delete, deleted);
    assert all[..|all| - 1] == events + Events(Delete, deleted[..n]);
    assert all[|all| - 1] == Event(Delete, deleted[n].ofpPort);
    if p in deleted[..n] {
      ReplayDeletedLast(view, events, deleted[..n], p);
    }
  }

  // The theorem

  /** A port's id survives the change exactly when its number does. */
  predicate Matching(oldList: seq<SwitchPort>, newList: seq<SwitchPort>) {
    forall o | o in oldList :: HasId(newList, o.id) <==> HasNumber(newList, o.ofpPort.portNo)
  }

  lemma SameNumber(ports: seq<SwitchPort>, p: SwitchPort, q: SwitchPort)
    requires UniqueNumbers(ports) && p in ports && q in ports && p.ofpPort.portNo == q.ofpPort.portNo
    ensures p == q
  {
  }

  /** A number that the new list has. */
  lemma NewNumber(oldList: seq<SwitchPort>, newList: seq<SwitchPort>, events: seq<Event>, n: SwitchPort)
    requires Proper(oldList) && Proper(newList) && Matching(oldList, newList) && n in newList
    requires forall e :: e in events <==> e in AllEvents(oldList, newList)
    ensures var no := n.ofpPort.portNo;
            no in Replay(ViewOf(oldList), events) && Replay(ViewOf(oldList), events)[no] == n.ofpPort
  {
    var no := n.ofpPort.portNo;
    ViewOfIs(oldList);
    assert HasNumber(newList, no);
    forall e | e in events && At(e, no) ensures n !in oldList && e.reason != Delete && e.desc == n.ofpPort {
      EventIs(oldList, newList, e);
      if e.reason != Delete {
        var n' :| n' in newList && n' !in oldList && n'.ofpPort == e.desc;
        SameNumber(newList, n, n');
      }
    }
    if n in oldList {
      ReplayUntouched(ViewOf(oldList), events, no);
    } else {
      var e := Event(if HasId(oldList, n.id) then Modify else Add, n.ofpPort);
      EventIs(oldList, newList, e);
      ReplayAgreed(ViewOf(oldList), events, no, e);
    }
  }

  /** A number that the new list does not have. */
  lemma GoneNumber(oldList: seq<SwitchPort>, newList: seq<SwitchPort>, events: seq<Event>, no: uint32)
    requires Proper(oldList) && Proper(newList) && Matching(oldList, newList) && !HasNumber(newList, no)
    requires forall e :: e in events <==> e in AllEvents(oldList, newList)
    ensures no !in Replay(ViewOf(oldList), events)
  {
    ViewOfIs(oldList);
    forall e | e in events && At(e, no) ensures e.reason == Delete && exists o | o in oldList :: o.ofpPort == e.desc {
      EventIs(oldList, newList, e);
    }
    if HasNumber(oldList, no) {
      var o :| o in oldList && o.ofpPort.portNo == no;
      var e := Event(Delete, o.ofpPort);
      EventIs(oldList, newList, e);
      forall e' | e' in events && At(e', no) ensures e'.desc == o.ofpPort {
        var o' :| o' in oldList && o'.ofpPort == e'.desc;
        SameNumber(oldList, o, o');
      }
      ReplayAgreed(ViewOf(oldList), events, no, e);
    } else {
      ReplayUntouched(ViewOf(oldList), events, no);
    }
  }

  /** The events, in whatever order they are delivered, turn the old view of the controller into the new one. */
  lemma AnyOrder(oldList: seq<SwitchPort>, newList: seq<SwitchPort>, events: seq<Event>)
    requires Proper(oldList) && Proper(newList) && Matching(oldList, newList)
    requires multiset(events) == multiset(AllEvents(oldList, newList))
    ensures Replay(ViewOf(oldList), events) == ViewOf(newList)
  {
    forall e ensures e in events <==> e in AllEvents(oldList, newList) {
      assert e in multiset(events) <==> e in multiset(AllEvents(oldList, newList));
    }
    ViewOfIs(newList);
    var view := Replay(ViewOf(oldList), events);
    forall no ensures no in view <==> no in ViewOf(newList) {
      if HasNumber(newList, no) {
        var n :| n in newList && n.ofpPort.portNo == no;
        NewNumber(oldList, newList, events, n);
      } else {
        GoneNumber(oldList, newList, events, no);
      }
    }
    forall no | no in ViewOf(newList) ensures view[no] == ViewOf(newList)[no] {
      var n :| n in newList && n.ofpPort.portNo == no;
      NewNumber(oldList, newList, events, n);
    }
  }

  /**
   Delivered in the order in which they are sent, the events give the new view if and only if the ids of the old ports
   survive exactly when their numbers do.
   */
  lemma SentOrderIff(oldList: seq<SwitchPort>, newList: seq<SwitchPort>)
    requires Proper(oldList) && Proper(newList)
    ensures Replay(ViewOf(oldList), AllEvents(oldList, newList)) == ViewOf(newList) <==> Matching(oldList, newList)
  {
    if Matching(oldList, newList) {
      AnyOrder(oldList, newList, AllEvents(oldList, newList));
    } else {
      var o :| o in oldList && (HasId(newList, o.id) <==> !HasNumber(newList, o.ofpPort.portNo));
      ViewOfIs(newList);
      if HasId(newList, o.id) {
        StaleNumber(oldList, newList, o);
      } else {
        DeletedNumber(oldList, newList, o);
      }
    }
  }

  /** The number of a port that got another number stays in the view. */
  lemma StaleNumber(oldList: seq<SwitchPort>, newList: seq<SwitchPort>, o: SwitchPort)
    requires Proper(oldList) && Proper(newList) && o in oldList && HasId(newList, o.id) && !HasNumber(newList, o.ofpPort.portNo)
    ensures o.ofpPort.portNo in Replay(ViewOf(oldList), AllEvents(oldList, newList))
  {
    var no := o.ofpPort.portNo;
    forall o' | o' in oldList && o'.ofpPort.portNo == no ensures HasId(newList, o'.id) {
      SameNumber(oldList, o, o');
    }
    forall e | e in AllEvents(oldList, newList) ensures !At(e, no) {
      EventIs(oldList, newList, e);
    }
    ViewOfIs(oldList);
    ReplayUntouched(ViewOf(oldList), AllEvents(oldList, newList), no);
  }

  /** A number that passed from a deleted port to another one is lost. */
  lemma DeletedNumber(oldList: seq<SwitchPort>, newList: seq<SwitchPort>, o: SwitchPort)
    requires Proper(oldList) && o in oldList && !HasId(newList, o.id)
    ensures o.ofpPort.portNo !in Replay(ViewOf(oldList), AllEvents(oldList, newList))
  {
    MissingIs(oldList, newList);
    ReplayDeletedLast(ViewOf(oldList), Events(Add, Missing(newList, oldList)) + Events(Modify, Changed(newList, oldList)),
                      Missing(oldList, newList), o);
  }

  // Changes that leave the controller with another view

  function UniPort(id: string, no: uint32): SwitchPort {
    SwitchPort(id, OfpPort(no, "uni", 0, 0), "onu", 16, false)
  }

  /** A port that keeps its id and gets another number: the controller keeps the old number. */
  lemma RenumberedPortStays()
    ensures var oldList, newList := [UniPort("uni-1", 1)], [UniPort("uni-1", 2)];
            1 in Replay(ViewOf(oldList), AllEvents(oldList, newList)) && 1 !in ViewOf(newList)
  {
    var o, n := UniPort("uni-1", 1), UniPort("uni-1", 2);
    assert o in [o] && n in [n];
    StaleNumber([o], [n], o);
    ViewOfIs([n]);
  }

  /** A port that takes over the number of a deleted one: the controller loses the number. */
  lemma ReusedNumberIsLost()
    ensures var oldList, newList := [UniPort("uni-1", 1)], [UniPort("uni-2", 1)];
            1 !in Replay(ViewOf(oldList), AllEvents(oldList, newList)) && 1 in ViewOf(newList)
  {
    var o, n := UniPort("uni-1", 1), UniPort("uni-2", 1);
    assert "uni-1"[4] != "uni-2"[4];
    assert o in [o] && n in [n];
    DeletedNumber([o], [n], o);
    ViewOfIs([n]);
  }
}
