/**
 The OLT and the ONU adapters report the two ends of a PON link independently: the OLT's PON port is added by one, its
 peers by the others, in any order.
 */
module PonHandshake {
  import opened Voltha

  // What the two operations do to the ports of a device

  predicate SamePlace(p: Port, port: Port) {
    p.portType == port.portType && p.portNo == port.portNo
  }

  /** The position of the first port with the type and number, or the number of ports. */
  function FirstSame(ports: seq<Port>, port: Port): (i: nat)
    ensures i <= |ports| && (i < |ports| ==> SamePlace(ports[i], port))
    ensures forall j | 0 <= j < i :: !SamePlace(ports[j], port)
  {
    if ports == [] || SamePlace(ports[0], port) then 0 else 1 + FirstSame(ports[1..], port)
  }

  predicate IsDefault(p: Port) {
    p.name == "" && p.portType == PonOlt
  }

  /** A default PON port gets the reported name and status; another known port stays; a new one is enabled. */
  function WithPort(ports: seq<Port>, port: Port): seq<Port> {
    var i := FirstSame(ports, port);
    if i == |ports| then ports + [port.(adminState := AdminEnabled)]
    else if IsDefault(ports[i]) then ports[i := ports[i].(name := port.name, operStatus := port.operStatus)]
    else ports
  }

  function FirstNumber(ports: seq<Port>, portNo: uint32): (i: nat)
    ensures i <= |ports| && (i < |ports| ==> ports[i].portNo == portNo)
    ensures forall j | 0 <= j < i :: ports[j].portNo != portNo
  {
    if ports == [] || ports[0].portNo == portNo then 0 else 1 + FirstNumber(ports[1..], portNo)
  }

  function DefaultPort(peer: Peer, deviceId: string): Port {
    Port(peer.portNo, "", PonOlt, AdminEnabled, OperUnknown, deviceId, [peer])
  }

  /** The peer goes to the port with the number; a root device without one gets a default PON port. */
  function WithPeer(ports: seq<Port>, peer: Peer, deviceId: string, root: bool): seq<Port> {
    var i := FirstNumber(ports, peer.portNo);
    if i < |ports| then ports[i := ports[i].(peers := ports[i].peers + [peer])]
    else if root then ports + [DefaultPort(peer, deviceId)]
    else ports
  }

  /** In terms of the ports: only the first one with the type and number may change, and only if it is a default PON port. */
  ghost predicate PortReported(ports: seq<Port>, port: Port, r: seq<Port>) {
    if exists i :: IsFirstSame(ports, port, i) then
      && |r| == |ports|
      && forall i | 0 <= i < |ports| ::
           r[i] == if IsFirstSame(ports, port, i) && ports[i].name == "" && port.portType == PonOlt
                   then ports[i].(name := port.name, operStatus := port.operStatus) else ports[i]
    else r == ports + [port.(adminState := AdminEnabled)]
  }

  ghost predicate IsFirstSame(ports: seq<Port>, port: Port, i: int) {
    && 0 <= i < |ports| && ports[i].portType == port.portType && ports[i].portNo == port.portNo
    && forall j | 0 <= j < i :: ports[j].portType != port.portType || ports[j].portNo != port.portNo
  }

  /** Only the first port with the number gets the peer; without one, a root device gets a PON port without a name. */
  ghost predicate PeerReported(ports: seq<Port>, peer: Peer, deviceId: string, root: bool, r: seq<Port>) {
    if exists i :: IsFirstNumber(ports, peer.portNo, i) then
      && |r| == |ports|
      && forall i | 0 <= i < |ports| ::
           r[i] == if IsFirstNumber(ports, peer.portNo, i) then ports[i].(peers := ports[i].peers + [peer]) else ports[i]
    else
      r == ports + if root then [Port(peer.portNo, "", PonOlt, AdminEnabled, OperUnknown, deviceId, [peer])] else []
  }

  ghost predicate IsFirstNumber(ports: seq<Port>, no: uint32, i: int) {
    0 <= i < |ports| && ports[i].portNo == no && forall j | 0 <= j < i :: ports[j].portNo != no
  }

  lemma WithPortIs(ports: seq<Port>, port: Port)
    ensures PortReported(ports, port, WithPort(ports, port))
  {
    var i := FirstSame(ports, port);
    if i < |ports| {
      assert IsFirstSame(ports, port, i) && forall j :: IsFirstSame(ports, port, j) <==> j == i;
    }
  }

  lemma WithPeerIs(ports: seq<Port>, peer: Peer, deviceId: string, root: bool)
    ensures PeerReported(ports, peer, deviceId, root, WithPeer(ports, peer, deviceId, root))
  {
    var i := FirstNumber(ports, peer.portNo);
    if i < |ports| {
      assert IsFirstNumber(ports, peer.portNo, i) && forall j :: IsFirstNumber(ports, peer.portNo, j) <==> j == i;
    }
  }

  // The code

  method AddPort(ports: seq<Port>, port: Port) returns (updated: seq<Port>)
    ensures updated == WithPort(ports, port) && PortReported(ports, port, updated)
  {
    WithPortIs(ports, port);
    updated := ports;
    var updatePort := false;
    for i := 0 to |ports|
      invariant updated == ports && !updatePort && forall j | 0 <= j < i :: !SamePlace(ports[j], port)
    {
      var p := ports[i];
      if p.portType == port.portType && p.portNo == port.portNo {
        assert i == FirstSame(ports, port);
        if p.name == "" && p.portType == PonOlt {
          updated := updated[i := p.(name := port.name, operStatus := port.operStatus)];
          updatePort := true;
          break;
        }
        return;
      }
    }
    if !updatePort {
      updated := updated + [port.(adminState := AdminEnabled)];
    }
  }

  method AddPeerPort(ports: seq<Port>, peer: Peer, deviceId: string, isRootDevice: bool) returns (updated: seq<Port>)
    ensures updated == WithPeer(ports, peer, deviceId, isRootDevice) && PeerReported(ports, peer, deviceId, isRootDevice, updated)
  {
    WithPeerIs(ports, peer, deviceId, isRootDevice);
    updated := ports;
    var found := false;
    for i := 0 to |ports|
      invariant updated == ports && !found && forall j | 0 <= j < i :: ports[j].portNo != peer.portNo
    {
      if ports[i].portNo == peer.portNo {
        updated := updated[i := ports[i].(peers := ports[i].peers + [peer])];
        found := true;
        break;
      }
    }
    if !found && isRootDevice {
      updated := updated + [Port(peer.portNo, "", PonOlt, AdminEnabled, OperUnknown, deviceId, [peer])];
    }
  }

  // Runs

  datatype Event = PortAdded(port: Port) | PeerAdded(peer: Peer)

  function Number(e: Event): uint32 {
    if e.PortAdded? then e.port.portNo else e.peer.portNo
  }

  function After(ports: seq<Port>, e: Event, deviceId: string): seq<Port> {
    match e
    case PortAdded(port) => WithPort(ports, port)
    case PeerAdded(peer) => WithPeer(ports, peer, deviceId, true)
  }

  /** The ports of a root device after the events. */
  function Run(ports: seq<Port>, events: seq<Event>, deviceId: string): seq<Port> {
    if events == [] then ports
    else After(Run(ports, events[..|events| - 1], deviceId), events[|events| - 1], deviceId)
  }

  predicate UniquePlaces(ports: seq<Port>) {
    forall i, j | 0 <= i < j < |ports| :: !SamePlace(ports[i], ports[j])
  }

  lemma AfterKeepsUnique(ports: seq<Port>, e: Event, deviceId: string)
    requires UniquePlaces(ports)
    ensures UniquePlaces(After(ports, e, deviceId))
  {
  }

  /** No two ports ever share type and number. */
  lemma {:induction false} RunKeepsUnique(ports: seq<Port>, events: seq<Event>, deviceId: string)
    requires UniquePlaces(ports)
    ensures UniquePlaces(Run(ports, events, deviceId))
  {
    if events != [] {
      var n := |events| - 1;
      RunKeepsUnique(ports, events[..n], deviceId);
      AfterKeepsUnique(Run(ports, events[..n], deviceId), events[n], deviceId);
    }
  }

  // The ports with one number

  /** The ports with a number, in order. */
  function At(ports: seq<Port>, no: uint32): (s: seq<Port>)
    ensures forall p | p in s :: p in ports && p.portNo == no
  {
    if ports == [] then []
    else
      var rest := At(ports[1..], no);
      if ports[0].portNo == no then [ports[0]] + rest else rest
  }

  lemma {:induction false} AtConcat(a: seq<Port>, b: seq<Port>, no: uint32)
    ensures At(a + b, no) == At(a, no) + At(b, no)
  {
    if a == [] {
      assert a + b == b;
    } else {
      assert (a + b)[1..] == a[1..] + b;
      AtConcat(a[1..], b, no);
    }
  }

  lemma AtOne(p: Port, no: uint32)
    ensures At([p], no) == if p.portNo == no then [p] else []
  {
    assert [p][1..] == [];
  }

  /** The ports before, at and after a position. */
  lemma AtSplit(ports: seq<Port>, i: nat, p: Port, no: uint32)
    requires i < |ports|
    ensures At(ports[i := p], no) == At(ports[..i], no) + (if p.portNo == no then [p] else []) + At(ports[i + 1..], no)
  {
    assert ports[i := p] == ports[..i] + [p] + ports[i + 1..];
    AtConcat(ports[..i] + [p], ports[i + 1..], no);
    AtConcat(ports[..i], [p], no);
    AtOne(p, no);
  }

  /** An event under a number does to the ports with that number what it does to all ports; others do nothing. */
  lemma AtAfter(ports: seq<Port>, e: Event, deviceId: string, no: uint32)
    ensures At(After(ports, e, deviceId), no) == if Number(e) == no then After(At(ports, no), e, deviceId) else At(ports, no)
  {
    match e
    case PortAdded(port) => PortAddedAt(ports, port, no);
    case PeerAdded(peer) => PeerAddedAt(ports, peer, deviceId, no);
  }

  /** Changing a port, but not its number, changes it among the ports with that number, after those that came before it. */
  lemma AtUpdate(ports: seq<Port>, i: nat, p: Port, no: uint32)
    requires i < |ports| && p.portNo == ports[i].portNo
    ensures var at, k := At(ports, no), |At(ports[..i], no)|;
            if p.portNo != no then At(ports[i := p], no) == at
            else k < |at| && at[k] == ports[i] && at[..k] == At(ports[..i], no) && At(ports[i := p], no) == at[k := p]
  {
    assert ports[i := ports[i]] == ports;
    AtSplit(ports, i, ports[i], no);
    AtSplit(ports, i, p, no);
    Replaced(At(ports[..i], no), ports[i], p, At(ports[i + 1..], no));
  }

  lemma Replaced(a: seq<Port>, x: Port, y: Port, b: seq<Port>)
    ensures var s := a + [x] + b; s[|a|] == x && s[..|a|] == a && a + [y] + b == s[|a| := y]
  {
  }

  lemma FirstSameAt(ports: seq<Port>, port: Port)
    ensures var i, at := FirstSame(ports, port), At(ports, port.portNo);
            FirstSame(at, port) == if i == |ports| then |at| else |At(ports[..i], port.portNo)|
  {
    var i, at := FirstSame(ports, port), At(ports, port.portNo);
    if i == |ports| {
      assert forall k | 0 <= k < |at| :: at[k] in at;
    } else {
      AtUpdate(ports, i, ports[i], port.portNo);
      var before := At(ports[..i], port.portNo);
      assert forall k | 0 <= k < |before| :: before[k] in before && before[k] == at[k];
    }
  }

  lemma PortAddedAt(ports: seq<Port>, port: Port, no: uint32)
    ensures At(WithPort(ports, port), no) == if port.portNo == no then WithPort(At(ports, no), port) else At(ports, no)
  {
    var i := FirstSame(ports, port);
    FirstSameAt(ports, port);
    if i == |ports| {
      AtConcat(ports, [port.(adminState := AdminEnabled)], no);
      AtOne(port.(adminState := AdminEnabled), no);
    } else {
      AtUpdate(ports, i, ports[i].(name := port.name, operStatus := port.operStatus), no);
    }
  }

  lemma {:induction false} FirstNumberAt(ports: seq<Port>, no: uint32)
    ensures var i, at := FirstNumber(ports, no), At(ports, no);
            if i == |ports| then at == [] else at != [] && at[0] == ports[i] && At(ports[..i], no) == []
  {
    if ports != [] && ports[0].portNo != no {
      FirstNumberAt(ports[1..], no);
      var i := FirstNumber(ports, no);
      assert ports[..i][1..] == ports[1..][..i - 1];
    }
  }

  lemma PeerAddedAt(ports: seq<Port>, peer: Peer, deviceId: string, no: uint32)
    ensures At(WithPeer(ports, peer, deviceId, true), no)
            == if peer.portNo == no then WithPeer(At(ports, no), peer, deviceId, true) else At(ports, no)
  {
    var i := FirstNumber(ports, peer.portNo);
    FirstNumberAt(ports, peer.portNo);
    if i == |ports| {
      AtConcat(ports, [DefaultPort(peer, deviceId)], no);
      AtOne(DefaultPort(peer, deviceId), no);
    } else {
      AtUpdate(ports, i, ports[i].(peers := ports[i].peers + [peer]), no);
    }
  }

  /** The peer that an event reports for a number, if any. */
  function PeerOf(e: Event, no: uint32): multiset<Peer> {
    if e.PeerAdded? && e.peer.portNo == no then multiset{e.peer} else multiset{}
  }

  /** The peers reported for a number. */
  function PeersAt(events: seq<Event>, no: uint32): multiset<Peer> {
    if events == [] then multiset{} else PeersAt(events[..|events| - 1], no) + PeerOf(events[|events| - 1], no)
  }

  /** The peers of a number are those in the events, whatever the order. */
  lemma {:induction false} PeersAtCount(events: seq<Event>, no: uint32, peer: Peer)
    ensures PeersAt(events, no)[peer] == if peer.portNo == no then multiset(events)[PeerAdded(peer)] else 0
  {
    if events != [] {
      var n := |events| - 1;
      assert events == events[..n] + [events[n]];
      PeersAtCount(events[..n], no, peer);
    }
  }

  lemma SamePeers(events: seq<Event>, events': seq<Event>, no: uint32)
    requires forall peer :: multiset(events)[PeerAdded(peer)] == multiset(events')[PeerAdded(peer)]
    ensures PeersAt(events, no) == PeersAt(events', no)
  {
    forall peer ensures PeersAt(events, no)[peer] == PeersAt(events', no)[peer] {
      PeersAtCount(events, no, peer);
      PeersAtCount(events', no, peer);
    }
  }

  // The PON port

  /** What the handshake is about: the PON port under a number. */
  datatype View = View(name: string, adminState: AdminState, operStatus: OperStatus, peers: multiset<Peer>)

  function ViewOf(p: Port): View {
    View(p.name, p.adminState, p.operStatus, multiset(p.peers))
  }

  /** The first PON port of the list. */
  function PonOf(at: seq<Port>): Option<View> {
    if at == [] then None else if at[0].portType == PonOlt then Some(ViewOf(at[0])) else PonOf(at[1..])
  }

  function PonAt(ports: seq<Port>, no: uint32): Option<View> {
    PonOf(At(ports, no))
  }

  lemma {:induction false} PonOfAppend(at: seq<Port>, p: Port)
    ensures PonOf(at + [p]) == if PonOf(at).Some? then PonOf(at) else if p.portType == PonOlt then Some(ViewOf(p)) else None
  {
    if at == [] {
      assert at + [p] == [p];
    } else {
      assert (at + [p])[1..] == at[1..] + [p];
      PonOfAppend(at[1..], p);
    }
  }

  lemma {:induction false} PonOfIs(at: seq<Port>, i: nat, p: Port)
    requires i < |at| && at[i].portType == p.portType == PonOlt && forall j | 0 <= j < i :: at[j].portType != PonOlt
    ensures PonOf(at) == Some(ViewOf(at[i])) && PonOf(at[i := p]) == Some(ViewOf(p))
  {
    if i > 0 {
      assert at[i := p][1..] == at[1..][i - 1 := p];
      PonOfIs(at[1..], i - 1, p);
    }
  }

  /** No port has the type. */
  lemma {:induction false} NoPonOf(at: seq<Port>)
    requires forall p | p in at :: p.portType != PonOlt
    ensures PonOf(at) == None
  {
    if at != [] {
      assert at[0] in at;
      NoPonOf(at[1..]);
    }
  }

  /** A report of the PON port completes a default one, or adds it. */
  function Reported(pon: Option<View>, port: Port): View {
    match pon
    case None => View(port.name, AdminEnabled, port.operStatus, multiset(port.peers))
    case Some(v) => if v.name == "" then v.(name := port.name, operStatus := port.operStatus) else v
  }

  /** What a report of a port does to the PON port under the same number. */
  lemma PonAfterPort(at: seq<Port>, port: Port)
    requires forall p | p in at :: p.portNo == port.portNo
    ensures PonOf(WithPort(at, port)) == if port.portType == PonOlt then Some(Reported(PonOf(at), port)) else PonOf(at)
    ensures WithPort(at, port) != [] && WithPort(at, port)[0].portType == (if at == [] then port.portType else at[0].portType)
  {
    var i := FirstSame(at, port);
    assert forall j | 0 <= j < i :: at[j] in at && at[j].portType != port.portType;
    if i == |at| {
      PonOfAppend(at, port.(adminState := AdminEnabled));
      if port.portType == PonOlt { NoPonOf(at); }
    } else if port.portType == PonOlt {
      PonOfIs(at, i, if IsDefault(at[i]) then at[i].(name := port.name, operStatus := port.operStatus) else at[i]);
      assert at[i := at[i]] == at;
    }
  }

  /** A peer goes to the first port with the number, PON port or not. */
  lemma PonAfterPeer(at: seq<Port>, peer: Peer, deviceId: string)
    requires at != [] && forall p | p in at :: p.portNo == peer.portNo
    ensures var at' := WithPeer(at, peer, deviceId, true);
            && at' != [] && at'[0].portType == at[0].portType
            && PonOf(at') == if at[0].portType == PonOlt
                             then Some(ViewOf(at[0]).(peers := multiset(at[0].peers) + multiset{peer})) else PonOf(at)
  {
    assert at[0] in at;
    var p := at[0].(peers := at[0].peers + [peer]);
    assert WithPeer(at, peer, deviceId, true) == at[0 := p] && at[0 := p][1..] == at[1..];
  }

  /** Under the number, the PON port is only ever reported as `port`. */
  ghost predicate OnlyPon(events: seq<Event>, port: Port) {
    && port.portType == PonOlt
    && forall e | e in events && e.PortAdded? && e.port.portNo == port.portNo && e.port.portType == PonOlt :: e.port == port
  }

  /** No port of another type is reported under the number. */
  ghost predicate NoOtherType(events: seq<Event>, port: Port) {
    forall e | e in events && e.PortAdded? && e.port.portNo == port.portNo :: e.port.portType == port.portType
  }

  lemma LastEvent(events: seq<Event>, port: Port)
    requires events != [] && OnlyPon(events, port)
    ensures var n := |events| - 1;
            && OnlyPon(events[..n], port) && OnlyPon([events[n]], port)
            && (NoOtherType(events, port) ==> NoOtherType(events[..n], port) && NoOtherType([events[n]], port))
            && (PortAdded(port) in events <==> PortAdded(port) in events[..n] || events[n] == PortAdded(port))
  {
    var n := |events| - 1;
    assert events[n] in events;
    assert forall e | e in events[..n] :: e in events;
    assert events == events[..n] + [events[n]];
  }

  // A number that is already taken

  /** The PON port after some reports, when the first port under its number was there before. */
  function TakenView(first: PortType, pon: Option<View>, port: Port, added: bool, peers: multiset<Peer>): Option<View> {
    var v := if added then Some(Reported(pon, port)) else pon;
    if v.Some? && first == PonOlt then Some(v.value.(peers := v.value.peers + peers)) else v
  }

  /** Whoever is first under the number stays first, and gets all the peers. */
  lemma {:induction false} TakenStage(ports: seq<Port>, events: seq<Event>, deviceId: string, port: Port)
    requires At(ports, port.portNo) != [] && OnlyPon(events, port)
    ensures var no := port.portNo;
            var at, at' := At(ports, no), At(Run(ports, events, deviceId), no);
            && at' != [] && at'[0].portType == at[0].portType
            && PonOf(at') == TakenView(at[0].portType, PonOf(at), port, PortAdded(port) in events, PeersAt(events, no))
  {
    if events == [] {
      var at := At(ports, port.portNo);
      assert PonOf(at).Some? ==> PonOf(at).value.peers + multiset{} == PonOf(at).value.peers;
    } else {
      var n := |events| - 1;
      LastEvent(events, port);
      TakenStage(ports, events[..n], deviceId, port);
      var before := Run(ports, events[..n], deviceId);
      AtAfter(before, events[n], deviceId, port.portNo);
      var at := At(ports, port.portNo);
      var added, peers := PortAdded(port) in events[..n], PeersAt(events[..n], port.portNo);
      assert peers + multiset{} == peers;
      if Number(events[n]) == port.portNo {
        match events[n]
        case PortAdded(q) =>
          TakenPort(At(before, port.portNo), at[0].portType, PonOf(at), port, added, peers, q);
        case PeerAdded(peer) =>
          TakenPeer(At(before, port.portNo), at[0].portType, PonOf(at), port, added, peers, peer, deviceId);
      }
    }
  }

  /** The PON port of `at` is what the reports so far make of `pon`. */
  ghost predicate Taken(at: seq<Port>, first: PortType, pon: Option<View>, port: Port, added: bool, peers: multiset<Peer>) {
    && at != [] && at[0].portType == first && (forall p | p in at :: p.portNo == port.portNo)
    && PonOf(at) == TakenView(first, pon, port, added, peers) && (first == PonOlt ==> pon.Some?)
  }

  lemma TakenPort(at: seq<Port>, first: PortType, pon: Option<View>, port: Port, added: bool, peers: multiset<Peer>, q: Port)
    requires Taken(at, first, pon, port, added, peers) && OnlyPon([PortAdded(q)], port) && q.portNo == port.portNo
    ensures var at' := WithPort(at, q);
            && at' != [] && at'[0].portType == first
            && PonOf(at') == TakenView(first, pon, port, added || q == port, peers)
  {
    assert PortAdded(q) in [PortAdded(q)];
    PonAfterPort(at, q);
  }

  lemma TakenPeer(at: seq<Port>, first: PortType, pon: Option<View>, port: Port, added: bool, peers: multiset<Peer>, peer: Peer,
                  deviceId: string)
    requires Taken(at, first, pon, port, added, peers) && peer.portNo == port.portNo
    ensures var at' := WithPeer(at, peer, deviceId, true);
            && at' != [] && at'[0].portType == first
            && PonOf(at') == TakenView(first, pon, port, added, peers + multiset{peer})
  {
    PonAfterPeer(at, peer, deviceId);
    if first == PonOlt {
      var v := (if added then Reported(pon, port) else pon.value).peers;
      assert v + peers + multiset{peer} == v + (peers + multiset{peer});
    }
  }

  /** When the number is taken already, every order of the reports gives the same PON port. */
  lemma TakenNumberIsConfluent(ports: seq<Port>, events: seq<Event>, events': seq<Event>, deviceId: string, port: Port)
    requires At(ports, port.portNo) != [] && OnlyPon(events, port) && multiset(events) == multiset(events')
    ensures PonAt(Run(ports, events, deviceId), port.portNo) == PonAt(Run(ports, events', deviceId), port.portNo)
  {
    SameEvents(events, events');
    SamePeers(events, events', port.portNo);
    TakenStage(ports, events, deviceId, port);
    TakenStage(ports, events', deviceId, port);
  }

  lemma SameEvents(events: seq<Event>, events': seq<Event>)
    requires multiset(events) == multiset(events')
    ensures forall e :: e in events <==> e in events'
  {
    forall e ensures e in events <==> e in events' {
      assert e in events <==> e in multiset(events);
    }
  }

  // A number that is not taken yet

  /** How far the handshake got: whether the port was reported, and which peers. */
  ghost predicate Stage(at: seq<Port>, port: Port, added: bool, peers: multiset<Peer>) {
    if !added && peers == multiset{} then at == []
    else
      && |at| == 1 && at[0].portType == PonOlt && at[0].portNo == port.portNo && at[0].adminState == AdminEnabled
      && multiset(at[0].peers) == peers
      && at[0].name == (if added then port.name else "")
      && at[0].operStatus == (if added then port.operStatus else OperUnknown)
  }

  lemma {:induction false} HandshakeStage(ports: seq<Port>, events: seq<Event>, deviceId: string, port: Port)
    requires At(ports, port.portNo) == [] && OnlyPon(events, port) && NoOtherType(events, port) && port.peers == []
    ensures Stage(At(Run(ports, events, deviceId), port.portNo), port, PortAdded(port) in events, PeersAt(events, port.portNo))
  {
    if events != [] {
      var n := |events| - 1;
      LastEvent(events, port);
      HandshakeStage(ports, events[..n], deviceId, port);
      var before := Run(ports, events[..n], deviceId);
      AtAfter(before, events[n], deviceId, port.portNo);
      if Number(events[n]) == port.portNo {
        StageStep(At(before, port.portNo), port, PortAdded(port) in events[..n], PeersAt(events[..n], port.portNo), events[n], deviceId);
      } else {
        assert PeersAt(events[..n], port.portNo) + multiset{} == PeersAt(events[..n], port.portNo);
      }
    }
  }

  lemma StageStep(at: seq<Port>, port: Port, added: bool, peers: multiset<Peer>, e: Event, deviceId: string)
    requires OnlyPon([e], port) && NoOtherType([e], port) && port.peers == []
    requires Number(e) == port.portNo && Stage(at, port, added, peers)
    ensures Stage(After(at, e, deviceId), port, added || e == PortAdded(port), peers + PeerOf(e, port.portNo))
  {
    assert e in [e];
    if e.PortAdded? {
      assert peers + PeerOf(e, port.portNo) == peers;
      StagePort(at, port, added, peers);
    } else {
      StagePeer(at, port, added, peers, e.peer, deviceId);
    }
  }

  lemma StagePort(at: seq<Port>, port: Port, added: bool, peers: multiset<Peer>)
    requires port.portType == PonOlt && port.peers == [] && Stage(at, port, added, peers)
    ensures Stage(WithPort(at, port), port, true, peers)
  {
    if at != [] {
      assert at == [at[0]];
    }
  }

  lemma StagePeer(at: seq<Port>, port: Port, added: bool, peers: multiset<Peer>, peer: Peer, deviceId: string)
    requires peer.portNo == port.portNo && Stage(at, port, added, peers)
    ensures Stage(WithPeer(at, peer, deviceId, true), port, added, peers + multiset{peer})
  {
    if at != [] {
      assert at == [at[0]];
    }
  }

  /**
   However the reports of the PON port and of its peers are ordered, and whatever is reported under other numbers in
   between, the port ends up with the same name, the same status and the same peers.
   */
  lemma HandshakeConfluence(ports: seq<Port>, events: seq<Event>, events': seq<Event>, deviceId: string, port: Port)
    requires At(ports, port.portNo) == [] && OnlyPon(events, port) && NoOtherType(events, port) && port.peers == []
    requires PortAdded(port) in events
    requires multiset(events) == multiset(events')
    ensures var a, b := At(Run(ports, events, deviceId), port.portNo), At(Run(ports, events', deviceId), port.portNo);
            && |a| == |b| == 1
            && a[0].name == b[0].name == port.name
            && a[0].operStatus == b[0].operStatus == port.operStatus
            && multiset(a[0].peers) == multiset(b[0].peers) == PeersAt(events, port.portNo)
  {
    SameEvents(events, events');
    SamePeers(events, events', port.portNo);
    HandshakeStage(ports, events, deviceId, port);
    HandshakeStage(ports, events', deviceId, port);
  }

  /** Every order of the reports gives the same PON port. */
  ghost predicate Confluent(ports: seq<Port>, events: seq<Event>, deviceId: string, no: uint32) {
    forall a, b | multiset(a) == multiset(events) && multiset(b) == multiset(events) ::
      PonAt(Run(ports, a, deviceId), no) == PonAt(Run(ports, b, deviceId), no)
  }

  lemma {:induction false} RunCons(ports: seq<Port>, e: Event, rest: seq<Event>, deviceId: string)
    ensures Run(ports, [e] + rest, deviceId) == Run(After(ports, e, deviceId), rest, deviceId)
  {
    if rest == [] {
      assert [e] + rest == [e] && [e][..0] == [] && Run(ports, [], deviceId) == ports;
    } else {
      var all, n := [e] + rest, |rest| - 1;
      assert all[..|all| - 1] == [e] + rest[..n] && all[|all| - 1] == rest[n];
      RunCons(ports, e, rest[..n], deviceId);
    }
  }

  /** The events without the one at `i`. */
  function Others(events: seq<Event>, i: nat): seq<Event>
    requires i < |events|
  {
    events[..i] + events[i + 1..]
  }

  /** The events with the one at `i` first. */
  function Moved(events: seq<Event>, i: nat): seq<Event>
    requires i < |events|
  {
    [events[i]] + Others(events, i)
  }

  lemma MovedSame(events: seq<Event>, i: nat)
    requires i < |events|
    ensures multiset(Moved(events, i)) == multiset(events)
  {
    assert events == events[..i] + [events[i]] + events[i + 1..];
  }

  lemma OthersIn(events: seq<Event>, i: nat, port: Port)
    requires i < |events| && OnlyPon(events, port)
    ensures OnlyPon(Others(events, i), port)
    ensures PortAdded(port) in events && events[i] != PortAdded(port) ==> PortAdded(port) in Others(events, i)
  {
    assert events == events[..i] + [events[i]] + events[i + 1..];
    assert forall e | e in Others(events, i) :: e in events;
  }

  lemma PeersOfMoved(events: seq<Event>, i: nat, no: uint32)
    requires i < |events|
    ensures PeersAt(events, no) == PeerOf(events[i], no) + PeersAt(Others(events, i), no)
  {
    assert events == events[..i] + [events[i]] + events[i + 1..];
    forall peer ensures PeersAt(events, no)[peer] == (PeerOf(events[i], no) + PeersAt(Others(events, i), no))[peer] {
      PeersAtCount(events, no, peer);
      PeersAtCount(Others(events, i), no, peer);
    }
  }

  /** The first port under a number takes it. */
  lemma TakesNumber(ports: seq<Port>, port: Port, deviceId: string)
    requires At(ports, port.portNo) == []
    ensures At(After(ports, PortAdded(port), deviceId), port.portNo) == [port.(adminState := AdminEnabled)]
  {
    AtAfter(ports, PortAdded(port), deviceId, port.portNo);
    assert WithPort([], port) == [port.(adminState := AdminEnabled)];
  }

  /** The report of `q` first, then all others: all peers go to `q`. */
  lemma ReportedFirst(ports: seq<Port>, events: seq<Event>, i: nat, deviceId: string, port: Port)
    requires At(ports, port.portNo) == [] && OnlyPon(events, port) && PortAdded(port) in events
    requires i < |events| && events[i].PortAdded? && events[i].port.portNo == port.portNo
    ensures var pon := PonAt(Run(ports, Moved(events, i), deviceId), port.portNo);
            && pon.Some?
            && pon.value.peers == multiset(port.peers)
                                  + if events[i].port.portType == PonOlt then PeersAt(events, port.portNo) else multiset{}
  {
    var no, q, rest := port.portNo, events[i].port, Others(events, i);
    OthersIn(events, i, port);
    var after := After(ports, PortAdded(q), deviceId);
    RunCons(ports, PortAdded(q), rest, deviceId);
    TakesNumber(ports, q, deviceId);
    assert events[i] in events;
    TakenStage(after, rest, deviceId, port);
    PeersOfMoved(events, i, no);
    assert multiset{} + PeersAt(rest, no) == PeersAt(rest, no);
    TakenFirst(q, port, PortAdded(port) in rest, PeersAt(rest, no));
  }

  lemma TakenFirst(q: Port, port: Port, added: bool, peers: multiset<Peer>)
    requires port.portType == PonOlt && (q.portType == PonOlt ==> q == port)
    requires q.portType != PonOlt ==> added
    ensures var pon := TakenView(q.portType, PonOf([q.(adminState := AdminEnabled)]), port, added, peers);
            pon.Some? && pon.value.peers == multiset(port.peers) + if q.portType == PonOlt then peers else multiset{}
  {
    assert [q.(adminState := AdminEnabled)][1..] == [];
    assert multiset(port.peers) + multiset{} == multiset(port.peers);
  }

  /** Without another type under the number, every order gives this PON port. */
  lemma OneView(ports: seq<Port>, events: seq<Event>, events': seq<Event>, deviceId: string, port: Port)
    requires At(ports, port.portNo) == [] && OnlyPon(events, port) && NoOtherType(events, port) && port.peers == []
    requires PortAdded(port) in events
    requires multiset(events') == multiset(events)
    ensures PonAt(Run(ports, events', deviceId), port.portNo)
            == Some(View(port.name, AdminEnabled, port.operStatus, PeersAt(events, port.portNo)))
  {
    SameEvents(events, events');
    SamePeers(events, events', port.portNo);
    assert OnlyPon(events', port) && NoOtherType(events', port);
    HandshakeStage(ports, events', deviceId, port);
  }

  /** With a report of a peer first, the port is a default one and never gets the peers that its own report lists. */
  lemma PeerFirst(ports: seq<Port>, events: seq<Event>, i: nat, deviceId: string, port: Port)
    requires At(ports, port.portNo) == [] && OnlyPon(events, port) && PortAdded(port) in events
    requires i < |events| && events[i].PeerAdded? && events[i].peer.portNo == port.portNo
    ensures var pon := PonAt(Run(ports, Moved(events, i), deviceId), port.portNo);
            pon.Some? && pon.value.peers == PeersAt(events, port.portNo)
  {
    var no, peer, rest := port.portNo, events[i].peer, Others(events, i);
    OthersIn(events, i, port);
    RunCons(ports, PeerAdded(peer), rest, deviceId);
    AtAfter(ports, PeerAdded(peer), deviceId, no);
    assert WithPeer([], peer, deviceId, true) == [DefaultPort(peer, deviceId)];
    TakenStage(After(ports, PeerAdded(peer), deviceId), rest, deviceId, port);
    PeersOfMoved(events, i, no);
    TakenDefault(peer, port, deviceId, PortAdded(port) in rest, PeersAt(rest, no));
  }

  lemma TakenDefault(peer: Peer, port: Port, deviceId: string, added: bool, peers: multiset<Peer>)
    ensures var pon := TakenView(PonOlt, PonOf([DefaultPort(peer, deviceId)]), port, added, peers);
            pon.Some? && pon.value.peers == multiset{peer} + peers
  {
  }

  /** With another type under the number, the order of the two ports tells the runs apart. */
  lemma OtherTypeFirst(ports: seq<Port>, events: seq<Event>, i: nat, j: nat, deviceId: string, port: Port)
    requires At(ports, port.portNo) == [] && OnlyPon(events, port) && PeersAt(events, port.portNo) != multiset{}
    requires i < |events| && events[i].PortAdded? && events[i].port.portNo == port.portNo && events[i].port.portType != PonOlt
    requires j < |events| && events[j] == PortAdded(port)
    ensures !Confluent(ports, events, deviceId, port.portNo)
  {
    assert events[j] in events;
    ReportedFirst(ports, events, i, deviceId, port);
    ReportedFirst(ports, events, j, deviceId, port);
    Bigger(multiset(port.peers), PeersAt(events, port.portNo));
    MovedSame(events, i);
    MovedSame(events, j);
    Disagree(ports, events, Moved(events, i), Moved(events, j), deviceId, port.portNo);
  }

  /** With peers in its own report, the order of the port and of a peer tells the runs apart. */
  lemma OwnPeersLost(ports: seq<Port>, events: seq<Event>, i: nat, j: nat, deviceId: string, port: Port)
    requires At(ports, port.portNo) == [] && OnlyPon(events, port) && port.peers != []
    requires i < |events| && events[i].PeerAdded? && events[i].peer.portNo == port.portNo
    requires j < |events| && events[j] == PortAdded(port)
    ensures !Confluent(ports, events, deviceId, port.portNo)
  {
    assert events[j] in events;
    PeerFirst(ports, events, i, deviceId, port);
    ReportedFirst(ports, events, j, deviceId, port);
    assert port.peers[0] in multiset(port.peers);
    Bigger(PeersAt(events, port.portNo), multiset(port.peers));
    MovedSame(events, i);
    MovedSame(events, j);
    Disagree(ports, events, Moved(events, i), Moved(events, j), deviceId, port.portNo);
  }

  lemma Bigger(a: multiset<Peer>, b: multiset<Peer>)
    requires b != multiset{}
    ensures a + b != a + multiset{} && b + a != a
  {
    assert |a + b| == |a| + |b|;
  }

  lemma Disagree(ports: seq<Port>, events: seq<Event>, a: seq<Event>, b: seq<Event>, deviceId: string, no: uint32)
    requires multiset(a) == multiset(events) && multiset(b) == multiset(events)
    requires PonAt(Run(ports, a, deviceId), no) != PonAt(Run(ports, b, deviceId), no)
    ensures !Confluent(ports, events, deviceId, no)
  {
  }

  lemma {:induction false} SomePeer(events: seq<Event>, no: uint32) returns (i: nat)
    requires PeersAt(events, no) != multiset{}
    ensures i < |events| && events[i].PeerAdded? && events[i].peer.portNo == no
  {
    i := |events| - 1;
    if PeerOf(events[i], no) == multiset{} {
      i := SomePeer(events[..i], no);
    }
  }

  /**
   With the port and at least one peer reported under a number that is not taken yet, every order gives the same PON port
   if and only if no port of another type is reported under the number and the port is reported without peers.
   */
  lemma HandshakeIff(ports: seq<Port>, events: seq<Event>, deviceId: string, port: Port)
    requires At(ports, port.portNo) == [] && OnlyPon(events, port) && PortAdded(port) in events
    requires PeersAt(events, port.portNo) != multiset{}
    ensures Confluent(ports, events, deviceId, port.portNo) <==> NoOtherType(events, port) && port.peers == []
  {
    var j :| 0 <= j < |events| && events[j] == PortAdded(port);
    if !NoOtherType(events, port) {
      var i :| 0 <= i < |events| && events[i].PortAdded? && events[i].port.portNo == port.portNo && events[i].port.portType != PonOlt;
      OtherTypeFirst(ports, events, i, j, deviceId, port);
    } else if port.peers != [] {
      var i := SomePeer(events, port.portNo);
      OwnPeersLost(ports, events, i, j, deviceId, port);
    } else {
      forall a, b | multiset(a) == multiset(events) && multiset(b) == multiset(events)
        ensures PonAt(Run(ports, a, deviceId), port.portNo) == PonAt(Run(ports, b, deviceId), port.portNo)
      {
        OneView(ports, events, a, deviceId, port);
        OneView(ports, events, b, deviceId, port);
      }
    }
  }

  /** An NNI port and a PON port under one number: the order of the reports decides which of them gets the peer. */
  lemma SharedNumberIsNotConfluent(deviceId: string)
    ensures var nni := Port(1, "nni", EthernetNni, AdminEnabled, OperActive, deviceId, []);
            var pon := Port(1, "pon", PonOlt, AdminEnabled, OperActive, deviceId, []);
            var peer := Peer("onu", 1);
            && Run([], [PortAdded(nni), PortAdded(pon), PeerAdded(peer)], deviceId) == [nni.(peers := [peer]), pon]
            && Run([], [PortAdded(pon), PortAdded(nni), PeerAdded(peer)], deviceId) == [pon.(peers := [peer]), nni]
  {
    var nni := Port(1, "nni", EthernetNni, AdminEnabled, OperActive, deviceId, []);
    var pon := Port(1, "pon", PonOlt, AdminEnabled, OperActive, deviceId, []);
    var peer := Peer("onu", 1);
    RunThree(PortAdded(nni), PortAdded(pon), PeerAdded(peer), deviceId);
    RunThree(PortAdded(pon), PortAdded(nni), PeerAdded(peer), deviceId);
    assert WithPort([], nni) == [nni] && WithPort([], pon) == [pon];
    assert [nni][1..] == [] && [pon][1..] == [];
    assert FirstSame([nni], pon) == 1 && FirstSame([pon], nni) == 1;
    assert [nni] + [pon] == [nni, pon] && [pon] + [nni] == [pon, nni];
    assert FirstNumber([nni, pon], 1) == 0 && FirstNumber([pon, nni], 1) == 0;
    assert [nni, pon][0 := nni.(peers := [peer])] == [nni.(peers := [peer]), pon];
    assert [pon, nni][0 := pon.(peers := [peer])] == [pon.(peers := [peer]), nni];
    assert [] + [peer] == [peer];
  }

  lemma RunThree(a: Event, b: Event, c: Event, deviceId: string)
    ensures Run([], [a, b, c], deviceId) == After(After(After([], a, deviceId), b, deviceId), c, deviceId)
  {
    assert [a, b, c][..2] == [a, b] && [a, b][..1] == [a] && [a][..0] == [];
    assert Run([], [a], deviceId) == After([], a, deviceId);
    assert Run([], [a, b], deviceId) == After(After([], a, deviceId), b, deviceId);
  }
}
