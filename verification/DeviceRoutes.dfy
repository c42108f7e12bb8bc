/**
 The route cache of a logical device.  The device model is an argument of every operation that reads it, because it
 changes between calls.  `t` names the physical tree that the routes are to follow; it is used in contracts only.
 */
module DeviceRoute {
  import opened Voltha
  import opened RouteSpec
  import opened RouteCount
  import PortKeys

  type Model = map<string, Device>

  datatype RouteError =
    | NotEnoughLogicalPorts
    | NoNniPort
    | DeviceNotFound(id: string)
    | NoPort(id: string)
    | NoChildPonPort(id: string)
    | NoUniAndNniCombination
    | NoPonPorts(id: string)

  datatype Outcome = Pass | Fail(error: RouteError)

  // PON ports

  predicate IsPon(port: Port) {
    port.portType.PonOnu? || port.portType.PonOlt?
  }

  predicate HasPeer(port: Port, peerId: string) {
    exists i | 0 <= i < |port.peers| :: port.peers[i].deviceId == peerId
  }

  /** The PON ports of a device, in order. */
  function PonPorts(ports: seq<Port>): (s: seq<Port>)
    ensures forall p :: p in s <==> p in ports && IsPon(p)
  {
    if ports == [] then []
    else
      var n := |ports| - 1;
      assert ports == ports[..n] + [ports[n]];
      var rest := PonPorts(ports[..n]);
      if IsPon(ports[n]) then rest + [ports[n]] else rest
  }

  /** `port`, once for each of the first peers that is `peerId`. */
  function Copies(port: Port, peers: seq<Peer>, peerId: string): (s: seq<Port>)
    ensures forall p | p in s :: p == port
    ensures port in s <==> exists i | 0 <= i < |peers| :: peers[i].deviceId == peerId
  {
    if peers == [] then []
    else
      var n := |peers| - 1;
      var rest := Copies(port, peers[..n], peerId);
      if peers[n].deviceId == peerId then rest + [port] else rest
  }

  /** The ports with a peer on `peerId`, in order, once per such peer. */
  function PortsTowards(ports: seq<Port>, peerId: string): (s: seq<Port>)
    ensures forall p :: p in s <==> p in ports && HasPeer(p, peerId)
  {
    if ports == [] then []
    else
      var n := |ports| - 1;
      assert ports == ports[..n] + [ports[n]];
      PortsTowards(ports[..n], peerId) + Copies(ports[n], ports[n].peers, peerId)
  }

  // What the device model must say for the routes to follow a topology

  /** A PON port of an ONU towards the OLT: the one of its link, with the OLT as its only peer. */
  predicate LinkPort(t: Topology, onu: string, port: Port) {
    && onu in t.links
    && port.portNo == t.links[onu].ponPort
    && port.peers == [Peer(t.root, t.links[onu].oltPort)]
  }

  ghost predicate OnuOk(t: Topology, model: Model, onu: string) {
    && onu in model && onu in t.links && model[onu].id == onu
    && (exists port | port in model[onu].ports :: IsPon(port) && HasPeer(port, t.root))
    && (forall port | port in model[onu].ports && IsPon(port) && HasPeer(port, t.root) :: LinkPort(t, onu, port))
  }

  predicate HasUniPort(device: Device, portNo: uint32) {
    exists i | 0 <= i < |device.ports| :: device.ports[i].portType.EthernetUni? && device.ports[i].portNo == portNo
  }

  predicate IsAttached(olt: Device, onu: string) {
    exists i, j | 0 <= i < |olt.ports| && 0 <= j < |olt.ports[i].peers| ::
      olt.ports[i].portType.PonOlt? && olt.ports[i].peers[j].deviceId == onu
  }

  /** A device attached to a PON port of the OLT is an ONU with its link on that port. */
  ghost predicate PeerOk(t: Topology, model: Model, port: Port, peer: Peer) {
    OnuOk(t, model, peer.deviceId) && t.links[peer.deviceId].oltPort == port.portNo
  }

  ghost predicate OltOk(t: Topology, model: Model) {
    && t.root in model && model[t.root].id == t.root && model[t.root].ports != []
    && forall port, peer {:trigger PeerOk(t, model, port, peer)} |
         port in model[t.root].ports && port.portType.PonOlt? && peer in port.peers :: PeerOk(t, model, port, peer)
  }

  /** The ONU of a UNI port is attached to the OLT and has the physical port. */
  ghost predicate UniThere(t: Topology, model: Model, lp: LogicalPort)
    requires t.root in model
  {
    && OnuOk(t, model, lp.deviceId) && IsAttached(model[t.root], lp.deviceId)
    && HasUniPort(model[lp.deviceId], lp.devicePortNo)
  }

  /** The model shows the OLT with every attached ONU, each on the PON port of its link, and the place of every UNI. */
  ghost predicate Realises(t: Topology, model: Model, lps: seq<LogicalPort>) {
    && OltOk(t, model)
    && forall lp {:trigger UniThere(t, model, lp)} | lp in lps && !lp.rootPort :: UniThere(t, model, lp)
  }

  ghost predicate Good(t: Topology, model: Model, lps: seq<LogicalPort>) {
    WellPlaced(t, lps) && Realises(t, model, lps)
  }

  // The places of the logical ports

  function Place(lp: LogicalPort): string {
    PortKeys.Concat(lp.deviceId, lp.devicePortNo)
  }

  type Places = map<string, uint32>

  /** Every place in the map is that of one of the ports. */
  ghost predicate PlaceOf(lps: seq<LogicalPort>, places: Places, key: string)
    requires key in places
  {
    exists lp | lp in lps :: Place(lp) == key && lp.portNo == places[key]
  }

  ghost predicate PlacesOk(lps: seq<LogicalPort>, places: Places) {
    && (forall lp | lp in lps :: Place(lp) in places)
    && (forall key {:trigger PlaceOf(lps, places, key)} | key in places :: PlaceOf(lps, places, key))
  }

  /** The map from places to port numbers; of two ports at one place the later one counts. */
  function PlacesMap(lps: seq<LogicalPort>): Places {
    if lps == [] then map[]
    else PlacesMap(lps[..|lps| - 1])[Place(lps[|lps| - 1]) := lps[|lps| - 1].portNo]
  }

  lemma {:induction false} PlacesMapOk(lps: seq<LogicalPort>)
    ensures PlacesOk(lps, PlacesMap(lps))
  {
    if lps != [] {
      var n := |lps| - 1;
      var init, places := lps[..n], PlacesMap(lps);
      assert lps == init + [lps[n]];
      PlacesMapOk(init);
      forall key {:trigger PlaceOf(lps, places, key)} | key in places ensures PlaceOf(lps, places, key) {
        if key != Place(lps[n]) {
          assert PlaceOf(init, PlacesMap(init), key);
        }
      }
    }
  }

  method FindPlaces(lps: seq<LogicalPort>) returns (places: Places, nniPorts: seq<LogicalPort>, rootPorts: map<uint32, uint32>)
    ensures PlacesOk(lps, places)
    ensures nniPorts == NniPorts(lps)
    ensures rootPorts == NniNumbers(lps)
  {
    places, nniPorts, rootPorts := map[], [], map[];
    for i := 0 to |lps|
      invariant places == PlacesMap(lps[..i])
      invariant nniPorts == NniPorts(lps[..i])
      invariant rootPorts == NniNumbers(lps[..i])
    {
      var lp := lps[i];
      assert lps[..i + 1][..i] == lps[..i];
      places := places[Place(lp) := lp.portNo];
      if lp.rootPort {
        nniPorts := nniPorts + [lp];
        rootPorts := rootPorts[lp.portNo := lp.portNo];
      }
    }
    assert lps[..|lps|] == lps;
    PlacesMapOk(lps);
  }

  /** A port found at a place of an ONU is the UNI port that is there. */
  lemma FoundPlace(t: Topology, lps: seq<LogicalPort>, places: Places, onu: string, portNo: uint32) returns (lp: LogicalPort)
    requires WellPlaced(t, lps) && PlacesOk(lps, places) && onu != t.root
    requires PortKeys.Concat(onu, portNo) in places
    ensures lp in lps && !lp.rootPort && lp.deviceId == onu && lp.devicePortNo == portNo
    ensures places[PortKeys.Concat(onu, portNo)] == lp.portNo
    ensures forall u | u in lps && u.deviceId == onu && u.devicePortNo == portNo :: u == lp
  {
    var key := PortKeys.Concat(onu, portNo);
    assert PlaceOf(lps, places, key);
    lp :| lp in lps && Place(lp) == key && lp.portNo == places[key];
    PortKeys.ConcatInjective(lp.deviceId, lp.devicePortNo, onu, portNo);
  }

  // The reverse of a route

  method GetReverseRoute(route: seq<Hop>) returns (reverse: seq<Hop>)
    ensures reverse == Reverse(route)
  {
    var hops := new Hop[|route|](_ => Hop("", 0, 0));
    var i, j := 0, |route| - 1;
    while j >= 0
      invariant 0 <= i <= |route| && j == |route| - 1 - i
      invariant forall k | 0 <= k < i :: hops[k] == ReverseHop(route[|route| - 1 - k])
    {
      hops[i] := Hop(route[j].deviceId, route[j].egress, route[j].ingress);
      i, j := i + 1, j - 1;
    }
    reverse := hops[..];
  }

  type PonCache = map<string, seq<Port>>

  /** What the cache of PON ports says about an ONU's port towards the OLT agrees with its link. */
  ghost predicate CacheOk(t: Topology, cache: PonCache) {
    forall d {:trigger CachedOk(t, d, cache)} | d in cache && d in t.links :: CachedOk(t, d, cache)
  }

  ghost predicate CachedOk(t: Topology, d: string, cache: PonCache)
    requires d in cache
  {
    forall port | port in cache[d] && HasPeer(port, t.root) :: LinkPort(t, d, port)
  }

  function CachedPorts(cache: PonCache, id: string): seq<Port> {
    if id in cache then cache[id] else []
  }

  function Remember(cache: PonCache, id: string, ports: seq<Port>): PonCache {
    if ports == [] then cache else cache[id := CachedPorts(cache, id) + ports]
  }

  lemma RememberMore(cache: PonCache, id: string, ports: seq<Port>, port: Port)
    ensures var before := Remember(cache, id, ports);
            Remember(cache, id, ports + [port]) == before[id := CachedPorts(before, id) + [port]]
  {
    assert CachedPorts(cache, id) + (ports + [port]) == CachedPorts(cache, id) + ports + [port];
    assert ports == [] ==> ports + [port] == [port];
  }

  /** The cache of PON ports after a device was read: its PON ports are appended. */
  function Cached(cache: PonCache, device: Device): PonCache {
    Remember(cache, device.id, PonPorts(device.ports))
  }

  /** Reading an ONU or the OLT keeps the cache in agreement with the links. */
  lemma CacheGrown(t: Topology, model: Model, id: string, cache: PonCache)
    requires CacheOk(t, cache) && (OnuOk(t, model, id) || (OltOk(t, model) && id == t.root && t.root !in t.links))
    ensures CacheOk(t, Cached(cache, model[id]))
  {
    var cache' := Cached(cache, model[id]);
    forall d {:trigger CachedOk(t, d, cache')} | d in cache' && d in t.links ensures CachedOk(t, d, cache') {
      assert d in cache ==> CachedOk(t, d, cache);
    }
  }

  /** Once an ONU is read, its cache entry leads to the OLT, and only over its link. */
  lemma CachedOnu(t: Topology, model: Model, onu: string, cache: PonCache)
    requires CacheOk(t, cache) && OnuOk(t, model, onu)
    ensures var ports := PortsTowards(CachedPorts(Cached(cache, model[onu]), onu), t.root);
            ports != [] && forall port | port in ports :: LinkPort(t, onu, port)
  {
    var port :| port in model[onu].ports && IsPon(port) && HasPeer(port, t.root);
    var cache' := Cached(cache, model[onu]);
    assert port in CachedPorts(cache', onu);
    assert port in PortsTowards(CachedPorts(cache', onu), t.root);
    CacheGrown(t, model, onu, cache);
    assert CachedOk(t, onu, cache');
  }

  /** What the cache has for an ONU leads to the OLT only over its link. */
  lemma CachedLink(t: Topology, onu: string, cache: PonCache)
    requires CacheOk(t, cache) && onu in t.links
    ensures forall port | port in PortsTowards(CachedPorts(cache, onu), t.root) :: LinkPort(t, onu, port)
  {
    assert onu in cache ==> CachedOk(t, onu, cache);
  }

  /** The position of the first port with another number, or the number of ports. */
  function FirstOther(ports: seq<LogicalPort>, portNo: uint32): (i: nat)
    ensures i <= |ports| && (i < |ports| ==> ports[i].portNo != portNo)
    ensures forall j | 0 <= j < i :: ports[j].portNo == portNo
  {
    if ports == [] || ports[0].portNo != portNo then 0 else 1 + FirstOther(ports[1..], portNo)
  }

  function OtherIn(ports: seq<LogicalPort>, portNo: uint32): Option<LogicalPort> {
    var i := FirstOther(ports, portNo);
    if i < |ports| then Some(ports[i]) else None
  }

  lemma OtherInNext(ports: seq<LogicalPort>, port: LogicalPort, portNo: uint32)
    ensures OtherIn(ports + [port], portNo)
            == if OtherIn(ports, portNo).None? && port.portNo != portNo then Some(port) else OtherIn(ports, portNo)
  {
    var i, all := FirstOther(ports, portNo), ports + [port];
    assert i < |ports| ==> all[i] == ports[i];
    assert forall j | 0 <= j < |ports| :: all[j] == ports[j];
    assert all[|ports|] == port;
  }

  lemma NniPortsNext(lps: seq<LogicalPort>, i: nat)
    requires i < |lps|
    ensures NniPorts(lps[..i + 1]) == NniPorts(lps[..i]) + if lps[i].rootPort then [lps[i]] else []
  {
    assert lps[..i + 1][..i] == lps[..i];
  }

  class DeviceRoutes {
    var logicalPorts: seq<LogicalPort>
    var RootPorts: map<uint32, uint32>
    var Routes: Routes
    var devicesPonPorts: PonCache

    /** Every cached route has its two hops. */
    ghost predicate Valid()
      reads this
    {
      forall key | key in Routes :: |Routes[key]| == 2
    }

    ghost predicate IsReset()
      reads this
    {
      Routes == map[] && RootPorts == map[] && logicalPorts == [] && devicesPonPorts == map[]
    }

    constructor ()
      ensures Valid() && IsReset()
    {
      logicalPorts, RootPorts, Routes, devicesPonPorts := [], map[], map[], map[];
    }

    method Reset()
      modifies this
      ensures Valid() && IsReset()
    {
      RootPorts, Routes, logicalPorts, devicesPonPorts := map[], map[], [], map[];
    }

    /** Reads a device from the model and remembers its PON ports. */
    method GetDevice(model: Model, id: string) returns (r: Option<Device>)
      modifies this`devicesPonPorts
      ensures r == if id in model then Some(model[id]) else None
      ensures devicesPonPorts == if id in model then Cached(old(devicesPonPorts), model[id]) else old(devicesPonPorts)
    {
      if id !in model {
        return None;
      }
      var device := model[id];
      ghost var cache := devicesPonPorts;
      for i := 0 to |device.ports|
        invariant devicesPonPorts == Remember(cache, device.id, PonPorts(device.ports[..i]))
      {
        var port := device.ports[i];
        assert device.ports[..i + 1][..i] == device.ports[..i];
        if port.portType.PonOnu? || port.portType.PonOlt? {
          RememberMore(cache, device.id, PonPorts(device.ports[..i]), port);
          devicesPonPorts := devicesPonPorts[device.id := CachedPorts(devicesPonPorts, device.id) + [port]];
        }
      }
      assert device.ports[..|device.ports|] == device.ports;
      return Some(device);
    }

    /** The cached PON ports of a device that lead to `peerId`. */
    method GetDevicePonPorts(deviceId: string, peerId: string) returns (ponPorts: seq<Port>)
      ensures ponPorts == PortsTowards(CachedPorts(devicesPonPorts, deviceId), peerId)
    {
      ponPorts := [];
      if deviceId !in devicesPonPorts {
        return;
      }
      var ports := devicesPonPorts[deviceId];
      for i := 0 to |ports|
        invariant ponPorts == PortsTowards(ports[..i], peerId)
      {
        var port := ports[i];
        for j := 0 to |port.peers|
          invariant ponPorts == PortsTowards(ports[..i], peerId) + Copies(port, port.peers[..j], peerId)
        {
          assert port.peers[..j + 1][..j] == port.peers[..j];
          if port.peers[j].deviceId == peerId {
            ponPorts := ponPorts + [port];
          }
        }
        assert ports[..i + 1][..i] == ports[..i] && port.peers[..|port.peers|] == port.peers;
      }
      assert ports[..|ports|] == ports;
    }

    /** Gives a further NNI port the routes of an existing one, visiting the cache in any order. */
    method CopyFromExistingNniRoutes(newNni: LogicalPort, copyFrom: LogicalPort, ghost t: Topology, ghost pairs: iset<Pair>)
      requires Valid()
      modifies this`Routes
      ensures Valid()
      ensures old(Exactly(t, pairs, Routes)) && CanCopy(t, pairs, newNni, copyFrom) ==>
                Exactly(t, pairs + CopiedPairs(pairs, newNni, copyFrom), Routes)
    {
      ghost var all := pairs + CopiedPairs(pairs, newNni, copyFrom);
      ghost var good := Exactly(t, pairs, Routes) && CanCopy(t, pairs, newNni, copyFrom);
      var updated: Routes := map[];
      var todo := Routes.Keys;
      while todo != {}
        invariant Routes == old(Routes) && todo <= Routes.Keys
        invariant forall key | key in updated :: |updated[key]| == 2
        invariant Routes.Keys - todo <= updated.Keys
        invariant good ==> AllExplained(t, all, updated)
        invariant good ==> forall p | p in pairs && p.nni == copyFrom ::
                    && (Down(p) in Routes.Keys - todo ==> Down(Pair(newNni, p.uni)) in updated)
                    && (Up(p) in Routes.Keys - todo ==> Up(Pair(newNni, p.uni)) in updated)
      {
        var key :| key in todo;
        var val := Routes[key];
        ghost var before := updated;
        if key.ingress == copyFrom.portNo {
          updated := updated[PathID(newNni.portNo, key.egress) :=
            [Hop(newNni.deviceId, newNni.devicePortNo, val[0].egress), val[1]]];
        }
        if key.egress == copyFrom.portNo {
          updated := updated[PathID(key.ingress, newNni.portNo) :=
            [val[0], Hop(newNni.deviceId, val[1].ingress, newNni.devicePortNo)]];
        }
        updated := updated[key := val];
        if good {
          CopyStep(t, pairs, newNni, copyFrom, Routes, before, key);
        }
        todo := todo - {key};
      }
      if good {
        forall q {:trigger Served(updated, q)} | q in all ensures Served(updated, q) {
          if q in pairs {
            assert Served(Routes, q);
          } else {
            var p := Pair(copyFrom, q.uni);
            assert Served(Routes, p);
          }
        }
      }
      Routes := updated;
    }

    /** The routes between an NNI port and the UNI ports of one ONU. */
    method AddChildRoutes(nni: LogicalPort, oltPort: uint32, rootId: string, child: Device, childPonPort: uint32,
                          places: Places, ghost t: Topology, ghost lps: seq<LogicalPort>, ghost pairs: iset<Pair>)
      returns (ghost all: iset<Pair>)
      requires Valid()
      modifies this`Routes
      ensures Valid()
      ensures old(Exactly(t, pairs, Routes)) && ChildOk(t, lps, places, nni, oltPort, rootId, child, childPonPort) ==>
                && Exactly(t, all, Routes) && Grown(pairs, all, nni, lps)
                && (Realised(child, lps) ==> Covers(all, nni, UniPorts(lps), child.id))
    {
      ghost var good := Exactly(t, pairs, Routes) && ChildOk(t, lps, places, nni, oltPort, rootId, child, childPonPort);
      all := pairs;
      for i := 0 to |child.ports|
        invariant Valid()
        invariant good ==> Exactly(t, all, Routes) && Grown(pairs, all, nni, lps)
        invariant good ==> forall u, k | u in UniPorts(lps) && u.deviceId == child.id && 0 <= k < i ::
                    child.ports[k].portType.EthernetUni? && child.ports[k].portNo == u.devicePortNo ==> Pair(nni, u) in all
      {
        label Iteration:
        var port := child.ports[i];
        if port.portType.EthernetUni? {
          var key := PortKeys.Concat(child.id, port.portNo);
          if key in places {
            var lpNo := places[key];
            Routes := Routes[PathID(nni.portNo, lpNo) :=
              [Hop(rootId, nni.devicePortNo, oltPort), Hop(child.id, childPonPort, port.portNo)]];
            var reverse := GetReverseRoute(Routes[PathID(nni.portNo, lpNo)]);
            Routes := Routes[PathID(lpNo, nni.portNo) := reverse];
          }
          if good {
            if key in places {
              var u := FoundPlace(t, lps, places, child.id, port.portNo);
              var p := Pair(nni, u);
              RouteUpIsReverse(t, p);
              ExactlyAdd(t, all, old@Iteration(Routes), p);
              all := all + iset{p};
            } else {
              assert forall u | u in UniPorts(lps) && u.deviceId == child.id && u.devicePortNo == port.portNo ::
                  Place(u) in places;
            }
          }
        }
      }
    }

    /** An ONU and its first PON port towards the OLT. */
    method GetChild(model: Model, id: string, rootId: string, ghost t: Topology)
      returns (r: Outcome, child: Device, childPonPort: uint32)
      modifies this`devicesPonPorts
      ensures id !in model ==> r == Fail(DeviceNotFound(id)) && devicesPonPorts == old(devicesPonPorts)
      ensures id in model ==>
                && child == model[id] && devicesPonPorts == Cached(old(devicesPonPorts), child)
                && var ports := PortsTowards(CachedPorts(devicesPonPorts, child.id), rootId);
                   if ports == [] then r == Fail(NoChildPonPort(child.id)) else r == Pass && childPonPort == ports[0].portNo
      ensures old(CacheOk(t, devicesPonPorts)) && OnuOk(t, model, id) && rootId == t.root ==>
                r.Pass? && child == model[id] && childPonPort == t.links[id].ponPort && CacheOk(t, devicesPonPorts)
    {
      child, childPonPort := Device("", false, []), 0;
      if CacheOk(t, devicesPonPorts) && OnuOk(t, model, id) {
        CacheGrown(t, model, id, devicesPonPorts);
        CachedOnu(t, model, id, devicesPonPorts);
      }
      var childDevice := GetDevice(model, id);
      if childDevice.None? {
        return Fail(DeviceNotFound(id)), child, childPonPort;
      }
      child := childDevice.value;
      var childPonPorts := GetDevicePonPorts(child.id, rootId);
      assert |childPonPorts| > 0 ==> childPonPorts[0] in childPonPorts;
      if |childPonPorts| < 1 {
        return Fail(NoChildPonPort(child.id)), child, childPonPort;
      }
      return Pass, child, childPonPorts[0].portNo;
    }

    /** The routes between an NNI port and the UNI ports of the ONU at one end of a PON port of the OLT. */
    method AddPeerRoutes(model: Model, nni: LogicalPort, rootId: string, port: Port, peer: Peer, places: Places,
                         ghost t: Topology, ghost lps: seq<LogicalPort>, ghost pairs: iset<Pair>)
      returns (r: Outcome, ghost all: iset<Pair>)
      requires Valid()
      modifies this`Routes, this`devicesPonPorts
      ensures Valid()
      ensures old(PonOk(t, model, lps, places, nni, rootId, port) && Exactly(t, pairs, Routes) && CacheOk(t, devicesPonPorts))
              && peer in port.peers ==>
                && r.Pass? && CacheOk(t, devicesPonPorts) && Exactly(t, all, Routes) && Grown(pairs, all, nni, lps)
                && Covers(all, nni, UniPorts(lps), peer.deviceId)
    {
      ghost var good := PonOk(t, model, lps, places, nni, rootId, port) && peer in port.peers && Exactly(t, pairs, Routes)
                        && CacheOk(t, devicesPonPorts);
      all := pairs;
      assert good ==> PeerOk(t, model, port, peer);
      var child, childPonPort;
      r, child, childPonPort := GetChild(model, peer.deviceId, nni.deviceId, t);
      if r.Fail? {
        return;
      }
      if good {
        ThereIsRealised(t, model, lps, child);
      }
      all := AddChildRoutes(nni, port.portNo, rootId, child, childPonPort, places, t, lps, pairs);
    }

    /** The routes between an NNI port and the UNI ports of the ONUs on one PON port of the OLT. */
    method AddPonRoutes(model: Model, nni: LogicalPort, rootId: string, port: Port, places: Places,
                        ghost t: Topology, ghost lps: seq<LogicalPort>, ghost pairs: iset<Pair>)
      returns (r: Outcome, ghost all: iset<Pair>)
      requires Valid()
      modifies this`Routes, this`devicesPonPorts
      ensures Valid()
      ensures old(PonOk(t, model, lps, places, nni, rootId, port) && Exactly(t, pairs, Routes) && CacheOk(t, devicesPonPorts)) ==>
                && r.Pass? && CacheOk(t, devicesPonPorts) && Exactly(t, all, Routes) && Grown(pairs, all, nni, lps)
                && CoversPort(all, nni, UniPorts(lps), port)
    {
      ghost var good := PonOk(t, model, lps, places, nni, rootId, port) && Exactly(t, pairs, Routes) && CacheOk(t, devicesPonPorts);
      all := pairs;
      for i := 0 to |port.peers|
        invariant Valid()
        invariant good ==> CacheOk(t, devicesPonPorts) && Exactly(t, all, Routes) && Grown(pairs, all, nni, lps)
        invariant good ==> forall j | 0 <= j < i :: Covers(all, nni, UniPorts(lps), port.peers[j].deviceId)
      {
        ghost var before := all;
        r, all := AddPeerRoutes(model, nni, rootId, port, port.peers[i], places, t, lps, before);
        if r.Fail? {
          return;
        }
        if good {
          forall j | 0 <= j < i ensures Covers(all, nni, UniPorts(lps), port.peers[j].deviceId) {
            CoversMore(before, all, nni, UniPorts(lps), port.peers[j].deviceId);
          }
        }
      }
      r := Pass;
    }

    /** The routes between an NNI port and every UNI port whose ONU is attached. */
    method AddNniRoutes(model: Model, nni: LogicalPort, places: Places,
                        ghost t: Topology, ghost lps: seq<LogicalPort>, ghost pairs: iset<Pair>) returns (r: Outcome)
      requires Valid()
      modifies this`Routes, this`devicesPonPorts
      ensures Valid()
      ensures old(NniOk(t, model, lps, places, nni) && Exactly(t, pairs, Routes) && CacheOk(t, devicesPonPorts)) ==>
                r.Pass? && CacheOk(t, devicesPonPorts) && Exactly(t, pairs + Pairs([nni], UniPorts(lps)), Routes)
    {
      ghost var good := NniOk(t, model, lps, places, nni) && Exactly(t, pairs, Routes) && CacheOk(t, devicesPonPorts);
      if good {
        CacheGrown(t, model, nni.deviceId, devicesPonPorts);
      }
      var rootDevice := GetDevice(model, nni.deviceId);
      if rootDevice.None? {
        return Fail(DeviceNotFound(nni.deviceId));
      }
      var root := rootDevice.value;
      if |root.ports| == 0 {
        return Fail(NoPort(root.id));
      }
      ghost var all := pairs;
      for i := 0 to |root.ports|
        invariant Valid()
        invariant good ==> CacheOk(t, devicesPonPorts) && Exactly(t, all, Routes) && Grown(pairs, all, nni, lps)
        invariant good ==> forall k | 0 <= k < i && root.ports[k].portType.PonOlt? :: CoversPort(all, nni, UniPorts(lps), root.ports[k])
      {
        var port := root.ports[i];
        if port.portType.PonOlt? {
          assert good ==> PonOk(t, model, lps, places, nni, root.id, port);
          ghost var before := all;
          r, all := AddPonRoutes(model, nni, root.id, port, places, t, lps, before);
          if r.Fail? {
            return;
          }
          if good {
            forall k | 0 <= k < i && root.ports[k].portType.PonOlt? ensures CoversPort(all, nni, UniPorts(lps), root.ports[k]) {
              CoversPortMore(before, all, nni, UniPorts(lps), root.ports[k]);
            }
          }
        }
      }
      if good {
        AllCovered(t, model, lps, nni, pairs, all);
      }
      r := Pass;
    }

    /** Computes all the routes between the logical ports from scratch. */
    method ComputeRoutes(model: Model, lps: seq<LogicalPort>, ghost t: Topology) returns (r: Outcome)
      requires Valid()
      modifies this
      ensures Valid()
      ensures |lps| < 2 ==> r == Fail(NotEnoughLogicalPorts) && unchanged(this)
      ensures |lps| >= 2 && NniPorts(lps) == [] ==> r == Fail(NoNniPort)
      ensures |lps| >= 2 && r.Fail? ==> IsReset()
      ensures |lps| >= 2 && NniPorts(lps) != [] && Good(t, model, lps) ==> r.Pass? && IsFull(t, lps)
    {
      if |lps| < 2 {
        return Fail(NotEnoughLogicalPorts);
      }
      Reset();
      logicalPorts := logicalPorts + lps;
      var places, nniPorts, rootPorts := FindPlaces(lps);
      RootPorts := rootPorts;
      if |nniPorts| == 0 {
        Reset();
        return Fail(NoNniPort);
      }
      r := ServeNnis(model, nniPorts, places, t, lps);
      if r.Fail? {
        Reset();
      }
    }

    /** Serves the first NNI port from the device model and one further NNI port by copying. */
    method ServeNnis(model: Model, nniPorts: seq<LogicalPort>, places: Places, ghost t: Topology, ghost lps: seq<LogicalPort>)
      returns (r: Outcome)
      requires Valid() && Routes == map[] && devicesPonPorts == map[] && nniPorts == NniPorts(lps) && PlacesOk(lps, places)
      modifies this`Routes, this`devicesPonPorts
      ensures Valid()
      ensures Good(t, model, lps) ==>
                r.Pass? && CacheOk(t, devicesPonPorts) && Exactly(t, Pairs(FirstTwo(nniPorts), UniPorts(lps)), Routes)
    {
      ghost var good, unis := Good(t, model, lps), UniPorts(lps);
      ghost var pairs: iset<Pair> := iset{};
      assert Pairs(nniPorts[..0], unis) == pairs;
      for i := 0 to |nniPorts|
        invariant Valid()
        invariant pairs == Pairs(nniPorts[..i], unis)
        invariant good ==> CacheOk(t, devicesPonPorts) && Exactly(t, pairs, Routes)
        invariant good && i >= 2 ==> unis == {}
      {
        if i > 0 && |Routes| > 0 {
          if good {
            SecondNni(t, lps, i, Routes);
          }
          CopyFromExistingNniRoutes(nniPorts[i], nniPorts[0], t, pairs);
          return Pass;
        }
        if good && i > 0 {
          NoUni(t, nniPorts[..i], unis, Routes);
        }
        PairsAppend(nniPorts, unis, i);
        r := AddNniRoutes(model, nniPorts[i], places, t, lps, pairs);
        if r.Fail? {
          return;
        }
        pairs := pairs + Pairs([nniPorts[i]], unis);
      }
      assert nniPorts[..|nniPorts|] == nniPorts;
      assert |nniPorts| > 2 && good ==> pairs == iset{} == Pairs(FirstTwo(nniPorts), unis);
      r := Pass;
    }

    /** The cache is what the full computation leaves for `lps`: it serves the first two NNI ports. */
    ghost predicate IsFull(t: Topology, lps: seq<LogicalPort>)
      reads this
    {
      && logicalPorts == lps && RootPorts == NniNumbers(lps) && CacheOk(t, devicesPonPorts)
      && Exactly(t, Pairs(FirstTwo(NniPorts(lps)), UniPorts(lps)), Routes)
    }

    /** The cache serves every pair of `lps`. */
    ghost predicate IsCurrent(t: Topology, lps: seq<LogicalPort>)
      reads this
    {
      && logicalPorts == lps && RootPorts == NniNumbers(lps) && CacheOk(t, devicesPonPorts)
      && Exactly(t, AllPairs(lps), Routes)
    }

    /**
     Compares the number of routes with the number that the logical device should have, where `ports` are its ports, if
     it is known.
     */
    method IsUpToDate(ports: Option<seq<LogicalPort>>) returns (upToDate: bool)
      ensures ports.None? ==> (upToDate <==> Routes == map[])
      ensures ports.Some? && |logicalPorts| != |ports.value| ==> !upToDate
      ensures ports.Some? && |logicalPorts| == |ports.value| && DistinctNumbers(ports.value)
              && RootPorts.Keys == Numbers(ports.value, true) && OnlyPairs(ports.value, Routes.Keys) ==>
                (upToDate <==> AllPaired(ports.value, Routes.Keys))
    {
      var numNni, numUni := 0, 0;
      if ports.Some? {
        if |logicalPorts| != |ports.value| {
          return false;
        }
        numNni := |RootPorts|;
        numUni := |ports.value| - numNni;
        if DistinctNumbers(ports.value) && RootPorts.Keys == Numbers(ports.value, true) && OnlyPairs(ports.value, Routes.Keys) {
          assert |RootPorts| == |RootPorts.Keys|;
          NumbersCount(ports.value);
          CountingSuffices(ports.value, Routes.Keys);
        }
      }
      assert |Routes| == |Routes.Keys| && (Routes == map[] <==> Routes.Keys == {});
      return |Routes| == numNni * numUni * 2;
    }

    /** Remembers the port, unless its number is known, and requires both kinds of ports. */
    method AddPortAndVerifyPrecondition(lp: LogicalPort) returns (r: Outcome)
      modifies this`logicalPorts
      ensures logicalPorts == Extended(old(logicalPorts), lp)
      ensures r == if BothKinds(logicalPorts) then Pass else Fail(NoUniAndNniCombination)
    {
      var exist, nniExist, uniExist := false, false, false;
      var i := 0;
      while i < |logicalPorts|
        invariant 0 <= i <= |logicalPorts| && logicalPorts == old(logicalPorts)
        invariant nniExist <==> exists j | 0 <= j < i :: logicalPorts[j].rootPort
        invariant uniExist <==> exists j | 0 <= j < i :: !logicalPorts[j].rootPort
        invariant exist <==> exists j | 0 <= j < i :: logicalPorts[j].portNo == lp.portNo
      {
        nniExist := nniExist || logicalPorts[i].rootPort;
        uniExist := uniExist || !logicalPorts[i].rootPort;
        exist := exist || logicalPorts[i].portNo == lp.portNo;
        i := i + 1;
        if nniExist && uniExist && exist {
          break;
        }
      }
      if !exist {
        logicalPorts := logicalPorts + [lp];
        nniExist := nniExist || lp.rootPort;
        uniExist := uniExist || !lp.rootPort;
      }
      r := if nniExist && uniExist then Pass else Fail(NoUniAndNniCombination);
    }

    /** The NNI ports, and the first of them with another number than `lp`. */
    method FindNnis(lp: LogicalPort) returns (nniPorts: seq<LogicalPort>, copyFrom: Option<LogicalPort>)
      ensures nniPorts == NniPorts(logicalPorts)
      ensures copyFrom == OtherIn(nniPorts, lp.portNo)
    {
      nniPorts, copyFrom := [], None;
      for i := 0 to |logicalPorts|
        invariant nniPorts == NniPorts(logicalPorts[..i]) && copyFrom == OtherIn(nniPorts, lp.portNo)
      {
        var lport := logicalPorts[i];
        NniPortsNext(logicalPorts, i);
        if lport.rootPort {
          OtherInNext(nniPorts, lport, lp.portNo);
          nniPorts := nniPorts + [lport];
          if copyFrom.None? && lport.portNo != lp.portNo {
            copyFrom := Some(lport);
          }
        }
      }
      assert logicalPorts[..|logicalPorts|] == logicalPorts;
    }

    /** The first PON port of the ONU towards the OLT, from the cache or else from the model. */
    method FindChildPonPort(model: Model, onu: string, rootId: string, ghost t: Topology)
      returns (r: Outcome, port: Port)
      modifies this`devicesPonPorts
      ensures r.Pass? ==> port.peers != []
      ensures old(CacheOk(t, devicesPonPorts)) && OnuOk(t, model, onu) && rootId == t.root ==>
                r.Pass? && LinkPort(t, onu, port) && CacheOk(t, devicesPonPorts)
    {
      port := Port(0, "", UnknownPort, AdminUnknown, OperUnknown, "", []);
      if CacheOk(t, devicesPonPorts) && OnuOk(t, model, onu) {
        CachedLink(t, onu, devicesPonPorts);
        CacheGrown(t, model, onu, devicesPonPorts);
        CachedOnu(t, model, onu, devicesPonPorts);
      }
      var childPonPorts := GetDevicePonPorts(onu, rootId);
      assert |childPonPorts| > 0 ==> childPonPorts[0] in childPonPorts;
      if |childPonPorts| == 0 || |childPonPorts[0].peers| == 0 {
        var device := GetDevice(model, onu);
        if device.None? {
          return Fail(DeviceNotFound(onu)), port;
        }
        childPonPorts := GetDevicePonPorts(onu, rootId);
        assert |childPonPorts| > 0 ==> childPonPorts[0] in childPonPorts;
        if |childPonPorts| == 0 || |childPonPorts[0].peers| == 0 {
          return Fail(NoPonPorts(onu)), port;
        }
      }
      return Pass, childPonPorts[0];
    }

    /** The routes between a new UNI port and every NNI port. */
    method AddUniRoutes(model: Model, lp: LogicalPort, nniPorts: seq<LogicalPort>, ghost t: Topology, ghost pairs: iset<Pair>)
      returns (r: Outcome)
      requires Valid()
      modifies this`Routes, this`devicesPonPorts
      ensures Valid()
      ensures UniOk(t, model, lp, nniPorts) && old(Exactly(t, pairs, Routes) && CacheOk(t, devicesPonPorts)) ==>
                r.Pass? && CacheOk(t, devicesPonPorts) && Exactly(t, pairs + Pairs(nniPorts, {lp}), Routes)
    {
      ghost var good := UniOk(t, model, lp, nniPorts) && Exactly(t, pairs, Routes) && CacheOk(t, devicesPonPorts);
      ghost var all := pairs;
      assert pairs + Pairs(nniPorts[..0], {lp}) == pairs;
      for i := 0 to |nniPorts|
        invariant Valid()
        invariant all == pairs + Pairs(nniPorts[..i], {lp})
        invariant good ==> CacheOk(t, devicesPonPorts) && Exactly(t, all, Routes)
      {
        var nni := nniPorts[i];
        var port;
        r, port := FindChildPonPort(model, lp.deviceId, nni.deviceId, t);
        if r.Fail? {
          return;
        }
        ghost var before := Routes;
        Routes := Routes[PathID(nni.portNo, lp.portNo) :=
          [Hop(nni.deviceId, nni.devicePortNo, port.peers[0].portNo), Hop(lp.deviceId, port.portNo, lp.devicePortNo)]];
        var reverse := GetReverseRoute(Routes[PathID(nni.portNo, lp.portNo)]);
        Routes := Routes[PathID(lp.portNo, nni.portNo) := reverse];
        ghost var p := Pair(nni, lp);
        PairsAppend(nniPorts, {lp}, i);
        assert Pairs([nni], {lp}) == iset{p};
        if good {
          RouteUpIsReverse(t, p);
          ExactlyAdd(t, all, before, p);
        }
        all := all + iset{p};
        assert pairs + Pairs(nniPorts[..i + 1], {lp}) == all;
      }
      assert nniPorts[..|nniPorts|] == nniPorts;
      r := Pass;
    }

    /** Adds the routes of one logical port; without any route yet, computes all of them from `lps`. */
    method AddPort(model: Model, lp: LogicalPort, lps: seq<LogicalPort>, ghost t: Topology) returns (r: Outcome)
      requires Valid()
      modifies this
      ensures Valid()
      ensures old(Routes) == map[] && |lps| < 2 ==> r == Fail(NotEnoughLogicalPorts) && unchanged(this)
      ensures old(Routes) == map[] && |lps| >= 2 && NniPorts(lps) == [] ==> r == Fail(NoNniPort)
      ensures !(old(Routes) == map[] && |lps| < 2) && r.Fail? ==> IsReset()
      ensures old(Routes) == map[] && |lps| >= 2 && NniPorts(lps) != [] && Good(t, model, lps) ==> r.Pass? && IsFull(t, lps)
      ensures var ports := Extended(old(logicalPorts), lp);
              old(Routes != map[] && IsCurrent(t, logicalPorts)) && Good(t, model, ports) && lp in ports ==>
                r.Pass? && IsCurrent(t, ports)
    {
      if |Routes| == 0 {
        r := ComputeRoutes(model, lps, t);
      } else {
        r := AugmentRoutes(model, lp, t);
        if r.Fail? {
          Reset();
        }
      }
    }

    /** Adds a port to a set of routes that exists. */
    method AugmentRoutes(model: Model, lp: LogicalPort, ghost t: Topology) returns (r: Outcome)
      requires Valid() && Routes != map[]
      modifies this
      ensures Valid()
      ensures var ports := Extended(old(logicalPorts), lp);
              old(IsCurrent(t, logicalPorts)) && Good(t, model, ports) && lp in ports ==>
                r.Pass? && IsCurrent(t, ports)
    {
      ghost var known := logicalPorts;
      ghost var ports := Extended(known, lp);
      if IsCurrent(t, known) && lp in ports {
        RoutesNeedBothKinds(t, known, Routes);
        ExtendedNumbers(known, lp);
        StillBothKinds(known, lp);
      }
      r := AddPortAndVerifyPrecondition(lp);
      if r.Fail? {
        return;
      }
      if lp.rootPort {
        RootPorts := RootPorts[lp.portNo := lp.portNo];
      }
      r := AddRoutesOf(model, lp, t, known);
    }

    /** The routes of a port that was just remembered. */
    method AddRoutesOf(model: Model, lp: LogicalPort, ghost t: Topology, ghost known: seq<LogicalPort>) returns (r: Outcome)
      requires Valid() && logicalPorts == Extended(known, lp)
      modifies this`Routes, this`devicesPonPorts
      ensures Valid()
      ensures old(Exactly(t, AllPairs(known), Routes) && CacheOk(t, devicesPonPorts) && PortOk(t, model, known, lp)) ==>
                r.Pass? && CacheOk(t, devicesPonPorts) && Exactly(t, AllPairs(Extended(known, lp)), Routes)
    {
      var nniPorts, copyFrom := FindNnis(lp);
      if copyFrom.None? {
        if PortOk(t, model, known, lp) {
          OnlyThisNni(t, known, lp);
        }
        return Pass;
      }
      if lp.rootPort {
        if PortOk(t, model, known, lp) {
          CopyServesAll(t, known, lp, copyFrom.value);
        }
        CopyFromExistingNniRoutes(lp, copyFrom.value, t, AllPairs(known));
        return Pass;
      }
      if PortOk(t, model, known, lp) {
        NewUniOk(t, model, known, lp);
      }
      r := AddUniRoutes(model, lp, nniPorts, t, AllPairs(known));
    }
  }

  /** With both kinds of ports known, the model realises them and `lp`. */
  ghost predicate PortOk(t: Topology, model: Model, known: seq<LogicalPort>, lp: LogicalPort) {
    BothKinds(known) && Good(t, model, Extended(known, lp)) && lp in Extended(known, lp)
  }

  /** The known ports with `lp`, unless its number is known. */
  function Extended(lps: seq<LogicalPort>, lp: LogicalPort): seq<LogicalPort> {
    if IsKnown(lps, lp.portNo) then lps else lps + [lp]
  }

  predicate IsKnown(lps: seq<LogicalPort>, portNo: uint32) {
    exists p | p in lps :: p.portNo == portNo
  }

  ghost predicate BothKinds(lps: seq<LogicalPort>) {
    (exists p | p in lps :: p.rootPort) && (exists p | p in lps :: !p.rootPort)
  }

  /** The new UNI port is on a linked ONU and the NNI ports are on the OLT, under other numbers. */
  ghost predicate UniOk(t: Topology, model: Model, lp: LogicalPort, nniPorts: seq<LogicalPort>) {
    && OnuOk(t, model, lp.deviceId) && !lp.rootPort
    && forall n | n in nniPorts :: n.rootPort && n.deviceId == t.root && n.portNo != lp.portNo
  }

  lemma RoutesNeedBothKinds(t: Topology, lps: seq<LogicalPort>, routes: Routes)
    requires Exactly(t, AllPairs(lps), routes) && routes != map[]
    ensures BothKinds(lps)
  {
    var key :| key in routes;
    assert Explained(t, AllPairs(lps), routes, key);
    var p :| p in AllPairs(lps) && EntryOf(t, p, key, routes[key]);
    assert p.nni in NniPorts(lps) && p.uni in UniPorts(lps);
  }

  lemma StillBothKinds(lps: seq<LogicalPort>, lp: LogicalPort)
    requires BothKinds(lps)
    ensures BothKinds(Extended(lps, lp))
  {
  }

  lemma ExtendedNumbers(lps: seq<LogicalPort>, lp: LogicalPort)
    requires lp in Extended(lps, lp)
    ensures NniNumbers(Extended(lps, lp)) == if lp.rootPort then NniNumbers(lps)[lp.portNo := lp.portNo] else NniNumbers(lps)
  {
    if Extended(lps, lp) == lps {
      NniNumbersAre(lps);
    } else {
      assert (lps + [lp])[..|lps|] == lps;
    }
  }

  /** What one more NNI port adds to the pairs. */
  lemma ExtendedByNni(lps: seq<LogicalPort>, lp: LogicalPort)
    requires lp in Extended(lps, lp) && lp.rootPort
    ensures AllPairs(Extended(lps, lp)) == Pairs(NniPorts(lps) + [lp], UniPorts(lps))
  {
  }

  /** What one more UNI port adds to the pairs. */
  lemma ExtendedByUni(lps: seq<LogicalPort>, lp: LogicalPort)
    requires lp in Extended(lps, lp) && !lp.rootPort
    ensures NniPorts(Extended(lps, lp)) == NniPorts(lps)
    ensures AllPairs(Extended(lps, lp)) == AllPairs(lps) + Pairs(NniPorts(lps), {lp})
  {
  }

  /** When there is no NNI port to copy from, the port is the only NNI port and known already. */
  lemma OnlyThisNni(t: Topology, lps: seq<LogicalPort>, lp: LogicalPort)
    requires WellPlaced(t, Extended(lps, lp)) && lp in Extended(lps, lp) && BothKinds(lps)
    requires forall p | p in NniPorts(Extended(lps, lp)) :: p.portNo == lp.portNo
    ensures Extended(lps, lp) == lps && lp.rootPort
  {
  }

  lemma NewUniOk(t: Topology, model: Model, lps: seq<LogicalPort>, lp: LogicalPort)
    requires Good(t, model, Extended(lps, lp)) && lp in Extended(lps, lp) && !lp.rootPort
    ensures UniOk(t, model, lp, NniPorts(Extended(lps, lp)))
    ensures AllPairs(Extended(lps, lp)) == AllPairs(lps) + Pairs(NniPorts(Extended(lps, lp)), {lp})
  {
    var ext := Extended(lps, lp);
    assert UniThere(t, model, lp);
    forall n | n in NniPorts(ext) ensures n.portNo != lp.portNo {
      if n.portNo == lp.portNo { NumberIdentifies(t, ext, n, lp); }
    }
    ExtendedByUni(lps, lp);
  }

  lemma CopyServesAll(t: Topology, lps: seq<LogicalPort>, lp: LogicalPort, copyFrom: LogicalPort)
    requires WellPlaced(t, Extended(lps, lp)) && lp in Extended(lps, lp) && lp.rootPort
    requires copyFrom in NniPorts(Extended(lps, lp)) && copyFrom.portNo != lp.portNo
    ensures CanCopy(t, AllPairs(lps), lp, copyFrom)
    ensures AllPairs(lps) + CopiedPairs(AllPairs(lps), lp, copyFrom) == AllPairs(Extended(lps, lp))
  {
    NnisCanCopy(t, Extended(lps, lp), lp, copyFrom, AllPairs(lps));
    CopiedPairsAre(NniPorts(lps), UniPorts(lps), lp, copyFrom);
    ExtendedByNni(lps, lp);
  }

  function FirstTwo<T>(s: seq<T>): seq<T> {
    if |s| <= 2 then s else s[..2]
  }

  lemma TakeTwo<T>(s: seq<T>)
    requires |s| >= 2
    ensures FirstTwo(s) == s[..2]
  {
  }

  /** When the full computation turns to copying there is a UNI port. */
  lemma SomeUni(t: Topology, nnis: seq<LogicalPort>, unis: set<LogicalPort>, routes: Routes)
    requires routes != map[] && Exactly(t, Pairs(nnis, unis), routes)
    ensures unis != {}
  {
    var key :| key in routes;
    assert Explained(t, Pairs(nnis, unis), routes, key);
  }

  /** An empty cache after the first NNI port means that there is no UNI port. */
  lemma NoUni(t: Topology, nnis: seq<LogicalPort>, unis: set<LogicalPort>, routes: Routes)
    requires nnis != [] && routes == map[] && Exactly(t, Pairs(nnis, unis), routes)
    ensures unis == {}
  {
    assert forall u | u in unis :: Pair(nnis[0], u) in Pairs(nnis, unis) && !Served(routes, Pair(nnis[0], u));
  }

  lemma NnisCanCopy(t: Topology, lps: seq<LogicalPort>, newNni: LogicalPort, copyFrom: LogicalPort, pairs: iset<Pair>)
    requires WellPlaced(t, lps) && newNni in lps && newNni.rootPort && copyFrom in lps && copyFrom.rootPort
    requires forall p | p in pairs :: p.nni in lps && p.uni in lps && !p.uni.rootPort
    ensures CanCopy(t, pairs, newNni, copyFrom)
  {
  }

  /** Copying from one NNI port that is paired with all UNI ports pairs the new one with all of them. */
  lemma CopiedPairsAre(nnis: seq<LogicalPort>, unis: set<LogicalPort>, newNni: LogicalPort, copyFrom: LogicalPort)
    requires copyFrom in nnis
    ensures Pairs(nnis, unis) + CopiedPairs(Pairs(nnis, unis), newNni, copyFrom) == Pairs(nnis + [newNni], unis)
  {
  }

  /** When the full computation turns to copying it has served exactly one NNI port, and copying serves the second. */
  lemma SecondNni(t: Topology, lps: seq<LogicalPort>, i: nat, routes: Routes)
    requires WellPlaced(t, lps) && 0 < i < |NniPorts(lps)| && routes != map[]
    requires Exactly(t, Pairs(NniPorts(lps)[..i], UniPorts(lps)), routes) && (i >= 2 ==> UniPorts(lps) == {})
    ensures CanCopy(t, Pairs(NniPorts(lps)[..i], UniPorts(lps)), NniPorts(lps)[i], NniPorts(lps)[0])
    ensures Pairs(NniPorts(lps)[..i], UniPorts(lps))
            + CopiedPairs(Pairs(NniPorts(lps)[..i], UniPorts(lps)), NniPorts(lps)[i], NniPorts(lps)[0])
            == Pairs(FirstTwo(NniPorts(lps)), UniPorts(lps))
  {
    var nnis, unis := NniPorts(lps), UniPorts(lps);
    SomeUni(t, nnis[..i], unis, routes);
    NnisCanCopy(t, lps, nnis[i], nnis[0], Pairs(nnis[..i], unis));
    CopiedPairsAre(nnis[..i], unis, nnis[i], nnis[0]);
    PairsAppend(nnis, unis, i);
    TakeTwo(nnis);
  }

  lemma PairsAppend(nnis: seq<LogicalPort>, unis: set<LogicalPort>, i: nat)
    requires i < |nnis|
    ensures nnis[..i] + [nnis[i]] == nnis[..i + 1]
    ensures Pairs(nnis[..i], unis) + Pairs([nnis[i]], unis) == Pairs(nnis[..i + 1], unis)
  {
  }

  /** The arguments of the innermost loop are those of the topology. */
  ghost predicate ChildOk(t: Topology, lps: seq<LogicalPort>, places: Places, nni: LogicalPort, oltPort: uint32,
                          rootId: string, child: Device, childPonPort: uint32)
  {
    && WellPlaced(t, lps) && PlacesOk(lps, places) && nni in lps && nni.rootPort && rootId == t.root
    && child.id in t.links && t.links[child.id] == Link(childPonPort, oltPort)
  }

  /** Every UNI port on the device is paired with the NNI port. */
  ghost predicate Covers(done: iset<Pair>, nni: LogicalPort, unis: set<LogicalPort>, device: string) {
    forall u | u in unis && u.deviceId == device :: Pair(nni, u) in done
  }

  ghost predicate CoversPort(done: iset<Pair>, nni: LogicalPort, unis: set<LogicalPort>, port: Port) {
    forall j | 0 <= j < |port.peers| :: Covers(done, nni, unis, port.peers[j].deviceId)
  }

  lemma CoversMore(done: iset<Pair>, more: iset<Pair>, nni: LogicalPort, unis: set<LogicalPort>, device: string)
    requires Covers(done, nni, unis, device) && done <= more
    ensures Covers(more, nni, unis, device)
  {
  }

  lemma CoversPortMore(done: iset<Pair>, more: iset<Pair>, nni: LogicalPort, unis: set<LogicalPort>, port: Port)
    requires CoversPort(done, nni, unis, port) && done <= more
    ensures CoversPort(more, nni, unis, port)
  {
  }

  /** `all` has the pairs it started with and possibly more pairs of the NNI port. */
  ghost predicate Grown(pairs: iset<Pair>, all: iset<Pair>, nni: LogicalPort, lps: seq<LogicalPort>) {
    pairs <= all <= pairs + Pairs([nni], UniPorts(lps))
  }

  /** Once every PON port of the OLT is covered, so is every UNI port. */
  lemma AllCovered(t: Topology, model: Model, lps: seq<LogicalPort>, nni: LogicalPort, pairs: iset<Pair>, all: iset<Pair>)
    requires Realises(t, model, lps) && Grown(pairs, all, nni, lps)
    requires forall k | 0 <= k < |model[t.root].ports| && model[t.root].ports[k].portType.PonOlt? ::
               CoversPort(all, nni, UniPorts(lps), model[t.root].ports[k])
    ensures all == pairs + Pairs([nni], UniPorts(lps))
  {
    var root := model[t.root];
    forall u | u in UniPorts(lps) ensures Pair(nni, u) in all {
      assert UniThere(t, model, u);
      var i, j :| 0 <= i < |root.ports| && 0 <= j < |root.ports[i].peers|
                  && root.ports[i].portType.PonOlt? && root.ports[i].peers[j].deviceId == u.deviceId;
      assert CoversPort(all, nni, UniPorts(lps), root.ports[i]);
      assert Covers(all, nni, UniPorts(lps), root.ports[i].peers[j].deviceId);
    }
  }

  ghost predicate NniOk(t: Topology, model: Model, lps: seq<LogicalPort>, places: Places, nni: LogicalPort) {
    Good(t, model, lps) && PlacesOk(lps, places) && nni in lps && nni.rootPort
  }

  /** The device has the physical port of each of its UNI ports. */
  predicate Realised(device: Device, lps: seq<LogicalPort>) {
    forall u | u in UniPorts(lps) && u.deviceId == device.id :: HasUniPort(device, u.devicePortNo)
  }

  lemma ThereIsRealised(t: Topology, model: Model, lps: seq<LogicalPort>, device: Device)
    requires Realises(t, model, lps) && device.id in model && model[device.id] == device
    ensures Realised(device, lps)
  {
    forall u | u in UniPorts(lps) && u.deviceId == device.id ensures HasUniPort(device, u.devicePortNo) {
      assert UniThere(t, model, u);
    }
  }

  /** `port` is a PON port of the OLT, as the topology has it. */
  ghost predicate PonOk(t: Topology, model: Model, lps: seq<LogicalPort>, places: Places, nni: LogicalPort, rootId: string,
                        port: Port)
  {
    && NniOk(t, model, lps, places, nni) && rootId == t.root
    && port in model[t.root].ports && port.portType.PonOlt?
  }

  ghost function CopiedPairs(pairs: iset<Pair>, newNni: LogicalPort, copyFrom: LogicalPort): iset<Pair> {
    iset p: Pair | p.nni == newNni && Pair(copyFrom, p.uni) in pairs
  }

  /** Both NNI ports are on the OLT and their numbers are theirs alone. */
  ghost predicate CanCopy(t: Topology, pairs: iset<Pair>, newNni: LogicalPort, copyFrom: LogicalPort) {
    && newNni.rootPort && newNni.deviceId == t.root
    && forall p | p in pairs ::
         && p.uni.portNo != copyFrom.portNo && p.uni.portNo != newNni.portNo
         && (p.nni.portNo == copyFrom.portNo ==> p.nni == copyFrom)
  }

  /** What one visit of the copying loop writes is a route of the new NNI port, next to the visited one. */
  lemma CopyStep(t: Topology, pairs: iset<Pair>, newNni: LogicalPort, copyFrom: LogicalPort,
                 routes: Routes, updated: Routes, key: PathID)
    requires Exactly(t, pairs, routes) && CanCopy(t, pairs, newNni, copyFrom) && key in routes && |routes[key]| == 2
    requires AllExplained(t, pairs + CopiedPairs(pairs, newNni, copyFrom), updated)
    ensures var val := routes[key];
            var u1 := if key.ingress != copyFrom.portNo then updated
                      else updated[PathID(newNni.portNo, key.egress) :=
                             [Hop(newNni.deviceId, newNni.devicePortNo, val[0].egress), val[1]]];
            var u2 := if key.egress != copyFrom.portNo then u1
                      else u1[PathID(key.ingress, newNni.portNo) :=
                             [val[0], Hop(newNni.deviceId, val[1].ingress, newNni.devicePortNo)]];
            AllExplained(t, pairs + CopiedPairs(pairs, newNni, copyFrom), u2[key := val])
  {
    var all := pairs + CopiedPairs(pairs, newNni, copyFrom);
    var val := routes[key];
    assert Explained(t, pairs, routes, key);
    var p :| p in pairs && EntryOf(t, p, key, val);
    var q := Pair(newNni, p.uni);
    var u1 := if key.ingress != copyFrom.portNo then updated
              else updated[PathID(newNni.portNo, key.egress) :=
                     [Hop(newNni.deviceId, newNni.devicePortNo, val[0].egress), val[1]]];
    if key.ingress == copyFrom.portNo {
      assert q in all && key == Down(p);
      WriteExplained(t, all, updated, q, Down(q), RouteDown(t, q));
    }
    var u2 := if key.egress != copyFrom.portNo then u1
              else u1[PathID(key.ingress, newNni.portNo) :=
                     [val[0], Hop(newNni.deviceId, val[1].ingress, newNni.devicePortNo)]];
    if key.egress == copyFrom.portNo {
      assert q in all && key == Up(p);
      WriteExplained(t, all, u1, q, Up(q), RouteUp(t, q));
    }
    WriteExplained(t, all, u2, p, key, val);
  }
}
