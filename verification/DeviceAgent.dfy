/**
 The agent of one device: the bodies of its queue-gated operations.  The store is part of the agent here, and every
 operation is told whether the store accepts its write.
 */
module DeviceAgents {
  import opened Voltha
  import opened GatedOps
  import PonHandshake

  // What the operations compute

  function AddPortChange(port: Port): Device -> Option<Device> {
    (d: Device) =>
      var i := PonHandshake.FirstSame(d.ports, port);
      if i < |d.ports| && !PonHandshake.IsDefault(d.ports[i]) then None
      else Some(d.(ports := PonHandshake.WithPort(d.ports, port)))
  }

  function AddPeerChange(peer: Peer, deviceId: string, root: bool): Device -> Option<Device> {
    (d: Device) => Some(d.(ports := PonHandshake.WithPeer(d.ports, peer, deviceId, root)))
  }

  function WithOper(port: Port, portType: PortType, portNo: uint32, oper: OperStatus): Port {
    if port.portType == portType && port.portNo == portNo then port.(operStatus := oper) else port
  }

  function SetOper(ports: seq<Port>, portType: PortType, portNo: uint32, oper: OperStatus): seq<Port> {
    seq(|ports|, i requires 0 <= i < |ports| => WithOper(ports[i], portType, portNo, oper))
  }

  /** The ports with the type and number get the status; nothing else about any port changes. */
  lemma SetOperIs(ports: seq<Port>, portType: PortType, portNo: uint32, oper: OperStatus, i: nat)
    requires i < |ports|
    ensures var ports' := SetOper(ports, portType, portNo, oper);
            && |ports'| == |ports| && ports'[i] == ports[i].(operStatus := ports'[i].operStatus)
            && ports'[i].operStatus == if ports[i].portType == portType && ports[i].portNo == portNo then oper else ports[i].operStatus
  {
  }

  function PortStateChange(portType: PortType, portNo: uint32, oper: OperStatus): Device -> Option<Device> {
    (d: Device) => Some(d.(ports := SetOper(d.ports, portType, portNo, oper)))
  }

  method SetPortsOper(ports: seq<Port>, portType: PortType, portNo: uint32, oper: OperStatus) returns (updated: seq<Port>)
    ensures updated == SetOper(ports, portType, portNo, oper)
  {
    updated := ports;
    for i := 0 to |ports|
      invariant |updated| == |ports|
      invariant forall j | 0 <= j < |ports| :: updated[j] == if j < i then WithOper(ports[j], portType, portNo, oper) else ports[j]
    {
      if ports[i].portType == portType && ports[i].portNo == portNo {
        updated := updated[i := ports[i].(operStatus := oper)];
      }
    }
  }

  class DeviceAgent {
    const deviceId: string
    const isRootDevice: bool
    var device: Device
    var stored: Option<Device>
    var stopped: bool

    ghost predicate Valid()
      reads this
    {
      stored == if stopped then None else Some(device)
    }

    ghost function Abstract(): Abs<Device>
      reads this
    {
      Abs(device, stopped)
    }

    constructor (d: Device)
      ensures Valid() && Abstract() == Abs(d, false) && deviceId == d.id && isRootDevice == d.root
    {
      deviceId, isRootDevice, device, stored, stopped := d.id, d.root, d, Some(d), false;
    }

    /** The write-through update: nothing is written by a stopped agent, and the cache follows the store. */
    method UpdateDeviceInStoreWithoutLock(d: Device, storeOk: bool) returns (ok: bool)
      requires Valid()
      modifies this
      ensures Valid()
      ensures ok <==> storeOk && !old(stopped)
      ensures Abstract() == if ok then Abs(d, false) else old(Abstract())
    {
      if stopped {
        return false;
      }
      if !storeOk {
        return false;
      }
      stored := Some(d);
      device := d;
      return true;
    }

    method AddPort(port: Port, storeOk: bool) returns (ok: bool)
      requires Valid()
      modifies this
      ensures Valid() && Abstract() == Apply(old(Abstract()), Change(AddPortChange(port)), storeOk)
      ensures ok && !old(stopped) ==> device == old(device).(ports := PonHandshake.WithPort(old(device.ports), port))
      ensures stopped == old(stopped) && (!ok ==> (stopped || !storeOk) && device == old(device))
    {
      var i := 0;
      while i < |device.ports| && !(device.ports[i].portType == port.portType && device.ports[i].portNo == port.portNo)
        invariant 0 <= i <= |device.ports| && forall j | 0 <= j < i :: !PonHandshake.SamePlace(device.ports[j], port)
      {
        i := i + 1;
      }
      assert i == PonHandshake.FirstSame(device.ports, port);
      if i < |device.ports| && !(device.ports[i].name == "" && device.ports[i].portType == PonOlt) {
        return true;
      }
      var ports := PonHandshake.AddPort(device.ports, port);
      ok := UpdateDeviceInStoreWithoutLock(device.(ports := ports), storeOk);
    }

    method AddPeerPort(peer: Peer, storeOk: bool) returns (ok: bool)
      requires Valid()
      modifies this
      ensures Valid() && Abstract() == Apply(old(Abstract()), Change(AddPeerChange(peer, deviceId, isRootDevice)), storeOk)
      ensures ok <==> storeOk && !old(stopped)
      ensures ok ==> device == old(device).(ports := PonHandshake.WithPeer(old(device.ports), peer, deviceId, isRootDevice))
      ensures stopped == old(stopped) && (!ok ==> device == old(device))
    {
      var ports := PonHandshake.AddPeerPort(device.ports, peer, deviceId, isRootDevice);
      ok := UpdateDeviceInStoreWithoutLock(device.(ports := ports), storeOk);
    }

    method UpdatePortState(portType: PortType, portNo: uint32, oper: OperStatus, storeOk: bool) returns (ok: bool)
      requires Valid()
      modifies this
      ensures Valid() && Abstract() == Apply(old(Abstract()), Change(PortStateChange(portType, portNo, oper)), storeOk)
      ensures ok <==> storeOk && !old(stopped)
      ensures ok ==> |device.ports| == |old(device.ports)| && forall i | 0 <= i < |device.ports| ::
                device.ports[i] == old(device.ports)[i].(operStatus := device.ports[i].operStatus)
                && device.ports[i].operStatus == if old(device.ports)[i].portType == portType && old(device.ports)[i].portNo == portNo
                                                 then oper else old(device.ports)[i].operStatus
      ensures stopped == old(stopped) && device == if ok then old(device).(ports := device.ports) else old(device)
    {
      var ports := SetPortsOper(device.ports, portType, portNo, oper);
      forall i | 0 <= i < |device.ports| {
        SetOperIs(device.ports, portType, portNo, oper, i);
      }
      ok := UpdateDeviceInStoreWithoutLock(device.(ports := ports), storeOk);
    }

    method ReconcileWithKvStore(storeOk: bool)
      requires Valid()
      modifies this
      ensures Valid() && Abstract() == Apply(old(Abstract()), Reload, storeOk)
      ensures unchanged(this)
    {
      if storeOk && stored.Some? {
        device := stored.value;
      }
    }

    /** Removes the device from the store; only then is the agent stopped. */
    method StopAgent(storeOk: bool) returns (ok: bool)
      requires Valid()
      modifies this
      ensures Valid() && Abstract() == Apply(old(Abstract()), Stop, storeOk) && ok == storeOk
      ensures device == old(device) && (stopped <==> old(stopped) || ok) && (stopped ==> stored.None?)
    {
      if !storeOk {
        return false;
      }
      stored := None;
      stopped := true;
      return true;
    }
  }
}
