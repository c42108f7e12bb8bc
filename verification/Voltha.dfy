/** The messages of the core that several components share, as values. */
module Voltha {

  type uint32 = x: int | 0 <= x < 0x1_0000_0000

  datatype Option<+T> = None | Some(value: T)

  datatype AdminState =
    | AdminUnknown | Preprovisioned | AdminEnabled | AdminDisabled | DownloadingImage | AdminDeleted

  datatype OperStatus =
    | OperUnknown | Discovered | Activating | Testing | OperActive | OperFailed

  datatype ConnectStatus =
    | ConnectUnknown | Unreachable | Reachable

  datatype PortType =
    | UnknownPort | EthernetNni | EthernetUni | PonOlt | PonOnu | VenetOlt | VenetOnu

  /** A port on the far side of a PON link: the device and its port number. */
  datatype Peer = Peer(deviceId: string, portNo: uint32)

  datatype Port = Port(
    portNo: uint32,
    name: string,
    portType: PortType,
    adminState: AdminState,
    operStatus: OperStatus,
    deviceId: string,
    peers: seq<Peer>)

  datatype Device = Device(id: string, root: bool, ports: seq<Port>)

  /** A port of the logical switch; `portNo` is its OpenFlow number, 0 is never used. */
  datatype LogicalPort = LogicalPort(
    id: string,
    portNo: uint32,
    deviceId: string,
    devicePortNo: uint32,
    rootPort: bool)
}
