# A verified model of the VOLTHA read-write core

The read-write core manages an OLT and its ONUs as one logical OpenFlow switch. This project models the parts of it
where correctness is hardest to see, and proves what they promise over every input, every interleaving or every run.

| part | files | main results |
|---|---|---|
| request queue: a FIFO lock with cancellation | `QueueSpec`, `RequestQueue` | `MutualExclusion`, `GrantOrder`, `BoundedWaiting`, `EveryWaiterCanBeServed`; every method of the linked list is one step of the step system |
| route cache of a logical device | `RouteSpec`, `RouteCount`, `PortKeys`, `DeviceRoutes`, `RouteRefinement`, `RouteLookup` | `IncrementalIsFull`, `FullServesAll`, `CountingSuffices`, `SettledIsSymmetric`, `HalfRouteFromUni` |
| flow decomposition: a two-table switch compiled to ONU and OLT rules | `OpenFlow`, `FlowDecomposition`, `FlowChoice`, `FlowRules`, `FlowMeaning`, `FlowDownstream`, `FlowTraps`, `FlowSpecials`, `FlowExamples` | `CompiledIsAttributed`, `UpstreamRun`, `UpstreamIff`, `CompileFlows`, `DownstreamRun`, `DownstreamIff`, `DownstreamTables`, `DownstreamMeaning`, `TrapMeaning`, `TrapTables`, `NniTrapIff` |
| device agent | `FlowMerge`, `PonHandshake`, `GatedOps`, `DeviceAgent` | `MergeLaw`, `MergeIsOverride`, `FlowMergeIs`, `MergeTwice`, `HandshakeIff`, `TakenNumberIsConfluent`, `InterleavingIsSequential`, `IdleIsInSync`, `StoppedForGood` |
| logical device agent | `FlowTables`, `FlowEffects`, `LogicalAgent`, `PortDiff` | `ApplyEffect`, `CoversIff`, `ApplyIntegrity`, `RunIntegrity`, `SuccessfulRunIntegrity`, `AnyOrder`, `SentOrderIff` |
| loading of devices | `LoadSpec`, `LoadAnswers`, `DeviceLoader` | `SingleFlight`, `ClosedOnceAfterPublish`, `WaiterIsServed`, `AnswerIff`, `WaiterIsTold` |
| device state transitions | `Transitions` | `GetTransitionHandler`, `BestIsGreatest`, `ShippedAnswers` |

`dafny verify dfyconfig.toml` verifies everything.

## How the model is built

- Concurrent code is a step system over values (`QueueSpec`, `GatedOps`, `LoadSpec`): one step is one section under a
  mutex or one access to a channel or field, and any goroutine may take any enabled step. The classes of the request queue
  and of the device loader keep the state of their step system in a ghost field and prove that each method takes one of its
  steps; the methods of the device agent are proved to be operations that `GatedOps` interleaves.
- Code that updates fields or arrays in place is a class or a method with loops, proved against functions on values; the
  properties are proved about these functions.
- Go maps are visited in any order. Contexts that are cancelled, the answers of the store and of the device model are
  parameters or steps; clones of messages are value copies.
- A device model that is incomplete or wrong leads to the error results of the code. What the routes are good for is stated
  for device models that realise a physical tree (`Good`): NNI ports on the OLT, UNI ports on linked ONUs, unique numbers
  and places, and for each ONU one PON port whose only peer is the OLT.
- Packets have a stack of VLAN tags and other header fields. The match value of the VLAN id has the presence bit, pushing
  a tag copies the outer one, and a table selects the matching flow of the highest priority (sections 5.3, 5.12.1 and
  7.2.3 of the OpenFlow Switch Specification 1.3). A flow is its own identity: its id in the core is a hash of the same
  components.
- The meaning of rules is stated for flows of five kinds (`IsKind`): from a UNI or NNI port, with each field at most once,
  without a match on the tunnel id, which the core uses as the subscriber tag. A first flow of a direction only rewrites and
  goes on to table 1, a second one rewrites and then outputs once; a trap outputs to the controller. Lists mix them freely.
  Ports of a device have different numbers (`PhysicalPorts`).
- On the tree, an upstream packet carries the subscriber tag of its UNI port. Downstream, the tag of the rule that the OLT
  selects says which of the ONUs on the PON port gets the packet; metadata is not part of a packet on the wire.

## Results where the code does not do what one might expect

- The full computation of routes serves only two NNI ports. It is complete if and only if there are at most two of them or
  there is no UNI port (`FullServesAll`), and the comparison of counts reports exactly that (`ComputeAndCount`).
  `ThirdNniUnserved` computes the routes of a device model with three NNI ports.
- The rewrite of output ports to the controller applies to every rule of the OLT that matches EAPOL, IGMP or UDP, also to
  rules that are no traps. An upstream packet that no trap is for takes its logical way if and only if the selected flow
  matches none of them and the written metadata makes no difference to table 1 (`UpstreamIff`, `UpstreamOfTwo`; inputs in
  `UdpUpstreamIsRetargeted` and `WrittenMetadataIsLost`).
- Downstream the same rewrite applies, and the ONU does not see metadata. The exact conditions are in `DownstreamIff`,
  `DownstreamTables` and `DownstreamMeaning`, inputs in `UdpDownstreamIsRetargeted` and `MetadataIsNotCompared`.
- A trap that matches on "no VLAN tag" is lost, because the ONU pushes a tag that the OLT then does not accept. A trap for
  anything but EAPOL, IGMP and UDP is sent out at an NNI port. A trap for a VLAN also catches packets of other VLANs
  (`TrapMeaning`, `PushableIff`, `TrappedUnasked`; inputs in `UntaggedTrapIsLost`, `ArpTrapIsSentOut`,
  `UntaggedIsTrappedUnasked`).
- A trap on an NNI port is put on an NNI port that depends on which route is visited first. It surely catches the packets of
  its own port if and only if that is the only NNI port, or there are no UNI ports and the logical number of the port is its
  number on the OLT (`NniTrapIff`). A trap without a port gets an OLT rule for one port only, and the ONU's rule is filed
  under no device (`WildcardTrapRules`).
- Deleting a meter writes the meters first and the flows second. If the second write fails, flows stay behind without
  their meter (`MeterLost`). A delete that selects such a flow fails and changes nothing, so no delete ever removes it
  (`LostMeterBlocksDelete`, `LostMeterBlocksStrictDelete`, `LostMeterKeepsFlow`). No other mod, with any write failing,
  loses integrity (`ApplyIntegrity`).
- Adding a flow with the flag `RESET_COUNTS` keeps the old counters, and `CHECK_OVERLAP` always adds; the model follows
  the code.
- A wildcard delete with a match covers nothing, and one for all groups leaves the flows that send to them (`CoversIff`,
  `GroupDeleteIs`).
- An enabled and reachable OLT that fails is handled as one that comes up: the entry for coming up matches its connection
  (`ShippedAnswers`, `FailedOltCreatesLogicalDevice`).
- The events of a port change give the controller the new view if and only if the id of each old port survives exactly
  when its number does (`SentOrderIff`); then every order of delivery does (`AnyOrder`). `RenumberedPortStays` and
  `ReusedNumberIsLost` are changes for which they do not.
- Peers are attached to the first port with the number, whatever its type. With a peer reported under a number that no port
  has yet, every order of the reports gives the same PON port if and only if no port of another type is reported under it
  and the port is reported without peers (`HandshakeIff`, `SharedNumberIsNotConfluent`). Under a number that is taken, every
  order does, and whoever has it gets all the peers (`TakenStage`, `TakenNumberIsConfluent`).

## Model

| member | source | states |
|---|---|---|
| QueueSpec.StepKeepsInv | rw_core/utils/request_queue.go:48-113 | every step, taken by any goroutine, keeps: only the oldest live request is past its green light, and grants plus pending requests are the arrivals without the cancelled ones |
| QueueSpec.RunKeepsInv | rw_core/utils/request_queue.go:48-113 | every interleaving keeps that invariant |
| QueueSpec.MutualExclusion | rw_core/utils/request_queue.go:48-95 | in every reachable state at most one request is green-lit or holding, and it is at the head |
| QueueSpec.GrantOrder | rw_core/utils/request_queue.go:48-95 | over every run grants are the arrival order without the cancelled requests; once the queue is empty nobody was left out |
| QueueSpec.BoundedWaiting | rw_core/utils/request_queue.go:63-113 | a waiting request only moves forward, and the requests in front of it take at most three steps each, however many others arrive |
| QueueSpec.HeadStep | rw_core/utils/request_queue.go:64-113 | the head of a non-empty queue can always take a step: no wake-up is lost |
| QueueSpec.EveryWaiterCanBeServed | rw_core/utils/request_queue.go:63-113 | from every state the requests in front can be served until a given waiter holds the lock, in a bounded number of steps |
| RequestQueues.RequestQueue.constructor | rw_core/utils/request_queue.go:39-43 | the queue starts empty, with a closed last channel |
| RequestQueues.RequestQueue.OnlyTheOldestIsGreen | rw_core/utils/request_queue.go:48-113 | the channel a live request waits on is closed exactly if the request is the oldest |
| RequestQueues.RequestQueue.Enqueue | rw_core/utils/request_queue.go:49-61 | appends a request that waits on its predecessor's open channel; one enqueue step |
| RequestQueues.RequestQueue.SeeGreen | rw_core/utils/request_queue.go:90-91 | a waiter takes the green light only when its channel is closed; one step |
| RequestQueues.RequestQueue.SeeDone | rw_core/utils/request_queue.go:64-66 | a waiter may give up at any time; one step |
| RequestQueues.RequestQueue.Acquire | rw_core/utils/request_queue.go:90-93 | writing `current` outside the mutex is one acquire step and keeps the list valid |
| RequestQueues.RequestQueue.Abort | rw_core/utils/request_queue.go:66-88 | both cancel branches are one abort step: a green-lit request releases, another one is skipped, and neither panics |
| RequestQueues.RequestQueue.SkipPosition | rw_core/utils/request_queue.go:76-87 | a request that is not green-lit has a predecessor, hands its channel to it and is unlinked |
| RequestQueues.RequestQueue.RequestComplete | rw_core/utils/request_queue.go:97-104 | the holder's release is one complete step |
| RequestQueues.RequestQueue.ReleaseWithoutLock | rw_core/utils/request_queue.go:106-113 | closes the holder's channel, which is open, and makes the next request the head |
| RouteSpec.ReverseInvolution | rw_core/route/device_route.go:391-397 | reversing a route of any length twice gives the route back |
| RouteSpec.RouteUpIsReverse | rw_core/route/device_route.go:159-164 | the two routes of an NNI and UNI pair are each other's reverse |
| RouteSpec.ExactlyDetermines | rw_core/route/device_route.go:84-172 | two caches that hold exactly the routes of the same pairs are equal |
| RouteSpec.ExactlyAdd | rw_core/route/device_route.go:159-164 | writing both routes of a pair makes the cache exact for one more pair |
| RouteSpec.RoutesAreSymmetric | rw_core/route/device_route.go:159-164 | in an exact cache each route has two hops joined by a PON link and its reverse under the opposite key |
| RouteSpec.SameFirstHop | rw_core/route/device_route.go:159-164 | all routes that start at a UNI port start with the same hop |
| PortKeys.ConcatInjective | rw_core/route/device_route.go:386-388 | the key of a device port determines the device id and the port number |
| DeviceRoute.GetReverseRoute | rw_core/route/device_route.go:391-397 | the two-index loop yields the reverse of the route |
| DeviceRoute.FindPlaces | rw_core/route/device_route.go:104-113 | the map of places, the NNI ports in order and the root ports of a list of ports |
| DeviceRoute.FoundPlace | rw_core/route/device_route.go:154-158 | a port found at a place of an ONU is the only UNI port there |
| DeviceRoute.DeviceRoutes.constructor | rw_core/route/device_route.go:64-73 | a new cache is empty |
| DeviceRoute.DeviceRoutes.Reset | rw_core/route/device_route.go:373-383 | clears the whole cache |
| DeviceRoute.DeviceRoutes.GetDevice | rw_core/route/device_route.go:335-349 | returns the device of the model and appends its PON ports to the cache |
| DeviceRoute.CacheGrown | rw_core/route/device_route.go:335-349 | reading an OLT or ONU keeps the PON port cache in agreement with the links |
| DeviceRoute.DeviceRoutes.GetDevicePonPorts | rw_core/route/device_route.go:315-332 | the cached PON ports towards a peer, once per such peer, in order |
| DeviceRoute.DeviceRoutes.CopyFromExistingNniRoutes | rw_core/route/device_route.go:352-370 | for any visiting order, an exact cache becomes exact for the new NNI port's pairs as well |
| DeviceRoute.CopyStep | rw_core/route/device_route.go:354-368 | each visit writes only routes of known pairs or of the new NNI port |
| DeviceRoute.DeviceRoutes.AddChildRoutes | rw_core/route/device_route.go:152-166 | adds exactly the pairs of the ONU's UNI ports that have a logical port |
| DeviceRoute.DeviceRoutes.GetChild | rw_core/route/device_route.go:141-151 | the ONU of the model and its first cached PON port towards the OLT; which error for an unknown ONU and for one without such a port; the link of the tree when the model realises it |
| DeviceRoute.DeviceRoutes.AddPeerRoutes | rw_core/route/device_route.go:139-166 | covers the ONU at the other end of a PON port |
| DeviceRoute.DeviceRoutes.AddPonRoutes | rw_core/route/device_route.go:138-168 | covers every ONU on one PON port of the OLT |
| DeviceRoute.DeviceRoutes.AddNniRoutes | rw_core/route/device_route.go:128-169 | makes the cache exact for the NNI port with every UNI port |
| DeviceRoute.DeviceRoutes.ServeNnis | rw_core/route/device_route.go:118-171 | the cache ends exact for the first two NNI ports with every UNI port |
| DeviceRoute.DeviceRoutes.ComputeRoutes | rw_core/route/device_route.go:84-172 | both early errors, reset on every failure except for fewer than two ports, and an exact cache on a realised topology |
| DeviceRoute.DeviceRoutes.AddPortAndVerifyPrecondition | rw_core/route/device_route.go:175-198 | remembers the port unless its number is known; fails exactly when one kind of ports is missing |
| DeviceRoute.DeviceRoutes.FindNnis | rw_core/route/device_route.go:223-233 | the NNI ports, and the first of them with another number |
| DeviceRoute.DeviceRoutes.FindChildPonPort | rw_core/route/device_route.go:249-263 | the ONU's PON port of its link, from the cache or else from the model |
| DeviceRoute.DeviceRoutes.AddUniRoutes | rw_core/route/device_route.go:247-270 | makes the cache exact for every NNI port with the new UNI port |
| DeviceRoute.DeviceRoutes.AugmentRoutes | rw_core/route/device_route.go:210-272 | keeps a complete cache complete for one more port, of either kind, new or known |
| DeviceRoute.DeviceRoutes.AddPort | rw_core/route/device_route.go:199-272 | the first call computes everything, later calls keep the cache complete, and failures reset it |
| DeviceRoute.DeviceRoutes.IsUpToDate | rw_core/route/device_route.go:300-312 | without a logical device: no routes; with one: true exactly when every NNI and UNI pair has both routes, if the keys only pair the two kinds |
| RouteCount.CountingSuffices | rw_core/route/device_route.go:300-312 | the number of keys is twice the product of the two kinds if and only if every pair has both keys |
| RouteRefinement.FullServesAll | rw_core/route/device_route.go:121-127 | the result of the full computation is complete if and only if there are at most two NNI ports or no UNI port |
| RouteRefinement.ThirdNniUnserved | rw_core/route/device_route.go:118-126 | the full computation on a concrete device model with three NNI ports passes and leaves the third one without routes |
| RouteRefinement.ComputeAndCount | rw_core/core/logical_device_agent.go:550-570 | the comparison of counts on a computed cache is true exactly when the cache is complete |
| RouteRefinement.SettledIsSymmetric | rw_core/route/device_route.go:84-272 | in every state reached by adding ports, routes have two hops joined by a PON link and their reverse under the opposite key |
| RouteRefinement.SettledIsUnique | rw_core/route/device_route_test.go:332-385 | however a cache was built, its routes and root ports depend only on the set of ports |
| RouteRefinement.AddPorts | rw_core/route/device_route.go:199-272 | any sequence of additions, with the device model changing in between, ends in that cache |
| RouteRefinement.IncrementalIsFull | rw_core/route/device_route_test.go:332-385 | with at most two NNI ports, any sequence of additions in any order gives the routes and root ports of one full computation |
| RouteLookup.GetFirstNniPort | rw_core/core/logical_device_agent.go:1910-1919 | some NNI port, or none exactly if there is none |
| RouteLookup.GetPreCalculatedRoute | rw_core/core/logical_device_agent.go:1494-1503 | the cached route between two ports |
| RouteLookup.GetRoute | rw_core/core/logical_device_agent.go:1506-1570 | which routes, half routes or failures are possible for each combination of ports, for any visiting order |
| RouteLookup.HalfRouteFromUni | rw_core/core/logical_device_agent.go:1557-1567 | the half route from a UNI port does not depend on the visiting order |
| RouteLookup.HalfRouteFromNni | rw_core/core/logical_device_agent.go:1557-1567 | a half route from an NNI port starts at the OLT |
| RouteLookup.RouteOfPair | rw_core/core/logical_device_agent.go:1568-1570 | the route between the ports of a pair is the one of the physical tree |
| RouteLookup.RouteToController | rw_core/core/logical_device_agent.go:1534-1539 | a trap from a UNI port takes the whole route to some NNI port |
| OpenFlow.LookupAddFlow | vendor/github.com/opencord/voltha-lib-go/v3/pkg/flows/flow_utils.go:1036-1051 | leaving out a repeated rule does not change what a table selects |
| OpenFlow.FirstInstruction | vendor/github.com/opencord/voltha-lib-go/v3/pkg/flows/flow_utils.go:532-544 | the metadata, meter, actions and next table of a flow are those of its first instruction of that type, whatever comes before and after |
| OpenFlow.FirstAction | vendor/github.com/opencord/voltha-lib-go/v3/pkg/flows/flow_utils.go:317-432 | the output port and group of a list of actions are those of the first such action, and outputs are taken out wherever they stand |
| OpenFlow.MetadataParts | vendor/github.com/opencord/voltha-lib-go/v3/pkg/flows/flow_utils.go:564-601 | the written metadata is made of the inner tag, 16 bits that are not used, and the 32 bits of the port number |
| FlowDecomposition.FindTrapField | rw_core/flowdecomposition/flow_decomposer.go:82-90 | found exactly when the rule matches EAPOL, IGMP or UDP |
| FlowDecomposition.TrapFieldIff | rw_core/flowdecomposition/flow_decomposer.go:79-90 | which values of the ethertype and of the IP protocol these are |
| FlowDecomposition.RetargetFlows | rw_core/flowdecomposition/flow_decomposer.go:79-101 | the rules of a parent become exactly their rewritten forms, each once |
| FlowDecomposition.RetargetIs | rw_core/flowdecomposition/flow_decomposer.go:91-94 | a rule that matches EAPOL, IGMP or UDP sends to the controller with every output, in every list of actions, and is otherwise the same; any other rule stays |
| FlowDecomposition.UpdateOutputPortOfParent | rw_core/flowdecomposition/flow_decomposer.go:69-106 | rewrites the rules of parent devices and no others, for any visiting order |
| FlowDecomposition.ProcessDownstreamWithNextTable | rw_core/flowdecomposition/flow_decomposer.go:293-388 | the OLT rule goes by the route to the port that the metadata names, or along the path without metadata; no rule with an output port, without an inner tag or without a route |
| FlowDecomposition.ProcessFlow | rw_core/flowdecomposition/flow_decomposer.go:484-521 | traps first, then upstream, then by table, then multicast, and the errors for an unknown device and an unknown downstream flow |
| FlowDecomposition.KindPath | rw_core/flowdecomposition/flow_decomposer.go:456-482 | the path found for each kind of flow is the one of the physical tree, as far as the rules use it |
| FlowDecomposition.DecomposeFlow | rw_core/flowdecomposition/flow_decomposer.go:454-524 | for every flow, one of the results that some path gives, with the rewrite for parents; each kind of flow gets exactly its rules in terms of the physical tree, and each rule has the cookie, the meter and the written metadata of the flow, and on the OLT downstream the inner tag as its metadata |
| FlowDecomposition.ExpectedCarries | rw_core/flowdecomposition/flow_decomposer.go:115-421 | for all five kinds, every rule on every device carries the cookie, meter and written metadata of its flow, read with the accessors, and the OLT's downstream rule matches on the inner tag |
| FlowDecomposition.RetargetCarries | rw_core/flowdecomposition/flow_decomposer.go:79-101 | the rewrite to the controller keeps what a rule carries |
| FlowDecomposition.MetadataRuleNames | rw_core/flowdecomposition/flow_decomposer.go:340-352 | the OLT's downstream rule has the number of the port that the metadata names as its subscriber tag, and the inner tag as its metadata |
| FlowDecomposition.AddRules | rw_core/flowdecomposition/flow_decomposer.go:59-63 | appends the rules per device without repetitions, for any visiting order |
| FlowDecomposition.DecomposeRules | rw_core/flowdecomposition/flow_decomposer.go:45-66 | succeeds on flows of the five kinds, each device gets the rules of the flows in order and without repetitions, and the rules are attributed as `CompiledIsAttributed` says |
| FlowDecomposition.CompiledIsAttributed | rw_core/flowdecomposition/flow_decomposer.go:45-66 | after merging, every rule in the table of any device carries the cookie, meter, metadata and inner tag of some flow of the list, and each flow has such a rule on every device of its kind |
| FlowChoice.PickIsBest | rw_core/flowdecomposition/flow_decomposer.go:59-63 | the picked flow has the highest priority among those that fire, and of several such flows the first place |
| FlowChoice.TableLookup | rw_core/flowdecomposition/flow_decomposer.go:59-63 | the table of a device, without repetitions, selects the rule of the flow that is picked among those whose rule matches |
| FlowRules.RestrictedMatches | rw_core/flowdecomposition/flow_decomposer.go:243-252 | with its port and subscriber tag a rule matches exactly the packets of its flow |
| FlowRules.MetadataRuleMatches | rw_core/flowdecomposition/flow_decomposer.go:340-352 | the OLT's downstream rule matches exactly the packets whose own fields the flow matches |
| FlowRules.UnicastRuleMatches | rw_core/flowdecomposition/flow_decomposer.go:391-408 | the ONU's downstream rule matches exactly the packets whose own fields the flow matches |
| FlowRules.ChildAccepts | rw_core/flowdecomposition/flow_decomposer.go:191-206 | the ONU's rule of a trap accepts exactly the packets that the flow matches in all fields but the VLAN id |
| FlowRules.ParentAccepts | rw_core/flowdecomposition/flow_decomposer.go:153-190 | once tagged, such a packet is one that the flow matches if and only if the pushed tag satisfies the VLAN match |
| FlowRules.PushableIff | rw_core/flowdecomposition/flow_decomposer.go:177-184 | for a match without a mask that means a VLAN id with the presence bit |
| FlowRules.ChildEmits | rw_core/flowdecomposition/flow_decomposer.go:175-190 | the ONU sends the packet on with the VLAN of the flow pushed, or unchanged if the flow has none |
| FlowRules.SendOutEmits | rw_core/flowdecomposition/flow_decomposer.go:79-101 | the OLT's upstream rule sends the rewritten packet to its NNI port, or to the controller for EAPOL, IGMP and UDP |
| FlowMeaning.OnuLookup | rw_core/flowdecomposition/flow_decomposer.go:109-263 | for every packet of a UNI port and any list of flows, the ONU's table selects the rule of the flow that is picked among the first flows and traps of the port |
| FlowMeaning.OltLookup | rw_core/flowdecomposition/flow_decomposer.go:109-288 | for every such packet the OLT's table selects the rule of the flow that is picked among the second flows and traps of the port |
| FlowMeaning.UpstreamRun | rw_core/flowdecomposition/flow_decomposer.go:109-290 | what becomes of every packet of a UNI port, for any list of flows with traps among them |
| FlowMeaning.UpstreamIff | rw_core/flowdecomposition/flow_decomposer.go:225-290 | for any list of flows with traps among them, a packet that no trap is for leaves the OLT as the two-table switch says, if and only if table 1 delivers the same with and without the written metadata, by a flow that matches none of EAPOL, IGMP and UDP |
| FlowMeaning.UpstreamMeaning | rw_core/flowdecomposition/flow_decomposer.go:225-290 | when table-1 flows do not match on written metadata, it leaves as the switch says, or the same packet goes to the controller, which happens exactly if the selected table-1 flow matches EAPOL, IGMP or UDP |
| FlowMeaning.UpstreamOfTwo | rw_core/flowdecomposition/flow_decomposer.go:225-290 | for one flow per table, what the rules and the switch do with every packet, and the exact condition on flows and packet for these to be the same |
| FlowMeaning.CompileFlows | rw_core/flowdecomposition/flow_decomposer.go:45-66 | the rules that the core computes for a list of flows are theirs, and have that meaning for every UNI port and packet |
| FlowDownstream.OltDown | rw_core/flowdecomposition/flow_decomposer.go:340-361 | the OLT's rule outputs on the PON port of the named UNI port's ONU, with a tag that leads to that ONU |
| FlowDownstream.OnuDown | rw_core/flowdecomposition/flow_decomposer.go:391-423 | the ONU's rule delivers the rewritten packet at the UNI port |
| FlowDownstream.DownOltLookup | rw_core/flowdecomposition/flow_decomposer.go:293-361 | for every packet of an NNI port and any list of flows, the OLT's table selects the rule of the flow that is picked among the first flows of the port |
| FlowDownstream.DownOnuLookup | rw_core/flowdecomposition/flow_decomposer.go:391-423 | for every packet from the OLT the ONU's table selects the rule of the flow that is picked among the second flows to the ONU |
| FlowDownstream.DownstreamRun | rw_core/flowdecomposition/flow_decomposer.go:293-423 | what becomes of every packet of an NNI port, for any list of flows with traps among them: the ONU that the subscriber tag of the selected rule names delivers it, by the flow that it picks, or the controller gets it |
| FlowDownstream.OnlyNamedOnu | rw_core/flowdecomposition/flow_decomposer.go:345-347 | whatever leaves the tree leaves at a UNI port of the ONU that the metadata names, or goes to the controller for EAPOL, IGMP and UDP |
| FlowDownstream.DownstreamDrop | rw_core/flowdecomposition/flow_decomposer.go:293-388 | a packet whose own fields no table-0 flow matches goes nowhere |
| FlowDownstream.DownstreamIff | rw_core/flowdecomposition/flow_decomposer.go:293-423 | for any list of flows with traps among them and any packet of an NNI port, the rules do what the switch does if and only if table 0 matches none of EAPOL, IGMP and UDP and the flows selected with and without a look at metadata bring the same packet to the same UNI port |
| FlowDownstream.DownstreamTables | rw_core/flowdecomposition/flow_decomposer.go:293-423 | when metadata names the table-1 flows and VLANs tell those of an ONU apart, a packet is delivered as the switch says if and only if table 0 matches none of EAPOL, IGMP and UDP, and a table-1 flow between the named ports matches the packet or none on the ONU does; then only the named UNI port emits |
| FlowDownstream.DownstreamMeaning | rw_core/flowdecomposition/flow_decomposer.go:293-423 | for one flow per table, what the rules and the switch do with every packet, and the exact condition on flows and packet for these to be the same; only the named UNI port emits |
| FlowTraps.TrapMeaning | rw_core/flowdecomposition/flow_decomposer.go:109-215 | what becomes of every packet under one trap: nothing, the controller or the NNI port, with the pushed VLAN, by exact conditions on flow and packet |
| FlowTraps.TrappedUnasked | rw_core/flowdecomposition/flow_decomposer.go:191-206 | which packets reach the controller although the trap flow does not match them |
| FlowTraps.TrapTables | rw_core/flowdecomposition/flow_decomposer.go:109-215 | in any list of flows, a packet that the ONU handles by a trap reaches the controller as tagged if and only if the OLT selects a rule for EAPOL, IGMP or UDP that does not rewrite it |
| FlowTraps.TrapOutranks | rw_core/flowdecomposition/flow_decomposer.go:109-215 | which is so for a trap above the other matching flows whose VLAN match accepts the pushed tag |
| FlowSpecials.NniTrapRules | rw_core/flowdecomposition/flow_decomposer.go:121-141 | a trap on an NNI port gets one OLT rule: for some NNI port if there are routes, and for the logical number of the port if there are none |
| FlowSpecials.NniTrapIff | rw_core/flowdecomposition/flow_decomposer.go:121-141 | every result is a rule for the trapped port itself if and only if it is the only NNI port, or there is no UNI port and its two numbers are the same |
| FlowSpecials.NniTrapDoes | rw_core/flowdecomposition/flow_decomposer.go:121-141 | the rule matches exactly the packets of its port whose own fields the flow matches, and sends them to the controller for EAPOL, IGMP and UDP |
| FlowSpecials.MulticastRules | rw_core/flowdecomposition/flow_decomposer.go:426-451 | a flow to a known group is on the OLT as it is, and nowhere otherwise, whichever NNI port and route are visited first |
| FlowSpecials.WildcardTrapRules | rw_core/flowdecomposition/flow_decomposer.go:146-213 | a trap without a port gets an OLT rule for the last of the other ports only, and an ONU rule under the empty device id |
| FlowExamples.SomeRules | rw_core/flowdecomposition/flow_decomposer.go:45-66 | every list of flows of the five kinds has rules |
| FlowExamples.UdpUpstreamIsRetargeted | rw_core/flowdecomposition/flow_decomposer.go:79-101 | a UDP data flow upstream whose packet goes to the controller |
| FlowExamples.WrittenMetadataIsLost | rw_core/flowdecomposition/flow_decomposer.go:264-288 | an upstream flow on written metadata whose packet the OLT drops |
| FlowExamples.UdpDownstreamIsRetargeted | rw_core/flowdecomposition/flow_decomposer.go:79-101 | a UDP flow downstream whose packet goes to the controller |
| FlowExamples.MetadataIsNotCompared | rw_core/flowdecomposition/flow_decomposer.go:391-423 | a packet that the switch drops for its metadata and the ONU delivers |
| FlowExamples.ArpTrapIsSentOut | rw_core/flowdecomposition/flow_decomposer.go:79-101 | a trap for ARP whose packet leaves at the NNI port |
| FlowExamples.UntaggedTrapIsLost | rw_core/flowdecomposition/flow_decomposer.go:175-206 | a trap for untagged packets that loses them |
| FlowExamples.UntaggedIsTrappedUnasked | rw_core/flowdecomposition/flow_decomposer.go:191-206 | a trap for one VLAN that hands an untagged packet to the controller |
| FlowMerge.DeleteWithoutPreservingOrder | rw_core/core/device_agent.go:318-330 | the last element takes the place of the deleted one, in the same array, and its own slot becomes nil |
| FlowMerge.VacateDeletes | rw_core/core/device_agent.go:318-330 | the elements are those without the deleted one, the vacated slots are nil and the slots beyond are as before |
| FlowMerge.ToUpdateToDelete | rw_core/core/device_agent.go:332-353 | the scan with in-place deletion computes the merge of the existing and the new elements, with the vacated slots nil |
| FlowMerge.FlowsToUpdateToDelete | rw_core/core/device_agent.go:332-353 | the merge, and what it means for flows: which new ones are left, which existing ones go and what the whole is, two flows being alike if they have the same table, priority, flags, cookie and match |
| FlowMerge.GroupsToUpdateToDelete | rw_core/core/device_agent.go:355-373 | the merge, and what it means for groups by their ids |
| FlowMerge.KeyIsAlike | vendor/github.com/opencord/voltha-lib-go/v3/pkg/flows/flow_utils.go:1196-1226 | two flows have the same key if and only if table, priority, flags, cookie and match are the same |
| FlowMerge.FlowMergeIs | rw_core/core/device_agent.go:332-353 | if no two flows of either list are alike: left are the new flows that do not exist as they are, deleted are the existing ones that are alike to a new one without being among the new, and the whole is the new ones with those existing ones that no new one is alike to, without two alike |
| FlowMerge.GroupMergeIs | rw_core/core/device_agent.go:355-373 | the same for groups with different ids |
| FlowMerge.MergeLaw | rw_core/core/device_agent.go:332-373 | as multisets, existing minus deleted plus what is left of the new is the whole result, for all inputs |
| FlowMerge.MergeIsOverride | rw_core/core/device_agent.go:332-373 | with unique keys the result is the override of the existing by the new, with unique keys |
| FlowMerge.MergeTwice | rw_core/core/device_agent.go:332-373 | merging the same again leaves nothing to add or delete |
| PonHandshake.AddPort | rw_core/core/device_agent.go:1365-1392 | the first port with the type and number, if it is a default PON port, gets the name and status and nothing else; all other ports stay; a new port is appended enabled |
| PonHandshake.AddPeerPort | rw_core/core/device_agent.go:1404-1429 | the first port with the number gets the peer and all others stay; without one a root device gets a default PON port, and any other device nothing |
| PonHandshake.RunKeepsUnique | rw_core/core/device_agent.go:1358-1432 | over every run of reports, type and number identify a port |
| PonHandshake.HandshakeStage | rw_core/core/device_agent.go:1358-1432 | after any reports under a free number, without another type, the PON port has exactly the peers reported so far, and the name and status if it was reported |
| PonHandshake.HandshakeConfluence | rw_core/core/device_agent.go:1358-1432 | then every order of the reports gives the same name, status and multiset of peers |
| PonHandshake.HandshakeIff | rw_core/core/device_agent.go:1358-1432 | with a peer reported under a free number, every order of the reports gives the same PON port if and only if no port of another type is reported under it and the port is reported without peers |
| PonHandshake.TakenStage | rw_core/core/device_agent.go:1358-1432 | under a taken number, the first port with it stays first and gets all the peers; what the PON port then is |
| PonHandshake.TakenNumberIsConfluent | rw_core/core/device_agent.go:1358-1432 | under a taken number, every order of the reports gives the same PON port |
| PonHandshake.SharedNumberIsNotConfluent | rw_core/core/device_agent.go:1408-1416 | a concrete pair of orders in which the peer goes to different ports |
| GatedOps.NextKeepsInv | rw_core/core/device_agent.go:1517-1530 | every action of any goroutine keeps cache, store and history in agreement |
| GatedOps.InterleavingIsSequential | rw_core/core/device_agent.go:1358-1395 | in every interleaving the cached device is the result of the finished operations in grant order, which is arrival order without the cancelled ones |
| GatedOps.IdleIsInSync | rw_core/core/device_agent.go:1517-1530 | with no operation in progress the store has the cached device, or nothing after a stop |
| GatedOps.StoppedForGood | rw_core/core/device_agent.go:146-170 | once a run has stopped the agent, no continuation of it writes the device back or changes it |
| DeviceAgents.DeviceAgent.UpdateDeviceInStoreWithoutLock | rw_core/core/device_agent.go:1517-1530 | writes store and cache together, or nothing if the agent is stopped or the store fails |
| DeviceAgents.DeviceAgent.AddPort | rw_core/core/device_agent.go:1358-1395 | is the gated change that adds the port; what success means for the cached device |
| DeviceAgents.DeviceAgent.AddPeerPort | rw_core/core/device_agent.go:1397-1432 | is the gated change that adds the peer; what success means for the cached device |
| DeviceAgents.DeviceAgent.UpdatePortState | rw_core/core/device_agent.go:1310-1331 | is the gated change of the status of the ports with a type and number; what success means for the cached device |
| DeviceAgents.SetOperIs | rw_core/core/device_agent.go:1322-1327 | each port with the type and number gets the status and keeps the rest, and every other port stays |
| DeviceAgents.DeviceAgent.ReconcileWithKvStore | rw_core/core/device_agent.go:173-192 | reloading from the store changes nothing |
| DeviceAgents.DeviceAgent.StopAgent | rw_core/core/device_agent.go:146-170 | stops the agent exactly if the store removed the device |
| FlowTables.FlowAddKeepsIntegrity | rw_core/core/logical_device_agent.go:822-936 | adding or replacing a flow keeps every meter in use in the table, whichever writes fail |
| FlowTables.FlowDeleteKeepsIntegrity | rw_core/core/logical_device_agent.go:968-1052 | so does a wildcard delete, and it never misses a meter |
| FlowTables.FlowDeleteStrictKeepsIntegrity | rw_core/core/logical_device_agent.go:1116-1198 | so does a strict delete, and it never misses a meter |
| FlowTables.MeterAddKeepsIntegrity | rw_core/core/logical_device_agent.go:637-671 | meter ids stay unique |
| FlowTables.MeterDeleteIntegrity | rw_core/core/logical_device_agent.go:673-729 | deleting a meter loses integrity if and only if its first write succeeds, its second one fails and a flow names the meter |
| FlowTables.MeterModifyKeepsIntegrity | rw_core/core/logical_device_agent.go:731-775 | modifying a meter keeps its id and integrity |
| FlowTables.GroupDeleteKeepsIntegrity | rw_core/core/logical_device_agent.go:1254-1316 | deleting groups and their flows keeps integrity |
| FlowTables.ApplyIntegrity | rw_core/core/logical_device_agent.go:637-1366 | one mod keeps integrity if and only if it does not lose a meter in use, and the deletes never miss a meter |
| FlowTables.RunIntegrity | rw_core/core/logical_device_agent.go:637-1366 | over every run, meters in use are in the table under unique ids, and the missing-meter errors of the deletes are unreachable |
| FlowTables.SuccessfulRunIntegrity | rw_core/core/logical_device_agent.go:637-1366 | a run in which every second write succeeds keeps integrity, and none of its deletes misses a meter |
| FlowTables.MeterLost | rw_core/core/logical_device_agent.go:705-726 | a concrete run that leaves a flow without its meter |
| FlowTables.LostMeterBlocksDelete | rw_core/core/logical_device_agent.go:1021-1027 | for every table, a wildcard delete misses a meter exactly if it selects a flow whose meter is missing, and then changes nothing |
| FlowTables.LostMeterBlocksStrictDelete | rw_core/core/logical_device_agent.go:1169-1174 | a strict delete misses a meter exactly if the flow that it finds has lost its meter, and then changes nothing |
| FlowTables.LostMeterKeepsFlow | rw_core/core/logical_device_agent.go:968-1198 | a flow that has lost its meter survives every delete of flows |
| FlowEffects.ApplyEffect | rw_core/core/logical_device_agent.go:572-635 | for every table, mod and outcome of the writes, what the three tables and the answer are, entry by entry |
| FlowEffects.FlowAddIs | rw_core/core/logical_device_agent.go:822-936 | without a flow alike, or with the overlap flag, one entry with zero counters is appended; otherwise the first one alike is replaced in its place; the first meter with the id counts a new flow; each error exactly when, and what was written before it |
| FlowEffects.FlowDeleteStrictIs | rw_core/core/logical_device_agent.go:1116-1198 | the first flow alike goes and the others stay in order, its meter counts one less, also if a later write fails; each error exactly when |
| FlowEffects.FlowDeleteIs | rw_core/core/logical_device_agent.go:968-1052 | what is left are the flows that are neither alike nor covered, in order and all copies; each error exactly when |
| FlowEffects.CoversIff | vendor/github.com/opencord/voltha-lib-go/v3/pkg/flows/flow_utils.go:1230-1263 | a delete covers a flow if and only if the cookies have the same bits where the mask has one, the table is the same or all, the flow outputs to the port and to the group unless any, and the match is empty |
| FlowEffects.MaskedIff | vendor/github.com/opencord/voltha-lib-go/v3/pkg/flows/flow_utils.go:1234-1237 | two numbers agree under a mask if and only if they have the same bits where the mask has one |
| FlowEffects.FlagsAreBits | rw_core/core/logical_device_agent.go:849-875 | the overlap and reset flags are bits 1 and 2 |
| FlowEffects.FilterOrder | rw_core/core/logical_device_agent.go:992-1013 | a filter keeps the order |
| FlowEffects.FilterCount | rw_core/core/logical_device_agent.go:992-1013 | a filter keeps every copy of what it keeps and nothing else |
| FlowEffects.MeterAddIs | rw_core/core/logical_device_agent.go:637-671 | a new meter is appended with no flows, and a known one stays as it is |
| FlowEffects.MeterModifyIs | rw_core/core/logical_device_agent.go:731-775 | the first meter with the id gets the configuration and keeps its place and flow count |
| FlowEffects.MeterDeleteIs | rw_core/core/logical_device_agent.go:673-729 | the first meter with the id goes, and then exactly the flows that name it, unless that write fails |
| FlowEffects.GroupAddIs | rw_core/core/logical_device_agent.go:1210-1252 | a new group is appended, and a known one is an error |
| FlowEffects.GroupModifyIs | rw_core/core/logical_device_agent.go:1318-1366 | the first group with the id is replaced in its place, and a missing one is an error |
| FlowEffects.GroupDeleteIs | rw_core/core/logical_device_agent.go:1254-1316 | one group goes with exactly the flows that send to it; all groups go without any flow |
| LogicalAgents.GetMeterConfig | rw_core/core/logical_device_agent.go:939-965 | fails exactly when a named meter is missing; otherwise each named meter once and no other |
| LogicalAgents.GetUpdatedFlowsAfterDeleteByMeterId | rw_core/core/logical_device_agent.go:777-789 | the backward deletion leaves exactly the flows that do not name the meter, in order |
| FlowTables.WithoutMeterIs | rw_core/core/logical_device_agent.go:777-789 | these are the flows with another meter or none |
| LogicalAgents.SplitFlows | rw_core/core/logical_device_agent.go:992-1013 | what a delete takes out and what it leaves |
| LogicalAgents.FlowsDeleteByGroupId | vendor/github.com/opencord/voltha-lib-go/v3/pkg/flows/flow_utils.go:1322-1331 | leaves exactly the flows that do not send to the group |
| LogicalAgents.UpdateFlowCountOfMeterStats | rw_core/core/logical_device_agent.go:791-819 | counts on the flow's meter only, with 32 bits |
| LogicalAgents.LogicalDeviceAgent.FlowAdd | rw_core/core/logical_device_agent.go:822-936 | is the step of the tables, with every write and error, and keeps integrity |
| LogicalAgents.LogicalDeviceAgent.FlowDelete | rw_core/core/logical_device_agent.go:968-1052 | is the step of the tables, with every write and error; it keeps integrity and then misses no meter |
| LogicalAgents.LogicalDeviceAgent.FlowDeleteStrict | rw_core/core/logical_device_agent.go:1116-1198 | is the step of the tables, with every write and error; it keeps integrity and then misses no meter |
| LogicalAgents.LogicalDeviceAgent.MeterAdd | rw_core/core/logical_device_agent.go:637-671 | is the step of the tables, with every write and error, and keeps integrity |
| LogicalAgents.LogicalDeviceAgent.MeterDelete | rw_core/core/logical_device_agent.go:673-729 | is the step of the tables, with both writes and errors, and keeps integrity if and only if it does not lose a meter in use |
| LogicalAgents.LogicalDeviceAgent.MeterModify | rw_core/core/logical_device_agent.go:731-775 | is the step of the tables, with every write and error, and keeps integrity |
| LogicalAgents.LogicalDeviceAgent.GroupAdd | rw_core/core/logical_device_agent.go:1210-1252 | is the step of the tables, with every write and error, and keeps integrity |
| LogicalAgents.LogicalDeviceAgent.GroupDelete | rw_core/core/logical_device_agent.go:1254-1316 | is the step of the tables, with both writes and errors, and keeps integrity |
| LogicalAgents.LogicalDeviceAgent.GroupModify | rw_core/core/logical_device_agent.go:1318-1366 | is the step of the tables, with every write and error, and keeps integrity |
| LogicalAgents.LogicalDeviceAgent.UpdateTables | rw_core/core/logical_device_agent.go:572-635 | every mod has the effect that `FlowEffects` states entry by entry, and keeps integrity if and only if it does not lose a meter in use |
| PortDiff.Diff | rw_core/core/logical_device_agent.go:1640-1674 | the ports with a new id, with a known id and other content, and with a gone id |
| PortDiff.PortUpdated | rw_core/core/logical_device_agent.go:1679-1703 | the events that are sent |
| PortDiff.EventIs | rw_core/core/logical_device_agent.go:1640-1703 | which ports cause which events |
| PortDiff.AnyOrder | rw_core/core/logical_device_agent.go:1679-1703 | the events in any order turn the controller's old view into the new one, if ids survive exactly when numbers do |
| PortDiff.SentOrderIff | rw_core/core/logical_device_agent.go:1679-1703 | in the order of sending they do if and only if that holds |
| PortDiff.RenumberedPortStays | rw_core/core/logical_device_agent.go:1640-1703 | a port that gets another number stays in the view under the old one |
| PortDiff.ReusedNumberIsLost | rw_core/core/logical_device_agent.go:1640-1703 | a number that passes to a new port is lost from the view |
| LoadSpec.StepKeepsInv | rw_core/core/device_manager.go:445-491 | every step of any caller keeps: an entry is its one loader followed by open channels of waiters |
| LoadSpec.SingleFlight | rw_core/core/device_manager.go:445-491 | over every run at most one caller loads a device, and an entry exists exactly while one does |
| LoadSpec.ClosedOnceAfterPublish | rw_core/core/device_manager.go:463-474 | no channel is closed twice, and a waiter's only after its loader's attempt to publish |
| LoadSpec.WaiterIsServed | rw_core/core/device_manager.go:468-485 | a waiter's channel is closed, or its loader is there and its remaining steps, whether or not it finds the device, close it and remove the entry |
| LoadAnswers.AgentsAre | rw_core/core/device_manager.go:102-117 | over every run the map holds exactly the devices that were there or were brought, by a loader that found them or otherwise, and not removed since |
| LoadAnswers.BeginIff | rw_core/core/device_manager.go:446-485 | over every run, whoever asks waits for the one who loads the device, and otherwise loads it itself if and only if it is not in memory |
| LoadAnswers.CheckTells | rw_core/core/device_manager.go:487-490 | the lookup at the end of a load tells the caller whether the device is in memory at that moment, for the device that the caller asked for |
| LoadAnswers.AnswerIff | rw_core/core/device_manager.go:445-491 | over every run, whoever has returned asked for the empty id and was refused, or was told, when it looked, whether the device was in memory |
| LoadAnswers.NeverBrought | rw_core/core/device_manager.go:445-491 | nobody is told of a device that nothing brings |
| LoadAnswers.LoaderIsTold | rw_core/core/device_manager.go:456-490 | a loader that has published looks the device up afterwards and finds it, unless it was removed in between |
| LoadAnswers.WaiterIsTold | rw_core/core/device_manager.go:479-490 | so does whoever waits for that loader: it does not look before its loader has published |
| DeviceLoaders.DeviceManager.BeginLoad | rw_core/core/device_manager.go:446-455 | become the loader, wait for it or find the device: one begin step |
| DeviceLoaders.DeviceManager.AddDeviceAgentToMap | rw_core/core/device_manager.go:102-110 | the attempt to publish is one step |
| DeviceLoaders.DeviceManager.AnnounceCompletion | rw_core/core/device_manager.go:468-476 | closes exactly the channels of the entry, all of them open before, and removes it: one announce step |
| DeviceLoaders.DeviceManager.AwaitLoader | rw_core/core/device_manager.go:479-484 | a waiter goes on only when its channel is closed: one wake step |
| DeviceLoaders.DeviceManager.FindAgent | rw_core/core/device_manager.go:487-490 | finds the device exactly if it is in the map: one check step |
| DeviceLoaders.DeviceManager.DeleteDeviceAgentFromMap | rw_core/core/device_manager.go:112-117 | takes the device out of the map: one step |
| Transitions.BetterIsLexicographic | rw_core/core/device_state_transitions.go:48-61 | the packed score orders matches by admin, then operational, then connection level |
| Transitions.ExactIsEqual | rw_core/core/device_state_transitions.go:54-56 | a match is exact only for the very states of the entry |
| Transitions.GetHandler | rw_core/core/device_state_transitions.go:234-285 | the stepwise assignment computes the three levels, and no handlers without an admin match |
| Transitions.BestIsUnique | rw_core/core/device_state_transitions.go:305-326 | at most one entry is the best one |
| Transitions.BestIsGreatest | rw_core/core/device_state_transitions.go:305-326 | no applicable entry has a lexicographically greater match, and an exact match for the device's own type comes first |
| Transitions.SearchIsBest | rw_core/core/device_state_transitions.go:305-326 | the search, as a fold, ends with the best entry of any table |
| Transitions.GetTransitionHandler | rw_core/core/device_state_transitions.go:288-326 | for any table and any change the handlers of the best applicable entry, or none if no entry applies; nothing without a change |
| Transitions.DeletionIsTeardown | rw_core/core/device_state_transitions.go:123-158 | in the shipped table the best entry for a change into the deleted state has the teardown of the type of device |
| Transitions.ShippedAnswers | rw_core/core/device_state_transitions.go:88-227 | for every change of either type of device, what the 22 entries come to: the handlers as a function of the states alone, and for which changes there are none |
| Transitions.AnswersAre | rw_core/core/device_state_transitions.go:88-227 | an enabled OLT that becomes active gets its logical device, an ONU its UNI ports; an OLT that becomes unreachable loses it; exactly which changes are reported as invalid and which are not handled at all |
| Transitions.GetShippedHandlers | rw_core/core/device_state_transitions.go:288-326 | the search through the shipped table returns that function of the states, and the report of an invalid change exactly for those |
| Transitions.FailedOltCreatesLogicalDevice | rw_core/core/device_state_transitions.go:141-146 | an enabled reachable OLT that goes from active to failed gets the handlers of one that comes up |
| Transitions.GetDeletionHandlers | rw_core/core/device_state_transitions.go:88-227 | every change into the deleted state ends with the removal of the device, with the full teardown unless it came from preprovisioned |

## Left out

- Kafka, gRPC, configuration, probes and logging: they move data and hold no invariant of their own.
- updateFlowsAndGroupsToAdapter: its incremental branch deletes the entries that the update contains, so it does not agree with its bulk branch.
- The rules of multicast flows and of traps without a port are stated, but not what they do to packets: groups are not modelled, and the ONU rule of such a trap is on no device.
- UpdateTables: the commands that modify flows, which the core answers with an error, and routes that cannot be generated first are left out.
- UpstreamMeaning: packets that a trap is for, and table-1 flows on written metadata, are covered by `UpstreamRun` and `UpstreamIff` instead.
- Packet actions other than output, group, push, pop and set-field, match fields outside the basic OpenFlow class, and metadata masks are not modelled.
- LogicalDeviceManager.load: an early return skips the cleanup of its entry, so the single-flight result is for devices only.
- Meter flow counts are modelled, but not claimed to be the number of flows: replacements and wildcard deletes do not adjust them.
- The wait for adapters after a flow change, and what happens when they fail.
- Timeouts and other statistics of flows, which no decision depends on.
- Image downloads, PM configurations, alarms and OMCI checks: they would only add easy members.
