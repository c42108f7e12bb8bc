/** The loading of devices by the device manager; each method is one step of `LoadSpec`. */
module DeviceLoaders {
  import opened LoadSpec

  /** The channel that a caller waits on; `id` names the caller. */
  class LoadChannel {
    var closed: bool
    ghost const id: nat

    constructor (ghost id: nat)
      ensures !closed && this.id == id
    {
      closed := false;
      this.id := id;
    }

    /** Closing a closed channel panics, hence the precondition. */
    method Close()
      requires !closed
      modifies this
      ensures closed
    {
      closed := true;
    }
  }

  /** Closes the channels of an entry, one after the other. */
  method CloseAll(v: seq<LoadChannel>)
    requires forall i | 0 <= i < |v| :: !v[i].closed
    requires forall i, j | 0 <= i < j < |v| :: v[i] != v[j]
    modifies v
    ensures forall i | 0 <= i < |v| :: v[i].closed
  {
    for i := 0 to |v|
      invariant forall j | 0 <= j < |v| :: v[j].closed <==> j < i
    {
      v[i].Close();
    }
  }

  /** The open channels, among the known ones, of the given callers. */
  ghost predicate ListIn(list: seq<LoadChannel>, ids: seq<nat>, known: set<LoadChannel>)
    reads known
  {
    && |list| == |ids|
    && forall i | 0 <= i < |list| :: list[i] in known && list[i].id == ids[i] && !list[i].closed
  }

  ghost predicate Owned(ch: LoadChannel, s: State<nat>)
    reads ch
  {
    ch.id in s.callers && (ch.closed <==> s.closes[ch.id] > 0)
  }

  class DeviceManager {
    var deviceLoadingInProgress: map<string, seq<LoadChannel>>
    var deviceAgents: set<string>
    ghost var spec: State<nat>
    ghost var channels: set<LoadChannel>

    /** The list of a device holds the open channels of the callers in its entry. */
    ghost predicate ListOk(d: string)
      requires d in deviceLoadingInProgress && d in spec.inProgress
      reads this, channels
    {
      ListIn(deviceLoadingInProgress[d], spec.inProgress[d], channels)
    }

    /** A channel belongs to a caller and is closed just when the step system has closed it. */
    ghost predicate ChannelOk(ch: LoadChannel)
      reads this, ch
    {
      Owned(ch, spec)
    }

    ghost predicate ChannelsOk()
      reads this, channels
    {
      && (forall ch {:trigger ChannelOk(ch)} | ch in channels :: ChannelOk(ch))
      && (forall a, b | a in channels && b in channels && a.id == b.id :: a == b)
    }

    ghost predicate Valid()
      reads this, channels
    {
      && Inv(spec) && deviceAgents == spec.agents && deviceLoadingInProgress.Keys == spec.inProgress.Keys && ChannelsOk()
      && forall d {:trigger ListOk(d)} | d in deviceLoadingInProgress :: ListOk(d)
    }

    constructor (agents: set<string>)
      ensures Valid() && spec == Init(agents) && channels == {}
    {
      deviceLoadingInProgress, deviceAgents, spec, channels := map[], agents, Init(agents), {};
    }

    /** The first section under the lock: become the loader, wait for it, or find the device in memory. */
    method BeginLoad(deviceId: string, ch: LoadChannel) returns (loads: bool, waits: bool)
      requires Valid() && ch.id !in spec.callers && !ch.closed
      modifies this
      ensures Valid() && spec == Next(old(spec), Begin(ch.id, deviceId)) && channels == old(channels) + {ch}
      ensures loads <==> spec.callers[ch.id] == Loading(deviceId)
      ensures waits <==> spec.callers[ch.id].Waiting?
    {
      assert ch in channels ==> ChannelOk(ch);
      BeginKeepsInv(spec, ch.id, deviceId);
      ghost var before := spec;
      spec := Next(spec, Begin(ch.id, deviceId));
      channels := channels + {ch};
      loads, waits := false, false;
      if deviceId != "" {
        if deviceId !in deviceLoadingInProgress {
          if deviceId !in deviceAgents {
            deviceLoadingInProgress := deviceLoadingInProgress[deviceId := [ch]];
            loads := true;
          }
        } else {
          deviceLoadingInProgress := deviceLoadingInProgress[deviceId := deviceLoadingInProgress[deviceId] + [ch]];
          waits := true;
        }
      }
      forall d | d in old(deviceLoadingInProgress) ensures ListIn(old(deviceLoadingInProgress)[d], before.inProgress[d], old(channels)) {
        assert old(ListOk(d));
      }
      BegunLists(ch, deviceId, before, old(deviceLoadingInProgress), old(channels));
      forall x | x in old(channels) ensures Owned(x, before) {
        assert old(ChannelOk(x));
      }
      BegunChannels(ch, deviceId, before, old(channels));
    }

    /** The channels after a caller has begun. */
    lemma BegunChannels(ch: LoadChannel, deviceId: string, before: State<nat>, known: set<LoadChannel>)
      requires ch.id !in before.callers && !ch.closed && before.closes[ch.id] == 0
      requires channels == known + {ch} && spec == Next(before, Begin(ch.id, deviceId))
      requires (forall x | x in known :: Owned(x, before)) && forall a, b | a in known && b in known && a.id == b.id :: a == b
      ensures ChannelsOk()
    {
    }

    /** The lists after a caller has begun. */
    lemma BegunLists(ch: LoadChannel, deviceId: string, before: State<nat>, lists: map<string, seq<LoadChannel>>, known: set<LoadChannel>)
      requires ch.id !in before.callers && !ch.closed && channels == known + {ch} && spec == Next(before, Begin(ch.id, deviceId))
      requires lists.Keys == before.inProgress.Keys
      requires forall d | d in lists :: ListIn(lists[d], before.inProgress[d], known)
      requires deviceLoadingInProgress ==
               if deviceId == "" then lists
               else if deviceId in lists then lists[deviceId := lists[deviceId] + [ch]]
               else if deviceId in before.agents then lists else lists[deviceId := [ch]]
      ensures deviceLoadingInProgress.Keys == spec.inProgress.Keys
      ensures forall d {:trigger ListOk(d)} | d in deviceLoadingInProgress :: ListOk(d)
    {
      forall d {:trigger ListOk(d)} | d in deviceLoadingInProgress ensures ListOk(d) {
        assert d in lists ==> ListIn(lists[d], before.inProgress[d], known);
      }
    }

    /** The loader puts the agent into the map, if it could be started. */
    method AddDeviceAgentToMap(deviceId: string, started: bool, ghost c: nat)
      requires Valid() && c in spec.callers && spec.callers[c] == Loading(deviceId)
      modifies this`deviceAgents, this`spec
      ensures Valid() && spec == Next(old(spec), Publish(c, started))
    {
      PublishKeepsInv(spec, c, started);
      spec := Next(spec, Publish(c, started));
      if started {
        if deviceId !in deviceAgents {
          deviceAgents := deviceAgents + {deviceId};
        }
      }
      forall ch {:trigger ChannelOk(ch)} | ch in channels ensures ChannelOk(ch) {
        assert old(ChannelOk(ch));
      }
      forall d {:trigger ListOk(d)} | d in deviceLoadingInProgress ensures ListOk(d) {
        assert old(ListOk(d));
      }
    }

    /** The wait for the loader ends when the channel is closed. */
    method AwaitLoader(ch: LoadChannel)
      requires Valid() && ch in channels && ChannelOk(ch) && ch.closed && spec.callers[ch.id].Waiting?
      modifies this`spec
      ensures Valid() && spec == Next(old(spec), Wake(ch.id))
    {
      OwnStepKeepsInv(spec, Wake(ch.id));
      spec := Next(spec, Wake(ch.id));
      forall x {:trigger ChannelOk(x)} | x in channels ensures ChannelOk(x) {
        assert old(ChannelOk(x));
      }
      forall d {:trigger ListOk(d)} | d in deviceLoadingInProgress ensures ListOk(d) {
        assert old(ListOk(d));
      }
    }

    /** The lookup at the end of a load, which is what the caller is told. */
    method FindAgent(deviceId: string, ghost c: nat) returns (found: bool)
      requires Valid() && c in spec.callers && spec.callers[c] == Checking(deviceId)
      modifies this`spec
      ensures Valid() && spec == Next(old(spec), Check(c))
      ensures spec.callers[c] == Returned(found) && (found <==> deviceId in deviceAgents)
    {
      OwnStepKeepsInv(spec, Check(c));
      spec := Next(spec, Check(c));
      forall ch {:trigger ChannelOk(ch)} | ch in channels ensures ChannelOk(ch) {
        assert old(ChannelOk(ch));
      }
      forall d {:trigger ListOk(d)} | d in deviceLoadingInProgress ensures ListOk(d) {
        assert old(ListOk(d));
      }
      found := deviceId in deviceAgents;
    }

    method DeleteDeviceAgentFromMap(deviceId: string)
      requires Valid()
      modifies this`deviceAgents, this`spec
      ensures Valid() && spec == Next(old(spec), AgentRemoved(deviceId)) && deviceId !in deviceAgents
    {
      OwnStepKeepsInv(spec, AgentRemoved(deviceId));
      spec := Next(spec, AgentRemoved(deviceId));
      deviceAgents := deviceAgents - {deviceId};
      forall ch {:trigger ChannelOk(ch)} | ch in channels ensures ChannelOk(ch) {
        assert old(ChannelOk(ch));
      }
      forall d {:trigger ListOk(d)} | d in deviceLoadingInProgress ensures ListOk(d) {
        assert old(ListOk(d));
      }
    }

    /** The second section under the lock: wake every waiter and remove the entry. */
    method AnnounceCompletion(deviceId: string, ghost c: nat)
      requires Valid() && c in spec.callers && spec.callers[c] == Published(deviceId)
      modifies this`deviceLoadingInProgress, this`spec, channels
      ensures Valid() && spec == Next(old(spec), Announce(c))
      ensures deviceId in old(deviceLoadingInProgress) && deviceId !in deviceLoadingInProgress
      ensures forall ch | ch in old(channels) :: ch.closed == (old(ch.closed) || ch in old(deviceLoadingInProgress[deviceId]))
    {
      assert CallerOk(spec, c) && EntryOk(spec, deviceId);
      assert ListOk(deviceId);
      AnnounceKeepsInv(spec, c);
      ghost var before := spec;
      var v := deviceLoadingInProgress[deviceId];
      CloseAll(v);
      spec := Next(spec, Announce(c));
      deviceLoadingInProgress := deviceLoadingInProgress - {deviceId};
      forall ch {:trigger ChannelOk(ch)} | ch in channels ensures ChannelOk(ch) {
        assert old(ChannelOk(ch));
        AnnounceCloses(before, c, ch.id);
        assert ch in v <==> ch.id in before.inProgress[deviceId];
      }
      forall d {:trigger ListOk(d)} | d in deviceLoadingInProgress ensures ListOk(d) {
        assert old(ListOk(d));
        forall i | 0 <= i < |deviceLoadingInProgress[d]| ensures deviceLoadingInProgress[d][i] !in v {
          var id := before.inProgress[d][i];
          assert id in before.inProgress[d];
          if id in before.inProgress[deviceId] { EntriesApart(before, d, deviceId, id); }
        }
      }
    }
  }
}
