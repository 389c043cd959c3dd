/**
 * src/core/messaging/distribution_center.rs: the in-process routing tables.
 * A broadcast channel is represented by the number of receivers attached to
 * it; a direct channel by the messages queued on it. The messages carried by
 * the broadcast channels, and receivers being dropped, are not modelled.
 */
module DistributionCenter {
  import opened Wrappers
  import opened Messages

  const DEFAULT_CAPACITY: nat := 1024

  /** The receiving end handed to a subscriber: of one type's channel, or of a new global channel. */
  datatype Subscription = TypeChannel(messageType: MessageType) | GlobalChannel(index: nat)

  /** The `mpsc` sender registered for one plugin, with the messages sent on it so far. */
  class DirectSender {
    var inbox: seq<Message>
    /** Whether the plugin still holds its receiving end. */
    var open: bool

    constructor ()
      ensures inbox == [] && open
    {
      inbox := [];
      open := true;
    }
  }

  datatype DirectError = UnknownTarget(pluginId: string) | SendFailed(pluginId: string)

  /** The sum of the receiver counts of the global subscribers. */
  function Sum(counts: seq<nat>): nat
    decreases |counts|
  {
    if counts == [] then 0 else Sum(counts[..|counts| - 1]) + counts[|counts| - 1]
  }

  /** `retain(|t| t != message_type)`: every occurrence removed, the rest kept in order. */
  function Without(ts: seq<MessageType>, t: MessageType): seq<MessageType>
    decreases |ts|
  {
    if ts == [] then []
    else Without(ts[..|ts| - 1], t) + (if ts[|ts| - 1] == t then [] else [ts[|ts| - 1]])
  }

  lemma {:induction false} WithoutContents(ts: seq<MessageType>, t: MessageType)
    ensures |Without(ts, t)| <= |ts|
    ensures forall u :: u in Without(ts, t) <==> u in ts && u != t
    decreases |ts|
  {
    if ts != [] {
      var init := ts[..|ts| - 1];
      WithoutContents(init, t);
      assert ts == init + [ts[|ts| - 1]];
    }
  }

  /** Removing a type that is not there leaves the list as it is. */
  lemma {:induction false} WithoutAbsent(ts: seq<MessageType>, t: MessageType)
    requires t !in ts
    ensures Without(ts, t) == ts
    decreases |ts|
  {
    if ts != [] {
      var init := ts[..|ts| - 1];
      assert t !in init by { assert forall u :: u in init ==> u in ts; }
      WithoutAbsent(init, t);
      assert ts == init + [ts[|ts| - 1]];
    }
  }

  class DistributionCenter {
    /** The broadcast channel of each message type that has one, by receiver count. */
    var channels: map<MessageType, nat>
    var directChannels: map<string, DirectSender>
    /** One broadcast channel per `subscribe_all`, by receiver count. */
    var globalSubscribers: seq<nat>
    var pluginSubscriptions: map<string, seq<MessageType>>
    const channelCapacity: nat

    constructor WithCapacity(capacity: nat)
      ensures channels == map[] && directChannels == map[] && globalSubscribers == [] && pluginSubscriptions == map[]
      ensures channelCapacity == capacity
    {
      channels := map[];
      directChannels := map[];
      globalSubscribers := [];
      pluginSubscriptions := map[];
      channelCapacity := capacity;
    }

    constructor ()
      ensures channels == map[] && directChannels == map[] && globalSubscribers == [] && pluginSubscriptions == map[]
      ensures channelCapacity == DEFAULT_CAPACITY
    {
      channels := map[];
      directChannels := map[];
      globalSubscribers := [];
      pluginSubscriptions := map[];
      channelCapacity := DEFAULT_CAPACITY;
    }

    /** `subscribe_all`: a new global channel with the one receiver handed back. */
    method SubscribeAll(pluginName: string) returns (rx: Subscription)
      modifies this
      ensures globalSubscribers == old(globalSubscribers) + [1]
      ensures rx == GlobalChannel(|old(globalSubscribers)|)
      ensures channels == old(channels) && directChannels == old(directChannels)
      ensures pluginSubscriptions == old(pluginSubscriptions)
    {
      rx := GlobalChannel(|globalSubscribers|);
      globalSubscribers := globalSubscribers + [1];
    }

    /** `register_direct_channel`: the id now maps to this sender, replacing any earlier one. */
    method RegisterDirectChannel(pluginId: string, sender: DirectSender)
      modifies this
      ensures directChannels == old(directChannels)[pluginId := sender]
      ensures channels == old(channels) && globalSubscribers == old(globalSubscribers)
      ensures pluginSubscriptions == old(pluginSubscriptions)
    {
      directChannels := directChannels[pluginId := sender];
    }

    /** `send_direct`: an unregistered id is an error; otherwise the message is queued, or the send fails if the plugin dropped its end. */
    method SendDirect(pluginId: string, m: Message) returns (r: Result<Unit, DirectError>)
      modifies if pluginId in directChannels then {directChannels[pluginId]} else {}
      ensures pluginId !in directChannels ==> r == Err(UnknownTarget(pluginId))
      ensures pluginId in directChannels && !directChannels[pluginId].open ==>
                r == Err(SendFailed(pluginId)) && directChannels[pluginId].inbox == old(directChannels[pluginId].inbox)
      ensures pluginId in directChannels && directChannels[pluginId].open ==>
                r.Ok? && directChannels[pluginId].inbox == old(directChannels[pluginId].inbox) + [m]
    {
      if pluginId !in directChannels {
        return Err(UnknownTarget(pluginId));
      }
      var sender := directChannels[pluginId];
      if !sender.open {
        return Err(SendFailed(pluginId));
      }
      sender.inbox := sender.inbox + [m];
      r := Ok(Unit);
    }

    /**
     * `subscribe`: the type's channel is created only if missing and gains the
     * returned receiver; the type is appended to the plugin's list, even if it
     * is already there.
     */
    method Subscribe(t: MessageType, pluginName: string) returns (rx: Subscription)
      modifies this
      ensures rx == TypeChannel(t)
      ensures channels == old(channels)[t := (if t in old(channels) then old(channels)[t] else 0) + 1]
      ensures pluginSubscriptions == old(pluginSubscriptions)[pluginName :=
                (if pluginName in old(pluginSubscriptions) then old(pluginSubscriptions)[pluginName] else []) + [t]]
      ensures directChannels == old(directChannels) && globalSubscribers == old(globalSubscribers)
    {
      var receivers := if t in channels then channels[t] else 0;
      channels := channels[t := receivers + 1];
      var types := if pluginName in pluginSubscriptions then pluginSubscriptions[pluginName] else [];
      pluginSubscriptions := pluginSubscriptions[pluginName := types + [t]];
      rx := TypeChannel(t);
    }

    /** `unsubscribe`: every occurrence of the type leaves this plugin's list; no channel and no other plugin is touched. */
    method Unsubscribe(pluginName: string, t: MessageType)
      modifies this
      ensures pluginName in old(pluginSubscriptions) ==>
                pluginSubscriptions == old(pluginSubscriptions)[pluginName := Without(old(pluginSubscriptions)[pluginName], t)]
      ensures pluginName !in old(pluginSubscriptions) ==> pluginSubscriptions == old(pluginSubscriptions)
      ensures channels == old(channels) && directChannels == old(directChannels) && globalSubscribers == old(globalSubscribers)
    {
      if pluginName in pluginSubscriptions {
        var types := pluginSubscriptions[pluginName];
        var kept := [];
        for i := 0 to |types|
          invariant kept == Without(types[..i], t)
        {
          assert types[..i + 1][..i] == types[..i];
          if types[i] != t {
            kept := kept + [types[i]];
          }
        }
        assert types[..|types|] == types;
        pluginSubscriptions := pluginSubscriptions[pluginName := kept];
      }
    }

    /** `unsubscribe_all`: the plugin's entry is removed. */
    method UnsubscribeAll(pluginName: string)
      modifies this
      ensures pluginSubscriptions == old(pluginSubscriptions) - {pluginName}
      ensures channels == old(channels) && directChannels == old(directChannels) && globalSubscribers == old(globalSubscribers)
    {
      pluginSubscriptions := pluginSubscriptions - {pluginName};
    }

    /** `get_plugin_subscriptions`: the plugin's list, or an empty one. */
    function GetPluginSubscriptions(pluginName: string): (ts: seq<MessageType>)
      reads this
      ensures pluginName !in pluginSubscriptions ==> ts == []
      ensures pluginName in pluginSubscriptions ==> ts == pluginSubscriptions[pluginName]
    {
      if pluginName in pluginSubscriptions then pluginSubscriptions[pluginName] else []
    }

    /** `get_subscription_stats`: every type that has a channel, by name, with that channel's receiver count. */
    method GetSubscriptionStats() returns (stats: map<string, nat>)
      ensures forall n :: n in stats <==> NewMessageType(n) in channels
      ensures forall t :: t in channels ==> AsStr(t) in stats && stats[AsStr(t)] == channels[t]
    {
      stats := map[];
      var rest := channels.Keys;
      while rest != {}
        invariant rest <= channels.Keys
        invariant forall n :: n in stats <==> NewMessageType(n) in channels && NewMessageType(n) !in rest
        invariant forall n :: n in stats ==> stats[n] == channels[NewMessageType(n)]
        decreases |rest|
      {
        var t :| t in rest;
        stats := stats[AsStr(t) := channels[t]];
        rest := rest - {t};
      }
    }

    /**
     * `distribute`: the number of receivers reached, that is the receivers of
     * the message type's channel, if there is one, and of every global channel.
     */
    method Distribute(m: Message) returns (count: nat)
      ensures count == (if m.messageType in channels then channels[m.messageType] else 0) + Sum(globalSubscribers)
    {
      count := 0;
      if m.messageType in channels {
        count := count + channels[m.messageType];
      }
      ghost var base := count;
      for i := 0 to |globalSubscribers|
        invariant count == base + Sum(globalSubscribers[..i])
      {
        assert globalSubscribers[..i + 1][..i] == globalSubscribers[..i];
        count := count + globalSubscribers[i];
      }
      assert globalSubscribers[..|globalSubscribers|] == globalSubscribers;
    }
  }

  /** After `unsubscribe_all` the plugin has no subscriptions; after `unsubscribe` it has none of that type. */
  method UnsubscribeClears(dc: DistributionCenter, pluginName: string, t: MessageType) returns (afterOne: seq<MessageType>, afterAll: seq<MessageType>)
    modifies dc
    ensures t !in afterOne
    ensures afterAll == []
  {
    dc.Unsubscribe(pluginName, t);
    afterOne := dc.GetPluginSubscriptions(pluginName);
    if pluginName in old(dc.pluginSubscriptions) {
      WithoutContents(old(dc.pluginSubscriptions)[pluginName], t);
    }
    dc.UnsubscribeAll(pluginName);
    afterAll := dc.GetPluginSubscriptions(pluginName);
  }
}
