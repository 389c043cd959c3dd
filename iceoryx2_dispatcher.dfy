/**
 * The iceoryx2 dispatcher of src/dispatcher/iceoryx2.rs: its builders, its
 * running state and sender ownership, and the validation and conversion done
 * by `send_message` before an envelope is handed to the publisher thread.
 * The thread, which owns the iceoryx2 publisher, is not part of this model;
 * the channel to it is a queue of envelopes.
 */
module Iceoryx2Dispatcher {
  import opened Wrappers
  import Json
  import opened Messages
  import Envelope
  import Receiver

  const DEFAULT_NAME: string := "Iceoryx2Dispatcher"

  /** The owned-value part of the dispatcher that its builders rewrite. */
  datatype Settings = Settings(name: string, nodeName: string, serviceName: string, subscribedTypes: set<MessageType>)

  /** `with_service`: the default name and an empty subscription set, which means every type. */
  function WithService(nodeName: string, serviceName: string): (s: Settings)
    ensures s.name == DEFAULT_NAME && s.nodeName == nodeName && s.serviceName == serviceName
    ensures s.subscribedTypes == {}
  {
    Settings(DEFAULT_NAME, nodeName, serviceName, {})
  }

  /** `new`: `with_service` on the default service name. */
  function New(nodeName: string): (s: Settings)
    ensures s == WithService(nodeName, Envelope.AMADEUS_SERVICE)
  {
    Settings(DEFAULT_NAME, nodeName, Envelope.AMADEUS_SERVICE, {})
  }

  /** `with_name` changes the name and nothing else. */
  function WithName(s: Settings, name: string): (r: Settings)
    ensures r.name == name
    ensures r.nodeName == s.nodeName && r.serviceName == s.serviceName && r.subscribedTypes == s.subscribedTypes
  {
    s.(name := name)
  }

  /** `subscribe_to` replaces the set by exactly the listed types. */
  function SubscribeTo(s: Settings, types: seq<string>): (r: Settings)
    ensures forall t :: t in r.subscribedTypes <==> AsStr(t) in types
    ensures r.name == s.name && r.nodeName == s.nodeName && r.serviceName == s.serviceName
  {
    s.(subscribedTypes := set name | name in types :: NewMessageType(name))
  }

  /** `subscribe_to_one` adds one type and keeps the others. */
  function SubscribeToOne(s: Settings, t: string): (r: Settings)
    ensures forall u :: u in r.subscribedTypes <==> u in s.subscribedTypes || AsStr(u) == t
    ensures r.name == s.name && r.nodeName == s.nodeName && r.serviceName == s.serviceName
  {
    s.(subscribedTypes := s.subscribedTypes + {NewMessageType(t)})
  }

  /** Subscribing one type at a time to a fresh dispatcher gives the same set as `subscribe_to`. */
  lemma {:induction false} SubscribeOneByOne(s: Settings, types: seq<string>)
    requires s.subscribedTypes == {}
    ensures Fold(s, types).subscribedTypes == SubscribeTo(s, types).subscribedTypes
    decreases |types|
  {
    if types == [] {
    } else {
      var init := types[..|types| - 1];
      SubscribeOneByOne(s, init);
      forall u ensures u in Fold(s, types).subscribedTypes <==> AsStr(u) in types {
        assert types == init + [types[|types| - 1]];
      }
    }
  }

  /** `subscribe_to_one` applied for each listed type in turn. */
  function Fold(s: Settings, types: seq<string>): Settings
    decreases |types|
  {
    if types == [] then s else SubscribeToOne(Fold(s, types[..|types| - 1]), types[|types| - 1])
  }

  datatype SendError = NotRunning | NoChannel | SerializeFailed | TooLarge(cause: Envelope.EncodeError) | PublishFailed

  /**
   * The conversion in `send_message`: the whole message is serialised with
   * `to_json` and packed under its type, with the priority's discriminant as
   * the priority byte and the message's own timestamp.
   */
  function PrepareEnvelope(m: Message, codec: MessageCodec): (r: Result<Envelope.MessageData, SendError>)
    ensures codec.toJson(m).None? ==> r == Err(SerializeFailed)
    ensures codec.toJson(m).Some? ==>
              var packed := Envelope.Pack(AsStr(m.messageType), codec.toJson(m).value, Discriminant(m.priority), m.timestamp);
              && (packed.Err? ==> r == Err(TooLarge(packed.error)))
              && (packed.Ok? ==> r == Ok(packed.value))
  {
    match codec.toJson(m)
    case None => Err(SerializeFailed)
    case Some(json) =>
      match Envelope.Pack(AsStr(m.messageType), json, Discriminant(m.priority), m.timestamp)
      case Err(e) => Err(TooLarge(e))
      case Ok(d) => Ok(d)
  }

  /**
   * What a receiver on the same service makes of a prepared envelope: the
   * same type, priority and timestamp, the serialised message as payload, and
   * the iceoryx2 source.
   */
  lemma BridgeRoundTrip(m: Message, codec: MessageCodec, parse: string -> Option<Json.Value>, j: Json.Value)
    requires AsStr(m.messageType) != [] && codec.toJson(m).Some? && codec.toJson(m).value != []
    requires PrepareEnvelope(m, codec).Ok?
    requires parse(codec.toJson(m).value) == Some(j)
    ensures Receiver.ConvertToMessage(PrepareEnvelope(m, codec).value, parse)
         == Ok(m.(payload := j, source := External(Receiver.SOURCE_NAME), messageId := None, metadata := map[]))
  {
    var json := codec.toJson(m).value;
    Envelope.PackDecode(AsStr(m.messageType), json, Discriminant(m.priority), m.timestamp);
    Receiver.PriorityByteRoundTrip(m.priority);
  }

  /**
   * The `mpsc` channel to the publisher thread: the envelopes sent so far,
   * oldest first, and whether the thread still holds the receiving end.
   */
  class PublishChannel {
    var queue: seq<Envelope.MessageData>
    var open: bool

    constructor ()
      ensures queue == [] && open
    {
      queue := [];
      open := true;
    }

    /** The publisher thread has ended and dropped its receiver. */
    method Close()
      modifies this
      ensures !open && queue == old(queue)
    {
      open := false;
    }

    /** A send is taken only while the receiver is alive; otherwise it fails. */
    method Send(d: Envelope.MessageData) returns (sent: bool)
      modifies this
      ensures sent == old(open) && open == old(open)
      ensures queue == if sent then old(queue) + [d] else old(queue)
    {
      sent := open;
      if open {
        queue := queue + [d];
      }
    }
  }

  class Iceoryx2Dispatcher {
    var settings: Settings
    var running: bool
    /** `message_tx`: present from `start` until `stop`. */
    var messageTx: Option<PublishChannel>
    /** Whether `publisher_task_handle` holds a thread handle. */
    var hasTask: bool

    constructor (settings: Settings)
      ensures this.settings == settings && !running && messageTx.None? && !hasTask
    {
      this.settings := settings;
      running := false;
      messageTx := None;
      hasTask := false;
    }

    /** `start`: a no-op when running; otherwise a new channel is made and the dispatcher runs. */
    method Start() returns (r: Result<Unit, SendError>)
      modifies this
      ensures r.Ok? && settings == old(settings)
      ensures old(running) ==> unchanged(this)
      ensures !old(running) ==> running && hasTask && messageTx.Some? && fresh(messageTx.value) && messageTx.value.queue == [] && messageTx.value.open
    {
      if running {
        return Ok(Unit);
      }
      var channel := new PublishChannel();
      messageTx := Some(channel);
      hasTask := true;
      running := true;
      r := Ok(Unit);
    }

    /** `stop`: a no-op when not running; otherwise the flag is cleared and the sender dropped. */
    method Stop() returns (r: Result<Unit, SendError>)
      modifies this
      ensures r.Ok? && settings == old(settings)
      ensures !old(running) ==> unchanged(this)
      ensures old(running) ==> !running && messageTx.None? && !hasTask
    {
      if !running {
        return Ok(Unit);
      }
      running := false;
      messageTx := None;
      hasTask := false;
      r := Ok(Unit);
    }

    /**
     * `send_message`: refused unless running with a channel; otherwise the
     * prepared envelope is queued, or the conversion error returned, or the
     * send fails because the publisher thread has dropped its receiver.
     */
    method SendMessage(m: Message, codec: MessageCodec) returns (r: Result<Unit, SendError>)
      modifies if messageTx.Some? then {messageTx.value} else {}
      ensures !running ==> r == Err(NotRunning)
      ensures running && messageTx.None? ==> r == Err(NoChannel)
      ensures running && messageTx.Some? && PrepareEnvelope(m, codec).Err? ==> r == Err(PrepareEnvelope(m, codec).error)
      ensures running && messageTx.Some? && PrepareEnvelope(m, codec).Ok? && !old(messageTx.value.open) ==> r == Err(PublishFailed)
      ensures running && messageTx.Some? && PrepareEnvelope(m, codec).Ok? && old(messageTx.value.open) ==>
                r.Ok? && messageTx.value.queue == old(messageTx.value.queue) + [PrepareEnvelope(m, codec).value]
      ensures messageTx.Some? ==> messageTx.value.open == old(messageTx.value.open)
      ensures r.Err? && messageTx.Some? ==> messageTx.value.queue == old(messageTx.value.queue)
    {
      if !running {
        return Err(NotRunning);
      }
      if messageTx.None? {
        return Err(NoChannel);
      }
      var tx := messageTx.value;
      var prepared := PrepareEnvelope(m, codec);
      if prepared.Err? {
        return Err(prepared.error);
      }
      var sent := tx.Send(prepared.value);
      if !sent {
        return Err(PublishFailed);
      }
      r := Ok(Unit);
    }

    function Name(): string
      reads this
    {
      settings.name
    }

    function IsRunning(): bool
      reads this
    {
      running
    }

    function SubscribedMessageTypes(): set<MessageType>
      reads this
    {
      settings.subscribedTypes
    }
  }
}
