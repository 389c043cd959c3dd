/**
 * src/plugins/iceoryx2_dispatcher/mod.rs: the dispatcher as a plugin. It
 * bridges the internal message bus and the iceoryx2 service in both
 * directions, with a per-message filter on each side to suppress echoes.
 * The node, publisher and subscriber threads are not part of this model; what
 * is modelled is what each direction does with the messages it sees, and the
 * plugin's running flag and publisher channel.
 */
module DispatcherPlugin {
  import opened Wrappers
  import opened Messages
  import Envelope
  import Plugin
  import Receiver
  import Iceoryx2Dispatcher

  const PLUGIN_NAME: string := "Iceoryx2Dispatcher"

  /** Only the variant this plugin reports; the enum's other variants are not part of this model. */
  datatype PluginType = Privileged

  /** The metadata built by `with_service`. */
  function PluginMetadata(): Plugin.PluginMetadata
  {
    Plugin.WithProperty(
      Plugin.EnabledByDefault(
        Plugin.NewMetadata(PLUGIN_NAME, "Core dispatcher plugin using Iceoryx2 for IPC", "0.1.0"),
        true),
      "role", "dispatcher")
  }

  function PluginTypeOf(): PluginType
  {
    Privileged
  }

  /** The plugin is named after the dispatcher, enabled, privileged, and tagged with role = dispatcher only. */
  lemma PluginIdentity()
    ensures PluginMetadata().name == PLUGIN_NAME && PluginMetadata().version == "0.1.0"
    ensures PluginMetadata().description == "Core dispatcher plugin using Iceoryx2 for IPC"
    ensures Plugin.IsEnabled(PluginMetadata()) && PluginMetadata().author.None?
    ensures PluginMetadata().properties == map["role" := "dispatcher"]
    ensures PluginTypeOf() == Privileged
  {
  }

  /**
   * One sample taken from the service (lines 165-178): the body is decoded
   * and deserialised as a whole `Message`; failures are dropped, and so is a
   * message whose source is this plugin. Everything else goes on unchanged.
   */
  function Inbound(d: Envelope.MessageData, codec: MessageCodec): (r: Option<Message>)
    ensures r.Some? <==>
              && Envelope.JsonStr(d).Ok?
              && codec.fromJson(Envelope.JsonStr(d).value).Some?
              && codec.fromJson(Envelope.JsonStr(d).value).value.source != Plugin(PLUGIN_NAME)
    ensures r.Some? ==> r.value == codec.fromJson(Envelope.JsonStr(d).value).value
  {
    match Envelope.JsonStr(d)
    case Err(_) => None
    case Ok(text) =>
      match codec.fromJson(text)
      case None => None
      case Some(m) => if m.source == Plugin(PLUGIN_NAME) then None else Some(m)
  }

  /**
   * One internal message seen by the forwarding task (lines 248-287): one
   * marked as coming from iceoryx2 is not sent back; the rest are packed as
   * `send_message` packs them, and those that fail to pack are dropped.
   */
  function Outbound(m: Message, codec: MessageCodec): (r: Option<Envelope.MessageData>)
    ensures r.Some? <==> m.source != External(Receiver.SOURCE_NAME) && Iceoryx2Dispatcher.PrepareEnvelope(m, codec).Ok?
    ensures r.Some? ==> r.value == Iceoryx2Dispatcher.PrepareEnvelope(m, codec).value
  {
    if m.source == External(Receiver.SOURCE_NAME) then None
    else Iceoryx2Dispatcher.PrepareEnvelope(m, codec).ToOption()
  }

  /** What the receive thread forwards from the samples it takes, in order. */
  function Inbounds(samples: seq<Envelope.MessageData>, codec: MessageCodec): seq<Message>
    decreases |samples|
  {
    if samples == [] then []
    else
      var last := Inbound(samples[|samples| - 1], codec);
      Inbounds(samples[..|samples| - 1], codec) + (if last.Some? then [last.value] else [])
  }

  /** What the forwarding task hands to the publisher, in order. */
  function Outbounds(ms: seq<Message>, codec: MessageCodec): seq<Envelope.MessageData>
    decreases |ms|
  {
    if ms == [] then []
    else
      var last := Outbound(ms[|ms| - 1], codec);
      Outbounds(ms[..|ms| - 1], codec) + (if last.Some? then [last.value] else [])
  }

  /** The receive side never forwards a message marked as this plugin's own, and forwards only what it was given. */
  lemma {:induction false} InboundsFiltered(samples: seq<Envelope.MessageData>, codec: MessageCodec)
    ensures |Inbounds(samples, codec)| <= |samples|
    ensures forall m :: m in Inbounds(samples, codec) ==>
              m.source != Plugin(PLUGIN_NAME) && exists i :: 0 <= i < |samples| && Inbound(samples[i], codec) == Some(m)
    decreases |samples|
  {
    if samples != [] {
      var init := samples[..|samples| - 1];
      InboundsFiltered(init, codec);
      forall m | m in Inbounds(samples, codec)
        ensures exists i :: 0 <= i < |samples| && Inbound(samples[i], codec) == Some(m)
      {
        if m in Inbounds(init, codec) {
          var i :| 0 <= i < |init| && Inbound(init[i], codec) == Some(m);
          assert samples[i] == init[i];
        } else {
          assert Inbound(samples[|samples| - 1], codec) == Some(m);
        }
      }
    }
  }

  /** The publish side never sends back a message marked as coming from iceoryx2, and every envelope is a packed message. */
  lemma {:induction false} OutboundsFiltered(ms: seq<Message>, codec: MessageCodec)
    ensures |Outbounds(ms, codec)| <= |ms|
    ensures forall d :: d in Outbounds(ms, codec) ==>
              exists i :: 0 <= i < |ms| && ms[i].source != External(Receiver.SOURCE_NAME) && Outbound(ms[i], codec) == Some(d)
    decreases |ms|
  {
    if ms != [] {
      var init := ms[..|ms| - 1];
      OutboundsFiltered(init, codec);
      forall d | d in Outbounds(ms, codec)
        ensures exists i :: 0 <= i < |ms| && ms[i].source != External(Receiver.SOURCE_NAME) && Outbound(ms[i], codec) == Some(d)
      {
        if d in Outbounds(init, codec) {
          var i :| 0 <= i < |init| && init[i].source != External(Receiver.SOURCE_NAME) && Outbound(init[i], codec) == Some(d);
          assert ms[i] == init[i];
        } else {
          assert Outbound(ms[|ms| - 1], codec) == Some(d);
        }
      }
    }
  }

  /**
   * The inbound side keeps the source that was serialised, while the outbound
   * filter looks for the iceoryx2 source: a message from any other source that
   * the plugin publishes, and reads back from the same service, passes both
   * filters unchanged.
   */
  lemma PublishedMessageComesBack(m: Message, codec: MessageCodec)
    requires m.source != External(Receiver.SOURCE_NAME) && m.source != Plugin(PLUGIN_NAME)
    requires AsStr(m.messageType) != [] && codec.toJson(m).Some? && codec.toJson(m).value != []
    requires Outbound(m, codec).Some?
    requires codec.fromJson(codec.toJson(m).value) == Some(m)
    ensures Inbound(Outbound(m, codec).value, codec) == Some(m)
  {
    Envelope.PackDecode(AsStr(m.messageType), codec.toJson(m).value, Discriminant(m.priority), m.timestamp);
  }

  class Iceoryx2DispatcherPlugin {
    var metadata: Plugin.PluginMetadata
    var nodeName: string
    var serviceName: string
    var running: bool
    /** `publisher_tx`: the channel to the publisher thread, set by `setup_messaging`. */
    var publisherTx: Option<Iceoryx2Dispatcher.PublishChannel>
    var hasPublisherThread: bool
    var hasReceiverThread: bool

    constructor WithService(nodeName: string, serviceName: string)
      ensures metadata == PluginMetadata() && this.nodeName == nodeName && this.serviceName == serviceName
      ensures !running && publisherTx.None? && !hasPublisherThread && !hasReceiverThread
    {
      metadata := PluginMetadata();
      this.nodeName := nodeName;
      this.serviceName := serviceName;
      running := false;
      publisherTx := None;
      hasPublisherThread := false;
      hasReceiverThread := false;
    }

    /** `new`: the default service. */
    constructor (nodeName: string)
      ensures metadata == PluginMetadata() && this.nodeName == nodeName && serviceName == Envelope.AMADEUS_SERVICE
      ensures !running && publisherTx.None? && !hasPublisherThread && !hasReceiverThread
    {
      metadata := PluginMetadata();
      this.nodeName := nodeName;
      serviceName := Envelope.AMADEUS_SERVICE;
      running := false;
      publisherTx := None;
      hasPublisherThread := false;
      hasReceiverThread := false;
    }

    /** `setup_messaging`: a new publisher channel, the running flag set, and both threads started. */
    method SetupMessaging() returns (r: Result<Unit, string>)
      modifies this
      ensures r.Ok? && running && hasPublisherThread && hasReceiverThread
      ensures publisherTx.Some? && fresh(publisherTx.value) && publisherTx.value.queue == [] && publisherTx.value.open
      ensures metadata == old(metadata) && nodeName == old(nodeName) && serviceName == old(serviceName)
    {
      var channel := new Iceoryx2Dispatcher.PublishChannel();
      publisherTx := Some(channel);
      running := true;
      hasPublisherThread := true;
      hasReceiverThread := true;
      r := Ok(Unit);
    }

    /** `stop`: the flag is cleared and both threads joined; the publisher channel is left in place. */
    /**
     * Clearing the shared flag ends the publisher thread's loop; once it is
     * joined its receiver is dropped, so the kept sender is closed from then on.
     */
    method Stop() returns (r: Result<Unit, string>)
      modifies this, if publisherTx.Some? then {publisherTx.value} else {}
      ensures r.Ok? && !running && !hasPublisherThread && !hasReceiverThread
      ensures publisherTx == old(publisherTx)
      ensures publisherTx.Some? ==> publisherTx.value.queue == old(publisherTx.value.queue)
      ensures publisherTx.Some? ==> publisherTx.value.open == (old(publisherTx.value.open) && !old(hasPublisherThread))
      ensures metadata == old(metadata) && nodeName == old(nodeName) && serviceName == old(serviceName)
    {
      if hasPublisherThread && publisherTx.Some? {
        publisherTx.value.Close();
      }
      running := false;
      hasPublisherThread := false;
      hasReceiverThread := false;
      r := Ok(Unit);
    }

    /** The receive thread's work on the samples it takes: each one filtered, in order. */
    method ForwardInbound(samples: seq<Envelope.MessageData>, codec: MessageCodec) returns (forwarded: seq<Message>)
      ensures forwarded == Inbounds(samples, codec)
    {
      forwarded := [];
      for i := 0 to |samples|
        invariant forwarded == Inbounds(samples[..i], codec)
      {
        assert samples[..i + 1][..i] == samples[..i];
        var m := Inbound(samples[i], codec);
        if m.Some? {
          forwarded := forwarded + [m.value];
        }
      }
      assert samples[..|samples|] == samples;
    }

    /**
     * The forwarding task's work on the internal messages it receives: each
     * one filtered and packed, in order, and queued for the publisher thread,
     * which drains the queue only while the plugin runs. A failed send is
     * ignored, so nothing is queued once that thread has dropped its receiver.
     * The task itself never reads the running flag.
     */
    method ForwardOutbound(ms: seq<Message>, codec: MessageCodec)
      requires publisherTx.Some?
      modifies publisherTx.value
      ensures old(publisherTx.value.open) ==> publisherTx.value.queue == old(publisherTx.value.queue) + Outbounds(ms, codec)
      ensures !old(publisherTx.value.open) ==> publisherTx.value.queue == old(publisherTx.value.queue)
      ensures publisherTx.value.open == old(publisherTx.value.open)
    {
      var tx := publisherTx.value;
      ghost var queue0 := tx.queue;
      ghost var wasOpen := tx.open;
      for i := 0 to |ms|
        invariant tx.open == wasOpen
        invariant wasOpen ==> tx.queue == queue0 + Outbounds(ms[..i], codec)
        invariant !wasOpen ==> tx.queue == queue0
      {
        assert ms[..i + 1][..i] == ms[..i];
        ghost var before := tx.queue;
        var d := Outbound(ms[i], codec);
        if d.Some? {
          var _ := tx.Send(d.value);
        }
        assert wasOpen ==> tx.queue == before + (if d.Some? then [d.value] else []);
      }
      assert ms[..|ms|] == ms;
    }
  }
}
