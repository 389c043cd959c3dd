/**
 * The iceoryx2 receiver of src/ipc/iceoryx2_receiver.rs: converting one
 * envelope into a `Message`, and the running / sender-ownership state of the
 * receiver object. The subscriber loop itself runs on a background thread and
 * is not part of this model.
 */
module Receiver {
  import opened Wrappers
  import Json
  import opened Messages
  import Envelope

  /** The source name stamped on every message that came in over iceoryx2. */
  const SOURCE_NAME: string := "iceoryx2"

  /** The envelope's priority byte as a `MessagePriority`: 0..3 in order, anything else Normal. */
  function PriorityFromByte(b: int): (p: Priority)
    ensures 0 <= b < 4 ==> Discriminant(p) == b
    ensures !(0 <= b < 4) ==> p == Normal
  {
    if b == 0 then Low
    else if b == 1 then Normal
    else if b == 2 then High
    else if b == 3 then Critical
    else Normal
  }

  /** Decoding a priority's own discriminant gives that priority back. */
  lemma PriorityByteRoundTrip(p: Priority)
    ensures PriorityFromByte(Discriminant(p)) == p
  {
  }

  /** Why `convert_to_message` failed: which slice was rejected, or the JSON text did not parse. */
  datatype ConvertError = BadTopic(topic: Envelope.DecodeError) | BadBody(body: Envelope.DecodeError) | BadJson

  /**
   * `convert_to_message`: the topic and body slices are decoded, the body is
   * parsed as a JSON value (`parse` stands for `serde_json::from_str`), and the
   * message takes the envelope's timestamp and priority and the iceoryx2
   * source. The clock reading taken by `Message::new` is overwritten, so none
   * is needed.
   */
  function ConvertToMessage(d: Envelope.MessageData, parse: string -> Option<Json.Value>): (r: Result<Message, ConvertError>)
    ensures Envelope.MessageTypeStr(d).Err? ==> r == Err(BadTopic(Envelope.MessageTypeStr(d).error))
    ensures Envelope.MessageTypeStr(d).Ok? && Envelope.JsonStr(d).Err? ==> r == Err(BadBody(Envelope.JsonStr(d).error))
    ensures r.Ok? <==> Envelope.MessageTypeStr(d).Ok? && Envelope.JsonStr(d).Ok? && parse(Envelope.JsonStr(d).value).Some?
    ensures r.Ok? ==>
              && AsStr(r.value.messageType) == Envelope.MessageTypeStr(d).value
              && r.value.payload == parse(Envelope.JsonStr(d).value).value
              && r.value.timestamp == d.timestamp
              && r.value.priority == PriorityFromByte(d.priority)
              && r.value.source == External(SOURCE_NAME)
              && r.value.messageId.None? && r.value.metadata == map[]
  {
    match Envelope.MessageTypeStr(d)
    case Err(e) => Err(BadTopic(e))
    case Ok(t) =>
      match Envelope.JsonStr(d)
      case Err(e) => Err(BadBody(e))
      case Ok(text) =>
        match parse(text)
        case None => Err(BadJson)
        case Some(payload) =>
          var m := New(t, payload, 0);
          Ok(m.(timestamp := d.timestamp, priority := PriorityFromByte(d.priority), source := External(SOURCE_NAME)))
  }

  /** An opaque handle for one `mpsc::Sender<Message>`; the channel behind it is not modelled. */
  datatype Sender = Sender(id: nat)

  datatype ReceiverError = NoSender

  class Iceoryx2Receiver {
    var nodeName: string
    var serviceName: string
    var running: bool
    /** `message_tx`: the sender given by `with_message_tx`, until `start` takes it. */
    var messageTx: Option<Sender>
    /** The sender moved into the receive thread by `start`. */
    var loopSender: Option<Sender>
    /** Whether `receiver_task_handle` holds a thread handle. */
    var hasTask: bool

    constructor (nodeName: string, serviceName: string)
      ensures this.nodeName == nodeName && this.serviceName == serviceName
      ensures !running && messageTx.None? && loopSender.None? && !hasTask
    {
      this.nodeName := nodeName;
      this.serviceName := serviceName;
      running := false;
      messageTx := None;
      loopSender := None;
      hasTask := false;
    }

    constructor WithDefaultService(nodeName: string)
      ensures this.nodeName == nodeName && serviceName == Envelope.AMADEUS_SERVICE
      ensures !running && messageTx.None? && loopSender.None? && !hasTask
    {
      this.nodeName := nodeName;
      serviceName := Envelope.AMADEUS_SERVICE;
      running := false;
      messageTx := None;
      loopSender := None;
      hasTask := false;
    }

    method WithMessageTx(tx: Sender)
      modifies this
      ensures messageTx == Some(tx)
      ensures nodeName == old(nodeName) && serviceName == old(serviceName) && running == old(running)
      ensures loopSender == old(loopSender) && hasTask == old(hasTask)
    {
      messageTx := Some(tx);
    }

    /**
     * `start`: a no-op when running; an error when there is no sender;
     * otherwise the sender moves to the receive thread and the receiver runs.
     */
    method Start() returns (r: Result<Unit, ReceiverError>)
      modifies this
      ensures nodeName == old(nodeName) && serviceName == old(serviceName)
      ensures old(running) ==> r.Ok? && unchanged(this)
      ensures !old(running) && old(messageTx).None? ==> r == Err(NoSender) && unchanged(this)
      ensures !old(running) && old(messageTx).Some? ==>
                && r.Ok? && running && hasTask
                && messageTx.None? && loopSender == old(messageTx)
    {
      if running {
        return Ok(Unit);
      }
      if messageTx.None? {
        return Err(NoSender);
      }
      loopSender := messageTx;
      messageTx := None;
      hasTask := true;
      running := true;
      r := Ok(Unit);
    }

    /** `stop`: a no-op when not running; otherwise the flag is cleared and the thread handle joined. */
    method Stop()
      modifies this
      ensures nodeName == old(nodeName) && serviceName == old(serviceName)
      ensures messageTx == old(messageTx) && loopSender == old(loopSender)
      ensures !old(running) ==> unchanged(this)
      ensures old(running) ==> !running && !hasTask
    {
      if !running {
        return;
      }
      running := false;
      hasTask := false;
    }

    function IsRunning(): bool
      reads this
    {
      running
    }
  }

  /**
   * The sender is consumed by the first start, so a receiver that was started,
   * stopped and started again fails the second time.
   */
  method RestartFindsNoSender(nodeName: string, tx: Sender) returns (first: Result<Unit, ReceiverError>, second: Result<Unit, ReceiverError>)
    ensures first.Ok? && second == Err(NoSender)
  {
    var receiver := new Iceoryx2Receiver.WithDefaultService(nodeName);
    receiver.WithMessageTx(tx);
    first := receiver.Start();
    receiver.Stop();
    second := receiver.Start();
  }
}
