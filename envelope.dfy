/**
 * The fixed-size envelope that crosses the process boundary
 * (`AmadeusMessageData` in src/ipc/iceoryx2_types.rs): a 64-byte topic
 * buffer, a 4096-byte body buffer, explicit lengths, a priority byte and a
 * millisecond timestamp, laid out as a C struct; plus the service names.
 */
module Envelope {
  import opened Wrappers
  import opened Utf8
  import Text

  const TOPIC_CAPACITY: nat := 64
  const BODY_CAPACITY: nat := 4096
  const U8_LIMIT: int := 0x100
  const U16_LIMIT: int := 0x1_0000
  const U64_LIMIT: int := 0x1_0000_0000_0000_0000

  /** `type_name()` of the zero-copy payload, shared by both ends. */
  const TYPE_NAME: string := "AmadeusMessage"

  /** The value of one envelope: the two raw buffers and the four scalar fields. */
  datatype RawMessageData = RawMessageData(
    messageType: Bytes,
    messageTypeLen: int,
    jsonData: Bytes,
    jsonDataLen: int,
    priority: int,
    timestamp: int)

  /** Every field within the range of its Rust type. */
  predicate WellFormed(d: RawMessageData)
  {
    && |d.messageType| == TOPIC_CAPACITY
    && |d.jsonData| == BODY_CAPACITY
    && 0 <= d.messageTypeLen < U8_LIMIT
    && 0 <= d.jsonDataLen < U16_LIMIT
    && 0 <= d.priority < U8_LIMIT
    && 0 <= d.timestamp < U64_LIMIT
  }

  type MessageData = d: RawMessageData | WellFormed(d)
    witness RawMessageData(seq(64, _ => 0), 0, seq(4096, _ => 0), 0, 1, 0)

  function Zeros(n: nat): (r: Bytes)
    ensures |r| == n && forall i :: 0 <= i < n ==> r[i] == 0
  {
    seq(n, _ => 0)
  }

  /** `AmadeusMessageData::new()` (also `Default`): zeroed buffers, priority Normal. */
  function Empty(): (d: MessageData)
    ensures d.messageTypeLen == 0 && d.jsonDataLen == 0 && d.priority == 1 && d.timestamp == 0
    ensures forall i :: 0 <= i < TOPIC_CAPACITY ==> d.messageType[i] == 0
    ensures forall i :: 0 <= i < BODY_CAPACITY ==> d.jsonData[i] == 0
  {
    RawMessageData(Zeros(TOPIC_CAPACITY), 0, Zeros(BODY_CAPACITY), 0, 1, 0)
  }

  /** The `Err(String)` of `from_json`, with the offending byte length. */
  datatype EncodeError = TopicTooLong(length: nat) | BodyTooLong(length: nat)

  /** The `Err(String)` of `message_type_str` / `json_str`. */
  datatype DecodeError = InvalidLength | InvalidUtf8

  /** `buf` holds `content` at its front and zeros after it. */
  predicate HoldsPadded(buf: Bytes, content: Bytes)
  {
    |content| <= |buf| && buf[..|content|] == content
    && forall i :: |content| <= i < |buf| ==> buf[i] == 0
  }

  /**
   * `from_json` as a value: the UTF-8 topic and body are copied to the front
   * of zeroed buffers with their byte lengths; the topic is checked first.
   */
  function Pack(messageType: string, json: string, priority: int, timestamp: int): (r: Result<MessageData, EncodeError>)
    requires 0 <= priority < U8_LIMIT && 0 <= timestamp < U64_LIMIT
    ensures r.Err? <==> |Encode(messageType)| > TOPIC_CAPACITY || |Encode(json)| > BODY_CAPACITY
    ensures |Encode(messageType)| > TOPIC_CAPACITY ==> r == Err(TopicTooLong(|Encode(messageType)|))
    ensures |Encode(messageType)| <= TOPIC_CAPACITY && |Encode(json)| > BODY_CAPACITY ==> r == Err(BodyTooLong(|Encode(json)|))
    ensures r.Ok? ==>
      && r.value.messageTypeLen == |Encode(messageType)|
      && HoldsPadded(r.value.messageType, Encode(messageType))
      && r.value.jsonDataLen == |Encode(json)|
      && HoldsPadded(r.value.jsonData, Encode(json))
      && r.value.priority == priority
      && r.value.timestamp == timestamp
  {
    var t := Encode(messageType);
    var j := Encode(json);
    if |t| > TOPIC_CAPACITY then Err(TopicTooLong(|t|))
    else if |j| > BODY_CAPACITY then Err(BodyTooLong(|j|))
    else
      assert (t + Zeros(TOPIC_CAPACITY - |t|))[..|t|] == t;
      assert (j + Zeros(BODY_CAPACITY - |j|))[..|j|] == j;
      var d: MessageData := RawMessageData(t + Zeros(TOPIC_CAPACITY - |t|), |t|, j + Zeros(BODY_CAPACITY - |j|), |j|, priority, timestamp);
      Ok(d)
  }

  /** `message_type_str`: a length of 0 or above 64 is refused, then strict UTF-8. */
  function MessageTypeStr(d: MessageData): (r: Result<string, DecodeError>)
    ensures r == Err(InvalidLength) <==> d.messageTypeLen == 0 || d.messageTypeLen > TOPIC_CAPACITY
    ensures r.Ok? <==> 0 < d.messageTypeLen <= TOPIC_CAPACITY && exists s :: Encode(s) == d.messageType[..d.messageTypeLen]
    ensures r.Ok? ==> Encode(r.value) == d.messageType[..d.messageTypeLen]
  {
    if d.messageTypeLen == 0 || d.messageTypeLen > TOPIC_CAPACITY then Err(InvalidLength)
    else
      DecodableIff(d.messageType[..d.messageTypeLen]);
      match Decode(d.messageType[..d.messageTypeLen])
      case None => Err(InvalidUtf8)
      case Some(s) => EncodeDecode(d.messageType[..d.messageTypeLen]); Ok(s)
  }

  /** `json_str`: a length of 0 or above 4096 is refused, then strict UTF-8. */
  function JsonStr(d: MessageData): (r: Result<string, DecodeError>)
    ensures r == Err(InvalidLength) <==> d.jsonDataLen == 0 || d.jsonDataLen > BODY_CAPACITY
    ensures r.Ok? <==> 0 < d.jsonDataLen <= BODY_CAPACITY && exists s :: Encode(s) == d.jsonData[..d.jsonDataLen]
    ensures r.Ok? ==> Encode(r.value) == d.jsonData[..d.jsonDataLen]
  {
    if d.jsonDataLen == 0 || d.jsonDataLen > BODY_CAPACITY then Err(InvalidLength)
    else
      DecodableIff(d.jsonData[..d.jsonDataLen]);
      match Decode(d.jsonData[..d.jsonDataLen])
      case None => Err(InvalidUtf8)
      case Some(s) => EncodeDecode(d.jsonData[..d.jsonDataLen]); Ok(s)
  }

  lemma EncodeEmptyIff(s: string)
    ensures Encode(s) == [] <==> s == []
  {
    if s != [] {
      assert |EncodeScalar(s[0])| >= 1;
    }
  }

  /**
   * Every packed envelope decodes to the text it was packed from, except that
   * an empty topic or body, which `Pack` accepts, is refused by the decoders.
   */
  lemma PackDecode(messageType: string, json: string, priority: int, timestamp: int)
    requires 0 <= priority < U8_LIMIT && 0 <= timestamp < U64_LIMIT
    requires Pack(messageType, json, priority, timestamp).Ok?
    ensures var d := Pack(messageType, json, priority, timestamp).value;
      && MessageTypeStr(d) == (if messageType == "" then Err(InvalidLength) else Ok(messageType))
      && JsonStr(d) == (if json == "" then Err(InvalidLength) else Ok(json))
  {
    var d := Pack(messageType, json, priority, timestamp).value;
    EncodeEmptyIff(messageType);
    EncodeEmptyIff(json);
    DecodeEncode(messageType);
    DecodeEncode(json);
    assert d.messageType[..d.messageTypeLen] == Encode(messageType);
    assert d.jsonData[..d.jsonDataLen] == Encode(json);
  }

  /**
   * Conversely, an envelope whose two texts decode and whose buffers are
   * zero-padded is exactly what `Pack` builds from those texts.
   */
  lemma DecodePack(d: MessageData)
    requires MessageTypeStr(d).Ok? && JsonStr(d).Ok?
    requires forall i :: d.messageTypeLen <= i < TOPIC_CAPACITY ==> d.messageType[i] == 0
    requires forall i :: d.jsonDataLen <= i < BODY_CAPACITY ==> d.jsonData[i] == 0
    ensures Pack(MessageTypeStr(d).value, JsonStr(d).value, d.priority, d.timestamp) == Ok(d)
  {
    var t := MessageTypeStr(d).value;
    var j := JsonStr(d).value;
    var p := Pack(t, j, d.priority, d.timestamp).value;
    assert p.messageType == d.messageType by {
      assert p.messageType[..d.messageTypeLen] == d.messageType[..d.messageTypeLen];
      forall i | 0 <= i < TOPIC_CAPACITY ensures p.messageType[i] == d.messageType[i] {
        if i < d.messageTypeLen {
          assert p.messageType[i] == p.messageType[..d.messageTypeLen][i];
          assert d.messageType[i] == d.messageType[..d.messageTypeLen][i];
        }
      }
    }
    assert p.jsonData == d.jsonData by {
      assert p.jsonData[..d.jsonDataLen] == d.jsonData[..d.jsonDataLen];
      forall i | 0 <= i < BODY_CAPACITY ensures p.jsonData[i] == d.jsonData[i] {
        if i < d.jsonDataLen {
          assert p.jsonData[i] == p.jsonData[..d.jsonDataLen][i];
          assert d.jsonData[i] == d.jsonData[..d.jsonDataLen][i];
        }
      }
    }
  }

  /** One field of a `#[repr(C)]` struct: its name, size and alignment in bytes. */
  datatype Field = Field(name: string, size: nat, align: nat)

  /** The Rust declaration order and types: `[u8; 64]`, `u8`, `[u8; 4096]`, `u16`, `u8`, `u64`. */
  const LAYOUT: seq<Field> := [
    Field("message_type", 64, 1), Field("message_type_len", 1, 1),
    Field("json_data", 4096, 1), Field("json_data_len", 2, 2),
    Field("priority", 1, 1), Field("timestamp", 8, 8)]

  function AlignUp(x: nat, a: nat): nat
    requires a > 0
  {
    if x % a == 0 then x else x + (a - x % a)
  }

  predicate Aligned(fields: seq<Field>)
  {
    forall i :: 0 <= i < |fields| ==> fields[i].align > 0
  }

  /** C layout rule: a field starts at the first multiple of its alignment after the previous field. */
  function OffsetOf(fields: seq<Field>, i: nat): nat
    requires Aligned(fields) && i < |fields|
  {
    AlignUp(if i == 0 then 0 else OffsetOf(fields, i - 1) + fields[i - 1].size, fields[i].align)
  }

  /** The strictest alignment among the first `n` fields. */
  function MaxAlign(fields: seq<Field>, n: nat): (m: nat)
    requires Aligned(fields) && n <= |fields|
    ensures m > 0
  {
    if n == 0 then 1
    else
      var rest := MaxAlign(fields, n - 1);
      if fields[n - 1].align > rest then fields[n - 1].align else rest
  }

  /** The struct size: the end of the last field rounded up to the strictest alignment. */
  function StructSize(fields: seq<Field>): nat
    requires Aligned(fields) && |fields| > 0
  {
    AlignUp(OffsetOf(fields, |fields| - 1) + fields[|fields| - 1].size, MaxAlign(fields, |fields|))
  }

  /** The envelope's fields sit at fixed offsets and the whole record is 4176 bytes. */
  lemma LayoutFixed()
    ensures Aligned(LAYOUT)
    ensures OffsetOf(LAYOUT, 0) == 0 && OffsetOf(LAYOUT, 1) == 64 && OffsetOf(LAYOUT, 2) == 65
    ensures OffsetOf(LAYOUT, 3) == 4162 && OffsetOf(LAYOUT, 4) == 4164 && OffsetOf(LAYOUT, 5) == 4168
    ensures StructSize(LAYOUT) == 4176
  {
    var f := LAYOUT;
    assert OffsetOf(f, 0) == 0;
    assert OffsetOf(f, 1) == 64;
    assert OffsetOf(f, 2) == 65;
    assert OffsetOf(f, 3) == 4162;
    assert OffsetOf(f, 4) == 4164;
    assert OffsetOf(f, 5) == 4168;
    assert MaxAlign(f, 6) == 8;
  }

  /** The default iceoryx2 service name. */
  const AMADEUS_SERVICE: string := "Amadeus/Message/Service"

  const SERVICE_PREFIX: string := "Amadeus/Message/"

  /** `service_names::for_message_type`. */
  function ForMessageType(messageType: string): string
  {
    SERVICE_PREFIX + Text.ReplaceAll(messageType, " ", "_")
  }

  /** The service name is the prefix, then the type with every space made an underscore. */
  lemma ForMessageTypeShape(messageType: string)
    ensures var r := ForMessageType(messageType);
      && |r| == |SERVICE_PREFIX| + |messageType| && r[..|SERVICE_PREFIX|] == SERVICE_PREFIX
      && (forall i :: 0 <= i < |messageType| ==>
            r[|SERVICE_PREFIX| + i] == (if messageType[i] == ' ' then '_' else messageType[i]))
      && ' ' !in r
  {
    Text.ReplaceAllChar(messageType, ' ', '_');
    var t := Text.ReplaceAll(messageType, " ", "_");
    var r := SERVICE_PREFIX + t;
    assert forall i :: |SERVICE_PREFIX| <= i < |r| ==> r[i] == t[i - |SERVICE_PREFIX|];
    assert ' ' !in SERVICE_PREFIX;
  }

  /**
   * Distinct message types can share a service: a type with a space and the
   * same type with an underscore in its place give the same name.
   */
  lemma ForMessageTypeNotInjective(x: string, y: string)
    requires ' ' !in x && ' ' !in y
    ensures x + " " + y != x + "_" + y
    ensures ForMessageType(x + " " + y) == ForMessageType(x + "_" + y)
  {
    assert (x + " " + y)[|x|] != (x + "_" + y)[|x|];
    Text.ReplaceAllFirst(x, " ", "_", y);
    Text.ReplaceAllAbsent(y, " ", "_");
    assert ' ' !in x + "_" + y;
    Text.ReplaceAllAbsent(x + "_" + y, " ", "_");
  }

  /**
   * The envelope as a Rust value being filled in place: `from_json` starts
   * from `new()` and copies the text bytes into the fixed buffers.
   */
  class AmadeusMessageData {
    var messageType: array<Byte>
    var messageTypeLen: int
    var jsonData: array<Byte>
    var jsonDataLen: int
    var priority: int
    var timestamp: int

    ghost predicate Valid()
      reads this
    {
      && messageType.Length == TOPIC_CAPACITY
      && jsonData.Length == BODY_CAPACITY
      && messageType != jsonData
      && 0 <= messageTypeLen < U8_LIMIT
      && 0 <= jsonDataLen < U16_LIMIT
      && 0 <= priority < U8_LIMIT
      && 0 <= timestamp < U64_LIMIT
    }

    /** The value this object currently holds. */
    function View(): (d: MessageData)
      reads this, messageType, jsonData
      requires Valid()
    {
      RawMessageData(messageType[..], messageTypeLen, jsonData[..], jsonDataLen, priority, timestamp)
    }

    /** `new()`. */
    constructor ()
      ensures Valid() && fresh(messageType) && fresh(jsonData)
      ensures View() == Empty()
    {
      messageType := new Byte[TOPIC_CAPACITY](_ => 0);
      messageTypeLen := 0;
      jsonData := new Byte[BODY_CAPACITY](_ => 0);
      jsonDataLen := 0;
      priority := 1;
      timestamp := 0;
    }

    /** `from_json`: checks each length, then copies in place; the checks come before any copy. */
    static method FromJson(messageType: string, json: string, priority: int, timestamp: int)
        returns (r: Result<AmadeusMessageData, EncodeError>)
      requires 0 <= priority < U8_LIMIT && 0 <= timestamp < U64_LIMIT
      ensures r.Err? ==> Pack(messageType, json, priority, timestamp).Err?
                         && r.error == Pack(messageType, json, priority, timestamp).error
      ensures r.Ok? ==> && Pack(messageType, json, priority, timestamp).Ok?
                        && fresh(r.value) && fresh(r.value.messageType) && fresh(r.value.jsonData)
                        && r.value.Valid()
                        && r.value.View() == Pack(messageType, json, priority, timestamp).value
    {
      var data := new AmadeusMessageData();
      var typeBytes := Encode(messageType);
      if |typeBytes| > TOPIC_CAPACITY {
        return Err(TopicTooLong(|typeBytes|));
      }
      CopyFromSlice(data.messageType, typeBytes);
      data.messageTypeLen := |typeBytes|;
      var jsonBytes := Encode(json);
      if |jsonBytes| > BODY_CAPACITY {
        return Err(BodyTooLong(|jsonBytes|));
      }
      CopyFromSlice(data.jsonData, jsonBytes);
      data.jsonDataLen := |jsonBytes|;
      data.priority := priority;
      data.timestamp := timestamp;
      var p := Pack(messageType, json, priority, timestamp).value;
      assert data.messageType[..] == p.messageType;
      assert data.jsonData[..] == p.jsonData;
      r := Ok(data);
    }

    /** `dst[..src.len()].copy_from_slice(src)`. */
    static method CopyFromSlice(dst: array<Byte>, src: Bytes)
      requires |src| <= dst.Length
      modifies dst
      ensures dst[..] == src + old(dst[|src|..])
    {
      forall i | 0 <= i < |src| {
        dst[i] := src[i];
      }
      assert dst[..] == src + old(dst[|src|..]);
    }
  }
}
