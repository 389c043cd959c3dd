/**
 * The in-process message of src/message.rs: a typed topic, a JSON payload,
 * a priority, where it came from, a timestamp, an optional id and string
 * metadata.
 */
module Messages {
  import opened Wrappers
  import Json

  /** Width of the `u64` timestamp field. */
  const U64_LIMIT: int := 0x1_0000_0000_0000_0000

  /** Rust's `u64`. */
  type U64 = n: int | 0 <= n < U64_LIMIT

  datatype MessageType = MessageType(name: string)

  /** `MessageType::new`, `From<&str>` and `From<String>` all wrap the text unchanged. */
  function NewMessageType(name: string): (t: MessageType)
    ensures AsStr(t) == name
  {
    MessageType(name)
  }

  function AsStr(t: MessageType): string
  {
    t.name
  }

  lemma MessageTypeInjective(a: string, b: string)
    ensures NewMessageType(a) == NewMessageType(b) <==> a == b
  {
  }

  datatype Priority = Low | Normal | High | Critical

  /** The explicit discriminants `Low = 0 … Critical = 3`. */
  function Discriminant(p: Priority): (d: nat)
    ensures d < 4
  {
    match p
    case Low => 0
    case Normal => 1
    case High => 2
    case Critical => 3
  }

  /** The derived `Ord`: declaration order, which is discriminant order. */
  predicate Below(p: Priority, q: Priority)
  {
    Discriminant(p) < Discriminant(q)
  }

  /** `Default` is `Normal`. */
  function DefaultPriority(): (p: Priority)
    ensures Discriminant(p) == 1
  {
    Normal
  }

  /** The four discriminants are distinct and cover 0..3, so the order is strict and total. */
  lemma PriorityOrder(p: Priority, q: Priority, r: Priority)
    ensures Discriminant(p) == Discriminant(q) ==> p == q
    ensures !Below(p, p)
    ensures p != q ==> Below(p, q) || Below(q, p)
    ensures Below(p, q) && Below(q, r) ==> Below(p, r)
    ensures Below(Low, Normal) && Below(Normal, High) && Below(High, Critical)
  {
  }

  datatype Source = External(name: string) | Plugin(name: string) | System

  datatype Message = Message(
    messageType: MessageType,
    payload: Json.Value,
    priority: Priority,
    source: Source,
    timestamp: U64,
    messageId: Option<string>,
    metadata: map<string, string>)

  /** `current_timestamp`: milliseconds since the epoch, truncated to `u64` by `as u64`. */
  function Timestamp(nowMillis: nat): (t: U64)
    ensures nowMillis < U64_LIMIT ==> t == nowMillis
  {
    nowMillis % U64_LIMIT
  }

  /** A fresh message with the given source and the defaults of `Message::new`. */
  function Fresh(t: string, payload: Json.Value, source: Source, nowMillis: nat): Message
  {
    Message(NewMessageType(t), payload, DefaultPriority(), source, Timestamp(nowMillis), None, map[])
  }

  function New(t: string, payload: Json.Value, nowMillis: nat): (m: Message)
    ensures m.source == System && m.priority == Normal && m.messageId == None && m.metadata == map[]
    ensures AsStr(m.messageType) == t && m.payload == payload
    ensures m.timestamp == Timestamp(nowMillis)
  {
    Fresh(t, payload, System, nowMillis)
  }

  function FromExternal(t: string, payload: Json.Value, source: string, nowMillis: nat): (m: Message)
    ensures m == New(t, payload, nowMillis).(source := External(source))
  {
    Fresh(t, payload, External(source), nowMillis)
  }

  function FromPlugin(t: string, payload: Json.Value, plugin: string, nowMillis: nat): (m: Message)
    ensures m == New(t, payload, nowMillis).(source := Plugin(plugin))
  {
    Fresh(t, payload, Plugin(plugin), nowMillis)
  }

  /** `with_priority`: the priority is set; every other field is kept. */
  function WithPriority(m: Message, p: Priority): (r: Message)
    ensures r.priority == p
    ensures r.messageType == m.messageType && r.payload == m.payload && r.source == m.source &&
            r.timestamp == m.timestamp && r.messageId == m.messageId && r.metadata == m.metadata
  {
    m.(priority := p)
  }

  /** `with_id`: the id is set; every other field is kept. */
  function WithId(m: Message, id: string): (r: Message)
    ensures r.messageId == Some(id)
    ensures r.messageType == m.messageType && r.payload == m.payload && r.priority == m.priority &&
            r.source == m.source && r.timestamp == m.timestamp && r.metadata == m.metadata
  {
    m.(messageId := Some(id))
  }

  /** `with_metadata`: `key` maps to `value`, replacing any earlier value; every other entry and field is kept. */
  function WithMetadata(m: Message, key: string, value: string): (r: Message)
    ensures key in r.metadata && r.metadata[key] == value
    ensures r.metadata.Keys == m.metadata.Keys + {key}
    ensures forall k :: k in m.metadata && k != key ==> r.metadata[k] == m.metadata[k]
    ensures r.messageType == m.messageType && r.payload == m.payload && r.priority == m.priority &&
            r.source == m.source && r.timestamp == m.timestamp && r.messageId == m.messageId
  {
    m.(metadata := m.metadata[key := value])
  }

  /**
   * The builders touch one field each: they commute with one another, the last
   * priority or id set wins, and metadata keeps every other key.
   */
  lemma BuildersIndependent(m: Message, p: Priority, q: Priority, id: string, id2: string, k: string, v: string)
    ensures WithPriority(WithId(m, id), p) == WithId(WithPriority(m, p), id)
    ensures WithPriority(WithMetadata(m, k, v), p) == WithMetadata(WithPriority(m, p), k, v)
    ensures WithId(WithMetadata(m, k, v), id) == WithMetadata(WithId(m, id), k, v)
    ensures WithPriority(WithPriority(m, p), q) == WithPriority(m, q)
    ensures WithId(WithId(m, id), id2) == WithId(m, id2)
    ensures WithMetadata(m, k, v).metadata[k] == v
    ensures forall k' :: k' != k && k' in m.metadata ==> WithMetadata(m, k, v).metadata[k'] == m.metadata[k']
    ensures WithMetadata(m, k, v).metadata.Keys == m.metadata.Keys + {k}
  {
  }

  /**
   * `Message::to_json` and `Message::from_json`, which go through serde; the
   * serialiser is not modelled, so both directions are parameters.
   */
  datatype MessageCodec = MessageCodec(toJson: Message -> Option<string>, fromJson: string -> Option<Message>)

  /** `MessageHandleResult`. */
  datatype HandleResult = Handled | Ignored | Failed(reason: string)
}
