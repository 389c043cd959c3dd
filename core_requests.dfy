/**
 * What the core-system handlers (src/plugins/core_system/mod.rs) read from
 * and write to the message bus: the request as they see it, their replies,
 * the request payloads as serde decodes them, and the memo metadata they
 * keep. The bus message type of src/core/messaging is not part of this
 * model; a request carries the fields the handlers use.
 */
module CoreRequests {
  import opened Wrappers
  import Json
  import User
  import Messages
  import opened MemoTypes
  import CronScheduler

  /** An incoming bus message: type, JSON payload, sender, correlation id and the caller's resolved context. */
  datatype Request = Request(
    messageType: string,
    payload: Json.Value,
    source: Messages.Source,
    messageId: Option<string>,
    userContext: Option<User.UserContext>)

  /** A message the handlers send: broadcast by type when `target` is `None`, direct to a plugin otherwise. */
  datatype Outgoing = Outgoing(target: Option<string>, messageType: string, payload: Json.Value, messageId: Option<string>)

  /** `MessageContext::send`: the messages the handlers have sent, in order. */
  class Outbox {
    var sent: seq<Outgoing>

    constructor ()
      ensures sent == []
    {
      sent := [];
    }

    method Send(m: Outgoing)
      modifies this
      ensures sent == old(sent) + [m]
    {
      sent := sent + [m];
    }
  }

  /** The memo metadata the handlers keep as JSON in the `metadata` column. */
  datatype MemoMetadata = MemoMetadata(jobUuid: Option<string>, extraCronJobs: Option<seq<string>>)

  /** The library calls the handlers make, as parameters. */
  datatype Codecs = Codecs(
    /** `serde_json::to_string(&metadata)` */
    metadataText: MemoMetadata -> string,
    /** `serde_json::from_str::<MemoMetadata>` */
    parseMetadata: string -> Option<MemoMetadata>,
    /** `serde_json::from_str::<Vec<String>>` */
    parseTags: string -> Option<seq<string>>,
    /** `uuid::Uuid::parse_str` succeeds */
    isUuid: string -> bool,
    /** `serde_json::from_value::<Message>` for a job's message */
    decodeMessage: Json.Value -> Option<CronScheduler.Trigger>,
    /** `serde_json::to_value(&user_ctx)` */
    contextJson: User.UserContext -> Json.Value)

  // ---- serde's view of the request payloads ----

  const I64_MIN: int := -0x8000_0000_0000_0000
  const I64_MAX: int := 0x7FFF_FFFF_FFFF_FFFF
  const I32_MIN: int := -0x8000_0000
  const I32_MAX: int := 0x7FFF_FFFF

  function AsString(j: Json.Value): (r: Option<string>)
    ensures r.Some? <==> j.JStr?
  {
    if j.JStr? then Some(j.s) else None
  }

  function AsI64(j: Json.Value): (r: Option<int>)
    ensures r.Some? <==> j.JNum? && I64_MIN <= j.n <= I64_MAX
    ensures r.Some? ==> r.value == j.n
  {
    if j.JNum? && I64_MIN <= j.n <= I64_MAX then Some(j.n) else None
  }

  function AsI32(j: Json.Value): (r: Option<int>)
    ensures r.Some? <==> j.JNum? && I32_MIN <= j.n <= I32_MAX
    ensures r.Some? ==> r.value == j.n
  {
    if j.JNum? && I32_MIN <= j.n <= I32_MAX then Some(j.n) else None
  }

  function StringItems(items: seq<Json.Value>): (r: Option<seq<string>>)
    ensures r.Some? <==> forall i :: 0 <= i < |items| ==> items[i].JStr?
    ensures r.Some? ==> |r.value| == |items| && forall i :: 0 <= i < |items| ==> r.value[i] == items[i].s
  {
    if items == [] then Some([])
    else if !items[0].JStr? then None
    else
      match StringItems(items[1..])
      case None => None
      case Some(rest) => Some([items[0].s] + rest)
  }

  /** A `Vec<String>`: an array of strings. */
  function AsStringList(j: Json.Value): (r: Option<seq<string>>)
    ensures r.Some? <==> j.JArr? && forall i :: 0 <= i < |j.items| ==> j.items[i].JStr?
  {
    if j.JArr? then StringItems(j.items) else None
  }

  /**
   * An `Option<T>` field of a struct: absent or null is `Some(None)`, a value
   * that decodes is `Some(Some(x))`, and anything else fails the whole struct.
   */
  function OptField<T>(fields: map<string, Json.Value>, key: string, decode: Json.Value -> Option<T>): (r: Option<Option<T>>)
    ensures key !in fields || fields[key] == Json.JNull ==> r == Some(None)
    ensures key in fields && fields[key] != Json.JNull ==>
              (r.Some? <==> decode(fields[key]).Some?) && (r.Some? ==> r.value == decode(fields[key]))
  {
    if key !in fields || fields[key] == Json.JNull then Some(None)
    else match decode(fields[key])
      case None => None
      case Some(x) => Some(Some(x))
  }

  /** `MemoCreateRequest` */
  datatype CreateRequest = CreateRequest(
    content: string,
    cron: Option<string>,
    remindAt: Option<int>,
    tags: Option<seq<string>>,
    todoDate: Option<int>,
    priority: Option<int>)

  /** `serde_json::from_value::<MemoCreateRequest>`: an object with a string `content`; every other field optional. */
  function DecodeCreate(v: Json.Value): (r: Option<CreateRequest>)
    ensures r.Some? <==>
      && v.JObj? && "content" in v.fields && v.fields["content"].JStr?
      && OptField(v.fields, "cron", AsString).Some? && OptField(v.fields, "remind_at", AsI64).Some?
      && OptField(v.fields, "tags", AsStringList).Some? && OptField(v.fields, "todo_date", AsI64).Some?
      && OptField(v.fields, "priority", AsI32).Some?
    ensures r.Some? ==>
      && v.fields["content"] == Json.JStr(r.value.content)
      && r.value.cron == OptField(v.fields, "cron", AsString).value
      && r.value.remindAt == OptField(v.fields, "remind_at", AsI64).value
      && r.value.tags == OptField(v.fields, "tags", AsStringList).value
      && r.value.todoDate == OptField(v.fields, "todo_date", AsI64).value
      && r.value.priority == OptField(v.fields, "priority", AsI32).value
  {
    if !v.JObj? || "content" !in v.fields || !v.fields["content"].JStr? then None
    else
      var f := v.fields;
      var cron := OptField(f, "cron", AsString);
      var remindAt := OptField(f, "remind_at", AsI64);
      var tags := OptField(f, "tags", AsStringList);
      var todoDate := OptField(f, "todo_date", AsI64);
      var priority := OptField(f, "priority", AsI32);
      if cron.None? || remindAt.None? || tags.None? || todoDate.None? || priority.None? then None
      else Some(CreateRequest(f["content"].s, cron.value, remindAt.value, tags.value, todoDate.value, priority.value))
  }

  /** `serde_json::from_value::<MemoActionRequest>`: an object with an `i64` id. */
  function DecodeAction(v: Json.Value): (r: Option<int>)
    ensures r.Some? <==> v.JObj? && "id" in v.fields && AsI64(v.fields["id"]).Some?
    ensures r.Some? ==> v.fields["id"] == Json.JNum(r.value)
  {
    if v.JObj? && "id" in v.fields then AsI64(v.fields["id"]) else None
  }

  /** The payload `{"id": id}` decodes to `id` for every `i64`. */
  lemma DecodeActionOf(id: int)
    requires I64_MIN <= id <= I64_MAX
    ensures DecodeAction(Json.JObj(map["id" := Json.JNum(id)])) == Some(id)
  {
  }

  /** The query with no filter at all, used when the payload holds none. */
  const NO_FILTER: MemoQueryParams := MemoQueryParams(None, None, None, None, None, None, None, None, None)

  /** `MemoListRequest`'s flattened `Option<MemoQueryParams>`: all fields optional; a field of the wrong type gives `None`. */
  function DecodeQuery(v: Json.Value): (r: Option<MemoQueryParams>)
    ensures r.Some? <==>
      && v.JObj?
      && OptField(v.fields, "user_id", AsString).Some? && OptField(v.fields, "status", AsString).Some?
      && OptField(v.fields, "tags", AsStringList).Some? && OptField(v.fields, "min_priority", AsI32).Some?
      && OptField(v.fields, "from_date", AsI64).Some? && OptField(v.fields, "to_date", AsI64).Some?
      && OptField(v.fields, "keyword", AsString).Some? && OptField(v.fields, "limit", AsI32).Some?
      && OptField(v.fields, "offset", AsI32).Some?
    ensures r.Some? ==>
      && r.value.userId == OptField(v.fields, "user_id", AsString).value
      && r.value.status == OptField(v.fields, "status", AsString).value
      && r.value.tags == OptField(v.fields, "tags", AsStringList).value
      && r.value.minPriority == OptField(v.fields, "min_priority", AsI32).value
      && r.value.fromDate == OptField(v.fields, "from_date", AsI64).value
      && r.value.toDate == OptField(v.fields, "to_date", AsI64).value
      && r.value.keyword == OptField(v.fields, "keyword", AsString).value
      && r.value.limit == OptField(v.fields, "limit", AsI32).value
      && r.value.offset == OptField(v.fields, "offset", AsI32).value
    ensures v == Json.JObj(map[]) ==> r == Some(NO_FILTER)
  {
    if !v.JObj? then None
    else
      var f := v.fields;
      var userId := OptField(f, "user_id", AsString);
      var status := OptField(f, "status", AsString);
      var tags := OptField(f, "tags", AsStringList);
      var minPriority := OptField(f, "min_priority", AsI32);
      var fromDate := OptField(f, "from_date", AsI64);
      var toDate := OptField(f, "to_date", AsI64);
      var keyword := OptField(f, "keyword", AsString);
      var limit := OptField(f, "limit", AsI32);
      var offset := OptField(f, "offset", AsI32);
      if userId.None? || status.None? || tags.None? || minPriority.None? || fromDate.None? ||
         toDate.None? || keyword.None? || limit.None? || offset.None? then None
      else Some(MemoQueryParams(userId.value, status.value, tags.value, minPriority.value, fromDate.value,
                                toDate.value, keyword.value, limit.value, offset.value))
  }

  /** How serde writes a `MemoRecord`. */
  function RecordJson(r: MemoRecord): Json.Value
  {
    Json.JObj(map[
      "id" := Json.JNum(r.id),
      "content" := Json.JStr(r.content),
      "created_at" := Json.JNum(r.createdAt),
      "remind_at" := Json.OptNumber(r.remindAt),
      "cron_pattern" := Json.OptString(r.cronPattern),
      "status" := Json.JStr(r.status),
      "tags" := Json.JArr(seq(|r.tags|, i requires 0 <= i < |r.tags| => Json.JStr(r.tags[i]))),
      "todo_date" := Json.OptNumber(r.todoDate),
      "priority" := Json.JNum(r.priority),
      "user_id" := Json.OptString(r.userId)])
  }

  function RecordsJson(rs: seq<MemoRecord>): (r: seq<Json.Value>)
    ensures |r| == |rs| && forall i :: 0 <= i < |rs| ==> r[i] == RecordJson(rs[i])
  {
    if rs == [] then [] else [RecordJson(rs[0])] + RecordsJson(rs[1..])
  }

  /** A create payload with just a content field decodes to a memo with nothing optional set. */
  lemma DecodeCreateMinimal(content: string)
    ensures DecodeCreate(Json.JObj(map["content" := Json.JStr(content)])) == Some(CreateRequest(content, None, None, None, None, None))
  {
  }

  /** A create payload whose priority is not a number is rejected as a whole. */
  lemma DecodeCreateBadPriority(content: string, p: string)
    ensures DecodeCreate(Json.JObj(map["content" := Json.JStr(content), "priority" := Json.JStr(p)])).None?
  {
  }
}
