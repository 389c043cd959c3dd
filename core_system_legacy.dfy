/**
 * The older core plugin of src/plugins/core_system.rs: the same memo and
 * schedule requests as the newer plugin, served from the older store, with
 * no user contexts, no priority column (the priority lives only in the
 * memo's metadata) and a primary reminder that carries no rendered text.
 */
module LegacyCoreSystem {
  import opened Wrappers
  import Json
  import Messages
  import opened MemoTypes
  import LegacyStorage
  import CronScheduler
  import opened CoreRequests
  import CoreSystem

  /** The metadata the older plugin records: job uuids, and the todo date and priority the table has no column for. */
  datatype LegacyMetadata = LegacyMetadata(
    jobUuid: Option<string>,
    todoDate: Option<int>,
    priority: Option<int>,
    extraCronJobs: Option<seq<string>>)

  /** The serde conversions the handlers rely on: metadata to and from text, tags from text, uuid parsing, a message from JSON. */
  datatype LegacyCodecs = LegacyCodecs(
    metadataText: LegacyMetadata -> string,
    parseMetadata: string -> Option<LegacyMetadata>,
    parseTags: string -> Option<seq<string>>,
    isUuid: string -> bool,
    decodeMessage: Json.Value -> Option<CronScheduler.Trigger>)

  /** The job part of the older metadata, in the newer plugin's terms. */
  function JobPart(m: LegacyMetadata): MemoMetadata
  {
    MemoMetadata(m.jobUuid, m.extraCronJobs)
  }

  /** The request a message makes, for the handlers shared with the newer plugin. */
  function AsRequest(msg: Messages.Message): Request
  {
    Request(Messages.AsStr(msg.messageType), msg.payload, msg.source, msg.messageId, None)
  }

  // ---- system.memo.create ----

  /** What the memo's cron job sends in the older plugin: id, content and kind only. */
  function PrimaryTrigger(id: int, content: string): CronScheduler.Trigger
  {
    CronScheduler.Trigger(CoreSystem.REMIND, Json.JObj(map[
      "id" := Json.JNum(id),
      "content" := Json.JStr(content),
      "type" := Json.JStr("primary")]))
  }

  /** The metadata a create records: the uuids of the jobs scheduled, and the request's todo date and priority. */
  function CreateMetadata(c: CreateRequest, accepts: string -> bool, uuidOf: nat -> string, created: nat): (m: LegacyMetadata)
    ensures JobPart(m) == CoreSystem.CreateMetadata(c, accepts, uuidOf, created)
    ensures m.todoDate == c.todoDate && m.priority == c.priority
  {
    var jobs := CoreSystem.CreateMetadata(c, accepts, uuidOf, created);
    LegacyMetadata(jobs.jobUuid, c.todoDate, c.priority, jobs.extraCronJobs)
  }

  function NewRow(id: int, c: CreateRequest, now: int): (row: LegacyStorage.LegacyRow)
    ensures row.id == id && row.status == PENDING && row.createdAt == now && row.metadata.None?
    ensures row.content == c.content && row.cronPattern == c.cron && row.remindAt == c.remindAt && row.todoDate == c.todoDate
    ensures row.tags == CoreSystem.TagsColumn(c.tags)
  {
    LegacyStorage.LegacyRow(id, c.content, now, c.remindAt, c.cron, PENDING, None, CoreSystem.TagsColumn(c.tags), c.todoDate)
  }

  /**
   * The effect of `system.memo.create` in the older plugin: nothing for an
   * undecodable payload; otherwise one new row under the next id whose
   * metadata records the jobs scheduled for it with the todo date and
   * priority, those jobs, and the `created` announcement.
   */
  twostate predicate Created(msg: Messages.Message, s: LegacyStorage.LegacyStorage, sched: CronScheduler.JobScheduler, out: Outbox,
                             codecs: LegacyCodecs, now: int)
    reads s, sched, out
  {
    && (DecodeCreate(msg.payload).None? ==>
          s.memos == old(s.memos) && s.nextId == old(s.nextId) &&
          sched.jobs == old(sched.jobs) && sched.created == old(sched.created) && out.sent == old(out.sent))
    && (DecodeCreate(msg.payload).Some? ==>
          var c := DecodeCreate(msg.payload).value;
          var id := old(s.nextId);
          var meta := CreateMetadata(c, sched.accepts, sched.uuidOf, old(sched.created));
          && s.nextId == id + 1
          && s.memos == old(s.memos) + [NewRow(id, c, now).(metadata := Some(codecs.metadataText(meta)))]
          && sched.jobs == old(sched.jobs) + CoreSystem.CreateJobs(c, PrimaryTrigger(id, c.content), CoreSystem.TagTrigger(id, c.content),
                                                                   sched.accepts, sched.uuidOf, old(sched.created))
          && sched.created == old(sched.created) + |CoreSystem.CreateJobs(c, PrimaryTrigger(id, c.content), CoreSystem.TagTrigger(id, c.content),
                                                                          sched.accepts, sched.uuidOf, old(sched.created))|
          && out.sent == old(out.sent) + [CoreSystem.CreatedReply(id, c.content)])
  }

  /**
   * `system.memo.create`: stores the memo, schedules its cron job and, for a
   * stage goal, a daily job, records their uuids with the todo date and
   * priority in its metadata and announces it. An undecodable payload
   * changes nothing.
   */
  method HandleCreate(msg: Messages.Message, s: LegacyStorage.LegacyStorage, sched: CronScheduler.JobScheduler, out: Outbox,
                      codecs: LegacyCodecs, now: int)
    requires s.Valid()
    modifies s, sched, out
    ensures s.Valid()
    ensures Created(msg, s, sched, out, codecs, now)
  {
    var decoded := DecodeCreate(msg.payload);
    if decoded.None? {
      return;
    }
    var c := decoded.value;
    ghost var memos0 := s.memos;
    var id := s.AddMemo(c.content, c.remindAt, c.cron, CoreSystem.TagsColumn(c.tags), c.todoDate, now);
    var meta := ScheduleCreateJobs(c, id, sched);
    ghost var added := s.memos;
    s.UpdateMemoMetadata(id, codecs.metadataText(meta));
    assert s.memos == memos0 + [added[|memos0|].(metadata := Some(codecs.metadataText(meta)))] by {
      assert forall i :: 0 <= i < |memos0| ==> s.memos[i] == memos0[i];
    }
    out.Send(CoreSystem.CreatedReply(id, c.content));
  }

  /** The scheduling steps of a create, and the metadata they produce. */
  method ScheduleCreateJobs(c: CreateRequest, id: int, sched: CronScheduler.JobScheduler) returns (meta: LegacyMetadata)
    modifies sched
    ensures meta == CreateMetadata(c, sched.accepts, sched.uuidOf, old(sched.created))
    ensures sched.jobs == old(sched.jobs) + CoreSystem.CreateJobs(c, PrimaryTrigger(id, c.content), CoreSystem.TagTrigger(id, c.content),
                                                                  sched.accepts, sched.uuidOf, old(sched.created))
    ensures sched.created == old(sched.created) + |CoreSystem.CreateJobs(c, PrimaryTrigger(id, c.content), CoreSystem.TagTrigger(id, c.content),
                                                                         sched.accepts, sched.uuidOf, old(sched.created))|
  {
    var jobs := CoreSystem.ScheduleCreateJobs(c, PrimaryTrigger(id, c.content), CoreSystem.TagTrigger(id, c.content), sched);
    meta := LegacyMetadata(jobs.jobUuid, c.todoDate, c.priority, jobs.extraCronJobs);
  }

  // ---- system.memo.complete / system.memo.delete ----

  /** The jobs that removing a memo cancels, given what `get_memo_metadata` read. */
  function Cancelled(read: LegacyStorage.MetadataRead, codecs: LegacyCodecs): (r: set<string>)
    ensures read.Metadata? && codecs.parseMetadata(read.text).Some? ==>
              r == CoreSystem.JobsToRemove(JobPart(codecs.parseMetadata(read.text).value), codecs.isUuid)
    ensures !(read.Metadata? && codecs.parseMetadata(read.text).Some?) ==> r == {}
  {
    if read.Metadata? && codecs.parseMetadata(read.text).Some? then
      CoreSystem.JobsToRemove(JobPart(codecs.parseMetadata(read.text).value), codecs.isUuid)
    else {}
  }

  /**
   * The table after `update_memo_status(id, status)`; a missing id changes
   * nothing. It says of the legacy table what `CoreSystem.WithStatus` says of
   * the newer one: the two files keep rows of different shapes (nine columns
   * here, eleven there), and a datatype update names its own type's field.
   */
  function WithStatus(rows: seq<LegacyStorage.LegacyRow>, id: int, status: string): (r: seq<LegacyStorage.LegacyRow>)
    ensures |r| == |rows|
    ensures forall i :: 0 <= i < |rows| ==> r[i] == if rows[i].id == id then rows[i].(status := status) else rows[i]
  {
    if rows == [] then []
    else [if rows[0].id == id then rows[0].(status := status) else rows[0]] + WithStatus(rows[1..], id, status)
  }

  /**
   * The effect of `system.memo.complete` or `system.memo.delete` in the older
   * plugin: an undecodable payload changes nothing; a NULL metadata column
   * panics, with nothing changed; otherwise the memo's jobs are dropped, its
   * status set and the confirmation sent. The id and job counters never change.
   */
  twostate predicate Actioned(msg: Messages.Message, s: LegacyStorage.LegacyStorage, sched: CronScheduler.JobScheduler, out: Outbox,
                              codecs: LegacyCodecs, panicked: bool)
    reads s, sched, out
  {
    var t := Messages.AsStr(msg.messageType);
    && s.nextId == old(s.nextId) && sched.created == old(sched.created)
    && match DecodeAction(msg.payload)
       case None =>
         !panicked && s.memos == old(s.memos) && sched.jobs == old(sched.jobs) && out.sent == old(out.sent)
       case Some(id) =>
         var read := LegacyStorage.MetadataIn(old(s.memos), id);
         && (panicked <==> read.NullMetadata?)
         && (panicked ==> s.memos == old(s.memos) && sched.jobs == old(sched.jobs) && out.sent == old(out.sent))
         && (!panicked ==>
               && sched.jobs == CronScheduler.Drop(old(sched.jobs), Cancelled(read, codecs))
               && s.memos == WithStatus(old(s.memos), id, CoreSystem.ActionStatus(t))
               && out.sent == old(out.sent) + [CoreSystem.ActionReply(t, id)])
  }

  /**
   * `system.memo.complete` and `system.memo.delete`: cancels the memo's
   * main job and its extra jobs, then sets its status and confirms. Reading
   * a NULL metadata column into a `String` panics the handler task:
   * `panicked`, with nothing changed. An undecodable payload changes nothing.
   */
  method HandleAction(msg: Messages.Message, s: LegacyStorage.LegacyStorage, sched: CronScheduler.JobScheduler, out: Outbox,
                      codecs: LegacyCodecs)
    returns (panicked: bool)
    requires s.Valid()
    requires Messages.AsStr(msg.messageType) == CoreSystem.COMPLETE || Messages.AsStr(msg.messageType) == CoreSystem.DELETE
    modifies s, sched, out
    ensures s.Valid()
    ensures Actioned(msg, s, sched, out, codecs, panicked)
  {
    var t := Messages.AsStr(msg.messageType);
    var decoded := DecodeAction(msg.payload);
    if decoded.None? {
      return false;
    }
    var id := decoded.value;
    var read := s.GetMemoMetadata(id);
    if read.NullMetadata? {
      return true;
    }
    CronScheduler.DropNothing(sched.jobs);
    if read.Metadata? {
      var parsed := codecs.parseMetadata(read.text);
      if parsed.Some? {
        CoreSystem.CancelJobs(JobPart(parsed.value), sched, codecs.isUuid);
      }
    }
    SetStatus(s, id, CoreSystem.ActionStatus(t));
    out.Send(CoreSystem.ActionReply(t, id));
    panicked := false;
  }

  /** `update_memo_status`, stated over the whole table. */
  method SetStatus(s: LegacyStorage.LegacyStorage, id: int, status: string)
    requires s.Valid()
    modifies s
    ensures s.Valid()
    ensures s.memos == WithStatus(old(s.memos), id, status)
    ensures s.nextId == old(s.nextId)
  {
    s.UpdateMemoStatus(id, status);
    assert s.memos == WithStatus(old(s.memos), id, status);
  }

  /**
   * In the older plugin too, completing or deleting a memo cancels every job
   * its creation scheduled, and no other job, when the uuids it was given
   * are new and parse and its metadata reads back as written.
   */
  lemma CancelUndoesCreate(jobs: seq<CronScheduler.Job>, c: CreateRequest, id: int,
                           accepts: string -> bool, uuidOf: nat -> string, created: nat, codecs: LegacyCodecs)
    requires forall j :: j in jobs ==> j.uuid != uuidOf(created) && j.uuid != uuidOf(created + 1)
    requires codecs.isUuid(uuidOf(created)) && codecs.isUuid(uuidOf(created + 1))
    requires var m := CreateMetadata(c, accepts, uuidOf, created);
             codecs.parseMetadata(codecs.metadataText(m)) == Some(m)
    ensures var m := CreateMetadata(c, accepts, uuidOf, created);
            CronScheduler.Drop(jobs + CoreSystem.CreateJobs(c, PrimaryTrigger(id, c.content), CoreSystem.TagTrigger(id, c.content),
                                                            accepts, uuidOf, created),
                               Cancelled(LegacyStorage.Metadata(codecs.metadataText(m)), codecs)) == jobs
  {
    var m := CreateMetadata(c, accepts, uuidOf, created);
    var primary := PrimaryTrigger(id, c.content);
    var tag := CoreSystem.TagTrigger(id, c.content);
    var added := CoreSystem.CreateJobs(c, primary, tag, accepts, uuidOf, created);
    CoreSystem.MetadataNamesCreatedJobs(c, primary, tag, accepts, uuidOf, created);
    assert CoreSystem.RecordedUuids(JobPart(m)) <= {uuidOf(created), uuidOf(created + 1)};
    assert Cancelled(LegacyStorage.Metadata(codecs.metadataText(m)), codecs) == CoreSystem.RecordedUuids(JobPart(m));
    forall j | j in added ensures j.uuid in CoreSystem.RecordedUuids(JobPart(m))
    {
      assert j.uuid in set x | x in added :: x.uuid;
    }
    CronScheduler.DropAppended(jobs, added, CoreSystem.RecordedUuids(JobPart(m)));
  }

  // ---- system.memo.list ----

  /** One entry of the list reply: the row's columns, its parsed tags, and the todo date and priority from its metadata. */
  function ListEntry(r: Reminder, codecs: LegacyCodecs): (e: Json.Value)
    ensures e.JObj? && e.fields.Keys == {"id", "content", "remind_at", "cron", "tags", "todo_date", "priority"}
    ensures e.fields["id"] == Json.JNum(r.id) && e.fields["content"] == Json.JStr(r.content)
    ensures e.fields["remind_at"] == Json.OptNumber(r.remindAt) && e.fields["cron"] == Json.OptString(r.cronPattern)
    ensures r.metadata.Some? && codecs.parseMetadata(r.metadata.value).Some? ==>
              var m := codecs.parseMetadata(r.metadata.value).value;
              e.fields["todo_date"] == Json.OptNumber(m.todoDate) && e.fields["priority"] == Json.OptNumber(m.priority)
    ensures (r.metadata.None? || codecs.parseMetadata(r.metadata.value).None?) ==>
              e.fields["todo_date"] == Json.JNull && e.fields["priority"] == Json.JNull
    ensures (r.tags.None? || codecs.parseTags(r.tags.value).None?) <==> e.fields["tags"] == Json.JNull
  {
    var meta := if r.metadata.Some? then codecs.parseMetadata(r.metadata.value) else None;
    var tags := if r.tags.Some? then codecs.parseTags(r.tags.value) else None;
    Json.JObj(map[
      "id" := Json.JNum(r.id),
      "content" := Json.JStr(r.content),
      "remind_at" := Json.OptNumber(r.remindAt),
      "cron" := Json.OptString(r.cronPattern),
      "tags" := (if tags.Some? then Json.JArr(seq(|tags.value|, i requires 0 <= i < |tags.value| => Json.JStr(tags.value[i]))) else Json.JNull),
      "todo_date" := Json.OptNumber(if meta.Some? then meta.value.todoDate else None),
      "priority" := Json.OptNumber(if meta.Some? then meta.value.priority else None)])
  }

  function ListEntries(rs: seq<Reminder>, codecs: LegacyCodecs): (es: seq<Json.Value>)
    ensures |es| == |rs| && forall i :: 0 <= i < |rs| ==> es[i] == ListEntry(rs[i], codecs)
  {
    if rs == [] then [] else ListEntries(rs[..|rs| - 1], codecs) + [ListEntry(rs[|rs| - 1], codecs)]
  }

  function ListReply(rs: seq<Reminder>, codecs: LegacyCodecs): Outgoing
  {
    Outgoing(None, CoreSystem.LIST_REPLY, Json.JObj(map["memos" := Json.JArr(ListEntries(rs, codecs))]), None)
  }

  /** `system.memo.list`: replies with one entry per active reminder, whoever asks and whatever the payload. */
  method HandleList(s: LegacyStorage.LegacyStorage, out: Outbox, codecs: LegacyCodecs)
    modifies out
    ensures out.sent == old(out.sent) + [ListReply(s.ActiveReminders(), codecs)]
  {
    var reminders := s.ActiveReminders();
    var entries: seq<Json.Value> := [];
    for k := 0 to |reminders|
      invariant entries == ListEntries(reminders[..k], codecs)
    {
      assert reminders[..k + 1][..k] == reminders[..k];
      entries := entries + [ListEntry(reminders[k], codecs)];
    }
    assert reminders[..|reminders|] == reminders;
    out.Send(Outgoing(None, CoreSystem.LIST_REPLY, Json.JObj(map["memos" := Json.JArr(entries)]), None));
  }

  /** Every entry of the list reply is a pending memo with a reminder time or a cron pattern, and every such memo has one. */
  lemma ListedAreActive(rows: seq<LegacyStorage.LegacyRow>, codecs: LegacyCodecs, e: Json.Value)
    ensures e in ListEntries(LegacyStorage.Reminders(rows), codecs) <==>
      exists row :: row in rows && Schedulable(row.status, row.remindAt, row.cronPattern) &&
                    e == ListEntry(LegacyStorage.ReminderOf(row), codecs)
  {
    var rs := LegacyStorage.Reminders(rows);
    var es := ListEntries(rs, codecs);
    if e in es {
      var i :| 0 <= i < |es| && es[i] == e;
      assert rs[i] in rs;
    }
    if exists row :: row in rows && Schedulable(row.status, row.remindAt, row.cronPattern) &&
                     e == ListEntry(LegacyStorage.ReminderOf(row), codecs) {
      var row :| row in rows && Schedulable(row.status, row.remindAt, row.cronPattern) &&
                 e == ListEntry(LegacyStorage.ReminderOf(row), codecs);
      assert LegacyStorage.ReminderOf(row) in rs;
      var i :| 0 <= i < |rs| && rs[i] == LegacyStorage.ReminderOf(row);
      assert es[i] == e;
    }
  }

  /** The priority and todo date that the table has no column for come back in the list through the metadata a create wrote. */
  lemma CreatedEntryKeepsPriority(id: int, c: CreateRequest, now: int, accepts: string -> bool, uuidOf: nat -> string, created: nat,
                                  codecs: LegacyCodecs)
    requires var m := CreateMetadata(c, accepts, uuidOf, created);
             codecs.parseMetadata(codecs.metadataText(m)) == Some(m)
    ensures var row := NewRow(id, c, now).(metadata := Some(codecs.metadataText(CreateMetadata(c, accepts, uuidOf, created))));
            var e := ListEntry(LegacyStorage.ReminderOf(row), codecs);
            e.fields["priority"] == Json.OptNumber(c.priority) && e.fields["todo_date"] == Json.OptNumber(c.todoDate)
  {
  }

  // ---- system.schedule.add ----

  /** `handle_schedule_message`: the same as the newer plugin's `system.schedule.add`. */
  method HandleSchedule(msg: Messages.Message, sched: CronScheduler.JobScheduler, out: Outbox, codecs: LegacyCodecs)
    modifies sched, out
    ensures CoreSystem.ScheduleAdded(AsRequest(msg), sched, out, codecs.decodeMessage)
  {
    CoreSystem.HandleSchedule(AsRequest(msg), sched, out, codecs.decodeMessage);
  }

  // ---- routing and expiry ----

  /** The message types the older plugin subscribes to: no update, no user requests. */
  predicate Subscribed(t: string)
  {
    t in {CoreSystem.CREATE, CoreSystem.COMPLETE, CoreSystem.DELETE, CoreSystem.LIST, CoreSystem.SCHEDULE_ADD}
  }

  /**
   * The handler task: each subscribed message goes to its handler; any other
   * message changes nothing.
   */
  method HandleMessage(msg: Messages.Message, s: LegacyStorage.LegacyStorage, sched: CronScheduler.JobScheduler, out: Outbox,
                       codecs: LegacyCodecs, now: int)
    returns (panicked: bool)
    requires s.Valid()
    modifies s, sched, out
    ensures s.Valid()
    ensures panicked ==> Messages.AsStr(msg.messageType) in {CoreSystem.COMPLETE, CoreSystem.DELETE}
    ensures !Subscribed(Messages.AsStr(msg.messageType)) ==>
              s.memos == old(s.memos) && s.nextId == old(s.nextId) &&
              sched.jobs == old(sched.jobs) && sched.created == old(sched.created) && out.sent == old(out.sent)
    ensures Messages.AsStr(msg.messageType) == CoreSystem.CREATE ==> Created(msg, s, sched, out, codecs, now)
    ensures Messages.AsStr(msg.messageType) in {CoreSystem.COMPLETE, CoreSystem.DELETE} ==> Actioned(msg, s, sched, out, codecs, panicked)
    ensures Messages.AsStr(msg.messageType) == CoreSystem.LIST ==>
              s.memos == old(s.memos) && s.nextId == old(s.nextId) && sched.jobs == old(sched.jobs) && sched.created == old(sched.created) &&
              out.sent == old(out.sent) + [ListReply(old(s.ActiveReminders()), codecs)]
    ensures Messages.AsStr(msg.messageType) == CoreSystem.SCHEDULE_ADD ==>
              CoreSystem.ScheduleAdded(AsRequest(msg), sched, out, codecs.decodeMessage) &&
              s.memos == old(s.memos) && s.nextId == old(s.nextId)
  {
    var t := Messages.AsStr(msg.messageType);
    panicked := false;
    if t == CoreSystem.CREATE {
      HandleCreate(msg, s, sched, out, codecs, now);
    } else if t == CoreSystem.COMPLETE || t == CoreSystem.DELETE {
      panicked := HandleAction(msg, s, sched, out, codecs);
    } else if t == CoreSystem.LIST {
      HandleList(s, out, codecs);
    } else if t == CoreSystem.SCHEDULE_ADD {
      HandleSchedule(msg, sched, out, codecs);
    }
  }

  /** The expiration checker's tick: `mark_expired_memos`, after which no memo is due. */
  method ExpiryTick(s: LegacyStorage.LegacyStorage, now: int) returns (marked: nat)
    requires s.Valid()
    modifies s
    ensures s.Valid() && s.nextId == old(s.nextId)
    ensures |s.memos| == |old(s.memos)| && forall i :: 0 <= i < |s.memos| ==> s.memos[i] == LegacyStorage.Expire(old(s.memos)[i], now)
    ensures marked == LegacyStorage.CountDue(old(s.memos), now)
    ensures forall i :: 0 <= i < |s.memos| ==> !DueForExpiry(s.memos[i].status, s.memos[i].todoDate, now)
  {
    marked := s.MarkExpiredMemos(now);
    forall i | 0 <= i < |s.memos|
      ensures !DueForExpiry(s.memos[i].status, s.memos[i].todoDate, now)
    {
      ExpiredNotDue(old(s.memos)[i], now);
    }
  }

  /** An expired row is not due again. */
  lemma ExpiredNotDue(row: LegacyStorage.LegacyRow, now: int)
    ensures !DueForExpiry(LegacyStorage.Expire(row, now).status, LegacyStorage.Expire(row, now).todoDate, now)
  {
  }
}
