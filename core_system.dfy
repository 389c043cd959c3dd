/**
 * The core-system plugin's message handlers (src/plugins/core_system/mod.rs):
 * the decisions `handle_memo_message`, `handle_schedule_message` and
 * `handle_user_message` take over the memo store, the job scheduler and the
 * outgoing bus, and the hourly expiry task.
 */
module CoreSystem {
  import opened Wrappers
  import Json
  import User
  import Messages
  import opened MemoTypes
  import MemoQuery
  import MemoStorage
  import CronScheduler
  import CoreConfig
  import opened CoreRequests

  const CREATE: string := "system.memo.create"
  const UPDATE: string := "system.memo.update"
  const COMPLETE: string := "system.memo.complete"
  const DELETE: string := "system.memo.delete"
  const LIST: string := "system.memo.list"
  const SCHEDULE_ADD: string := "system.schedule.add"
  const RESOLVE: string := "system.user.resolve"
  const GRANT_ROLE: string := "system.user.grant_role"

  const REMIND: string := "system.memo.remind"
  const CREATED: string := "system.memo.created"
  const LIST_REPLY: string := "system.memo.list.reply"
  const SCHEDULE_ADDED: string := "system.schedule.added"
  const RESOLVED: string := "system.user.resolved"

  /** The tag that earns a memo a daily reminder. */
  const STAGE_GOAL: string := "stage_goal"
  /** The daily reminder's schedule at creation: 10:00 every day. */
  const DAILY_CRON: string := "0 0 10 * * * *"
  const ADMIN: string := "system:admin"
  const DEFAULT_ROLE: string := "user"
  const UNKNOWN_NAME: string := "Unknown"

  /** The message types the plugin subscribes to. */
  predicate Subscribed(t: string)
  {
    t in {CREATE, UPDATE, COMPLETE, DELETE, LIST, SCHEDULE_ADD, RESOLVE, GRANT_ROLE}
  }

  // ---- system.memo.create ----

  /** The memo's owner: the caller's user id when the request carries a user context. */
  function OwnerOf(req: Request): (r: Option<string>)
    ensures r.Some? <==> req.userContext.Some?
    ensures r.Some? ==> r.value == req.userContext.value.user.id.id
  {
    match req.userContext
    case None => None
    case Some(ctx) => Some(ctx.user.id.id)
  }

  /** The tags column: the tags as a JSON array when given. */
  function TagsColumn(tags: Option<seq<string>>): (r: Option<string>)
    ensures r.Some? <==> tags.Some?
    ensures r.Some? ==> r.value == EncodeTags(tags.value)
  {
    match tags
    case None => None
    case Some(ts) => Some(EncodeTags(ts))
  }

  predicate WantsTagJob(c: CreateRequest)
  {
    c.tags.Some? && STAGE_GOAL in c.tags.value
  }

  /** What the memo's cron job sends: id, content, kind, the rendered reminder text and the priority. */
  function PrimaryTrigger(id: int, c: CreateRequest, config: CoreConfig.CoreSystemConfig): CronScheduler.Trigger
  {
    CronScheduler.Trigger(REMIND, Json.JObj(map[
      "id" := Json.JNum(id),
      "content" := Json.JStr(c.content),
      "type" := Json.JStr("primary"),
      "message" := Json.JStr(CoreConfig.ReminderText(config, c.priority, c.content)),
      "priority" := Json.OptNumber(c.priority)]))
  }

  /** What the daily stage-goal job sends. */
  function TagTrigger(id: int, content: string): CronScheduler.Trigger
  {
    CronScheduler.Trigger(REMIND, Json.JObj(map[
      "id" := Json.JNum(id),
      "content" := Json.JStr(content),
      "type" := Json.JStr("tag_reminder"),
      "tag" := Json.JStr(STAGE_GOAL)]))
  }

  /** Whether the memo's own cron job gets scheduled. */
  predicate MainScheduled(c: CreateRequest, accepts: string -> bool)
  {
    c.cron.Some? && accepts(c.cron.value)
  }

  /** Whether the stage-goal job gets scheduled. */
  predicate TagScheduled(c: CreateRequest, accepts: string -> bool)
  {
    WantsTagJob(c) && accepts(DAILY_CRON)
  }

  /** The uuid of the stage-goal job: the next after the main job's, if that one was created. */
  function TagUuid(c: CreateRequest, accepts: string -> bool, uuidOf: nat -> string, created: nat): string
  {
    uuidOf(created + if MainScheduled(c, accepts) then 1 else 0)
  }

  /** The jobs a create adds, in order: the memo's cron job, then the stage-goal job. */
  function CreateJobs(c: CreateRequest, primary: CronScheduler.Trigger, tag: CronScheduler.Trigger,
                      accepts: string -> bool, uuidOf: nat -> string, created: nat): seq<CronScheduler.Job>
  {
    (if MainScheduled(c, accepts) then [CronScheduler.Job(uuidOf(created), c.cron.value, primary)] else []) +
    (if TagScheduled(c, accepts) then [CronScheduler.Job(TagUuid(c, accepts, uuidOf, created), DAILY_CRON, tag)] else [])
  }

  /** The metadata a create records: the main job's uuid and the extra job's, each only if scheduled. */
  function CreateMetadata(c: CreateRequest, accepts: string -> bool, uuidOf: nat -> string, created: nat): MemoMetadata
  {
    MemoMetadata(
      if MainScheduled(c, accepts) then Some(uuidOf(created)) else None,
      if TagScheduled(c, accepts) then Some([TagUuid(c, accepts, uuidOf, created)]) else None)
  }

  /** Every uuid a memo's metadata records. */
  function RecordedUuids(m: MemoMetadata): set<string>
  {
    (if m.jobUuid.Some? then {m.jobUuid.value} else {}) +
    (if m.extraCronJobs.Some? then set u | u in m.extraCronJobs.value else {})
  }

  /** The metadata written at creation names exactly the jobs the create added. */
  lemma MetadataNamesCreatedJobs(c: CreateRequest, primary: CronScheduler.Trigger, tag: CronScheduler.Trigger,
                                 accepts: string -> bool, uuidOf: nat -> string, created: nat)
    ensures RecordedUuids(CreateMetadata(c, accepts, uuidOf, created)) ==
            set j | j in CreateJobs(c, primary, tag, accepts, uuidOf, created) :: j.uuid
    ensures |CreateJobs(c, primary, tag, accepts, uuidOf, created)| ==
            (if MainScheduled(c, accepts) then 1 else 0) + (if TagScheduled(c, accepts) then 1 else 0)
  {
    var jobs := CreateJobs(c, primary, tag, accepts, uuidOf, created);
    var m := CreateMetadata(c, accepts, uuidOf, created);
    if TagScheduled(c, accepts) {
      var u := TagUuid(c, accepts, uuidOf, created);
      assert (set x | x in [u]) == {u};
      assert jobs[|jobs| - 1].uuid == u;
    }
    assert forall j :: j in jobs ==> j.uuid in RecordedUuids(m);
  }

  /** The memo's primary reminder carries the configured text for its priority. */
  lemma PrimaryReminderText(id: int, c: CreateRequest, config: CoreConfig.CoreSystemConfig)
    ensures Json.GetStr(PrimaryTrigger(id, c, config).payload, "message") == Some(CoreConfig.ReminderText(config, c.priority, c.content))
    ensures Json.GetStr(PrimaryTrigger(id, c, config).payload, "type") == Some("primary")
    ensures PrimaryTrigger(id, c, config).messageType == REMIND
  {
  }

  /** The row a create stores, before its metadata is written. */
  function NewRow(id: int, c: CreateRequest, owner: Option<string>, now: int): (row: MemoRow)
    ensures row.id == id && row.status == PENDING && row.createdAt == now && row.metadata.None?
    ensures row.priority == c.priority.GetOr(DEFAULT_PRIORITY) && row.userId == owner
    ensures row.content == c.content && row.cronPattern == c.cron && row.remindAt == c.remindAt && row.todoDate == c.todoDate
  {
    MemoRow(id, c.content, now, c.remindAt, c.cron, PENDING, None, TagsColumn(c.tags), c.todoDate,
            c.priority.GetOr(DEFAULT_PRIORITY), owner)
  }

  function CreatedReply(id: int, content: string): Outgoing
  {
    Outgoing(None, CREATED, Json.JObj(map["id" := Json.JNum(id), "content" := Json.JStr(content)]), None)
  }

  /** Nothing in the store changed. */
  twostate predicate StoreUnchanged(s: MemoStorage.Storage)
    reads s
  {
    s.memos == old(s.memos) && s.nextId == old(s.nextId) && s.users == old(s.users) &&
    s.userRoles == old(s.userRoles) && s.rolePermissions == old(s.rolePermissions)
  }

  /** Nothing in the scheduler changed. */
  twostate predicate SchedulerUnchanged(sched: CronScheduler.JobScheduler)
    reads sched
  {
    sched.jobs == old(sched.jobs) && sched.created == old(sched.created)
  }

  /**
   * The effect of `system.memo.create` on the store, the scheduler and the
   * outbox: nothing for an undecodable payload; otherwise one new row under
   * the next id whose metadata names the jobs scheduled for it, those jobs,
   * and the `created` announcement.
   */
  twostate predicate Created(req: Request, s: MemoStorage.Storage, sched: CronScheduler.JobScheduler, out: Outbox,
                             config: CoreConfig.CoreSystemConfig, codecs: Codecs, now: int)
    reads s, sched, out
  {
    && s.users == old(s.users) && s.userRoles == old(s.userRoles) && s.rolePermissions == old(s.rolePermissions)
    && (DecodeCreate(req.payload).None? ==>
          s.memos == old(s.memos) && s.nextId == old(s.nextId) &&
          sched.jobs == old(sched.jobs) && sched.created == old(sched.created) && out.sent == old(out.sent))
    && (DecodeCreate(req.payload).Some? ==>
          var c := DecodeCreate(req.payload).value;
          var id := old(s.nextId);
          var meta := CreateMetadata(c, sched.accepts, sched.uuidOf, old(sched.created));
          && s.nextId == id + 1
          && s.memos == old(s.memos) + [NewRow(id, c, OwnerOf(req), now).(metadata := Some(codecs.metadataText(meta)))]
          && sched.jobs == old(sched.jobs) + CreateJobs(c, PrimaryTrigger(id, c, config), TagTrigger(id, c.content),
                                                        sched.accepts, sched.uuidOf, old(sched.created))
          && sched.created == old(sched.created) + |CreateJobs(c, PrimaryTrigger(id, c, config), TagTrigger(id, c.content),
                                                               sched.accepts, sched.uuidOf, old(sched.created))|
          && out.sent == old(out.sent) + [CreatedReply(id, c.content)])
  }

  /**
   * `system.memo.create`: stores the memo, schedules its cron job and, for a
   * stage goal, a daily job, records the uuids of the jobs that were
   * scheduled in its metadata and announces it. An undecodable payload
   * changes nothing.
   */
  method HandleCreate(req: Request, s: MemoStorage.Storage, sched: CronScheduler.JobScheduler, out: Outbox,
                      config: CoreConfig.CoreSystemConfig, codecs: Codecs, now: int)
    requires s.Valid()
    modifies s, sched, out
    ensures s.Valid()
    ensures Created(req, s, sched, out, config, codecs, now)
  {
    var decoded := DecodeCreate(req.payload);
    if decoded.None? {
      return;
    }
    var c := decoded.value;
    ghost var memos0 := s.memos;
    var id := s.AddMemo(c.content, c.remindAt, c.cron, TagsColumn(c.tags), c.todoDate, c.priority, OwnerOf(req), now);
    var meta := ScheduleCreateJobs(c, PrimaryTrigger(id, c, config), TagTrigger(id, c.content), sched);
    ghost var added := s.memos;
    s.UpdateMemoMetadata(id, codecs.metadataText(meta));
    assert s.memos == memos0 + [added[|memos0|].(metadata := Some(codecs.metadataText(meta)))] by {
      assert forall i :: 0 <= i < |memos0| ==> s.memos[i] == memos0[i];
    }
    out.Send(CreatedReply(id, c.content));
  }

  /** The two scheduling steps of a create, and the metadata they produce. */
  method ScheduleCreateJobs(c: CreateRequest, primary: CronScheduler.Trigger, tag: CronScheduler.Trigger, sched: CronScheduler.JobScheduler)
    returns (meta: MemoMetadata)
    modifies sched
    ensures meta == CreateMetadata(c, sched.accepts, sched.uuidOf, old(sched.created))
    ensures sched.jobs == old(sched.jobs) + CreateJobs(c, primary, tag, sched.accepts, sched.uuidOf, old(sched.created))
    ensures sched.created == old(sched.created) + |CreateJobs(c, primary, tag, sched.accepts, sched.uuidOf, old(sched.created))|
  {
    var mainUuid: Option<string> := None;
    if c.cron.Some? {
      var r := sched.AddCronJob(c.cron.value, primary);
      if r.Ok? {
        mainUuid := Some(r.value);
      }
    }
    var extra: Option<seq<string>> := None;
    if WantsTagJob(c) {
      var r := sched.AddCronJob(DAILY_CRON, tag);
      if r.Ok? {
        extra := Some([r.value]);
      }
    }
    meta := MemoMetadata(mainUuid, extra);
  }

  // ---- system.memo.complete / system.memo.delete ----

  /** The status an action request sets. */
  function ActionStatus(t: string): string
  {
    if t == COMPLETE then COMPLETED else DELETED
  }

  function ActionReply(t: string, id: int): Outgoing
  {
    Outgoing(None, t + ".success", Json.JObj(map["id" := Json.JNum(id), "status" := Json.JStr(ActionStatus(t))]), None)
  }

  /** The strings of `xs` that parse as uuids. */
  function UuidsIn(xs: seq<string>, isUuid: string -> bool): set<string>
  {
    set u | u in xs && isUuid(u)
  }

  /** Extending the list by one string adds that string exactly when it parses. */
  lemma UuidsInSnoc(xs: seq<string>, x: string, isUuid: string -> bool)
    ensures UuidsIn(xs + [x], isUuid) == UuidsIn(xs, isUuid) + (if isUuid(x) then {x} else {})
  {
    assert forall u :: u in xs + [x] <==> u in xs || u == x;
  }

  /** The uuids of the main job and of the extra jobs in a metadata record that parse. */
  function JobsToRemove(m: MemoMetadata, isUuid: string -> bool): (r: set<string>)
    ensures r <= RecordedUuids(m)
    ensures forall u :: u in RecordedUuids(m) && isUuid(u) ==> u in r
  {
    (if m.jobUuid.Some? && isUuid(m.jobUuid.value) then {m.jobUuid.value} else {}) +
    (if m.extraCronJobs.Some? then UuidsIn(m.extraCronJobs.value, isUuid) else {})
  }

  /** The jobs that removing a memo cancels, given what `get_memo_metadata` read. */
  function Cancelled(read: MemoStorage.MetadataRead, codecs: Codecs): set<string>
  {
    if read.Metadata? && codecs.parseMetadata(read.text).Some? then JobsToRemove(codecs.parseMetadata(read.text).value, codecs.isUuid)
    else {}
  }

  /** The table after `update_memo_status(id, status)`; a missing id changes nothing. */
  function WithStatus(rows: seq<MemoRow>, id: int, status: string): (r: seq<MemoRow>)
    ensures |r| == |rows|
    ensures forall i :: 0 <= i < |rows| ==> r[i] == if rows[i].id == id then rows[i].(status := status) else rows[i]
  {
    if rows == [] then []
    else [if rows[0].id == id then rows[0].(status := status) else rows[0]] + WithStatus(rows[1..], id, status)
  }

  /**
   * The effect of `system.memo.complete` or `system.memo.delete`: a panic
   * only on NULL metadata, and then, like an undecodable payload, no change;
   * otherwise the memo's jobs dropped, its status set and the confirmation
   * sent. The id counter, the user tables and the job counter never change.
   */
  twostate predicate Actioned(req: Request, s: MemoStorage.Storage, sched: CronScheduler.JobScheduler, out: Outbox,
                              codecs: Codecs, panicked: bool)
    reads s, sched, out
  {
    && s.nextId == old(s.nextId) && s.users == old(s.users) && s.userRoles == old(s.userRoles) && s.rolePermissions == old(s.rolePermissions)
    && sched.created == old(sched.created)
    && (panicked ==> DecodeAction(req.payload).Some? && MemoStorage.MetadataIn(old(s.memos), DecodeAction(req.payload).value).NullMetadata?)
    && (DecodeAction(req.payload).None? || panicked ==>
          s.memos == old(s.memos) && sched.jobs == old(sched.jobs) && out.sent == old(out.sent))
    && (DecodeAction(req.payload).Some? && !panicked ==>
          var id := DecodeAction(req.payload).value;
          && !MemoStorage.MetadataIn(old(s.memos), id).NullMetadata?
          && sched.jobs == CronScheduler.Drop(old(sched.jobs), Cancelled(MemoStorage.MetadataIn(old(s.memos), id), codecs))
          && s.memos == WithStatus(old(s.memos), id, ActionStatus(req.messageType))
          && out.sent == old(out.sent) + [ActionReply(req.messageType, id)])
  }

  /**
   * `system.memo.complete` and `system.memo.delete`: cancels the memo's main
   * job and its extra jobs, then sets its status and confirms. Reading a NULL
   * metadata column into a `String` panics the handler task: `panicked`,
   * with nothing changed.
   */
  method HandleAction(req: Request, s: MemoStorage.Storage, sched: CronScheduler.JobScheduler, out: Outbox, codecs: Codecs)
    returns (panicked: bool)
    requires s.Valid()
    requires req.messageType == COMPLETE || req.messageType == DELETE
    modifies s, sched, out
    ensures s.Valid()
    ensures Actioned(req, s, sched, out, codecs, panicked)
  {
    panicked := false;
    var decoded := DecodeAction(req.payload);
    if decoded.None? {
      return;
    }
    var id := decoded.value;
    var read := s.GetMemoMetadata(id);
    if read.NullMetadata? {
      return true;
    }
    if read.Metadata? && codecs.parseMetadata(read.text).Some? {
      CancelJobs(codecs.parseMetadata(read.text).value, sched, codecs.isUuid);
    } else {
      CronScheduler.DropNothing(sched.jobs);
    }
    SetStatus(s, id, ActionStatus(req.messageType));
    out.Send(ActionReply(req.messageType, id));
  }

  /** `update_memo_status`, stated over the whole table. */
  method SetStatus(s: MemoStorage.Storage, id: int, status: string)
    requires s.Valid()
    modifies s
    ensures s.Valid()
    ensures s.memos == WithStatus(old(s.memos), id, status)
    ensures s.nextId == old(s.nextId) && s.users == old(s.users) && s.userRoles == old(s.userRoles) && s.rolePermissions == old(s.rolePermissions)
  {
    s.UpdateMemoStatus(id, status);
    assert s.memos == WithStatus(old(s.memos), id, status);
  }

  /** Removes the main job, then each extra job, whose recorded uuid parses. */
  method CancelJobs(meta: MemoMetadata, sched: CronScheduler.JobScheduler, isUuid: string -> bool)
    modifies sched
    ensures sched.jobs == CronScheduler.Drop(old(sched.jobs), JobsToRemove(meta, isUuid))
    ensures sched.created == old(sched.created)
  {
    ghost var jobs0 := sched.jobs;
    CronScheduler.DropNothing(jobs0);
    ghost var main: set<string> := {};
    if meta.jobUuid.Some? && isUuid(meta.jobUuid.value) {
      sched.RemoveJob(meta.jobUuid.value);
      main := {meta.jobUuid.value};
    }
    if meta.extraCronJobs.Some? {
      CancelExtras(meta.extraCronJobs.value, sched, isUuid);
      CronScheduler.DropDrop(jobs0, main, UuidsIn(meta.extraCronJobs.value, isUuid));
    } else {
      assert main + {} == main;
    }
  }

  /** The loop over `extra_cron_jobs`. */
  method CancelExtras(extras: seq<string>, sched: CronScheduler.JobScheduler, isUuid: string -> bool)
    modifies sched
    ensures sched.jobs == CronScheduler.Drop(old(sched.jobs), UuidsIn(extras, isUuid))
    ensures sched.created == old(sched.created)
  {
    ghost var jobs0 := sched.jobs;
    CronScheduler.DropNothing(jobs0);
    assert UuidsIn(extras[..0], isUuid) == {};
    for k := 0 to |extras|
      invariant sched.jobs == CronScheduler.Drop(jobs0, UuidsIn(extras[..k], isUuid))
      invariant sched.created == old(sched.created)
    {
      assert extras[..k + 1] == extras[..k] + [extras[k]];
      UuidsInSnoc(extras[..k], extras[k], isUuid);
      if isUuid(extras[k]) {
        CronScheduler.DropDrop(jobs0, UuidsIn(extras[..k], isUuid), {extras[k]});
        sched.RemoveJob(extras[k]);
      } else {
        assert UuidsIn(extras[..k], isUuid) + {} == UuidsIn(extras[..k], isUuid);
      }
    }
    assert extras[..|extras|] == extras;
  }

  /**
   * Completing or deleting a memo cancels every job its creation scheduled,
   * and no other job, when the uuids it was given are new and parse and its
   * metadata reads back as written.
   */
  lemma CancelUndoesCreate(jobs: seq<CronScheduler.Job>, c: CreateRequest, primary: CronScheduler.Trigger, tag: CronScheduler.Trigger,
                           accepts: string -> bool, uuidOf: nat -> string, created: nat, codecs: Codecs)
    requires forall j :: j in jobs ==> j.uuid != uuidOf(created) && j.uuid != uuidOf(created + 1)
    requires codecs.isUuid(uuidOf(created)) && codecs.isUuid(uuidOf(created + 1))
    requires var m := CreateMetadata(c, accepts, uuidOf, created);
             codecs.parseMetadata(codecs.metadataText(m)) == Some(m)
    ensures var m := CreateMetadata(c, accepts, uuidOf, created);
            CronScheduler.Drop(jobs + CreateJobs(c, primary, tag, accepts, uuidOf, created),
                               Cancelled(MemoStorage.Metadata(codecs.metadataText(m)), codecs)) == jobs
  {
    var m := CreateMetadata(c, accepts, uuidOf, created);
    var added := CreateJobs(c, primary, tag, accepts, uuidOf, created);
    MetadataNamesCreatedJobs(c, primary, tag, accepts, uuidOf, created);
    assert RecordedUuids(m) <= {uuidOf(created), uuidOf(created + 1)};
    assert Cancelled(MemoStorage.Metadata(codecs.metadataText(m)), codecs) == RecordedUuids(m);
    forall j | j in added ensures j.uuid in RecordedUuids(m)
    {
      assert j.uuid in set x | x in added :: x.uuid;
    }
    CronScheduler.DropAppended(jobs, added, RecordedUuids(m));
  }

  /** A create, seen from the complete that follows it: the jobs it added and the metadata it wrote. */
  method CreateStep(create: Request, c: CreateRequest, s: MemoStorage.Storage, sched: CronScheduler.JobScheduler, out: Outbox,
                    config: CoreConfig.CoreSystemConfig, codecs: Codecs, now: int)
    requires s.Valid()
    requires DecodeCreate(create.payload) == Some(c)
    modifies s, sched, out
    ensures s.Valid()
    ensures sched.jobs == old(sched.jobs) + CreateJobs(c, PrimaryTrigger(old(s.nextId), c, config), TagTrigger(old(s.nextId), c.content),
                                                       sched.accepts, sched.uuidOf, old(sched.created))
    ensures MemoStorage.MetadataIn(s.memos, old(s.nextId)) ==
            MemoStorage.Metadata(codecs.metadataText(CreateMetadata(c, sched.accepts, sched.uuidOf, old(sched.created))))
  {
    ghost var memos0 := s.memos;
    forall r | r in memos0 ensures r.id != s.nextId
    {
      var i :| 0 <= i < |memos0| && memos0[i] == r;
    }
    HandleCreate(create, s, sched, out, config, codecs, now);
    ghost var row := s.memos[|memos0|];
    assert s.memos == memos0 + [row];
    MemoStorage.MetadataOfAppended(memos0, row);
  }

  /** A complete, seen from the create before it: the jobs it cancels. */
  method CompleteStep(id: int, s: MemoStorage.Storage, sched: CronScheduler.JobScheduler, out: Outbox, codecs: Codecs)
    requires s.Valid() && I64_MIN <= id <= I64_MAX
    requires !MemoStorage.MetadataIn(s.memos, id).NullMetadata?
    modifies s, sched, out
    ensures s.Valid()
    ensures sched.jobs == CronScheduler.Drop(old(sched.jobs), Cancelled(MemoStorage.MetadataIn(old(s.memos), id), codecs))
  {
    var complete := Request(COMPLETE, Json.JObj(map["id" := Json.JNum(id)]), Messages.System, None, None);
    DecodeActionOf(id);
    var _ := HandleAction(complete, s, sched, out, codecs);
  }

  /**
   * A memo created and then completed leaves the scheduler with exactly the
   * jobs it had before.
   */
  method CreateThenComplete(create: Request, c: CreateRequest, s: MemoStorage.Storage, sched: CronScheduler.JobScheduler, out: Outbox,
                            config: CoreConfig.CoreSystemConfig, codecs: Codecs, now: int)
    requires s.Valid() && 0 <= s.nextId <= I64_MAX
    requires DecodeCreate(create.payload) == Some(c)
    requires forall m :: codecs.parseMetadata(codecs.metadataText(m)) == Some(m)
    requires forall k: nat :: codecs.isUuid(sched.uuidOf(k))
    requires forall j :: j in sched.jobs ==> j.uuid != sched.uuidOf(sched.created) && j.uuid != sched.uuidOf(sched.created + 1)
    modifies s, sched, out
    ensures sched.jobs == old(sched.jobs)
  {
    var id := s.nextId;
    ghost var jobs0 := sched.jobs;
    ghost var created0 := sched.created;
    CancelUndoesCreate(jobs0, c, PrimaryTrigger(id, c, config), TagTrigger(id, c.content), sched.accepts, sched.uuidOf, created0, codecs);
    CreateStep(create, c, s, sched, out, config, codecs, now);
    CompleteStep(id, s, sched, out, codecs);
  }

  // ---- system.memo.list ----

  /**
   * The list query: the payload's filters, none when it holds none, with
   * the caller's own id as `user_id` when none is given and the caller is
   * not an administrator.
   */
  function ListParams(req: Request): (p: MemoQueryParams)
    ensures var q := DecodeQuery(req.payload).GetOr(NO_FILTER);
            p == q.(userId := p.userId)
    ensures var q := DecodeQuery(req.payload).GetOr(NO_FILTER);
            q.userId.Some? ==> p.userId == q.userId
    ensures var q := DecodeQuery(req.payload).GetOr(NO_FILTER);
            q.userId.None? ==>
              (p.userId.Some? <==> req.userContext.Some? && !User.HasPermission(req.userContext.value, ADMIN)) &&
              (p.userId.Some? ==> p.userId.value == req.userContext.value.user.id.id)
  {
    var q := DecodeQuery(req.payload).GetOr(NO_FILTER);
    if q.userId.None? && req.userContext.Some? && !User.HasPermission(req.userContext.value, ADMIN) then
      q.(userId := Some(req.userContext.value.user.id.id))
    else q
  }

  function ListReply(records: seq<MemoRecord>): Outgoing
  {
    Outgoing(None, LIST_REPLY, Json.JObj(map["memos" := Json.JArr(RecordsJson(records))]), None)
  }

  /**
   * The effect of `system.memo.list` on the outbox: nothing when the query
   * fails on an offset without a limit, otherwise the reply with the records
   * the query answers.
   */
  twostate predicate Listed(req: Request, s: MemoStorage.Storage, out: Outbox, codecs: Codecs)
    reads s, out
  {
    var p := ListParams(req);
    if p.limit.None? && p.offset.Some? then out.sent == old(out.sent)
    else out.sent == old(out.sent) + [ListReply(MemoQuery.Records(MemoQuery.Answer(s.memos, p), codecs.parseTags))]
  }

  /**
   * `system.memo.list`: replies with the memos the query answers; when the
   * query fails (an offset without a limit) the error is only logged and
   * nothing is sent.
   */
  method HandleList(req: Request, s: MemoStorage.Storage, out: Outbox, codecs: Codecs)
    modifies out
    ensures Listed(req, s, out, codecs)
  {
    var result := s.QueryMemos(ListParams(req), codecs.parseTags);
    if result.Ok? {
      out.Send(ListReply(result.value));
    }
  }

  /** A caller who is not an administrator and names no user sees only their own memos. */
  lemma ListsOwnMemos(rows: seq<MemoRow>, req: Request, ctx: User.UserContext)
    requires req.userContext == Some(ctx) && !User.HasPermission(ctx, ADMIN)
    requires DecodeQuery(req.payload).GetOr(NO_FILTER).userId.None?
    ensures forall row :: row in MemoQuery.Answer(rows, ListParams(req)) ==> row in rows && row.userId == Some(ctx.user.id.id)
  {
    MemoQuery.AnswerSound(rows, ListParams(req));
  }

  /**
   * An administrator with an empty request gets a reply (the query has no
   * pagination, so it does not fail) listing every memo that is not deleted.
   */
  lemma AdminListsAll(rows: seq<MemoRow>, req: Request, ctx: User.UserContext)
    requires req.userContext == Some(ctx) && User.HasPermission(ctx, ADMIN)
    requires req.payload == Json.JObj(map[])
    ensures ListParams(req).limit.None? && ListParams(req).offset.None?
    ensures forall row :: row in rows && row.status != DELETED ==> row in MemoQuery.Answer(rows, ListParams(req))
  {
    var p := ListParams(req);
    assert p == NO_FILTER;
    MemoQuery.AnswerComplete(rows, p);
    forall row | row in rows && row.status != DELETED
      ensures row in MemoQuery.Answer(rows, p)
    {
      assert MemoQuery.Selected(p, row);
      assert row in multiset(MemoQuery.SelectRows(rows, p));
    }
  }

  // ---- system.schedule.add ----

  /** The message a schedule request asks for, when it decodes. */
  function ScheduledMessage(payload: Json.Value, decodeMessage: Json.Value -> Option<CronScheduler.Trigger>): (r: Option<CronScheduler.Trigger>)
    ensures r.Some? ==> Json.Get(payload, "message").Some? && r == decodeMessage(Json.Get(payload, "message").value)
    ensures Json.Get(payload, "message").None? ==> r.None?
  {
    match Json.Get(payload, "message")
    case None => None
    case Some(m) => decodeMessage(m)
  }

  function ScheduledReply(uuid: string, cron: string): Outgoing
  {
    Outgoing(None, SCHEDULE_ADDED, Json.JObj(map["uuid" := Json.JStr(uuid), "cron" := Json.JStr(cron)]), None)
  }

  /**
   * The effect of `system.schedule.add`: one new job under the next uuid and
   * the reply naming it when the cron, the message and the scheduler's
   * acceptance are all there; otherwise nothing.
   */
  twostate predicate ScheduleAdded(req: Request, sched: CronScheduler.JobScheduler, out: Outbox,
                                   decodeMessage: Json.Value -> Option<CronScheduler.Trigger>)
    reads sched, out
  {
    var cron := Json.GetStr(req.payload, "cron");
    var m := ScheduledMessage(req.payload, decodeMessage);
    if req.messageType == SCHEDULE_ADD && cron.Some? && m.Some? && sched.accepts(cron.value) then
      && sched.created == old(sched.created) + 1
      && sched.jobs == old(sched.jobs) + [CronScheduler.Job(sched.uuidOf(old(sched.created)), cron.value, m.value)]
      && out.sent == old(out.sent) + [ScheduledReply(sched.uuidOf(old(sched.created)), cron.value)]
    else
      sched.jobs == old(sched.jobs) && sched.created == old(sched.created) && out.sent == old(out.sent)
  }

  /**
   * `system.schedule.add`: schedules the payload's `message` on its `cron`
   * and replies with the job's uuid; a missing field, an undecodable message
   * or a cron the scheduler refuses changes nothing.
   */
  method HandleSchedule(req: Request, sched: CronScheduler.JobScheduler, out: Outbox,
                        decodeMessage: Json.Value -> Option<CronScheduler.Trigger>)
    modifies sched, out
    ensures ScheduleAdded(req, sched, out, decodeMessage)
  {
    if req.messageType != SCHEDULE_ADD {
      return;
    }
    var cron := Json.GetStr(req.payload, "cron");
    if cron.None? {
      return;
    }
    var m := ScheduledMessage(req.payload, decodeMessage);
    if m.None? {
      return;
    }
    var r := sched.AddCronJob(cron.value, m.value);
    if r.Ok? {
      out.Send(ScheduledReply(r.value, cron.value));
    }
  }

  // ---- system.user.resolve / system.user.grant_role ----

  /** The direct reply carrying a resolved context: only a plugin sender gets one, correlated by the request's id. */
  function ResolvedReplies(req: Request, ctx: User.UserContext, codecs: Codecs): (r: seq<Outgoing>)
    ensures |r| == if req.source.Plugin? then 1 else 0
    ensures r != [] ==> r[0].target == Some(req.source.name) && r[0].messageType == RESOLVED &&
                        r[0].payload == codecs.contextJson(ctx) && r[0].messageId == Some(req.messageId.GetOr(""))
  {
    match req.source
    case Plugin(sender) => [Outgoing(Some(sender), RESOLVED, codecs.contextJson(ctx), Some(req.messageId.GetOr("")))]
    case _ => []
  }

  /** A user with no role grant yet, granted one role, holds exactly that role. */
  lemma OnlyRole(grants: seq<MemoStorage.RoleGrant>, userId: string, role: string)
    requires forall g :: g in grants ==> g.userId != userId
    ensures MemoStorage.RolesOf(grants + [MemoStorage.RoleGrant(userId, role)], userId) == [role]
  {
    var all := grants + [MemoStorage.RoleGrant(userId, role)];
    assert all[..|all| - 1] == grants;
    NoRoles(grants, userId);
  }

  lemma {:induction false} NoRoles(grants: seq<MemoStorage.RoleGrant>, userId: string)
    requires forall g :: g in grants ==> g.userId != userId
    ensures MemoStorage.RolesOf(grants, userId) == []
    decreases |grants|
  {
    if grants != [] {
      var front := grants[..|grants| - 1];
      assert forall g :: g in front ==> g in grants;
      NoRoles(front, userId);
    }
  }

  /**
   * The effect of `system.user.resolve`: nothing without both platform
   * fields; a known user's context sent back; an unknown user created under
   * `uuid` with the role "user" and that context sent back, unless `uuid` is
   * taken, which changes nothing. Memos and role permissions never change.
   */
  twostate predicate Resolved(req: Request, s: MemoStorage.Storage, out: Outbox, codecs: Codecs, uuid: string, now: int)
    reads s, out
  {
    var platform := Json.GetStr(req.payload, "platform");
    var uid := Json.GetStr(req.payload, "platform_user_id");
    && s.memos == old(s.memos) && s.nextId == old(s.nextId) && s.rolePermissions == old(s.rolePermissions)
    && (platform.None? || uid.None? ==>
          s.users == old(s.users) && s.userRoles == old(s.userRoles) && out.sent == old(out.sent))
    && (platform.Some? && uid.Some? && MemoStorage.FindByPlatform(old(s.users), platform.value, uid.value).Some? ==>
          var known := MemoStorage.FindByPlatform(old(s.users), platform.value, uid.value).value;
          var ctx := MemoStorage.ContextFor(s.users, s.userRoles, s.rolePermissions, known.id);
          && s.users == old(s.users) && s.userRoles == old(s.userRoles)
          && ctx.Some? && ctx.value.user == MemoStorage.InfoOf(known)
          && out.sent == old(out.sent) + ResolvedReplies(req, ctx.value, codecs))
    && (platform.Some? && uid.Some? && MemoStorage.FindByPlatform(old(s.users), platform.value, uid.value).None? ==>
          if MemoStorage.FindById(old(s.users), uuid).Some? then
            s.users == old(s.users) && s.userRoles == old(s.userRoles) && out.sent == old(out.sent)
          else
            var name := Json.GetStr(req.payload, "name").GetOr(UNKNOWN_NAME);
            var ctx := MemoStorage.ContextFor(s.users, s.userRoles, s.rolePermissions, uuid);
            && s.users == old(s.users) + [MemoStorage.UserRow(uuid, name, platform.value, uid.value, now)]
            && s.userRoles == old(s.userRoles) + [MemoStorage.RoleGrant(uuid, DEFAULT_ROLE)]
            && ctx.Some? && ctx.value.roles == [DEFAULT_ROLE]
            && ctx.value.user == User.UserInfo(User.UserId(uuid), name, User.PlatformId(platform.value), User.PlatformUserId(uid.value))
            && out.sent == old(out.sent) + ResolvedReplies(req, ctx.value, codecs))
  }

  /**
   * `system.user.resolve`: the context of the user known under the payload's
   * platform and platform user id; an unknown user is first created under
   * `uuid` (name "Unknown" when none is given) with the single role "user".
   */
  method HandleResolve(req: Request, s: MemoStorage.Storage, out: Outbox, codecs: Codecs, uuid: string, now: int)
    requires s.Valid()
    modifies s, out
    ensures s.Valid()
    ensures Resolved(req, s, out, codecs, uuid, now)
  {
    var platform := Json.GetStr(req.payload, "platform");
    if platform.None? {
      return;
    }
    var uid := Json.GetStr(req.payload, "platform_user_id");
    if uid.None? {
      return;
    }
    var name := Json.GetStr(req.payload, "name").GetOr(UNKNOWN_NAME);
    var found := s.GetUserByPlatform(platform.value, uid.value);
    if found.Some? {
      ghost var known := MemoStorage.FindByPlatform(s.users, platform.value, uid.value).value;
      var ctx := s.GetUserContext(found.value.id.id);
      assert MemoStorage.FindById(s.users, known.id).Some?;
      if ctx.Some? {
        SendAll(out, ResolvedReplies(req, ctx.value, codecs));
      }
      return;
    }
    CreateAndResolve(req, s, out, codecs, name, platform.value, uid.value, uuid, now);
  }

  /** The unknown-user half of `system.user.resolve`: create under `uuid`, grant "user", reply with the context. */
  method CreateAndResolve(req: Request, s: MemoStorage.Storage, out: Outbox, codecs: Codecs,
                          name: string, platform: string, uid: string, uuid: string, now: int)
    requires s.Valid()
    requires MemoStorage.FindByPlatform(s.users, platform, uid).None?
    modifies s, out
    ensures s.Valid()
    ensures s.memos == old(s.memos) && s.nextId == old(s.nextId) && s.rolePermissions == old(s.rolePermissions)
    ensures if MemoStorage.FindById(old(s.users), uuid).Some? then
              s.users == old(s.users) && s.userRoles == old(s.userRoles) && out.sent == old(out.sent)
            else
              var ctx := MemoStorage.ContextFor(s.users, s.userRoles, s.rolePermissions, uuid);
              && s.users == old(s.users) + [MemoStorage.UserRow(uuid, name, platform, uid, now)]
              && s.userRoles == old(s.userRoles) + [MemoStorage.RoleGrant(uuid, DEFAULT_ROLE)]
              && ctx.Some? && ctx.value.roles == [DEFAULT_ROLE]
              && ctx.value.user == User.UserInfo(User.UserId(uuid), name, User.PlatformId(platform), User.PlatformUserId(uid))
              && out.sent == old(out.sent) + ResolvedReplies(req, ctx.value, codecs)
  {
    var created := s.CreateUser(name, platform, uid, uuid, now);
    if created.Err? {
      return;
    }
    ghost var roles0 := s.userRoles;
    var granted := s.AddRoleToUser(uuid, DEFAULT_ROLE);
    OnlyRole(roles0, uuid, DEFAULT_ROLE);
    var ctx := s.GetUserContext(uuid);
    if ctx.Some? {
      SendAll(out, ResolvedReplies(req, ctx.value, codecs));
    }
  }

  /** Sends 0 or more messages in order. */
  method SendAll(out: Outbox, ms: seq<Outgoing>)
    modifies out
    ensures out.sent == old(out.sent) + ms
  {
    for k := 0 to |ms|
      invariant out.sent == old(out.sent) + ms[..k]
    {
      assert ms[..k + 1] == ms[..k] + [ms[k]];
      out.Send(ms[k]);
    }
  }

  /**
   * The effect of `system.user.grant_role` on the store: the role granted to
   * the payload's user when both fields are there, the user exists and does
   * not hold it yet; nothing else changes.
   */
  twostate predicate RoleGranted(req: Request, s: MemoStorage.Storage)
    reads s
  {
    var userId := Json.GetStr(req.payload, "user_id");
    var role := Json.GetStr(req.payload, "role");
    && s.memos == old(s.memos) && s.nextId == old(s.nextId) && s.users == old(s.users) && s.rolePermissions == old(s.rolePermissions)
    && if userId.Some? && role.Some? && MemoStorage.FindById(s.users, userId.value).Some? &&
          MemoStorage.RoleGrant(userId.value, role.value) !in old(s.userRoles)
       then s.userRoles == old(s.userRoles) + [MemoStorage.RoleGrant(userId.value, role.value)]
       else s.userRoles == old(s.userRoles)
  }

  /**
   * `system.user.grant_role`: grants the payload's role to the payload's
   * user. Whether the caller holds "system:admin" is computed but not
   * consulted: the outcome is the same for every caller.
   */
  method HandleGrantRole(req: Request, s: MemoStorage.Storage)
    requires s.Valid()
    modifies s
    ensures s.Valid()
    ensures RoleGranted(req, s)
  {
    var userId := Json.GetStr(req.payload, "user_id");
    var role := Json.GetStr(req.payload, "role");
    if userId.Some? && role.Some? {
      var _ := s.AddRoleToUser(userId.value, role.value);
    }
  }

  // ---- routing ----

  /**
   * One message through the plugin's select loop: each subscribed type to its
   * handler; `system.memo.update` and everything else reach no handler.
   */
  method HandleMessage(req: Request, s: MemoStorage.Storage, sched: CronScheduler.JobScheduler, out: Outbox,
                       config: CoreConfig.CoreSystemConfig, codecs: Codecs, uuid: string, now: int)
    returns (panicked: bool)
    requires s.Valid()
    modifies s, sched, out
    ensures s.Valid()
    ensures panicked ==> req.messageType == COMPLETE || req.messageType == DELETE
    ensures req.messageType == CREATE ==> Created(req, s, sched, out, config, codecs, now)
    ensures req.messageType == COMPLETE || req.messageType == DELETE ==> Actioned(req, s, sched, out, codecs, panicked)
    ensures req.messageType == LIST ==> Listed(req, s, out, codecs) && StoreUnchanged(s) && SchedulerUnchanged(sched)
    ensures req.messageType == SCHEDULE_ADD ==> ScheduleAdded(req, sched, out, codecs.decodeMessage) && StoreUnchanged(s)
    ensures req.messageType == RESOLVE ==> Resolved(req, s, out, codecs, uuid, now) && SchedulerUnchanged(sched)
    ensures req.messageType == GRANT_ROLE ==> RoleGranted(req, s) && SchedulerUnchanged(sched) && out.sent == old(out.sent)
    ensures !(req.messageType in {CREATE, COMPLETE, DELETE, LIST, SCHEDULE_ADD, RESOLVE, GRANT_ROLE}) ==>
              StoreUnchanged(s) && SchedulerUnchanged(sched) && out.sent == old(out.sent)
  {
    panicked := false;
    var t := req.messageType;
    if t == CREATE {
      HandleCreate(req, s, sched, out, config, codecs, now);
    } else if t == COMPLETE || t == DELETE {
      panicked := HandleAction(req, s, sched, out, codecs);
    } else if t == LIST {
      HandleList(req, s, out, codecs);
    } else if t == SCHEDULE_ADD {
      HandleSchedule(req, sched, out, codecs.decodeMessage);
    } else if t == RESOLVE {
      HandleResolve(req, s, out, codecs, uuid, now);
    } else if t == GRANT_ROLE {
      HandleGrantRole(req, s);
    }
  }

  // ---- the hourly expiry task ----

  /** One tick of the expiry task: mark the overdue memos expired, then delete those expired past the configured days. */
  method ExpiryTick(s: MemoStorage.Storage, config: CoreConfig.CoreSystemConfig, now: int) returns (marked: nat, recycled: nat)
    requires s.Valid()
    modifies s
    ensures s.Valid()
    ensures s.memos == MemoStorage.Retain(MemoStorage.ExpireAll(old(s.memos), now), MemoStorage.Cutoff(config.memos.expirationDays, now))
    ensures marked == MemoStorage.CountExpirable(old(s.memos), now)
    ensures recycled == |old(s.memos)| - |s.memos|
    ensures s.nextId == old(s.nextId) && s.users == old(s.users) && s.userRoles == old(s.userRoles) && s.rolePermissions == old(s.rolePermissions)
  {
    marked := s.MarkExpiredMemos(now);
    recycled := s.RecycleExpiredMemos(config.memos.expirationDays, now);
  }

  /** A table with no expirable row counts none. */
  lemma {:induction false} NoneExpirable(rows: seq<MemoRow>, now: int)
    requires forall row :: row in rows ==> !MemoStorage.Expirable(row, now)
    ensures MemoStorage.CountExpirable(rows, now) == 0
    decreases |rows|
  {
    if rows != [] {
      var front := rows[..|rows| - 1];
      assert forall row :: row in front ==> row in rows;
      NoneExpirable(front, now);
    }
  }

  /** After a tick nothing overdue is left pending. */
  lemma TickLeavesNothingDue(rows: seq<MemoRow>, now: int, days: nat)
    ensures MemoStorage.CountExpirable(MemoStorage.Retain(MemoStorage.ExpireAll(rows, now), MemoStorage.Cutoff(days, now)), now) == 0
  {
    var e := MemoStorage.ExpireAll(rows, now);
    forall row | row in e ensures !MemoStorage.Expirable(row, now)
    {
      var i :| 0 <= i < |e| && e[i] == row;
    }
    NoneExpirable(MemoStorage.Retain(e, MemoStorage.Cutoff(days, now)), now);
  }
}
