/**
 * `Storage` of src/plugins/core_system/storage/mod.rs: the memos, users,
 * user_roles and role_permissions tables held as sequences of rows and
 * changed in place by the INSERT, UPDATE and DELETE statements.
 */
module MemoStorage {
  import opened Wrappers
  import opened MemoTypes
  import MemoQuery
  import User

  const SECONDS_PER_DAY: int := 24 * 3600

  /** One row of the `users` table. */
  datatype UserRow = UserRow(id: string, name: string, platform: string, platformUserId: string, createdAt: int)
  /** One row of `user_roles`, primary key (user_id, role). */
  datatype RoleGrant = RoleGrant(userId: string, role: string)
  /** One row of `role_permissions`, primary key (role, permission). */
  datatype PermissionGrant = PermissionGrant(role: string, permission: string)

  datatype StorageError =
    | NothingToSet            // `UPDATE memos SET  WHERE ...` is not valid SQL
    | DuplicateKey            // a primary key already present
    | UnknownUser             // the foreign key of user_roles
    | Sql(error: MemoQuery.SqlError)

  /** The result of `get_memo_metadata`: no row, a NULL column (on which reading it as text panics), or the text. */
  datatype MetadataRead = NoMemo | NullMetadata | Metadata(text: string)

  /** The fields `update_memo` may set; `None` leaves the column as it is. */
  datatype MemoPatch = MemoPatch(
    content: Option<string>,
    remindAt: Option<int>,
    cronPattern: Option<string>,
    tags: Option<string>,
    todoDate: Option<int>,
    priority: Option<int>)

  predicate EmptyPatch(patch: MemoPatch)
  {
    patch.content.None? && patch.remindAt.None? && patch.cronPattern.None? &&
    patch.tags.None? && patch.todoDate.None? && patch.priority.None?
  }

  function Patched(row: MemoRow, patch: MemoPatch): MemoRow
  {
    row.(content := patch.content.GetOr(row.content),
         remindAt := if patch.remindAt.Some? then patch.remindAt else row.remindAt,
         cronPattern := if patch.cronPattern.Some? then patch.cronPattern else row.cronPattern,
         tags := if patch.tags.Some? then patch.tags else row.tags,
         todoDate := if patch.todoDate.Some? then patch.todoDate else row.todoDate,
         priority := patch.priority.GetOr(row.priority))
  }

  /** Ids in table order are strictly increasing, as AUTOINCREMENT hands them out. */
  ghost predicate IdsIncreasing(rows: seq<MemoRow>)
  {
    forall i, j :: 0 <= i < j < |rows| ==> rows[i].id < rows[j].id
  }

  // ---- mark_expired_memos ----

  /** `status = 'pending' AND todo_date IS NOT NULL AND todo_date < now` */
  predicate Expirable(row: MemoRow, now: int)
  {
    DueForExpiry(row.status, row.todoDate, now)
  }

  function Expire(row: MemoRow, now: int): MemoRow
  {
    if Expirable(row, now) then row.(status := EXPIRED) else row
  }

  /** The table after `mark_expired_memos`: expirable rows expired, all others as they were. */
  function ExpireAll(rows: seq<MemoRow>, now: int): (r: seq<MemoRow>)
    ensures |r| == |rows|
    ensures forall i :: 0 <= i < |rows| ==> r[i] == Expire(rows[i], now)
  {
    if rows == [] then [] else ExpireAll(rows[..|rows| - 1], now) + [Expire(rows[|rows| - 1], now)]
  }

  function CountExpirable(rows: seq<MemoRow>, now: int): (n: nat)
    ensures n <= |rows|
  {
    if rows == [] then 0
    else CountExpirable(rows[..|rows| - 1], now) + (if Expirable(rows[|rows| - 1], now) then 1 else 0)
  }

  /** Marking is idempotent: a second run at the same time finds nothing more to expire. */
  lemma {:induction false} ExpireAllIdempotent(rows: seq<MemoRow>, now: int)
    ensures CountExpirable(ExpireAll(rows, now), now) == 0
    ensures ExpireAll(ExpireAll(rows, now), now) == ExpireAll(rows, now)
    decreases |rows|
  {
    if rows != [] {
      var front := rows[..|rows| - 1];
      ExpireAllIdempotent(front, now);
      var e := ExpireAll(rows, now);
      assert e[..|e| - 1] == ExpireAll(front, now);
    }
  }

  /** Only the status of a pending row changes, and only to expired. */
  lemma ExpireChangesOnlyStatus(row: MemoRow, now: int)
    ensures Expire(row, now) == row.(status := Expire(row, now).status)
    ensures Expire(row, now) != row ==> row.status == PENDING && Expire(row, now).status == EXPIRED
  {
  }

  // ---- recycle_expired_memos ----

  /** `now - days * 24 * 3600` */
  function Cutoff(days: nat, now: int): int
  {
    now - days * SECONDS_PER_DAY
  }

  /** `status = 'expired' AND todo_date IS NOT NULL AND todo_date < cutoff` */
  predicate Recyclable(row: MemoRow, cutoff: int)
  {
    row.status == EXPIRED && row.todoDate.Some? && row.todoDate.value < cutoff
  }

  /** The table after the DELETE: the rows that are not recyclable, in table order. */
  function Retain(rows: seq<MemoRow>, cutoff: int): (r: seq<MemoRow>)
    ensures forall row :: row in r <==> row in rows && !Recyclable(row, cutoff)
    ensures |r| <= |rows|
  {
    if rows == [] then []
    else
      var front := rows[..|rows| - 1];
      var last := rows[|rows| - 1];
      assert rows == front + [last];
      if Recyclable(last, cutoff) then Retain(front, cutoff) else Retain(front, cutoff) + [last]
  }

  lemma {:induction false} RetainIncreasing(rows: seq<MemoRow>, cutoff: int)
    requires IdsIncreasing(rows)
    ensures IdsIncreasing(Retain(rows, cutoff))
    decreases |rows|
  {
    if rows != [] {
      var front := rows[..|rows| - 1];
      var last := rows[|rows| - 1];
      RetainIncreasing(front, cutoff);
      var kept := Retain(front, cutoff);
      forall x | x in kept ensures x.id < last.id
      {
        var i :| 0 <= i < |front| && front[i] == x;
        assert rows[i] == x;
      }
    }
  }

  /** The `DELETE` scan: the rows it leaves, in table order. */
  method KeptRows(rows: seq<MemoRow>, cutoff: int) returns (kept: seq<MemoRow>)
    ensures kept == Retain(rows, cutoff)
  {
    kept := [];
    for i := 0 to |rows|
      invariant kept == Retain(rows[..i], cutoff)
    {
      assert rows[..i + 1][..i] == rows[..i];
      if !Recyclable(rows[i], cutoff) {
        kept := kept + [rows[i]];
      }
    }
    assert rows[..|rows|] == rows;
  }

  lemma RetainKeys(rows: seq<MemoRow>, cutoff: int, nextId: int)
    requires IdsIncreasing(rows) && forall i :: 0 <= i < |rows| ==> 0 < rows[i].id < nextId
    ensures IdsIncreasing(Retain(rows, cutoff))
    ensures forall i :: 0 <= i < |Retain(rows, cutoff)| ==> 0 < Retain(rows, cutoff)[i].id < nextId
  {
    RetainIncreasing(rows, cutoff);
    var kept := Retain(rows, cutoff);
    forall k | 0 <= k < |kept| ensures 0 < kept[k].id < nextId
    {
      assert kept[k] in rows;
    }
  }

  /** A row is deleted only when it expired more than `days` days before `now`; a pending row never is. */
  lemma RecycleKeepsLive(rows: seq<MemoRow>, days: nat, now: int)
    ensures forall row :: row in rows && row.status != EXPIRED ==> row in Retain(rows, Cutoff(days, now))
    ensures forall row :: row in rows && row.todoDate.Some? && row.todoDate.value >= now - days * SECONDS_PER_DAY
              ==> row in Retain(rows, Cutoff(days, now))
  {
  }

  // ---- get_active_reminders ----

  predicate ActiveReminder(row: MemoRow)
  {
    Schedulable(row.status, row.remindAt, row.cronPattern)
  }

  function ReminderOf(row: MemoRow): Reminder
  {
    Reminder(row.id, row.content, row.remindAt, row.cronPattern, row.metadata, row.tags)
  }

  /** The reminders read back at start-up: one per pending row with a remind time or a cron pattern. */
  function Reminders(rows: seq<MemoRow>): (r: seq<Reminder>)
    ensures forall x :: x in r <==> exists row :: row in rows && ActiveReminder(row) && x == ReminderOf(row)
    ensures |r| <= |rows|
  {
    if rows == [] then []
    else
      var front := rows[..|rows| - 1];
      var last := rows[|rows| - 1];
      assert rows == front + [last];
      if ActiveReminder(last) then Reminders(front) + [ReminderOf(last)] else Reminders(front)
  }

  // ---- users ----

  function InfoOf(u: UserRow): (info: User.UserInfo)
    ensures info.id.id == u.id && info.name == u.name
    ensures info.platform.id == u.platform && info.platformUserId.id == u.platformUserId
  {
    User.UserInfo(User.UserId(u.id), u.name, User.PlatformId(u.platform), User.PlatformUserId(u.platformUserId))
  }

  /** The first user row satisfying `platform = ? AND platform_user_id = ?`. */
  function FindByPlatform(users: seq<UserRow>, platform: string, platformUserId: string): (r: Option<UserRow>)
    ensures r.None? <==> forall u :: u in users ==> !(u.platform == platform && u.platformUserId == platformUserId)
    ensures r.Some? ==> r.value in users && r.value.platform == platform && r.value.platformUserId == platformUserId
  {
    if users == [] then None
    else if users[0].platform == platform && users[0].platformUserId == platformUserId then Some(users[0])
    else FindByPlatform(users[1..], platform, platformUserId)
  }

  function FindById(users: seq<UserRow>, id: string): (r: Option<UserRow>)
    ensures r.None? <==> forall u :: u in users ==> u.id != id
    ensures r.Some? ==> r.value in users && r.value.id == id
  {
    if users == [] then None
    else if users[0].id == id then Some(users[0])
    else FindById(users[1..], id)
  }

  /** `SELECT role FROM user_roles WHERE user_id = ?`, in table order. */
  function RolesOf(grants: seq<RoleGrant>, userId: string): (r: seq<string>)
    ensures forall role :: role in r <==> RoleGrant(userId, role) in grants
  {
    if grants == [] then []
    else
      var front := grants[..|grants| - 1];
      var last := grants[|grants| - 1];
      assert grants == front + [last];
      if last.userId == userId then RolesOf(front, userId) + [last.role] else RolesOf(front, userId)
  }

  /** The union of the permissions granted to any of `roles`. */
  ghost function PermissionsOf(grants: seq<PermissionGrant>, roles: seq<string>): set<User.Permission>
  {
    set g | g in grants && g.role in roles :: User.Permission(g.permission)
  }

  /** The context `get_user_context` builds from the three user tables. */
  ghost function ContextFor(users: seq<UserRow>, userRoles: seq<RoleGrant>, rolePermissions: seq<PermissionGrant>,
                            userId: string): Option<User.UserContext>
  {
    match FindById(users, userId)
    case None => None
    case Some(u) =>
      var roles := RolesOf(userRoles, userId);
      Some(User.UserContext(InfoOf(u), roles, PermissionsOf(rolePermissions, roles), None))
  }

  class Storage {
    var memos: seq<MemoRow>
    /** The AUTOINCREMENT counter: one more than the largest id ever handed out. */
    var nextId: int
    var users: seq<UserRow>
    var userRoles: seq<RoleGrant>
    var rolePermissions: seq<PermissionGrant>

    /** The tables' keys: memo ids increasing and below the counter, user ids unique, grant rows distinct, grants refer to users. */
    ghost predicate Valid()
      reads this
    {
      && IdsIncreasing(memos)
      && (forall i :: 0 <= i < |memos| ==> 0 < memos[i].id < nextId)
      && 0 < nextId
      && (forall i, j :: 0 <= i < j < |users| ==> users[i].id != users[j].id)
      && (forall i, j :: 0 <= i < j < |userRoles| ==> userRoles[i] != userRoles[j])
      && (forall i, j :: 0 <= i < j < |rolePermissions| ==> rolePermissions[i] != rolePermissions[j])
      && (forall g :: g in userRoles ==> FindById(users, g.userId).Some?)
    }

    /** A freshly created database: empty tables. */
    constructor ()
      ensures Valid()
      ensures memos == [] && users == [] && userRoles == [] && rolePermissions == [] && nextId == 1
    {
      memos := [];
      nextId := 1;
      users := [];
      userRoles := [];
      rolePermissions := [];
    }

    /** `add_memo`: inserts a pending row created at `now`, priority defaulting to Normal, and returns its fresh id. */
    method AddMemo(content: string, remindAt: Option<int>, cronPattern: Option<string>, tags: Option<string>,
                   todoDate: Option<int>, priority: Option<int>, userId: Option<string>, now: int) returns (id: int)
      requires Valid()
      modifies this
      ensures Valid()
      ensures id == old(nextId) && nextId == id + 1
      ensures forall row :: row in old(memos) ==> row.id != id
      ensures memos == old(memos) + [MemoRow(id, content, now, remindAt, cronPattern, PENDING, None, tags,
                                             todoDate, priority.GetOr(DEFAULT_PRIORITY), userId)]
      ensures users == old(users) && userRoles == old(userRoles) && rolePermissions == old(rolePermissions)
    {
      id := nextId;
      memos := memos + [MemoRow(id, content, now, remindAt, cronPattern, PENDING, None, tags,
                                todoDate, priority.GetOr(DEFAULT_PRIORITY), userId)];
      nextId := nextId + 1;
    }

    /**
     * `query_memos`: builds the statement, runs it over the table, orders and
     * paginates the selected rows and converts them to records. A statement
     * with an OFFSET but no LIMIT does not parse, and the call fails.
     */
    method QueryMemos(p: MemoQueryParams, parseTags: string -> Option<seq<string>>) returns (r: Result<seq<MemoRecord>, StorageError>)
      ensures r.Err? <==> p.limit.None? && p.offset.Some?
      ensures r.Err? ==> r.error == Sql(MemoQuery.SyntaxError("OFFSET"))
      ensures r.Ok? ==> r.value == MemoQuery.Records(MemoQuery.Answer(memos, p), parseTags)
    {
      var q := MemoQuery.BuildQuery(p);
      var selected: seq<MemoRow> := [];
      for i := 0 to |memos|
        invariant selected == MemoQuery.SelectRows(memos[..i], p)
      {
        assert memos[..i + 1][..i] == memos[..i];
        if MemoQuery.AllHold(q.conditions, memos[i]) {
          selected := selected + [memos[i]];
        }
      }
      assert memos[..|memos|] == memos;
      var page := MemoQuery.PaginateAsWritten(MemoQuery.SortRows(selected), q.limit, q.offset);
      if page.Err? {
        return Err(Sql(page.error));
      }
      r := Ok(MemoQuery.Records(page.value, parseTags));
    }

    /** `mark_expired_memos`: expires exactly the expirable rows and returns their number. */
    method MarkExpiredMemos(now: int) returns (count: nat)
      requires Valid()
      modifies this
      ensures Valid()
      ensures memos == ExpireAll(old(memos), now)
      ensures count == CountExpirable(old(memos), now)
      ensures nextId == old(nextId) && users == old(users) && userRoles == old(userRoles) && rolePermissions == old(rolePermissions)
    {
      ghost var before := memos;
      count := 0;
      for i := 0 to |memos|
        invariant |memos| == |before|
        invariant forall k :: 0 <= k < i ==> memos[k] == Expire(before[k], now)
        invariant forall k :: i <= k < |memos| ==> memos[k] == before[k]
        invariant count == CountExpirable(before[..i], now)
        invariant nextId == old(nextId) && users == old(users) && userRoles == old(userRoles) && rolePermissions == old(rolePermissions)
      {
        assert before[..i + 1][..i] == before[..i];
        if Expirable(memos[i], now) {
          memos := memos[i := memos[i].(status := EXPIRED)];
          count := count + 1;
        }
      }
      assert before[..|before|] == before;
    }

    /** `recycle_expired_memos(days)`: deletes exactly the rows that expired before the cutoff and returns their number. */
    method RecycleExpiredMemos(days: nat, now: int) returns (count: nat)
      requires Valid()
      modifies this
      ensures Valid()
      ensures memos == Retain(old(memos), Cutoff(days, now))
      ensures count == |old(memos)| - |memos|
      ensures nextId == old(nextId) && users == old(users) && userRoles == old(userRoles) && rolePermissions == old(rolePermissions)
    {
      var cutoff := Cutoff(days, now);
      var kept := KeptRows(memos, cutoff);
      RetainKeys(memos, cutoff, nextId);
      count := |memos| - |kept|;
      memos := kept;
    }

    /** `get_active_reminders` */
    function ActiveReminders(): (r: seq<Reminder>)
      reads this
      ensures forall x :: x in r <==> exists row :: row in memos && ActiveReminder(row) && x == ReminderOf(row)
    {
      Reminders(memos)
    }

    /** Applies `f`, which keeps ids, to every row with the given id (at most one under `Valid`). */
    method UpdateWhere(id: int, f: MemoRow -> MemoRow)
      requires Valid()
      requires forall row :: f(row).id == row.id
      modifies this
      ensures Valid()
      ensures |memos| == |old(memos)|
      ensures forall i :: 0 <= i < |memos| ==> memos[i] == if old(memos)[i].id == id then f(old(memos)[i]) else old(memos)[i]
      ensures nextId == old(nextId) && users == old(users) && userRoles == old(userRoles) && rolePermissions == old(rolePermissions)
    {
      ghost var before := memos;
      for i := 0 to |memos|
        invariant |memos| == |before|
        invariant forall k :: 0 <= k < i ==> memos[k] == if before[k].id == id then f(before[k]) else before[k]
        invariant forall k :: i <= k < |memos| ==> memos[k] == before[k]
        invariant nextId == old(nextId) && users == old(users) && userRoles == old(userRoles) && rolePermissions == old(rolePermissions)
      {
        if memos[i].id == id {
          memos := memos[i := f(memos[i])];
        }
      }
    }

    /**
     * `update_memo`: sets the given columns of the row with that id. With no
     * column given the statement is `UPDATE memos SET  WHERE id = ?`, which
     * SQLite rejects.
     */
    method UpdateMemo(id: int, patch: MemoPatch) returns (r: Result<Unit, StorageError>)
      requires Valid()
      modifies this
      ensures Valid()
      ensures r.Err? <==> EmptyPatch(patch)
      ensures r.Err? ==> r.error == NothingToSet && memos == old(memos)
      ensures r.Ok? ==> |memos| == |old(memos)|
      ensures r.Ok? ==> forall i :: 0 <= i < |memos| ==>
                memos[i] == if old(memos)[i].id == id then Patched(old(memos)[i], patch) else old(memos)[i]
      ensures nextId == old(nextId) && users == old(users) && userRoles == old(userRoles) && rolePermissions == old(rolePermissions)
    {
      var assignments := 0;
      if patch.content.Some? { assignments := assignments + 1; }
      if patch.remindAt.Some? { assignments := assignments + 1; }
      if patch.cronPattern.Some? { assignments := assignments + 1; }
      if patch.tags.Some? { assignments := assignments + 1; }
      if patch.todoDate.Some? { assignments := assignments + 1; }
      if patch.priority.Some? { assignments := assignments + 1; }
      if assignments == 0 {
        return Err(NothingToSet);
      }
      UpdateWhere(id, (row: MemoRow) => Patched(row, patch));
      r := Ok(Unit);
    }

    /** `update_memo_status`: only the status of the row with that id changes. */
    method UpdateMemoStatus(id: int, status: string)
      requires Valid()
      modifies this
      ensures Valid()
      ensures |memos| == |old(memos)|
      ensures forall i :: 0 <= i < |memos| ==> memos[i] == if old(memos)[i].id == id then old(memos)[i].(status := status) else old(memos)[i]
      ensures nextId == old(nextId) && users == old(users) && userRoles == old(userRoles) && rolePermissions == old(rolePermissions)
    {
      UpdateWhere(id, (row: MemoRow) => row.(status := status));
    }

    /** `update_memo_metadata`: only the metadata of the row with that id changes. */
    method UpdateMemoMetadata(id: int, metadata: string)
      requires Valid()
      modifies this
      ensures Valid()
      ensures |memos| == |old(memos)|
      ensures forall i :: 0 <= i < |memos| ==>
        memos[i] == if old(memos)[i].id == id then old(memos)[i].(metadata := Some(metadata)) else old(memos)[i]
      ensures nextId == old(nextId) && users == old(users) && userRoles == old(userRoles) && rolePermissions == old(rolePermissions)
    {
      UpdateWhere(id, (row: MemoRow) => row.(metadata := Some(metadata)));
    }

    /** `get_memo_metadata` */
    function GetMemoMetadata(id: int): (r: MetadataRead)
      reads this
      ensures r.NoMemo? <==> forall row :: row in memos ==> row.id != id
      ensures r.NullMetadata? ==> exists row :: row in memos && row.id == id && row.metadata.None?
      ensures r.Metadata? ==> exists row :: row in memos && row.id == id && row.metadata == Some(r.text)
    {
      MetadataIn(memos, id)
    }

    /** `get_user_by_platform` */
    function GetUserByPlatform(platform: string, platformUserId: string): (r: Option<User.UserInfo>)
      reads this
      ensures r.None? <==> forall u :: u in users ==> !(u.platform == platform && u.platformUserId == platformUserId)
      ensures r.Some? ==> r.value.platform.id == platform && r.value.platformUserId.id == platformUserId &&
                          exists u :: u in users && r.value == InfoOf(u)
    {
      match FindByPlatform(users, platform, platformUserId)
      case None => None
      case Some(u) => Some(InfoOf(u))
    }

    /** `create_user` with the generated uuid and the clock passed in; the uuid is the primary key. */
    method CreateUser(name: string, platform: string, platformUserId: string, uuid: string, now: int)
      returns (r: Result<User.UserInfo, StorageError>)
      requires Valid()
      modifies this
      ensures Valid()
      ensures r.Err? <==> FindById(old(users), uuid).Some?
      ensures r.Err? ==> r.error == DuplicateKey && users == old(users)
      ensures r.Ok? ==> users == old(users) + [UserRow(uuid, name, platform, platformUserId, now)] &&
                        r.value == User.UserInfo(User.UserId(uuid), name, User.PlatformId(platform), User.PlatformUserId(platformUserId))
      ensures memos == old(memos) && nextId == old(nextId) && userRoles == old(userRoles) && rolePermissions == old(rolePermissions)
    {
      if FindById(users, uuid).Some? {
        return Err(DuplicateKey);
      }
      var row := UserRow(uuid, name, platform, platformUserId, now);
      ghost var before := users;
      users := users + [row];
      forall g | g in userRoles ensures FindById(users, g.userId).Some?
      {
        var found := FindById(before, g.userId).value;
        assert found in users;
      }
      r := Ok(InfoOf(row));
    }

    /**
     * `get_user_context`: None for an unknown user; otherwise the user's
     * roles, in table order, and the union of their permissions.
     */
    method GetUserContext(userId: string) returns (r: Option<User.UserContext>)
      ensures r.None? <==> FindById(users, userId).None?
      ensures r.Some? ==> r.value.user == InfoOf(FindById(users, userId).value)
      ensures r.Some? ==> r.value.roles == RolesOf(userRoles, userId)
      ensures r.Some? ==> r.value.permissions == PermissionsOf(rolePermissions, r.value.roles)
      ensures r.Some? ==> r.value.expiresAt.None?
      ensures r == ContextFor(users, userRoles, rolePermissions, userId)
    {
      var found := FindById(users, userId);
      if found.None? {
        return None;
      }
      var roles: seq<string> := [];
      for i := 0 to |userRoles|
        invariant roles == RolesOf(userRoles[..i], userId)
      {
        assert userRoles[..i + 1][..i] == userRoles[..i];
        if userRoles[i].userId == userId {
          roles := roles + [userRoles[i].role];
        }
      }
      assert userRoles[..|userRoles|] == userRoles;
      var permissions: set<User.Permission> := {};
      for i := 0 to |rolePermissions|
        invariant permissions == PermissionsOf(rolePermissions[..i], roles)
      {
        assert rolePermissions[..i + 1] == rolePermissions[..i] + [rolePermissions[i]];
        if rolePermissions[i].role in roles {
          permissions := permissions + {User.Permission(rolePermissions[i].permission)};
        }
      }
      assert rolePermissions[..|rolePermissions|] == rolePermissions;
      var ctx := User.NewContext(InfoOf(found.value));
      r := Some(ctx.(roles := roles, permissions := permissions));
    }

    /** `add_role_to_user`: INSERT OR IGNORE, so granting twice is granting once; the user must exist. */
    method AddRoleToUser(userId: string, role: string) returns (r: Result<Unit, StorageError>)
      requires Valid()
      modifies this
      ensures Valid()
      ensures r.Err? <==> FindById(users, userId).None?
      ensures r.Err? ==> r.error == UnknownUser && userRoles == old(userRoles)
      ensures r.Ok? && RoleGrant(userId, role) in old(userRoles) ==> userRoles == old(userRoles)
      ensures r.Ok? && RoleGrant(userId, role) !in old(userRoles) ==> userRoles == old(userRoles) + [RoleGrant(userId, role)]
      ensures memos == old(memos) && nextId == old(nextId) && users == old(users) && rolePermissions == old(rolePermissions)
    {
      if FindById(users, userId).None? {
        return Err(UnknownUser);
      }
      if RoleGrant(userId, role) !in userRoles {
        userRoles := userRoles + [RoleGrant(userId, role)];
      }
      r := Ok(Unit);
    }

    /** `add_permission_to_role`: INSERT OR IGNORE, so granting twice is granting once. */
    method AddPermissionToRole(role: string, permission: string)
      requires Valid()
      modifies this
      ensures Valid()
      ensures PermissionGrant(role, permission) in old(rolePermissions) ==> rolePermissions == old(rolePermissions)
      ensures PermissionGrant(role, permission) !in old(rolePermissions) ==>
                rolePermissions == old(rolePermissions) + [PermissionGrant(role, permission)]
      ensures memos == old(memos) && nextId == old(nextId) && users == old(users) && userRoles == old(userRoles)
    {
      if PermissionGrant(role, permission) !in rolePermissions {
        rolePermissions := rolePermissions + [PermissionGrant(role, permission)];
      }
    }
  }

  function MetadataIn(rows: seq<MemoRow>, id: int): (r: MetadataRead)
    ensures r.NoMemo? <==> forall row :: row in rows ==> row.id != id
    ensures r.NullMetadata? ==> exists row :: row in rows && row.id == id && row.metadata.None?
    ensures r.Metadata? ==> exists row :: row in rows && row.id == id && row.metadata == Some(r.text)
  {
    if rows == [] then NoMemo
    else if rows[0].id == id then (if rows[0].metadata.None? then NullMetadata else Metadata(rows[0].metadata.value))
    else
      assert forall row :: row in rows ==> row == rows[0] || row in rows[1..];
      MetadataIn(rows[1..], id)
  }

  /** The metadata of a row appended under a new id is what that row holds. */
  lemma {:induction false} MetadataOfAppended(rows: seq<MemoRow>, row: MemoRow)
    requires forall r :: r in rows ==> r.id != row.id
    ensures MetadataIn(rows + [row], row.id) == if row.metadata.None? then NullMetadata else Metadata(row.metadata.value)
    decreases |rows|
  {
    if rows != [] {
      assert (rows + [row])[1..] == rows[1..] + [row];
      assert forall r :: r in rows[1..] ==> r in rows;
      MetadataOfAppended(rows[1..], row);
    }
  }

  /** A new user can be given a role, and their context then lists it and every permission of that role. */
  method GrantThenResolve(s: Storage, name: string, uuid: string, now: int, role: string, permission: string)
    returns (ctx: Option<User.UserContext>)
    requires s.Valid() && FindById(s.users, uuid).None?
    modifies s
    ensures ctx.Some? && role in ctx.value.roles && User.Permission(permission) in ctx.value.permissions
  {
    var created := s.CreateUser(name, "cli", uuid, uuid, now);
    s.AddPermissionToRole(role, permission);
    var granted := s.AddRoleToUser(uuid, role);
    assert FindById(s.users, uuid).Some?;
    ctx := s.GetUserContext(uuid);
    assert role in RolesOf(s.userRoles, uuid);
  }
}
