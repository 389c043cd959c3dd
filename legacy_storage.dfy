/**
 * The older memo store of src/storage/mod.rs: a `memos` table without the
 * priority and owner columns, changed in place by INSERT and UPDATE.
 */
module LegacyStorage {
  import opened Wrappers
  import opened MemoTypes

  /** One row of the older `memos` table. */
  datatype LegacyRow = LegacyRow(
    id: int,
    content: string,
    createdAt: int,
    remindAt: Option<int>,
    cronPattern: Option<string>,
    status: string,
    metadata: Option<string>,
    tags: Option<string>,
    todoDate: Option<int>)

  /** A row of `get_memos_by_tag`: id and content. */
  datatype TaggedMemo = TaggedMemo(id: int, content: string)

  /** The result of `get_memo_metadata`: no row, a NULL column (on which reading it as text panics), or the text. */
  datatype MetadataRead = NoMemo | NullMetadata | Metadata(text: string)

  function Expire(row: LegacyRow, now: int): LegacyRow
  {
    if DueForExpiry(row.status, row.todoDate, now) then row.(status := EXPIRED) else row
  }

  function CountDue(rows: seq<LegacyRow>, now: int): (n: nat)
    ensures n <= |rows|
  {
    if rows == [] then 0
    else
      var last := rows[|rows| - 1];
      CountDue(rows[..|rows| - 1], now) + (if DueForExpiry(last.status, last.todoDate, now) then 1 else 0)
  }

  /** The count that `mark_expired_memos` returns is the number of rows whose status it changed. */
  lemma {:induction false} CountDueIsChanged(rows: seq<LegacyRow>, now: int)
    ensures CountDue(rows, now) == |set i | 0 <= i < |rows| && Expire(rows[i], now) != rows[i]|
    decreases |rows|
  {
    if rows != [] {
      var front := rows[..|rows| - 1];
      var n := |rows| - 1;
      CountDueIsChanged(front, now);
      var before := set i | 0 <= i < |front| && Expire(front[i], now) != front[i];
      var all := set i | 0 <= i < |rows| && Expire(rows[i], now) != rows[i];
      assert forall i :: 0 <= i < n ==> front[i] == rows[i];
      if Expire(rows[n], now) != rows[n] {
        assert all == before + {n};
      } else {
        assert all == before;
      }
    }
  }

  function ReminderOf(row: LegacyRow): Reminder
  {
    Reminder(row.id, row.content, row.remindAt, row.cronPattern, row.metadata, row.tags)
  }

  function Reminders(rows: seq<LegacyRow>): (r: seq<Reminder>)
    ensures forall x :: x in r <==>
      exists row :: row in rows && Schedulable(row.status, row.remindAt, row.cronPattern) && x == ReminderOf(row)
  {
    if rows == [] then []
    else
      var front := rows[..|rows| - 1];
      var last := rows[|rows| - 1];
      assert rows == front + [last];
      if Schedulable(last.status, last.remindAt, last.cronPattern) then Reminders(front) + [ReminderOf(last)]
      else Reminders(front)
  }

  function Tagged(rows: seq<LegacyRow>, tag: string): (r: seq<TaggedMemo>)
    ensures forall x :: x in r <==>
      exists row :: row in rows && row.status == PENDING && TagLike(row.tags, tag) && x == TaggedMemo(row.id, row.content)
  {
    if rows == [] then []
    else
      var front := rows[..|rows| - 1];
      var last := rows[|rows| - 1];
      assert rows == front + [last];
      if last.status == PENDING && TagLike(last.tags, tag) then Tagged(front, tag) + [TaggedMemo(last.id, last.content)]
      else Tagged(front, tag)
  }

  function MetadataIn(rows: seq<LegacyRow>, id: int): (r: MetadataRead)
    ensures r.NoMemo? <==> forall row :: row in rows ==> row.id != id
    ensures r.NullMetadata? ==> exists row :: row in rows && row.id == id && row.metadata.None?
    ensures r.Metadata? ==> exists row :: row in rows && row.id == id && row.metadata == Some(r.text)
  {
    if rows == [] then NoMemo
    else if rows[0].id == id then (if rows[0].metadata.None? then NullMetadata else Metadata(rows[0].metadata.value))
    else
      assert forall row :: row in rows ==> row == rows[0] || row in rows[1..];
      MetadataIn(rows[1..], id)
  }

  class LegacyStorage {
    var memos: seq<LegacyRow>
    /** The AUTOINCREMENT counter. */
    var nextId: int

    ghost predicate Valid()
      reads this
    {
      0 < nextId &&
      (forall i :: 0 <= i < |memos| ==> 0 < memos[i].id < nextId) &&
      (forall i, j :: 0 <= i < j < |memos| ==> memos[i].id < memos[j].id)
    }

    constructor ()
      ensures Valid() && memos == [] && nextId == 1
    {
      memos := [];
      nextId := 1;
    }

    /** `add_memo`: one pending row created at `now`, with a fresh id. */
    method AddMemo(content: string, remindAt: Option<int>, cronPattern: Option<string>, tags: Option<string>,
                   todoDate: Option<int>, now: int) returns (id: int)
      requires Valid()
      modifies this
      ensures Valid()
      ensures id == old(nextId) && forall row :: row in old(memos) ==> row.id != id
      ensures memos == old(memos) + [LegacyRow(id, content, now, remindAt, cronPattern, PENDING, None, tags, todoDate)]
      ensures nextId == old(nextId) + 1
    {
      id := nextId;
      memos := memos + [LegacyRow(id, content, now, remindAt, cronPattern, PENDING, None, tags, todoDate)];
      nextId := nextId + 1;
    }

    /** `mark_expired_memos`: every due row expired, all others as they were; returns how many changed. */
    method MarkExpiredMemos(now: int) returns (count: nat)
      requires Valid()
      modifies this
      ensures Valid()
      ensures |memos| == |old(memos)|
      ensures forall i :: 0 <= i < |memos| ==> memos[i] == Expire(old(memos)[i], now)
      ensures count == CountDue(old(memos), now)
      ensures nextId == old(nextId)
    {
      ghost var before := memos;
      count := 0;
      for i := 0 to |memos|
        invariant |memos| == |before| && nextId == old(nextId)
        invariant forall k :: 0 <= k < i ==> memos[k] == Expire(before[k], now)
        invariant forall k :: i <= k < |memos| ==> memos[k] == before[k]
        invariant count == CountDue(before[..i], now)
      {
        assert before[..i + 1][..i] == before[..i];
        if DueForExpiry(memos[i].status, memos[i].todoDate, now) {
          memos := memos[i := memos[i].(status := EXPIRED)];
          count := count + 1;
        }
      }
      assert before[..|before|] == before;
    }

    /** `get_active_reminders` */
    function ActiveReminders(): (r: seq<Reminder>)
      reads this
      ensures forall x :: x in r <==>
        exists row :: row in memos && Schedulable(row.status, row.remindAt, row.cronPattern) && x == ReminderOf(row)
    {
      Reminders(memos)
    }

    /** `update_memo_status`: only the status of the row with that id changes. */
    method UpdateMemoStatus(id: int, status: string)
      requires Valid()
      modifies this
      ensures Valid()
      ensures |memos| == |old(memos)|
      ensures forall i :: 0 <= i < |memos| ==>
        memos[i] == if old(memos)[i].id == id then old(memos)[i].(status := status) else old(memos)[i]
      ensures nextId == old(nextId)
    {
      ghost var before := memos;
      for i := 0 to |memos|
        invariant |memos| == |before| && nextId == old(nextId)
        invariant forall k :: 0 <= k < i ==> memos[k] == if before[k].id == id then before[k].(status := status) else before[k]
        invariant forall k :: i <= k < |memos| ==> memos[k] == before[k]
      {
        if memos[i].id == id {
          memos := memos[i := memos[i].(status := status)];
        }
      }
    }

    /** `update_memo_metadata`: only the metadata of the row with that id changes. */
    method UpdateMemoMetadata(id: int, metadata: string)
      requires Valid()
      modifies this
      ensures Valid()
      ensures |memos| == |old(memos)|
      ensures forall i :: 0 <= i < |memos| ==>
        memos[i] == if old(memos)[i].id == id then old(memos)[i].(metadata := Some(metadata)) else old(memos)[i]
      ensures nextId == old(nextId)
    {
      ghost var before := memos;
      for i := 0 to |memos|
        invariant |memos| == |before| && nextId == old(nextId)
        invariant forall k :: 0 <= k < i ==>
          memos[k] == if before[k].id == id then before[k].(metadata := Some(metadata)) else before[k]
        invariant forall k :: i <= k < |memos| ==> memos[k] == before[k]
      {
        if memos[i].id == id {
          memos := memos[i := memos[i].(metadata := Some(metadata))];
        }
      }
    }

    /** `get_memo_metadata`: `NoMemo` exactly when no row has the id. */
    function GetMemoMetadata(id: int): (r: MetadataRead)
      reads this
      ensures r.NoMemo? <==> forall row :: row in memos ==> row.id != id
      ensures r.NullMetadata? ==> exists row :: row in memos && row.id == id && row.metadata.None?
      ensures r.Metadata? ==> exists row :: row in memos && row.id == id && row.metadata == Some(r.text)
    {
      MetadataIn(memos, id)
    }

    /** `get_memos_by_tag(tag)`: the pending rows whose tags text contains the tag in double quotes. */
    function GetMemosByTag(tag: string): (r: seq<TaggedMemo>)
      reads this
      ensures forall x :: x in r <==>
        exists row :: row in memos && row.status == PENDING && TagLike(row.tags, tag) && x == TaggedMemo(row.id, row.content)
    {
      Tagged(memos, tag)
    }
  }

  /** A memo stored with its tags written as a JSON array is found by each of its tags while pending. */
  method StoredTagFound(s: LegacyStorage, content: string, tags: seq<string>, i: nat, now: int) returns (found: seq<TaggedMemo>)
    requires s.Valid() && i < |tags|
    modifies s
    ensures exists id :: TaggedMemo(id, content) in found
  {
    var id := s.AddMemo(content, None, None, Some(EncodeTags(tags)), None, now);
    EncodedTagFound(tags, i);
    assert s.memos[|s.memos| - 1] in s.memos;
    found := s.GetMemosByTag(tags[i]);
    assert TaggedMemo(id, content) in found;
  }
}
