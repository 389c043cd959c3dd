/**
 * src/plugins/core_system/storage/types.rs: the memo row as stored, the
 * query parameters, and the record returned by queries, with the decoding
 * of the tags column.
 */
module MemoTypes {
  import opened Wrappers
  import Text

  const PENDING: string := "pending"
  const COMPLETED: string := "completed"
  const EXPIRED: string := "expired"
  const DELETED: string := "deleted"
  /** The query wildcard for `status`: no status filter. */
  const ALL: string := "all"

  /** The `priority` column's default, Normal. */
  const DEFAULT_PRIORITY: int := 1

  /** One row of the `memos` table. SQL NULL is `None`. */
  datatype MemoRow = MemoRow(
    id: int,
    content: string,
    createdAt: int,
    remindAt: Option<int>,
    cronPattern: Option<string>,
    status: string,
    metadata: Option<string>,
    tags: Option<string>,
    todoDate: Option<int>,
    priority: int,
    userId: Option<string>)

  /** `MemoQueryParams`: every filter optional; `tags` means "contains any of". */
  datatype MemoQueryParams = MemoQueryParams(
    userId: Option<string>,
    status: Option<string>,
    tags: Option<seq<string>>,
    minPriority: Option<int>,
    fromDate: Option<int>,
    toDate: Option<int>,
    keyword: Option<string>,
    limit: Option<int>,
    offset: Option<int>)

  /** `MemoRecord`: a row without its metadata, with the tags decoded. */
  datatype MemoRecord = MemoRecord(
    id: int,
    content: string,
    createdAt: int,
    remindAt: Option<int>,
    cronPattern: Option<string>,
    status: string,
    tags: seq<string>,
    todoDate: Option<int>,
    priority: int,
    userId: Option<string>)

  /** A row of `get_active_reminders`: id, content, remind_at, cron_pattern, metadata, tags. */
  datatype Reminder = Reminder(
    id: int,
    content: string,
    remindAt: Option<int>,
    cronPattern: Option<string>,
    metadata: Option<string>,
    tags: Option<string>)

  /** `status = 'pending' AND todo_date IS NOT NULL AND todo_date < now`, the expiry condition of both memo stores. */
  predicate DueForExpiry(status: string, todoDate: Option<int>, now: int)
  {
    status == PENDING && todoDate.Some? && todoDate.value < now
  }

  /** `status = 'pending' AND (remind_at IS NOT NULL OR cron_pattern IS NOT NULL)`: a memo to schedule. */
  predicate Schedulable(status: string, remindAt: Option<int>, cronPattern: Option<string>)
  {
    status == PENDING && (remindAt.Some? || cronPattern.Some?)
  }

  /**
   * The tags column as a list: NULL, or text that `serde_json` does not read
   * as an array of strings (`parseTags`), gives the empty list.
   */
  function DecodeTags(column: Option<string>, parseTags: string -> Option<seq<string>>): (r: seq<string>)
    ensures column.None? ==> r == []
    ensures column.Some? && parseTags(column.value).None? ==> r == []
    ensures column.Some? && parseTags(column.value).Some? ==> r == parseTags(column.value).value
  {
    match column
    case None => []
    case Some(text) => parseTags(text).GetOr([])
  }

  /** `From<SqliteRow> for MemoRecord`. */
  function FromRow(row: MemoRow, parseTags: string -> Option<seq<string>>): (r: MemoRecord)
    ensures r.tags == DecodeTags(row.tags, parseTags)
    ensures r.id == row.id && r.content == row.content && r.createdAt == row.createdAt
    ensures r.remindAt == row.remindAt && r.cronPattern == row.cronPattern && r.status == row.status
    ensures r.todoDate == row.todoDate && r.priority == row.priority && r.userId == row.userId
  {
    MemoRecord(row.id, row.content, row.createdAt, row.remindAt, row.cronPattern, row.status,
               DecodeTags(row.tags, parseTags), row.todoDate, row.priority, row.userId)
  }

  /** Two rows that differ only in metadata, or in tags text that decodes alike, give the same record. */
  lemma FromRowIgnoresMetadata(a: MemoRow, b: MemoRow, parseTags: string -> Option<seq<string>>)
    requires b == a.(metadata := b.metadata, tags := b.tags)
    requires DecodeTags(a.tags, parseTags) == DecodeTags(b.tags, parseTags)
    ensures FromRow(a, parseTags) == FromRow(b, parseTags)
  {
  }

  /** The text a tag is searched for in the tags column: the tag in double quotes, as in a JSON array. */
  function TagPattern(tag: string): (p: string)
    ensures |p| == |tag| + 2 && p[0] == '"' && p[|p| - 1] == '"' && p[1..|p| - 1] == tag
  {
    ['"'] + tag + ['"']
  }

  /** `tags LIKE '%"tag"%'`; NULL never matches. */
  predicate TagLike(column: Option<string>, tag: string)
  {
    column.Some? && Text.Contains(column.value, TagPattern(tag))
  }

  /** `serde_json::to_string` of a list of tags that need no escaping: `["a","b"]`. */
  function EncodeTags(tags: seq<string>): string
  {
    "[" + QuotedList(tags) + "]"
  }

  function QuotedList(tags: seq<string>): string
    decreases |tags|
  {
    if tags == [] then ""
    else if |tags| == 1 then TagPattern(tags[0])
    else TagPattern(tags[0]) + "," + QuotedList(tags[1..])
  }

  lemma {:induction false} QuotedListHasEach(tags: seq<string>, i: nat)
    requires i < |tags|
    ensures Text.Contains(QuotedList(tags), TagPattern(tags[i]))
    decreases |tags|
  {
    var p := TagPattern(tags[i]);
    if i == 0 {
      if |tags| == 1 {
        Text.ContainsPrefix(p, "");
        assert p + "" == QuotedList(tags);
      } else {
        Text.ContainsPrefix(p, "," + QuotedList(tags[1..]));
        assert QuotedList(tags) == p + ("," + QuotedList(tags[1..]));
      }
    } else {
      QuotedListHasEach(tags[1..], i - 1);
      assert tags[1..][i - 1] == tags[i];
      var head := TagPattern(tags[0]) + ",";
      Text.ContainsInfix(head, QuotedList(tags[1..]), "", p);
      assert QuotedList(tags) == head + QuotedList(tags[1..]) + "";
    }
  }

  /** The tag search finds every tag of a column written as a JSON array. */
  lemma EncodedTagFound(tags: seq<string>, i: nat)
    requires i < |tags|
    ensures TagLike(Some(EncodeTags(tags)), tags[i])
  {
    QuotedListHasEach(tags, i);
    Text.ContainsInfix("[", QuotedList(tags), "]", TagPattern(tags[i]));
  }

  /** The search is textual: the tag "," matches any column that lists two or more tags. */
  lemma CommaTagFalsePositive(a: string, b: string)
    ensures TagLike(Some(EncodeTags([a, b])), ",")
  {
    var p := TagPattern(",");
    var s := EncodeTags([a, b]);
    assert QuotedList([a, b][1..]) == TagPattern(b);
    assert s == "[" + TagPattern(a) + "," + TagPattern(b) + "]";
    var k := 1 + |TagPattern(a)| - 1;
    assert s[k..k + 3] == p;
    assert Text.OccursAt(s, p, k);
    Text.ContainsIff(s, p);
  }
}
