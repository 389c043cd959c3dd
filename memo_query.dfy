/**
 * The meaning of the SELECT that `query_memos` builds
 * (src/plugins/core_system/storage/mod.rs): the WHERE conditions, the
 * ORDER BY, and LIMIT/OFFSET, stated over a table held as a sequence of rows.
 */
module MemoQuery {
  import opened Wrappers
  import Text
  import opened MemoTypes

  /** One `AND` term of the WHERE clause; a comparison with NULL is false. */
  datatype Condition =
    | UserIs(userId: string)
    | StatusIs(status: string)
    | NotDeleted
    | PriorityAtLeast(min: int)
    | TodoFrom(from: int)
    | TodoTo(to: int)
    | ContentLike(keyword: string)
    /** `(tags LIKE p1 OR tags LIKE p2 ...)`, each pattern without its `%` ends. */
    | TagsLikeAny(patterns: seq<string>)

  predicate Holds(c: Condition, row: MemoRow)
  {
    match c
    case UserIs(u) => row.userId == Some(u)
    case StatusIs(s) => row.status == s
    case NotDeleted => row.status != DELETED
    case PriorityAtLeast(m) => row.priority >= m
    case TodoFrom(f) => row.todoDate.Some? && row.todoDate.value >= f
    case TodoTo(t) => row.todoDate.Some? && row.todoDate.value <= t
    case ContentLike(k) => Text.Contains(row.content, k)
    case TagsLikeAny(ps) => row.tags.Some? && exists i :: 0 <= i < |ps| && Text.Contains(row.tags.value, ps[i])
  }

  /** `WHERE 1=1 AND c1 AND c2 ...` */
  predicate AllHold(cs: seq<Condition>, row: MemoRow)
  {
    forall i :: 0 <= i < |cs| ==> Holds(cs[i], row)
  }

  lemma AllHoldSnoc(cs: seq<Condition>, c: Condition, row: MemoRow)
    ensures AllHold(cs + [c], row) <==> AllHold(cs, row) && Holds(c, row)
  {
    assert (cs + [c])[|cs|] == c;
    assert forall i :: 0 <= i < |cs| ==> (cs + [c])[i] == cs[i];
  }

  /** The statement `query_memos` sends: its conditions and its pagination. */
  datatype Query = Query(conditions: seq<Condition>, limit: Option<int>, offset: Option<int>)

  // ---- the filters, read from the parameters directly ----

  predicate StatusSelected(status: Option<string>, row: MemoRow)
  {
    match status
    case None => row.status != DELETED
    case Some(s) => s == ALL || row.status == s
  }

  predicate TagSelected(tags: Option<seq<string>>, row: MemoRow)
  {
    match tags
    case None => true
    case Some(ts) => ts == [] || exists i :: 0 <= i < |ts| && TagLike(row.tags, ts[i])
  }

  /** The rows `query_memos(p)` returns, before ordering and pagination. */
  predicate Selected(p: MemoQueryParams, row: MemoRow)
  {
    && (p.userId.Some? ==> row.userId == p.userId)
    && StatusSelected(p.status, row)
    && (p.minPriority.Some? ==> row.priority >= p.minPriority.value)
    && (p.fromDate.Some? ==> row.todoDate.Some? && row.todoDate.value >= p.fromDate.value)
    && (p.toDate.Some? ==> row.todoDate.Some? && row.todoDate.value <= p.toDate.value)
    && (p.keyword.Some? ==> Text.Contains(row.content, p.keyword.value))
    && TagSelected(p.tags, row)
  }

  /** A builder step: the conditions after it hold exactly when those before it and `extra` hold. */
  ghost predicate Extends(after: seq<Condition>, before: seq<Condition>, extra: MemoRow -> bool)
  {
    forall row :: AllHold(after, row) <==> AllHold(before, row) && extra(row)
  }

  method Push(cs: seq<Condition>, c: Condition) returns (r: seq<Condition>)
    ensures r == cs + [c]
    ensures Extends(r, cs, row => Holds(c, row))
  {
    r := cs + [c];
    forall row ensures AllHold(r, row) <==> AllHold(cs, row) && Holds(c, row) { AllHoldSnoc(cs, c, row); }
  }

  method PushStatus(cs: seq<Condition>, status: Option<string>) returns (r: seq<Condition>)
    ensures Extends(r, cs, row => StatusSelected(status, row))
  {
    if status.Some? {
      if status.value != ALL {
        r := Push(cs, StatusIs(status.value));
      } else {
        r := cs;
      }
    } else {
      r := Push(cs, NotDeleted);
    }
  }

  method PushTags(cs: seq<Condition>, tags: Option<seq<string>>) returns (r: seq<Condition>)
    ensures Extends(r, cs, row => TagSelected(tags, row))
  {
    if tags.Some? && tags.value != [] {
      var ts := tags.value;
      var patterns: seq<string> := [];
      for i := 0 to |ts|
        invariant |patterns| == i
        invariant forall k :: 0 <= k < i ==> patterns[k] == TagPattern(ts[k])
      {
        patterns := patterns + [TagPattern(ts[i])];
      }
      r := Push(cs, TagsLikeAny(patterns));
    } else {
      r := cs;
    }
  }

  /**
   * The query builder: one condition pushed per present parameter, in the
   * order of the source, and one LIKE pattern per tag.
   */
  method BuildQuery(p: MemoQueryParams) returns (q: Query)
    ensures forall row :: AllHold(q.conditions, row) <==> Selected(p, row)
    ensures q.limit == p.limit && q.offset == p.offset
  {
    var c0: seq<Condition> := [];
    var c1 := c0;
    if p.userId.Some? { c1 := Push(c0, UserIs(p.userId.value)); }
    var c2 := PushStatus(c1, p.status);
    var c3 := c2;
    if p.minPriority.Some? { c3 := Push(c2, PriorityAtLeast(p.minPriority.value)); }
    var c4 := c3;
    if p.fromDate.Some? { c4 := Push(c3, TodoFrom(p.fromDate.value)); }
    var c5 := c4;
    if p.toDate.Some? { c5 := Push(c4, TodoTo(p.toDate.value)); }
    var c6 := c5;
    if p.keyword.Some? { c6 := Push(c5, ContentLike(p.keyword.value)); }
    var c7 := PushTags(c6, p.tags);
    q := Query(c7, p.limit, p.offset);
  }

  /** The selected rows in table order. */
  function SelectRows(rows: seq<MemoRow>, p: MemoQueryParams): (r: seq<MemoRow>)
    ensures forall row :: row in r <==> row in rows && Selected(p, row)
    ensures multiset(r) <= multiset(rows)
  {
    if rows == [] then []
    else
      var front := rows[..|rows| - 1];
      var last := rows[|rows| - 1];
      assert rows == front + [last];
      if Selected(p, last) then SelectRows(front, p) + [last] else SelectRows(front, p)
  }

  // ---- ORDER BY todo_date ASC, priority DESC, created_at DESC ----

  /** `ASC` on a nullable column: NULL sorts first. */
  predicate TodoBefore(a: Option<int>, b: Option<int>)
  {
    (a.None? && b.Some?) || (a.Some? && b.Some? && a.value < b.value)
  }

  /** `a` may come before `b` under the ORDER BY (ties either way). */
  predicate Precedes(a: MemoRow, b: MemoRow)
  {
    if a.todoDate != b.todoDate then TodoBefore(a.todoDate, b.todoDate)
    else if a.priority != b.priority then a.priority > b.priority
    else a.createdAt >= b.createdAt
  }

  lemma PrecedesTotal(a: MemoRow, b: MemoRow)
    ensures Precedes(a, b) || Precedes(b, a)
  {
  }

  lemma PrecedesTransitive(a: MemoRow, b: MemoRow, c: MemoRow)
    requires Precedes(a, b) && Precedes(b, c)
    ensures Precedes(a, c)
  {
  }

  predicate Ordered(s: seq<MemoRow>)
  {
    forall i, j :: 0 <= i < j < |s| ==> Precedes(s[i], s[j])
  }

  function Insert(x: MemoRow, s: seq<MemoRow>): (r: seq<MemoRow>)
    requires Ordered(s)
    ensures Ordered(r)
    ensures multiset(r) == multiset(s) + multiset{x}
    ensures |r| == |s| + 1
  {
    if s == [] then [x]
    else if Precedes(x, s[0]) then
      assert forall j :: 0 < j < |s| ==> Precedes(s[0], s[j]);
      forall j | 0 < j < |s| ensures Precedes(x, s[j]) { PrecedesTransitive(x, s[0], s[j]); }
      [x] + s
    else
      var rest := Insert(x, s[1..]);
      assert s == [s[0]] + s[1..];
      PrecedesTotal(x, s[0]);
      forall j | 0 <= j < |rest| ensures Precedes(s[0], rest[j])
      {
        assert rest[j] in multiset(rest);
        if rest[j] != x {
          assert rest[j] in multiset(s[1..]);
          var k :| 0 <= k < |s[1..]| && s[1..][k] == rest[j];
          assert s[k + 1] == rest[j];
        }
      }
      [s[0]] + rest
  }

  /** The rows in ORDER BY order: sorted and a permutation of the input. */
  function SortRows(s: seq<MemoRow>): (r: seq<MemoRow>)
    ensures Ordered(r)
    ensures multiset(r) == multiset(s)
    ensures |r| == |s|
  {
    if s == [] then []
    else
      assert s == s[..|s| - 1] + [s[|s| - 1]];
      Insert(s[|s| - 1], SortRows(s[..|s| - 1]))
  }

  // ---- LIMIT / OFFSET ----

  /** The rows OFFSET skips: a negative offset counts as none. */
  function Skip(offset: Option<int>): (n: nat)
    ensures offset.Some? && offset.value >= 0 ==> n == offset.value
    ensures offset.None? || offset.value < 0 ==> n == 0
  {
    if offset.Some? && offset.value > 0 then offset.value else 0
  }

  /**
   * LIMIT and OFFSET as SQLite applies them: skip `Skip(offset)` rows, then
   * keep at most `limit` of the rest; a negative limit keeps them all.
   */
  function Paginate(rows: seq<MemoRow>, limit: Option<int>, offset: Option<int>): (r: seq<MemoRow>)
    ensures forall i :: 0 <= i < |r| ==> Skip(offset) + i < |rows| && r[i] == rows[Skip(offset) + i]
    ensures var rest := if Skip(offset) <= |rows| then |rows| - Skip(offset) else 0;
            |r| == if limit.Some? && 0 <= limit.value < rest then limit.value else rest
  {
    var skip := Skip(offset);
    var rest := if skip <= |rows| then rows[skip..] else [];
    if limit.Some? && 0 <= limit.value < |rest| then rest[..limit.value] else rest
  }

  /** Consecutive pages tile the result: page `[o, o+k)` followed by everything from `o+k`. */
  lemma PagesTile(rows: seq<MemoRow>, o: nat, k: nat)
    ensures Paginate(rows, Some(k), Some(o)) + Paginate(rows, None, Some(o + k)) == Paginate(rows, None, Some(o))
  {
    var a := Paginate(rows, Some(k), Some(o));
    var b := Paginate(rows, None, Some(o + k));
    var c := Paginate(rows, None, Some(o));
    assert |a + b| == |c|;
    forall i | 0 <= i < |c| ensures (a + b)[i] == c[i]
    {
      if i >= |a| {
        assert (a + b)[i] == b[i - |a|];
      }
    }
  }

  /** The corrected query's answer: filter, order, then paginate. */
  function Answer(rows: seq<MemoRow>, p: MemoQueryParams): seq<MemoRow>
  {
    Paginate(SortRows(SelectRows(rows, p)), p.limit, p.offset)
  }

  /** Every answered row is a selected row of the table, and the answer is in ORDER BY order. */
  lemma AnswerSound(rows: seq<MemoRow>, p: MemoQueryParams)
    ensures forall row :: row in Answer(rows, p) ==> row in rows && Selected(p, row)
    ensures Ordered(Answer(rows, p))
  {
    var sorted := SortRows(SelectRows(rows, p));
    var r := Answer(rows, p);
    forall row | row in r ensures row in rows && Selected(p, row)
    {
      var i :| 0 <= i < |r| && r[i] == row;
      assert sorted[Skip(p.offset) + i] == row;
      assert row in multiset(sorted);
    }
    forall i, j | 0 <= i < j < |r| ensures Precedes(r[i], r[j])
    {
      assert r[i] == sorted[Skip(p.offset) + i] && r[j] == sorted[Skip(p.offset) + j];
    }
  }

  /** Without pagination the answer holds every selected row, as often as the table does. */
  lemma AnswerComplete(rows: seq<MemoRow>, p: MemoQueryParams)
    requires p.limit.None? && p.offset.None?
    ensures multiset(Answer(rows, p)) == multiset(SelectRows(rows, p))
  {
    var sorted := SortRows(SelectRows(rows, p));
    assert Answer(rows, p) == sorted[0..];
    assert sorted[0..] == sorted;
  }

  /** The records sent back: `From<SqliteRow>` applied to every answered row. */
  function Records(rows: seq<MemoRow>, parseTags: string -> Option<seq<string>>): (r: seq<MemoRecord>)
    ensures |r| == |rows|
    ensures forall i :: 0 <= i < |rows| ==> r[i] == FromRow(rows[i], parseTags)
  {
    if rows == [] then [] else [FromRow(rows[0], parseTags)] + Records(rows[1..], parseTags)
  }

  // ---- the pagination as written ----

  datatype SqlError = SyntaxError(near: string)

  /**
   * LIMIT and OFFSET as the builder writes them: each clause only when its
   * parameter is present. SQLite's grammar has OFFSET only as part of a
   * LIMIT clause, so an offset without a limit is a syntax error.
   */
  function PaginateAsWritten(rows: seq<MemoRow>, limit: Option<int>, offset: Option<int>): (r: Result<seq<MemoRow>, SqlError>)
    ensures r.Err? <==> limit.None? && offset.Some?
    ensures r.Ok? ==> r.value == Paginate(rows, limit, offset)
  {
    if limit.None? && offset.Some? then Err(SyntaxError("OFFSET")) else Ok(Paginate(rows, limit, offset))
  }

  /** A second page asked for by offset alone fails as written; the corrected pagination returns the remaining rows. */
  lemma OffsetWithoutLimit(a: MemoRow, b: MemoRow)
    ensures PaginateAsWritten([a, b], None, Some(1)).Err?
    ensures Paginate([a, b], None, Some(1)) == [b]
  {
  }

  /** The corrected pagination: an offset alone skips exactly that many rows. */
  lemma OffsetAloneSkips(rows: seq<MemoRow>, n: nat)
    requires n <= |rows|
    ensures Paginate(rows, None, Some(n)) == rows[n..]
  {
  }
}
