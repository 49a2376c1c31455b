/** The `courses` relation and the four SELECT statements run against it,
    evaluated over the rows in store order. */
module Catalog {
  import opened Wrappers
  import opened Text

  /** One row of `courses`, restricted to the columns the webhook reads. */
  datatype Course = Course(id: nat, title: string, category: string, topic: string, isPaid: bool)

  /** A WHERE clause. The string arguments are the already lower-cased
      query parameters; the columns are lower-cased by SQL `LOWER`. */
  datatype Condition =
    | TitleLike(needle: string)       // LOWER(title) LIKE '%needle%'
    | CategoryIs(category: string)    // LOWER(category) = category
    | TopicIs(topic: string)          // LOWER(topic) = topic
    | PaidIs(flag: bool)              // is_paid = flag

  /** `SELECT * FROM courses WHERE <where> [LIMIT <limit>]`. */
  datatype Query = Query(where: Condition, limit: Option<nat>)

  predicate Satisfies(c: Course, cond: Condition) {
    match cond
    case TitleLike(needle) => Contains(LowerStr(c.title), needle)
    case CategoryIs(category) => LowerStr(c.category) == category
    case TopicIs(topic) => LowerStr(c.topic) == topic
    case PaidIs(flag) => c.isPaid == flag
  }

  /** The rows satisfying `cond`, in row order. */
  function Select(cond: Condition, rows: seq<Course>): (r: seq<Course>)
    ensures |r| <= |rows|
    ensures forall c :: c in r ==> Satisfies(c, cond)
  {
    if rows == [] then []
    else if Satisfies(rows[0], cond) then [rows[0]] + Select(cond, rows[1..])
    else Select(cond, rows[1..])
  }

  /** The LIMIT clause: keeps a prefix of at most `limit` rows. */
  function Take(rows: seq<Course>, limit: Option<nat>): (r: seq<Course>)
    ensures r <= rows
    ensures limit.None? ==> r == rows
    ensures limit.Some? ==> |r| == if limit.value < |rows| then limit.value else |rows|
  {
    if limit.Some? && limit.value < |rows| then rows[..limit.value] else rows
  }

  /** The result set of a query. */
  function Run(q: Query, rows: seq<Course>): seq<Course> {
    Take(Select(q.where, rows), q.limit)
  }

  /** `cursor.fetchone()`: the first row of a result set, if any. */
  function First(rows: seq<Course>): (r: Option<Course>)
    ensures r.None? <==> rows == []
    ensures r.Some? ==> r.value == rows[0]
  {
    if rows == [] then None else Some(rows[0])
  }

  /** The statements issued by the four lookups of main.py. */
  function TitleQuery(title: string): Query {
    Query(TitleLike(LowerStr(title)), Some(1))
  }

  function CategoryQuery(category: string): Query {
    Query(CategoryIs(LowerStr(category)), None)
  }

  function TopicQuery(topic: string): Query {
    Query(TopicIs(LowerStr(topic)), None)
  }

  function PriceQuery(isPaid: bool): Query {
    Query(PaidIs(isPaid), None)
  }

  /** Select keeps all and only the rows satisfying the condition. */
  lemma {:induction false} SelectMembers(cond: Condition, rows: seq<Course>)
    ensures forall c :: c in Select(cond, rows) <==> c in rows && Satisfies(c, cond)
  {
    if rows != [] {
      SelectMembers(cond, rows[1..]);
      assert rows == [rows[0]] + rows[1..];
    }
  }

  /** Select preserves row order: it distributes over concatenation of rows. */
  lemma {:induction false} SelectConcat(cond: Condition, a: seq<Course>, b: seq<Course>)
    ensures Select(cond, a + b) == Select(cond, a) + Select(cond, b)
  {
    if a == [] {
      assert a + b == b;
    } else {
      assert (a + b)[1..] == a[1..] + b;
      SelectConcat(cond, a[1..], b);
    }
  }

  /** Select drops nothing that matches: when every row matches, all of them
      come back, however many there are. */
  lemma {:induction false} SelectAllMatch(cond: Condition, rows: seq<Course>)
    requires forall i :: 0 <= i < |rows| ==> Satisfies(rows[i], cond)
    ensures Select(cond, rows) == rows
  {
    if rows != [] {
      SelectAllMatch(cond, rows[1..]);
    }
  }

  /** The head of a selection is the first matching row, and the selection is
      empty exactly when no row matches. */
  lemma {:induction false} SelectFirst(cond: Condition, rows: seq<Course>)
    ensures Select(cond, rows) == [] <==> forall i :: 0 <= i < |rows| ==> !Satisfies(rows[i], cond)
    ensures Select(cond, rows) != [] ==>
      exists i :: 0 <= i < |rows| && rows[i] == Select(cond, rows)[0] && Satisfies(rows[i], cond) &&
        forall j :: 0 <= j < i ==> !Satisfies(rows[j], cond)
  {
    if rows != [] && !Satisfies(rows[0], cond) {
      SelectFirst(cond, rows[1..]);
      if Select(cond, rows) != [] {
        var i :| 0 <= i < |rows[1..]| && rows[1..][i] == Select(cond, rows[1..])[0] &&
          Satisfies(rows[1..][i], cond) && forall j :: 0 <= j < i ==> !Satisfies(rows[1..][j], cond);
        assert rows[i + 1] == rows[1..][i];
        forall j | 0 <= j < i + 1 ensures !Satisfies(rows[j], cond) {
          if j > 0 { assert rows[j] == rows[1..][j - 1]; }
        }
      }
      if forall i :: 0 <= i < |rows[1..]| ==> !Satisfies(rows[1..][i], cond) {
        forall i | 0 <= i < |rows| ensures !Satisfies(rows[i], cond) {
          if i > 0 { assert rows[i] == rows[1..][i - 1]; }
        }
      }
    }
  }

  /** LIMIT 1 does not change which row `fetchone` returns. */
  lemma FirstOfLimitOne(rows: seq<Course>)
    ensures First(Take(rows, Some(1))) == First(rows)
  {
  }
}
