/** The PostgreSQL tables behind the Express routes of `backend/routes/`, kept in memory, with
    the inner joins and the replies the routes send. */
module LegacyDb {

  import opened Wrappers
  import opened Seqs
  import opened Entities
  import opened ApiClient

  /** A JSON reply body: a list of rows, one row, `{ message }`, or `{ message, <key>: row }`
      where the row may be `undefined`. */
  datatype Body = List(rows: seq<Row>) | Record(row: Row) | Note(message: string) | NoteWith(message: string, key: string, item: Option<Row>)

  /** An HTTP reply: status code and body. */
  datatype Reply = Reply(status: nat, body: Body)

  /** The four tables the routes read and write, and the next serial id. */
  class Database {
    var jobs: seq<Row>
    var savedJobs: seq<Row>
    var applications: seq<Row>
    var users: seq<Row>
    var nextId: nat

    constructor(users: seq<Row>)
      ensures jobs == [] && savedJobs == [] && applications == [] && this.users == users && nextId == 1
    {
      jobs, savedJobs, applications, this.users, nextId := [], [], [], users, 1;
    }
  }

  /** `column = $1` for a route parameter, which SQL compares as text and never matches NULL. */
  predicate IdIs(row: Row, column: string, param: string) {
    SameCell(Field(row, column), Str(param))
  }

  /** `SELECT … FROM left JOIN right ON … WHERE …`: each kept left row with each right row it
      joins, left rows in table order. */
  function JoinPairs(left: seq<Row>, right: seq<Row>, keep: Row -> bool, on: (Row, Row) -> bool): (r: seq<(Row, Row)>)
    ensures forall i :: 0 <= i < |r| ==> r[i].0 in left && keep(r[i].0) && r[i].1 in right && on(r[i].0, r[i].1)
    decreases |left|
  {
    if left == [] then []
    else
      var rest := JoinPairs(left[1..], right, keep, on);
      if keep(left[0]) then
        Map(Select(right, (x: Row) => on(left[0], x)), (x: Row) => (left[0], x)) + rest
      else rest
  }

  /** A pair is in the join exactly when its left row is kept and joins its right row. */
  lemma {:induction false} JoinPairsMember(left: seq<Row>, right: seq<Row>, keep: Row -> bool, on: (Row, Row) -> bool, p: (Row, Row))
    ensures p in JoinPairs(left, right, keep, on) <==> p.0 in left && keep(p.0) && p.1 in right && on(p.0, p.1)
    decreases |left|
  {
    if left != [] {
      JoinPairsMember(left[1..], right, keep, on, p);
      if keep(left[0]) {
        var sel := Select(right, (x: Row) => on(left[0], x));
        var front := Map(sel, (x: Row) => (left[0], x));
        SelectMember(right, (x: Row) => on(left[0], x), p.1);
        if p in front {
          var i :| 0 <= i < |front| && front[i] == p;
        }
        if p.0 == left[0] && p.1 in sel {
          var i :| 0 <= i < |sel| && sel[i] == p.1;
          assert front[i] == p;
        }
      }
      assert p.0 in left <==> p.0 == left[0] || p.0 in left[1..];
    }
  }

  /** `SELECT left.*, right.c1, …`: the left row with the picked right columns added (a name
      both have takes the right-hand value). */
  function Combined(l: Row, r: Row, picks: seq<string>): (row: Row)
    ensures forall k :: k in l && k !in picks ==> Field(row, k) == Field(l, k)
    ensures forall k :: k in picks ==> Field(row, k) == Field(r, k)
  {
    l + map k | k in picks :: Field(r, k)
  }

  /** The rows of a join: every pair combined. */
  function JoinRows(pairs: seq<(Row, Row)>, picks: seq<string>): (rows: seq<Row>)
    ensures |rows| == |pairs|
    ensures forall i :: 0 <= i < |pairs| ==> rows[i] == Combined(pairs[i].0, pairs[i].1, picks)
  {
    Map(pairs, (p: (Row, Row)) => Combined(p.0, p.1, picks))
  }

  /** Two rows name the same pair of values in two columns. */
  predicate SamePair(x: Row, y: Row, a: string, b: string) {
    SameCell(Field(x, a), Field(y, a)) && SameCell(Field(x, b), Field(y, b))
  }

  /** No two rows name the same pair. */
  predicate UniquePairs(rows: seq<Row>, a: string, b: string) {
    forall i, j :: 0 <= i < j < |rows| ==> !SamePair(rows[i], rows[j], a, b)
  }

  /** `SELECT * FROM t WHERE a = $1 AND b = $2`. */
  function Existing(rows: seq<Row>, a: string, va: Value, b: string, vb: Value): (r: seq<Row>)
    ensures forall x :: x in r <==> x in rows && SameCell(Field(x, a), va) && SameCell(Field(x, b), vb)
  {
    var p := (x: Row) => SameCell(Field(x, a), va) && SameCell(Field(x, b), vb);
    forall x ensures x in Select(rows, p) <==> x in rows && p(x) {
      SelectMember(rows, p, x);
    }
    Select(rows, p)
  }

  /** Inserting a pair the lookup did not find keeps every pair unique. */
  lemma InsertKeepsUnique(rows: seq<Row>, a: string, b: string, row: Row)
    requires UniquePairs(rows, a, b)
    requires |Existing(rows, a, Field(row, a), b, Field(row, b))| == 0
    ensures UniquePairs(rows + [row], a, b)
  {
    var r := rows + [row];
    forall i, j | 0 <= i < j < |r| ensures !SamePair(r[i], r[j], a, b) {
      if j == |rows| {
        assert r[i] in rows;
      }
    }
  }

  /** `ORDER BY column DESC`: the same rows, the latest first. */
  function Newest(rows: seq<Row>, column: string): (r: seq<Row>)
    ensures multiset(r) == multiset(rows)
    ensures forall i, j :: 0 <= i < j < |r| ==> OrderKey(r[i], column) >= OrderKey(r[j], column)
  {
    ArrangeDescending(rows, column);
    Arrange(rows, Some(OrderBy(column, false)))
  }
}
