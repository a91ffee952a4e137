/** Rules the dashboard pages share over the rows they hold in local state: status labels
    with a fallback, status tabs and their counts, and the in-place edits a page makes after
    a successful write (`rows.map(...)` to change a status, `rows.filter(...)` to drop rows). */
module StatusLists {

  import opened Seqs
  import opened Entities

  /** A status badge: its caption and colour classes (the icon is not modelled). */
  datatype StatusStyle = StatusStyle(caption: string, color: string)

  /** `configs[status] || configs[fallback]`; the status is used as a property name, so it is
      looked up by its text. */
  function StatusLookup(configs: map<string, StatusStyle>, status: Value, fallback: string): (r: StatusStyle)
    requires fallback in configs
    ensures ValueText(status) in configs ==> r == configs[ValueText(status)]
    ensures ValueText(status) !in configs ==> r == configs[fallback]
  {
    if ValueText(status) in configs then configs[ValueText(status)] else configs[fallback]
  }

  predicate HasStatus(row: Row, status: string) {
    Field(row, "status") == Str(status)
  }

  /** A status tab: every row on `'all'`, otherwise the rows whose status is exactly the tab. */
  function ByStatus(rows: seq<Row>, tab: string): (r: seq<Row>)
    ensures tab == "all" ==> r == rows
    ensures tab != "all" ==> IsSubsequence(r, rows)
    ensures tab != "all" ==> forall x :: x in r <==> x in rows && HasStatus(x, tab)
  {
    if tab == "all" then rows
    else
      var p := (x: Row) => HasStatus(x, tab);
      assert forall x :: x in Select(rows, p) <==> x in rows && p(x) by {
        forall x ensures x in Select(rows, p) <==> x in rows && p(x) {
          SelectMember(rows, p, x);
        }
      }
      Select(rows, p)
  }

  /** `rows.filter(x => x.status === status).length`. */
  function StatusCount(rows: seq<Row>, status: string): nat {
    Count(rows, (x: Row) => HasStatus(x, status))
  }

  /** A tab's count is the length of the list the tab shows. */
  lemma TabCountIsListLength(rows: seq<Row>, tab: string)
    ensures |ByStatus(rows, tab)| == if tab == "all" then |rows| else StatusCount(rows, tab)
  {
  }

  /** When every row carries one of the given statuses, no two of them equal, their counts add
      up to the number of rows. */
  lemma {:induction false} CountsPartition(rows: seq<Row>, statuses: seq<string>)
    requires NoDuplicates(statuses)
    requires forall x :: x in rows ==> Field(x, "status").Str? && Field(x, "status").s in statuses
    ensures Sum(rows, statuses) == |rows|
    decreases |rows|
  {
    if rows == [] {
      SumOfNothing(statuses);
    } else {
      var head, rest := rows[0], rows[1..];
      assert forall x :: x in rest ==> x in rows;
      CountsPartition(rest, statuses);
      assert head in rows;
      var s := Field(head, "status").s;
      assert rows == [head] + rest;
      SumStep(head, rest, statuses, s);
    }
  }

  /** No rows, no counts. */
  lemma {:induction false} SumOfNothing(statuses: seq<string>)
    ensures Sum([], statuses) == 0
    decreases |statuses|
  {
    if statuses != [] {
      SumOfNothing(statuses[1..]);
    }
  }

  /** The counts of several statuses added up. */
  function Sum(rows: seq<Row>, statuses: seq<string>): nat
    decreases |statuses|
  {
    if statuses == [] then 0 else StatusCount(rows, statuses[0]) + Sum(rows, statuses[1..])
  }

  /** A row with status `s` adds one to the count of `s` and to no other count. */
  lemma {:induction false} SumStep(head: Row, rest: seq<Row>, statuses: seq<string>, s: string)
    requires NoDuplicates(statuses) && s in statuses && HasStatus(head, s)
    ensures Sum([head] + rest, statuses) == Sum(rest, statuses) + 1
    decreases |statuses|
  {
    var t := statuses[0];
    var p := (x: Row) => HasStatus(x, t);
    CountCons(head, rest, t);
    if t != s {
      assert statuses[1..] != [] && s in statuses[1..] by {
        var i :| 0 <= i < |statuses| && statuses[i] == s;
        assert i != 0;
        assert statuses[1..][i - 1] == s;
      }
      assert NoDuplicates(statuses[1..]) by {
        forall i, j | 0 <= i < j < |statuses[1..]| ensures statuses[1..][i] != statuses[1..][j] {
          assert statuses[1..][i] == statuses[i + 1] && statuses[1..][j] == statuses[j + 1];
        }
      }
      SumStep(head, rest, statuses[1..], s);
    } else {
      assert forall u :: u in statuses[1..] ==> u != s by {
        forall u | u in statuses[1..] ensures u != s {
          var j :| 0 <= j < |statuses[1..]| && statuses[1..][j] == u;
          assert statuses[j + 1] == u && statuses[0] == s;
        }
      }
      SumUnmoved(head, rest, statuses[1..], s);
    }
  }

  /** One more row adds one to the count of its own status. */
  lemma CountCons(head: Row, rest: seq<Row>, status: string)
    ensures StatusCount([head] + rest, status) == StatusCount(rest, status) + (if HasStatus(head, status) then 1 else 0)
  {
    var p := (x: Row) => HasStatus(x, status);
    CountAppend([head], rest, p);
    assert Select([head], p) == if p(head) then [head] else [];
  }

  /** Counts of statuses other than the row's own do not see it. */
  lemma {:induction false} SumUnmoved(head: Row, rest: seq<Row>, statuses: seq<string>, s: string)
    requires HasStatus(head, s) && forall u :: u in statuses ==> u != s
    ensures Sum([head] + rest, statuses) == Sum(rest, statuses)
    decreases |statuses|
  {
    if statuses != [] {
      CountCons(head, rest, statuses[0]);
      assert statuses[0] in statuses;
      assert forall u :: u in statuses[1..] ==> u in statuses;
      SumUnmoved(head, rest, statuses[1..], s);
    }
  }

  /** `rows.map(x => x.id === id ? { ...x, status } : x)`. */
  function WithStatus(rows: seq<Row>, id: Value, status: string): (r: seq<Row>)
    ensures |r| == |rows|
    ensures forall i :: 0 <= i < |rows| && Field(rows[i], "id") != id ==> r[i] == rows[i]
    ensures forall i :: 0 <= i < |rows| && Field(rows[i], "id") == id ==>
      HasStatus(r[i], status) && forall k :: k != "status" ==> Field(r[i], k) == Field(rows[i], k)
  {
    seq(|rows|, i requires 0 <= i < |rows| => if Field(rows[i], "id") == id then rows[i]["status" := Str(status)] else rows[i])
  }

  /** Setting the same status twice is setting it once. */
  lemma WithStatusTwice(rows: seq<Row>, id: Value, status: string)
    ensures WithStatus(WithStatus(rows, id, status), id, status) == WithStatus(rows, id, status)
  {
    var once := WithStatus(rows, id, status);
    forall i | 0 <= i < |rows| ensures WithStatus(once, id, status)[i] == once[i] {
      if Field(rows[i], "id") == id {
        assert Field(once[i], "id") == id;
        assert once[i] == rows[i]["status" := Str(status)];
      }
    }
  }

  /** `rows.filter(x => x[key] !== v)`: the rows whose `key` is not `v`, in order. */
  function Without(rows: seq<Row>, key: string, v: Value): (r: seq<Row>)
    ensures IsSubsequence(r, rows)
    ensures forall x :: x in r <==> x in rows && Field(x, key) != v
  {
    var p := (x: Row) => Field(x, key) != v;
    assert forall x :: x in Select(rows, p) <==> x in rows && p(x) by {
      forall x ensures x in Select(rows, p) <==> x in rows && p(x) {
        SelectMember(rows, p, x);
      }
    }
    Select(rows, p)
  }

  /** Dropping rows that are not there changes nothing. */
  lemma WithoutAbsent(rows: seq<Row>, key: string, v: Value)
    requires forall x :: x in rows ==> Field(x, key) != v
    ensures Without(rows, key, v) == rows
  {
    SelectAll(rows, (x: Row) => Field(x, key) != v);
  }
}
