/** The data-access layer of `src/api/apiClient.js`: order strings, file-name rules, the table-name
    fallback, the query shapes each entity supports, and the upload path. Supabase itself is
    abstract: a table is a sequence of rows and a query is a function of it. */
module ApiClient {

  import opened Wrappers
  import opened Seqs
  import opened Ordering
  import opened Strings
  import opened Entities

  // ---------------------------------------------------------------- order strings

  /** A column ordering, as `query.order(column, { ascending })` receives it. */
  datatype OrderBy = OrderBy(column: string, ascending: bool)

  /** `applyOrder`: no order for an empty string; a leading '-' means descending on the rest. */
  function ApplyOrder(order: string): (r: Option<OrderBy>)
    ensures r.None? <==> order == ""
    ensures r.Some? ==> (r.value.ascending <==> order[0] != '-')
    ensures r.Some? && r.value.ascending ==> r.value.column == order
    ensures r.Some? && !r.value.ascending ==> r.value.column == order[1..]
  {
    if order == "" then None
    else if order[0] == '-' then Some(OrderBy(order[1..], false))
    else Some(OrderBy(order, true))
  }

  /** The order string that stands for an ordering. */
  function OrderText(o: OrderBy): string {
    if o.ascending then o.column else "-" + o.column
  }

  /** Every non-empty order string is the text of the ordering it parses to. */
  lemma ApplyOrderInverse(order: string)
    requires order != ""
    ensures ApplyOrder(order).Some? && OrderText(ApplyOrder(order).value) == order
  {
    if order[0] == '-' {
      assert "-" + order[1..] == order;
    }
  }

  /** An ordering whose text cannot be misread parses back from that text. */
  lemma OrderTextInverse(o: OrderBy)
    requires o.column != ""
    requires o.ascending ==> o.column[0] != '-'
    ensures ApplyOrder(OrderText(o)) == Some(o)
  {
    if !o.ascending {
      assert ("-" + o.column)[1..] == o.column;
    }
  }

  // ---------------------------------------------------------------- file names

  /** The characters `[a-z0-9._-]` that survive sanitising. */
  predicate SafeChar(c: char) {
    ('a' <= c <= 'z') || ('0' <= c <= '9') || c == '.' || c == '_' || c == '-'
  }

  predicate AllSafe(s: string) {
    forall i :: 0 <= i < |s| ==> SafeChar(s[i])
  }

  predicate NoDoubleDash(s: string) {
    forall i :: 0 <= i < |s| - 1 ==> !(s[i] == '-' && s[i + 1] == '-')
  }

  /** `.replace(/[^a-z0-9._-]/g, '-')`. */
  function MaskUnsafe(s: string): (r: string)
    ensures |r| == |s| && AllSafe(r)
    ensures forall i :: 0 <= i < |s| ==> r[i] == (if SafeChar(s[i]) then s[i] else '-')
  {
    seq(|s|, i requires 0 <= i < |s| => if SafeChar(s[i]) then s[i] else '-')
  }

  /** `.replace(/-+/g, '-')`, reading `s` after a dash when `afterDash` holds. */
  function Squeeze(s: string, afterDash: bool): (r: string)
    ensures |r| <= |s|
    ensures NoDoubleDash(r)
    ensures afterDash && r != [] ==> r[0] != '-'
    ensures !afterDash && s != [] ==> r != [] && r[0] == s[0]
    ensures AllSafe(s) ==> AllSafe(r)
    decreases |s|
  {
    if s == [] then []
    else if s[0] == '-' && afterDash then Squeeze(s[1..], true)
    else
      var rest := Squeeze(s[1..], s[0] == '-');
      [s[0]] + rest
  }

  /** Squeezing only drops dashes: every other character stays, in order. */
  lemma {:induction false} SqueezeKeepsOthers(s: string, afterDash: bool)
    ensures Remove(Squeeze(s, afterDash), '-') == Remove(s, '-')
    decreases |s|
  {
    if s != [] {
      assert [s[0]] + s[1..] == s;
      RemoveCons(s[0], s[1..], '-');
      SqueezeKeepsOthers(s[1..], s[0] == '-');
      if !(s[0] == '-' && afterDash) {
        RemoveCons(s[0], Squeeze(s[1..], s[0] == '-'), '-');
      }
    }
  }

  /** Dropping one dash of a doubled pair does not change the squeezed result, so a run of
      dashes comes out as the single dash that starts it. */
  lemma {:induction false} SqueezeDropsDoubledDash(s: string, afterDash: bool, i: nat)
    requires i + 1 < |s| && s[i] == '-' && s[i + 1] == '-'
    ensures Squeeze(s[..i] + s[i + 1..], afterDash) == Squeeze(s, afterDash)
    decreases i
  {
    if i == 0 {
      assert s[..0] + s[1..] == s[1..];
      assert s[1..][0] == '-';
    } else {
      var t := s[..i] + s[i + 1..];
      assert t[0] == s[0];
      assert t[1..] == s[1..][..i - 1] + s[1..][i..];
      SqueezeDropsDoubledDash(s[1..], s[0] == '-', i - 1);
    }
  }

  /** A string without a doubled dash is left as it is. */
  lemma {:induction false} SqueezeKeeps(s: string, afterDash: bool)
    requires NoDoubleDash(s)
    requires afterDash && s != [] ==> s[0] != '-'
    ensures Squeeze(s, afterDash) == s
    decreases |s|
  {
    if s != [] {
      assert NoDoubleDash(s[1..]) by {
        forall i | 0 <= i < |s[1..]| - 1 ensures !(s[1..][i] == '-' && s[1..][i + 1] == '-') {
          assert s[1..][i] == s[i + 1] && s[1..][i + 1] == s[i + 2];
        }
      }
      if |s| >= 2 && s[0] == '-' {
        assert s[1] != '-';
      }
      SqueezeKeeps(s[1..], s[0] == '-');
      assert [s[0]] + s[1..] == s;
    }
  }

  /** `sanitizeFileName`: lower-cased, unsafe characters masked, dash runs squeezed. */
  function SanitizeFileName(name: string): (r: string)
    ensures r != ""
    ensures AllSafe(r) && NoDoubleDash(r)
    ensures name == "" ==> r == "file"
  {
    var s := MaskUnsafe(Lower(if name == "" then "file" else name));
    if name == "" then DefaultNameIsClean(); Squeeze(s, false)
    else Squeeze(s, false)
  }

  lemma DefaultNameIsClean()
    ensures Squeeze(MaskUnsafe(Lower("file")), false) == "file"
  {
    assert Lower("file") == "file";
    assert MaskUnsafe("file") == "file";
    SqueezeKeeps("file", false);
  }

  /** The sanitised names are exactly the non-empty safe strings with no doubled dash. */
  lemma SanitizeFixpoints(name: string)
    ensures SanitizeFileName(name) == name <==> (name != "" && AllSafe(name) && NoDoubleDash(name))
  {
    if name != "" && AllSafe(name) && NoDoubleDash(name) {
      assert Lower(name) == name;
      assert MaskUnsafe(name) == name;
      SqueezeKeeps(name, false);
    }
  }

  /** Sanitising a sanitised name changes nothing. */
  lemma SanitizeIdempotent(name: string)
    ensures SanitizeFileName(SanitizeFileName(name)) == SanitizeFileName(name)
  {
    SanitizeFixpoints(SanitizeFileName(name));
  }

  // ---------------------------------------------------------------- extensions

  /** `s.lastIndexOf(c)`. */
  function LastIndexOf(s: string, c: char): (r: int)
    ensures -1 <= r < |s|
    ensures r >= 0 ==> s[r] == c
    ensures forall i :: r < i < |s| ==> s[i] != c
    decreases |s|
  {
    if s == [] then -1
    else if s[|s| - 1] == c then |s| - 1
    else LastIndexOf(s[..|s| - 1], c)
  }

  /** No occurrence at all exactly when the last index is -1. */
  lemma LastIndexNone(s: string, c: char)
    ensures LastIndexOf(s, c) == -1 <==> c !in s
  {
    var r := LastIndexOf(s, c);
    if c in s {
      var i :| 0 <= i < |s| && s[i] == c;
    }
  }

  /** `getFileExt`: the lower-cased text after the last '.', or "bin" with no '.'. */
  function GetFileExt(name: string): (r: string)
    ensures '.' !in r
    ensures '.' !in name ==> r == "bin"
    ensures '.' in name ==> r == Lower(name[LastIndexOf(name, '.') + 1..])
  {
    LastIndexNone(name, '.');
    var k := LastIndexOf(name, '.');
    if k > -1 then
      var ext := name[k + 1..];
      assert forall i :: 0 <= i < |ext| ==> Lower(ext)[i] != '.';
      Lower(ext)
    else "bin"
  }

  /** The extension read from `base.ext` is the lower-cased `ext`. */
  lemma GetFileExtOf(base: string, ext: string)
    requires '.' !in ext
    ensures GetFileExt(base + "." + ext) == Lower(ext)
  {
    var name := base + "." + ext;
    var k := |base|;
    assert name[k] == '.' && name[k + 1..] == ext;
    LastIndexAt(name, '.', k);
  }

  /** A character found at `k` with none after it is the last one. */
  lemma LastIndexAt(s: string, c: char, k: int)
    requires 0 <= k < |s| && s[k] == c && c !in s[k + 1..]
    ensures LastIndexOf(s, c) == k
  {
  }

  /** `name.replace(/\.[^/.]+$/, '')`: drops a final '.' followed by at least one character
      that is neither '/' nor '.'. */
  function StripExtension(name: string): (r: string)
    ensures r <= name
  {
    var k := LastIndexOf(name, '.');
    if k >= 0 && k < |name| - 1 && '/' !in name[k + 1..] then name[..k] else name
  }

  /** `base.ext` loses exactly its extension. */
  lemma StripExtensionOf(base: string, ext: string)
    requires ext != "" && '.' !in ext && '/' !in ext
    ensures StripExtension(base + "." + ext) == base
  {
    var name := base + "." + ext;
    assert name[|base|] == '.' && name[|base| + 1..] == ext;
    LastIndexAt(name, '.', |base|);
    assert name[..|base|] == base;
  }

  /** A name with no '.' keeps every character. */
  lemma StripWithoutDot(name: string)
    requires '.' !in name
    ensures StripExtension(name) == name
  {
  }

  // ---------------------------------------------------------------- missing tables

  /** `isMissingTableError`: the lower-cased message names a missing table or the schema cache. */
  predicate IsMissingTableError(e: Error)
    ensures IsMissingTableError(e) ==> |e.message| >= |"schema cache"|
  {
    var msg := Lower(e.message);
    ContainsLength(msg, "could not find the table");
    ContainsLength(msg, "schema cache");
    Contains(msg, "could not find the table") || Contains(msg, "schema cache")
  }

  /** The error PostgREST reports for a table that does not exist. */
  function MissingTable(name: string): Error {
    Error("Could not find the table 'public." + name + "' in the schema cache")
  }

  /** A missing table is classified as one, whatever its name. */
  lemma MissingTableIsClassified(name: string)
    ensures IsMissingTableError(MissingTable(name))
  {
    var head := "Could not find the table";
    var tail := " 'public." + name + "' in the schema cache";
    assert MissingTable(name).message == head + tail;
    LowerAppend(head, tail);
    assert Lower(head) == "could not find the table";
    PrefixContained(Lower(head + tail), "could not find the table");
  }

  /** The classification ignores letter case. */
  lemma MissingTableIgnoresCase(m: string)
    ensures IsMissingTableError(Error(Lower(m))) == IsMissingTableError(Error(m))
  {
    LowerIdempotent(m);
  }

  /** An empty message is not a missing-table error. */
  lemma EmptyMessageIsNotMissing()
    ensures !IsMissingTableError(Error(""))
  {
    assert !Contains("", "could not find the table");
    assert !Contains("", "schema cache");
  }

  // ---------------------------------------------------------------- table-name fallback

  const NoTablesMessage: string := "No table names configured for fallback"

  /** What `withTableFallback(names, op)` settles on, having last seen `lastMissing`. */
  function Fallback<R>(names: seq<string>, op: string -> Outcome<R>, lastMissing: Option<Error>): Outcome<R>
    decreases |names|
  {
    if names == [] then
      match lastMissing
      case Some(e) => Err(e)
      case None => Err(Error(NoTablesMessage))
    else
      match op(names[0])
      case Ok(v) => Ok(v)
      case Err(e) => if IsMissingTableError(e) then Fallback(names[1..], op, Some(e)) else Err(e)
  }

  /** `withTableFallback`: tries each table name in order. */
  method WithTableFallback<R>(names: seq<string>, op: string -> Outcome<R>) returns (r: Outcome<R>)
    ensures r == Fallback(names, op, None)
  {
    var lastMissing: Option<Error> := None;
    var i := 0;
    while i < |names|
      invariant 0 <= i <= |names|
      invariant Fallback(names, op, None) == Fallback(names[i..], op, lastMissing)
    {
      assert names[i..][1..] == names[i + 1..];
      var attempt := op(names[i]);
      match attempt {
        case Ok(v) =>
          return Ok(v);
        case Err(e) =>
          if !IsMissingTableError(e) {
            return Err(e);
          }
          lastMissing := Some(e);
      }
      i := i + 1;
    }
    if lastMissing.Some? {
      return Err(lastMissing.value);
    }
    return Err(Error(NoTablesMessage));
  }

  /** The name failed because its table is missing. */
  predicate MissingAt<R>(names: seq<string>, op: string -> Outcome<R>, i: int)
    requires 0 <= i < |names|
  {
    op(names[i]).Err? && IsMissingTableError(op(names[i]).error)
  }

  /** The first name whose outcome is anything but a missing table decides the result:
      its success is returned, or its error is rethrown. */
  lemma {:induction false} FallbackFirstDecisive<R>(names: seq<string>, op: string -> Outcome<R>, last: Option<Error>, k: nat)
    requires k < |names|
    requires forall i :: 0 <= i < k ==> MissingAt(names, op, i)
    requires !MissingAt(names, op, k)
    ensures Fallback(names, op, last) == op(names[k])
    decreases k
  {
    if k > 0 {
      assert MissingAt(names, op, 0);
      forall i | 0 <= i < k - 1 ensures MissingAt(names[1..], op, i) {
        assert MissingAt(names, op, i + 1);
      }
      FallbackFirstDecisive(names[1..], op, Some(op(names[0]).error), k - 1);
    }
  }

  /** Names after the deciding one are never tried: only the prefix up to it matters. */
  lemma {:induction false} FallbackIgnoresLaterNames<R>(names: seq<string>, more: seq<string>, op: string -> Outcome<R>, last: Option<Error>)
    requires exists k :: 0 <= k < |names| && !MissingAt(names, op, k)
    ensures Fallback(names + more, op, last) == Fallback(names, op, last)
    decreases |names|
  {
    assert (names + more)[0] == names[0];
    if MissingAt(names, op, 0) {
      var k :| 0 <= k < |names| && !MissingAt(names, op, k);
      assert !MissingAt(names[1..], op, k - 1);
      assert (names + more)[1..] == names[1..] + more;
      FallbackIgnoresLaterNames(names[1..], more, op, Some(op(names[0]).error));
    }
  }

  /** When every table is missing the last missing-table error is thrown; with no names at all
      the "no table names" error is. */
  lemma {:induction false} FallbackAllMissing<R>(names: seq<string>, op: string -> Outcome<R>)
    requires forall i :: 0 <= i < |names| ==> MissingAt(names, op, i)
    ensures names == [] ==> Fallback(names, op, None) == Err(Error(NoTablesMessage))
    ensures names != [] ==> Fallback(names, op, None) == op(names[|names| - 1])
  {
    if names != [] {
      FallbackLastMissing(names, op, None);
    }
  }

  lemma {:induction false} FallbackLastMissing<R>(names: seq<string>, op: string -> Outcome<R>, last: Option<Error>)
    requires names != []
    requires forall i :: 0 <= i < |names| ==> MissingAt(names, op, i)
    ensures Fallback(names, op, last) == op(names[|names| - 1])
    decreases |names|
  {
    assert MissingAt(names, op, 0);
    if |names| > 1 {
      forall i | 0 <= i < |names| - 1 ensures MissingAt(names[1..], op, i) {
        assert MissingAt(names, op, i + 1);
      }
      FallbackLastMissing(names[1..], op, Some(op(names[0]).error));
    }
  }

  // ---------------------------------------------------------------- queries

  /** `column=eq.value`: the filter is sent as text, and SQL equality never holds for null. */
  predicate SameCell(cell: Value, want: Value) {
    cell != Null && want != Null && ValueText(cell) == ValueText(want)
  }

  /** `query.match(criteria)`: every criterion column equals the given value. */
  predicate Matches(row: Row, criteria: Row) {
    forall k :: k in criteria ==> SameCell(Field(row, k), criteria[k])
  }

  /** A one-column filter matches exactly the rows whose cell in that column equals the value. */
  lemma MatchesOne(row: Row, column: string, v: Value)
    ensures Matches(row, map[column := v]) <==> SameCell(Field(row, column), v)
  {
    assert column in map[column := v];
  }

  /** The sort key of a row for a column: its number, and 0 for anything else. */
  function OrderKey(row: Row, column: string): int {
    match Field(row, column)
    case Num(n) => n
    case _ => 0
  }

  /** The rows in the order a query asks for; without an order they keep the table's order. */
  function Arrange(rows: seq<Row>, order: Option<OrderBy>): (r: seq<Row>)
    ensures multiset(r) == multiset(rows) && |r| == |rows|
  {
    match order
    case None => rows
    case Some(o) =>
      var key := (row: Row) => OrderKey(row, o.column);
      if o.ascending then SortAsc(rows, key) else SortDesc(rows, key)
  }

  /** The rows stand in the order asked for; any order does when none is asked for. */
  predicate InOrder(rows: seq<Row>, order: Option<OrderBy>) {
    match order
    case None => true
    case Some(o) =>
      forall i, j :: 0 <= i < j < |rows| ==>
        if o.ascending then OrderKey(rows[i], o.column) <= OrderKey(rows[j], o.column)
        else OrderKey(rows[i], o.column) >= OrderKey(rows[j], o.column)
  }

  lemma ArrangeInOrder(rows: seq<Row>, order: Option<OrderBy>)
    ensures InOrder(Arrange(rows, order), order)
  {
  }

  lemma PrefixInOrder(rows: seq<Row>, order: Option<OrderBy>, n: nat)
    requires InOrder(rows, order) && n <= |rows|
    ensures InOrder(rows[..n], order)
  {
    if order.Some? {
      assert forall i :: 0 <= i < n ==> rows[..n][i] == rows[i];
    }
  }

  /** Descending order on a column puts larger keys first. */
  lemma ArrangeDescending(rows: seq<Row>, column: string)
    ensures var r := Arrange(rows, Some(OrderBy(column, false)));
      forall i, j :: 0 <= i < j < |r| ==> OrderKey(r[i], column) >= OrderKey(r[j], column)
  {
  }

  /** `from(table).select('*')`, matched against `criteria` (no filter when it is empty) and ordered. */
  function Query(rows: seq<Row>, criteria: Row, order: Option<OrderBy>): (r: seq<Row>)
    ensures forall i :: 0 <= i < |r| ==> Matches(r[i], criteria) && r[i] in rows
  {
    var matching := Select(rows, (row: Row) => Matches(row, criteria));
    var r := Arrange(matching, order);
    assert forall i :: 0 <= i < |r| ==> r[i] in multiset(matching);
    r
  }

  /** The result holds the matching rows, each as often as in the table; the order only
      arranges them. */
  lemma QueryPermutes(rows: seq<Row>, criteria: Row, order: Option<OrderBy>)
    ensures multiset(Query(rows, criteria, order)) == multiset(Select(rows, (row: Row) => Matches(row, criteria)))
  {
  }

  /** A row of the table is returned exactly when it matches. */
  lemma QueryMember(rows: seq<Row>, criteria: Row, order: Option<OrderBy>, row: Row)
    ensures row in Query(rows, criteria, order) <==> row in rows && Matches(row, criteria)
  {
    var p := (x: Row) => Matches(x, criteria);
    SelectMember(rows, p, row);
    SameElements(Query(rows, criteria, order), Select(rows, p), row);
  }

  /** `'-created_date'`, the order every listing page asks for, returns the newest rows first. */
  lemma NewestFirst(rows: seq<Row>, criteria: Row)
    ensures var r := Query(rows, criteria, ApplyOrder("-created_date"));
      forall i, j :: 0 <= i < j < |r| ==> OrderKey(r[i], "created_date") >= OrderKey(r[j], "created_date")
  {
    assert "-created_date"[1..] == "created_date";
    ArrangeDescending(Select(rows, (row: Row) => Matches(row, criteria)), "created_date");
  }

  /** An empty filter object restricts nothing: all rows come back, in table order. */
  lemma EmptyCriteriaReturnsAll(rows: seq<Row>)
    ensures Query(rows, map[], None) == rows
  {
    SelectAll(rows, (row: Row) => Matches(row, map[]));
  }

  /** `query.limit(n)` when `n` is truthy; a zero or absent limit keeps everything. */
  function Limit(rows: seq<Row>, limit: nat): (r: seq<Row>)
    ensures limit == 0 || |rows| <= limit ==> r == rows
    ensures limit > 0 && |rows| > limit ==> r == rows[..limit]
  {
    if limit > 0 && |rows| > limit then rows[..limit] else rows
  }

  /** `Job.filter(filterObj, order)` as written: it has no limit parameter, so a limit the
      caller passes is dropped. */
  function JobFilter(jobs: seq<Row>, criteria: Row, order: string): (r: seq<Row>)
    ensures forall i :: 0 <= i < |r| ==> Matches(r[i], criteria) && r[i] in jobs
  {
    Query(jobs, criteria, ApplyOrder(order))
  }

  /** Whatever the order string, `Job.filter` returns the same rows as the unordered query. */
  lemma JobFilterPermutes(jobs: seq<Row>, criteria: Row, order: string)
    ensures multiset(JobFilter(jobs, criteria, order)) == multiset(Query(jobs, criteria, None))
  {
    QueryPermutes(jobs, criteria, ApplyOrder(order));
    QueryPermutes(jobs, criteria, None);
  }

  /** `Job.filter(filterObj, order, limit)` as its callers use it: at most `limit` rows,
      the first of the ordered matches. */
  function JobFilterLimited(jobs: seq<Row>, criteria: Row, order: string, limit: nat): (r: seq<Row>)
    ensures limit > 0 ==> |r| <= limit
    ensures limit == 0 ==> r == JobFilter(jobs, criteria, order)
    ensures r <= JobFilter(jobs, criteria, order)
  {
    Limit(Query(jobs, criteria, ApplyOrder(order)), limit)
  }

  /** Eleven active jobs overflow the ten-row request made by the feed. */
  lemma JobFilterIgnoresLimit()
    ensures var active := map["status" := Str("active")];
      |JobFilter(seq(11, i => active), active, "-created_date")| == 11
  {
    var active := map["status" := Str("active")];
    var jobs := seq(11, i => active);
    EmptyOrderless(jobs, active);
    SelectAll(jobs, (row: Row) => Matches(row, active));
  }

  lemma EmptyOrderless(jobs: seq<Row>, criteria: Row)
    ensures |JobFilter(jobs, criteria, "-created_date")| == |Select(jobs, (row: Row) => Matches(row, criteria))|
  {
    var r := JobFilter(jobs, criteria, "-created_date");
    assert |r| == |multiset(r)|;
  }

  /** With the limit honoured, the feed gets at most ten of those jobs. */
  lemma JobFilterLimitedHonoursLimit()
    ensures var active := map["status" := Str("active")];
      |JobFilterLimited(seq(11, i => active), active, "-created_date", 10)| == 10
  {
    var active := map["status" := Str("active")];
    JobFilterIgnoresLimit();
  }

  /** `Job.list(order, limit)`: every job, ordered, then limited. The jobs returned come
      from the table, all of them when the limit does not cut, in the order asked for. */
  function JobList(jobs: seq<Row>, order: string, limit: nat): (r: seq<Row>)
    ensures limit > 0 ==> |r| <= limit
    ensures |r| == if limit > 0 && |jobs| > limit then limit else |jobs|
    ensures multiset(r) <= multiset(jobs)
    ensures limit == 0 || |jobs| <= limit ==> multiset(r) == multiset(jobs)
    ensures InOrder(r, ApplyOrder(order))
  {
    var all := Arrange(jobs, ApplyOrder(order));
    ArrangeInOrder(jobs, ApplyOrder(order));
    if limit > 0 && |all| > limit then
      assert all == all[..limit] + all[limit..];
      PrefixInOrder(all, ApplyOrder(order), limit);
      all[..limit]
    else all
  }

  /** A limit only cuts the full listing short: the limited list is a prefix of it. */
  lemma JobListPrefix(jobs: seq<Row>, order: string, limit: nat)
    ensures JobList(jobs, order, limit) <= JobList(jobs, order, 0)
  {
  }

  /** A new row as `insert(obj).select().single()` returns it: the table supplies `id` and
      `created_date` unless the object sets them. */
  function Inserted(obj: Row, id: int, now: int): (r: Row)
    ensures forall k :: k in obj ==> k in r && r[k] == obj[k]
    ensures "id" !in obj ==> Field(r, "id") == Num(id)
    ensures r.Keys == obj.Keys + {"id", "created_date"}
  {
    map["id" := Num(id), "created_date" := Num(now)] + obj
  }

  /** The row answers to `.eq('id', id)`. */
  predicate HasId(row: Row, id: Value) {
    SameCell(Field(row, "id"), id)
  }

  /** `update(obj).eq('id', id)`: the rows with that id take the new values of `obj`. */
  function UpdateRows(rows: seq<Row>, id: Value, obj: Row): (r: seq<Row>)
    ensures |r| == |rows|
    ensures forall i :: 0 <= i < |rows| ==> r[i] == if HasId(rows[i], id) then rows[i] + obj else rows[i]
  {
    seq(|rows|, i requires 0 <= i < |rows| => if HasId(rows[i], id) then rows[i] + obj else rows[i])
  }

  /** Only the rows with that id change, and only in the keys of `obj`. */
  lemma UpdateRowsOnlyTouchesId(rows: seq<Row>, id: Value, obj: Row, i: int, k: string)
    requires 0 <= i < |rows|
    ensures !HasId(rows[i], id) ==> UpdateRows(rows, id, obj)[i] == rows[i]
    ensures k !in obj ==> Field(UpdateRows(rows, id, obj)[i], k) == Field(rows[i], k)
    ensures HasId(rows[i], id) && k in obj ==> Field(UpdateRows(rows, id, obj)[i], k) == obj[k]
  {
  }

  /** `delete().eq('id', id)`: every row with that id goes, the rest stay in order. */
  function DeleteRows(rows: seq<Row>, id: Value): (r: seq<Row>)
    ensures forall row :: row in r <==> row in rows && !HasId(row, id)
    ensures IsSubsequence(r, rows)
  {
    var keep := (row: Row) => !HasId(row, id);
    assert forall row :: row in Select(rows, keep) <==> row in rows && keep(row) by {
      forall row ensures row in Select(rows, keep) <==> row in rows && keep(row) {
        SelectMember(rows, keep, row);
      }
    }
    Select(rows, keep)
  }

  /** The number of rows with that id. */
  function CountId(rows: seq<Row>, id: Value): nat {
    Count(rows, (row: Row) => HasId(row, id))
  }

  // ---------------------------------------------------------------- entity surface

  datatype Entity = UserProfileEntity | JobEntity | ApplicationEntity | SavedJobEntity

  datatype Operation = FilterOp | ListOp | CreateOp | UpdateOp | DeleteOp

  /** The operations each entity object of `api.entities` defines, as written. */
  predicate Exposes(e: Entity, op: Operation) {
    match e
    case UserProfileEntity => op in {FilterOp, CreateOp, UpdateOp, DeleteOp}
    case JobEntity => true
    case ApplicationEntity => op in {FilterOp, UpdateOp, DeleteOp}
    case SavedJobEntity => op in {FilterOp, DeleteOp}
  }

  /** The operations the pages call: `SavedJob.create` from the job list, the feed and the
      job details page, and `Application.create` from the apply handler. */
  const PageCalls: seq<(Entity, Operation)> := [
    (UserProfileEntity, FilterOp), (UserProfileEntity, CreateOp), (UserProfileEntity, UpdateOp),
    (UserProfileEntity, DeleteOp), (JobEntity, FilterOp), (JobEntity, ListOp), (JobEntity, CreateOp),
    (JobEntity, UpdateOp), (JobEntity, DeleteOp), (ApplicationEntity, FilterOp),
    (ApplicationEntity, CreateOp), (ApplicationEntity, UpdateOp), (ApplicationEntity, DeleteOp),
    (SavedJobEntity, FilterOp), (SavedJobEntity, CreateOp), (SavedJobEntity, DeleteOp)
  ]

  function EntityName(e: Entity): string {
    match e
    case UserProfileEntity => "UserProfile"
    case JobEntity => "Job"
    case ApplicationEntity => "Application"
    case SavedJobEntity => "SavedJob"
  }

  /** Calling an operation the entity does not define throws a `TypeError`. */
  function Invoke(e: Entity, op: Operation): (r: Outcome<()>)
    ensures r.Ok? <==> Exposes(e, op)
  {
    if Exposes(e, op) then Ok(())
    else Err(Error("api.entities." + EntityName(e) + "." + OperationName(op) + " is not a function"))
  }

  function OperationName(op: Operation): string {
    match op
    case FilterOp => "filter"
    case ListOp => "list"
    case CreateOp => "create"
    case UpdateOp => "update"
    case DeleteOp => "delete"
  }

  /** As written, two calls the pages make fail: there is no `Application.create` and no
      `SavedJob.create`. */
  lemma MissingCreates()
    ensures exists c :: c in PageCalls && Invoke(c.0, c.1).Err?
    ensures Invoke(ApplicationEntity, CreateOp).Err? && Invoke(SavedJobEntity, CreateOp).Err?
  {
    assert PageCalls[10] == (ApplicationEntity, CreateOp);
  }

  /** The surface the callers are written against: every entity inserts rows. */
  predicate ExposesIntended(e: Entity, op: Operation) {
    Exposes(e, op) || op == CreateOp
  }

  /** With `create` on every entity each call the pages make is defined. */
  lemma IntendedCoversPageCalls()
    ensures forall c :: c in PageCalls ==> ExposesIntended(c.0, c.1)
  {
  }

  // ---------------------------------------------------------------- uploads

  /** The browser `File` handed to `UploadFile`: an empty name or type is a missing one. */
  datatype FileInfo = FileInfo(name: string, mimeType: string)

  /** The two bucket settings; an empty one falls back to the built-in default. */
  datatype BucketConfig = BucketConfig(profileBucket: string, resumeBucket: string)

  /** Where a file goes: the storage bucket and the object path. */
  datatype UploadTarget = UploadTarget(bucket: string, path: string)

  predicate IsImage(f: FileInfo) {
    "image/" <= f.mimeType
  }

  /** `${folder}/${now}-${rand}-${base}.${ext}`. */
  function ObjectPath(folder: string, now: nat, rand: string, base: string, ext: string): (p: string)
    ensures folder + "/" <= p
    ensures EndsWith(p, "-" + base + "." + ext)
  {
    var head := folder + "/";
    var tail := "-" + base + "." + ext;
    var middle := NatText(now) + "-" + rand;
    EndsWithConcat(head + middle, tail);
    assert head + middle + tail == head + (middle + tail);
    head + middle + tail
  }

  function Bucket(f: FileInfo, config: BucketConfig): string {
    if IsImage(f) then (if config.profileBucket != "" then config.profileBucket else "Profilephoto")
    else (if config.resumeBucket != "" then config.resumeBucket else "Resume")
  }

  /** The bucket and path `UploadFile` writes to, for the clock value `now` and random
      suffix `rand` it draws. */
  function Target(f: FileInfo, config: BucketConfig, now: nat, rand: string): (t: UploadTarget)
    ensures IsImage(f) ==> t.bucket == (if config.profileBucket != "" then config.profileBucket else "Profilephoto")
    ensures !IsImage(f) ==> t.bucket == (if config.resumeBucket != "" then config.resumeBucket else "Resume")
    ensures (if IsImage(f) then "images" else "files") + "/" <= t.path
    ensures EndsWith(t.path, "-" + SanitizeFileName(StripExtension(if f.name == "" then "file" else f.name)) + "." + GetFileExt(f.name))
  {
    var ext := GetFileExt(f.name);
    var base := SanitizeFileName(StripExtension(if f.name == "" then "file" else f.name));
    var folder := if IsImage(f) then "images" else "files";
    UploadTarget(Bucket(f, config), ObjectPath(folder, now, rand, base, ext))
  }

  /** The storage service's answers: the upload's error, if any, and the public URL it hands
      out ("" for none). */
  datatype StorageReply = StorageReply(uploadError: Option<Error>, publicUrl: string)

  /** `UploadFile({ file })`: the public URL of the stored file, or the error that stops it. */
  function UploadFile(file: Option<FileInfo>, config: BucketConfig, now: nat, rand: string, reply: StorageReply): (r: Outcome<string>)
    ensures file.None? ==> r == Err(Error("No file provided"))
    ensures file.Some? && reply.uploadError.Some? ==> r == Err(reply.uploadError.value)
    ensures file.Some? && reply.uploadError.None? && reply.publicUrl == "" ==> r == Err(Error("Failed to generate file URL"))
    ensures r.Ok? <==> file.Some? && reply.uploadError.None? && reply.publicUrl != ""
    ensures r.Ok? ==> r.value == reply.publicUrl
  {
    match file
    case None => Err(Error("No file provided"))
    case Some(_) =>
      if reply.uploadError.Some? then Err(reply.uploadError.value)
      else if reply.publicUrl == "" then Err(Error("Failed to generate file URL"))
      else Ok(reply.publicUrl)
  }

  /** A well-formed `base.ext` name ends up as `-base.ext`, sanitised and lower-cased. */
  lemma TargetOfNamedFile(f: FileInfo, config: BucketConfig, now: nat, rand: string, base: string, ext: string)
    requires f.name == base + "." + ext
    requires ext != "" && '.' !in ext && '/' !in ext
    ensures EndsWith(Target(f, config, now, rand).path, "-" + SanitizeFileName(base) + "." + Lower(ext))
  {
    StripExtensionOf(base, ext);
    GetFileExtOf(base, ext);
  }
}
