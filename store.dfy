/** The Supabase project the pages talk to, as in-memory tables behind the entity operations of
    `src/api/apiClient.js`. Each operation is a transition function on the tables; the `Store`
    class holds the current tables and applies them. */
module Store {

  import opened Wrappers
  import opened Seqs
  import opened Entities
  import opened ApiClient

  /** The tables: the profile tables that exist (under either spelling of their name), the
      `Job`, `Application` and `SavedJob` tables, and the next generated id. */
  datatype Tables = Tables(
    profiles: map<string, seq<Row>>,
    jobs: seq<Row>,
    applications: seq<Row>,
    savedJobs: seq<Row>,
    nextId: nat)

  /** The spellings the profile operations try, in order. */
  const ProfileTableNames: seq<string> := ["userprofile", "UserProfile"]

  /** What trying a profile operation on one table name gives: the name when the table exists. */
  function Probe(tables: map<string, seq<Row>>): string -> Outcome<string> {
    (name: string) => if name in tables then Ok(name) else Err(MissingTable(name))
  }

  /** The profile table the operations use: the first spelling that exists. */
  function ProfileTable(t: Tables): (r: Outcome<string>)
    ensures r.Ok? ==> r.value in t.profiles && r.value in ProfileTableNames
    ensures r.Err? <==> (forall n :: n in ProfileTableNames ==> n !in t.profiles)
  {
    if "userprofile" in t.profiles then Ok("userprofile")
    else if "UserProfile" in t.profiles then Ok("UserProfile")
    else Err(MissingTable("UserProfile"))
  }

  /** The fallback loop over the two spellings settles on `ProfileTable`. */
  lemma ProbeSettles(t: Tables)
    ensures Fallback(ProfileTableNames, Probe(t.profiles), None) == ProfileTable(t)
  {
    var names := ProfileTableNames;
    var op := Probe(t.profiles);
    if "userprofile" in t.profiles {
      FallbackFirstDecisive(names, op, None, 0);
    } else {
      MissingTableIsClassified("userprofile");
      assert MissingAt(names, op, 0);
      if "UserProfile" in t.profiles {
        FallbackFirstDecisive(names, op, None, 1);
      } else {
        MissingTableIsClassified("UserProfile");
        assert MissingAt(names, op, 1);
        FallbackAllMissing(names, op);
      }
    }
  }

  /** The error `.single()` reports when an update does not hit exactly one row. */
  const NotSingle: Error := Error("JSON object requested, multiple (or no) rows returned")

  /** `update(obj).eq('id', id).select().single()` on one table: it applies only when exactly
      one row has the id, and then returns that row with the new values. */
  function UpdateOne(rows: seq<Row>, id: Value, obj: Row): (r: (seq<Row>, Outcome<Row>))
    ensures CountId(rows, id) == 1 ==> r.0 == UpdateRows(rows, id, obj) && r.1.Ok?
    ensures CountId(rows, id) != 1 ==> r == (rows, Err(NotSingle))
    ensures r.1.Ok? ==> r.1.value in r.0
  {
    var p := (row: Row) => HasId(row, id);
    if CountId(rows, id) == 1 then
      var x := Select(rows, p)[0];
      assert x in rows && p(x);
      var i :| 0 <= i < |rows| && rows[i] == x;
      assert UpdateRows(rows, id, obj)[i] == x + obj;
      (UpdateRows(rows, id, obj), Ok(x + obj))
    else (rows, Err(NotSingle))
  }

  // ---------------------------------------------------------------- transitions

  /** `UserProfile.filter(criteria)`. */
  function FilterProfilesIn(t: Tables, criteria: Row): (r: Outcome<seq<Row>>)
    ensures r.Err? <==> ProfileTable(t).Err?
    ensures r.Err? ==> r.error == ProfileTable(t).error
    ensures r.Ok? ==> r.value == Query(t.profiles[ProfileTable(t).value], criteria, None)
  {
    match ProfileTable(t)
    case Err(e) => Err(e)
    case Ok(n) => Ok(Query(t.profiles[n], criteria, None))
  }

  /** The profiles a user created (`UserProfile.filter({ created_by: email })`). */
  function ProfilesOf(t: Tables, email: string): Outcome<seq<Row>> {
    FilterProfilesIn(t, map["created_by" := Str(email)])
  }

  /** The user already has a profile. */
  predicate Found(t: Tables, u: User) {
    ProfilesOf(t, u.email).Ok? && |ProfilesOf(t, u.email).value| > 0
  }

  /** `UserProfile.create(obj)`: one new row at the end of the profile table in use. */
  function CreateProfileIn(t: Tables, obj: Row, now: int): (r: (Tables, Outcome<Row>))
    ensures ProfileTable(t).Err? ==> r == (t, Err(ProfileTable(t).error))
    ensures ProfileTable(t).Ok? ==> var n := ProfileTable(t).value; var row := Inserted(obj, t.nextId, now);
      r == (t.(profiles := t.profiles[n := t.profiles[n] + [row]], nextId := t.nextId + 1), Ok(row))
  {
    match ProfileTable(t)
    case Err(e) => (t, Err(e))
    case Ok(n) =>
      var row := Inserted(obj, t.nextId, now);
      (t.(profiles := t.profiles[n := t.profiles[n] + [row]], nextId := t.nextId + 1), Ok(row))
  }

  /** `UserProfile.update(id, obj)`. */
  function UpdateProfileIn(t: Tables, id: Value, obj: Row): (r: (Tables, Outcome<Row>))
    ensures ProfileTable(t).Err? ==> r == (t, Err(ProfileTable(t).error))
    ensures ProfileTable(t).Ok? ==> var n := ProfileTable(t).value; var u := UpdateOne(t.profiles[n], id, obj);
      r == (t.(profiles := t.profiles[n := u.0]), u.1)
  {
    match ProfileTable(t)
    case Err(e) => (t, Err(e))
    case Ok(n) =>
      var u := UpdateOne(t.profiles[n], id, obj);
      (t.(profiles := t.profiles[n := u.0]), u.1)
  }

  /** `UserProfile.delete(id)`. */
  function DeleteProfileIn(t: Tables, id: Value): (r: (Tables, Outcome<()>))
    ensures ProfileTable(t).Err? ==> r == (t, Err(ProfileTable(t).error))
    ensures ProfileTable(t).Ok? ==> var n := ProfileTable(t).value;
      r == (t.(profiles := t.profiles[n := DeleteRows(t.profiles[n], id)]), Ok(()))
  {
    match ProfileTable(t)
    case Err(e) => (t, Err(e))
    case Ok(n) => (t.(profiles := t.profiles[n := DeleteRows(t.profiles[n], id)]), Ok(()))
  }

  /** `Job.create(obj)` when the database accepts the row. */
  function CreateJobIn(t: Tables, obj: Row, now: int): (r: (Tables, Row))
    ensures r.1 == Inserted(obj, t.nextId, now)
    ensures r.0 == t.(jobs := t.jobs + [r.1], nextId := t.nextId + 1)
  {
    var row := Inserted(obj, t.nextId, now);
    (t.(jobs := t.jobs + [row], nextId := t.nextId + 1), row)
  }

  /** `Job.update(id, obj)`. */
  function UpdateJobIn(t: Tables, id: Value, obj: Row): (r: (Tables, Outcome<Row>))
    ensures var u := UpdateOne(t.jobs, id, obj); r == (t.(jobs := u.0), u.1)
  {
    var u := UpdateOne(t.jobs, id, obj);
    (t.(jobs := u.0), u.1)
  }

  /** The `Application.create(obj)` the apply flow is written against, an insert like
      `Job.create`; `apiClient.js` does not define it (the `Store` method models the call as
      it is made). */
  function CreateApplicationIn(t: Tables, obj: Row, now: int): (r: (Tables, Row))
    ensures r.1 == Inserted(obj, t.nextId, now)
    ensures r.0 == t.(applications := t.applications + [r.1], nextId := t.nextId + 1)
  {
    var row := Inserted(obj, t.nextId, now);
    (t.(applications := t.applications + [row], nextId := t.nextId + 1), row)
  }

  /** `Application.update(id, obj)`. */
  function UpdateApplicationIn(t: Tables, id: Value, obj: Row): (r: (Tables, Outcome<Row>))
    ensures var u := UpdateOne(t.applications, id, obj); r == (t.(applications := u.0), u.1)
  {
    var u := UpdateOne(t.applications, id, obj);
    (t.(applications := u.0), u.1)
  }

  /** The `SavedJob.create(obj)` the save toggles are written against, an insert like
      `Job.create`; `apiClient.js` does not define it (the `Store` method models the call as
      it is made). */
  function CreateSavedJobIn(t: Tables, obj: Row, now: int): (r: (Tables, Row))
    ensures r.1 == Inserted(obj, t.nextId, now)
    ensures r.0 == t.(savedJobs := t.savedJobs + [r.1], nextId := t.nextId + 1)
  {
    var row := Inserted(obj, t.nextId, now);
    (t.(savedJobs := t.savedJobs + [row], nextId := t.nextId + 1), row)
  }

  // ---------------------------------------------------------------- id invariants

  /** The text form of a row's id, which is what `.eq('id', …)` compares. */
  function IdKey(row: Row): string {
    ValueText(Field(row, "id"))
  }

  /** Every row carries a generated numeric id below `next`, and no two share one. */
  predicate WellKeyed(rows: seq<Row>, next: nat) {
    (forall i :: 0 <= i < |rows| ==> Field(rows[i], "id").Num? && 0 <= Field(rows[i], "id").n < next) &&
    (forall i, j :: 0 <= i < j < |rows| ==> Field(rows[i], "id") != Field(rows[j], "id"))
  }

  /** The invariant the generated ids keep across every table. */
  predicate Valid(t: Tables) {
    WellKeyed(t.jobs, t.nextId) && WellKeyed(t.applications, t.nextId) && WellKeyed(t.savedJobs, t.nextId) &&
    forall n :: n in t.profiles ==> WellKeyed(t.profiles[n], t.nextId)
  }

  /** Inserting an object without its own id keeps the ids generated and distinct. */
  lemma InsertKeepsKeys(rows: seq<Row>, next: nat, obj: Row, now: int)
    requires WellKeyed(rows, next) && "id" !in obj
    ensures WellKeyed(rows + [Inserted(obj, next, now)], next + 1)
  {
    var r := rows + [Inserted(obj, next, now)];
    assert forall i :: 0 <= i < |rows| ==> r[i] == rows[i];
  }

  /** Deleting keeps the ids generated and distinct. */
  lemma {:induction false} DeleteKeepsKeys(rows: seq<Row>, next: nat, id: Value)
    requires WellKeyed(rows, next)
    ensures WellKeyed(DeleteRows(rows, id), next)
  {
    var r := DeleteRows(rows, id);
    forall i | 0 <= i < |r| ensures Field(r[i], "id").Num? && 0 <= Field(r[i], "id").n < next {
      assert r[i] in rows;
    }
    DeleteKeepsDistinct(rows, id);
  }

  /** No two rows share an id. */
  predicate DistinctIds(rows: seq<Row>) {
    forall i, j :: 0 <= i < j < |rows| ==> Field(rows[i], "id") != Field(rows[j], "id")
  }

  /** Deleting by id keeps the ids of the remaining rows distinct. */
  lemma {:induction false} DeleteKeepsDistinct(rows: seq<Row>, id: Value)
    requires DistinctIds(rows)
    ensures DistinctIds(DeleteRows(rows, id))
    decreases |rows|
  {
    if rows != [] {
      var rest := rows[1..];
      DistinctTail(rows);
      DeleteKeepsDistinct(rest, id);
      DeleteRowsCons(rows, id);
      if !HasId(rows[0], id) {
        var tail := DeleteRows(rest, id);
        IdAbsentFromPart(rows[0], rest, tail);
        ConsDistinct(rows[0], tail);
      }
    }
  }

  /** The tail of rows with distinct ids has distinct ids, none of them the head's. */
  lemma DistinctTail(rows: seq<Row>)
    requires rows != [] && DistinctIds(rows)
    ensures DistinctIds(rows[1..])
    ensures forall k :: 0 <= k < |rows| - 1 ==> Field(rows[0], "id") != Field(rows[1..][k], "id")
  {
    var rest := rows[1..];
    forall i, j | 0 <= i < j < |rest| ensures Field(rest[i], "id") != Field(rest[j], "id") {
      assert rest[i] == rows[i + 1] && rest[j] == rows[j + 1];
    }
    forall k | 0 <= k < |rest| ensures Field(rows[0], "id") != Field(rest[k], "id") {
      assert rest[k] == rows[k + 1];
    }
  }

  /** Deleting by id decides on the first row, then deletes from the rest. */
  lemma DeleteRowsCons(rows: seq<Row>, id: Value)
    requires rows != []
    ensures DeleteRows(rows, id) == if HasId(rows[0], id) then DeleteRows(rows[1..], id) else [rows[0]] + DeleteRows(rows[1..], id)
  {
  }

  /** An id that no row of `rest` has is had by no row taken from `rest`. */
  lemma IdAbsentFromPart(h: Row, rest: seq<Row>, part: seq<Row>)
    requires forall k :: 0 <= k < |rest| ==> Field(h, "id") != Field(rest[k], "id")
    requires forall x :: x in part ==> x in rest
    ensures forall j :: 0 <= j < |part| ==> Field(h, "id") != Field(part[j], "id")
  {
    forall j | 0 <= j < |part| ensures Field(h, "id") != Field(part[j], "id") {
      assert part[j] in rest;
      var k :| 0 <= k < |rest| && rest[k] == part[j];
    }
  }

  /** A row whose id no other row has may go in front of rows with distinct ids. */
  lemma ConsDistinct(h: Row, tail: seq<Row>)
    requires DistinctIds(tail)
    requires forall j :: 0 <= j < |tail| ==> Field(h, "id") != Field(tail[j], "id")
    ensures DistinctIds([h] + tail)
  {
    var r := [h] + tail;
    forall i, j | 0 <= i < j < |r| ensures Field(r[i], "id") != Field(r[j], "id") {
      assert r[j] == tail[j - 1];
      if i > 0 {
        assert r[i] == tail[i - 1];
      }
    }
  }

  /** With generated keys, an id names at most one row, so an update of a present id succeeds. */
  lemma {:induction false} KeyedCountAtMostOne(rows: seq<Row>, next: nat, n: nat)
    requires WellKeyed(rows, next)
    ensures CountId(rows, Num(n)) <= 1
    decreases |rows|
  {
    if rows != [] {
      var rest := rows[1..];
      assert WellKeyed(rest, next) by {
        forall i, j | 0 <= i < j < |rest| ensures Field(rest[i], "id") != Field(rest[j], "id") {
          assert rest[i] == rows[i + 1] && rest[j] == rows[j + 1];
        }
      }
      KeyedCountAtMostOne(rest, next, n);
      var p := (row: Row) => HasId(row, Num(n));
      if p(rows[0]) {
        assert Field(rows[0], "id") == Num(n) by {
          NatTextInjective(Field(rows[0], "id").n, n);
        }
        assert Select(rest, p) == [] by {
          if Select(rest, p) != [] {
            var x := Select(rest, p)[0];
            SelectMember(rest, p, x);
            var k :| 0 <= k < |rest| && rest[k] == x;
            assert rows[k + 1] == x;
            NatTextInjective(Field(x, "id").n, n);
          }
        }
      }
    }
  }

  /** With generated keys, updating the row of an existing id succeeds. */
  lemma KeyedUpdateSucceeds(rows: seq<Row>, next: nat, i: int, obj: Row)
    requires WellKeyed(rows, next) && 0 <= i < |rows|
    ensures UpdateOne(rows, Field(rows[i], "id"), obj).1.Ok?
  {
    var id := Field(rows[i], "id");
    KeyedCountAtMostOne(rows, next, id.n);
    var p := (row: Row) => HasId(row, id);
    SelectMember(rows, p, rows[i]);
  }

  /** Different natural numbers have different decimal texts. */
  lemma NatTextInjective(a: int, b: nat)
    requires a >= 0
    requires Strings.IntText(a) == Strings.IntText(b)
    ensures a == b
  {
    Strings.NatTextValue(a);
    Strings.NatTextValue(b);
  }

  /** Creating a job, an application or a saved job keeps the ids generated and distinct. */
  lemma CreatesKeepValid(t: Tables, obj: Row, now: int)
    requires Valid(t) && "id" !in obj
    ensures Valid(CreateJobIn(t, obj, now).0)
    ensures Valid(CreateApplicationIn(t, obj, now).0)
    ensures Valid(CreateSavedJobIn(t, obj, now).0)
  {
    InsertKeepsKeys(t.jobs, t.nextId, obj, now);
    InsertKeepsKeys(t.applications, t.nextId, obj, now);
    InsertKeepsKeys(t.savedJobs, t.nextId, obj, now);
    GrowKeepsKeys(t.jobs, t.nextId);
    GrowKeepsKeys(t.applications, t.nextId);
    GrowKeepsKeys(t.savedJobs, t.nextId);
    ProfilesGrow(t);
  }

  lemma GrowKeepsKeys(rows: seq<Row>, next: nat)
    requires WellKeyed(rows, next)
    ensures WellKeyed(rows, next + 1)
  {
  }

  lemma ProfilesGrow(t: Tables)
    requires forall n :: n in t.profiles ==> WellKeyed(t.profiles[n], t.nextId)
    ensures forall n :: n in t.profiles ==> WellKeyed(t.profiles[n], t.nextId + 1)
  {
    forall n | n in t.profiles ensures WellKeyed(t.profiles[n], t.nextId + 1) {
      GrowKeepsKeys(t.profiles[n], t.nextId);
    }
  }

  /** Updating with an object that carries no id keeps the ids as they are. */
  lemma UpdateKeepsKeys(rows: seq<Row>, next: nat, id: Value, obj: Row)
    requires WellKeyed(rows, next) && "id" !in obj
    ensures WellKeyed(UpdateOne(rows, id, obj).0, next)
  {
    var r := UpdateOne(rows, id, obj).0;
    assert forall i :: 0 <= i < |rows| ==> Field(r[i], "id") == Field(rows[i], "id");
  }

  /** Creating, deleting and updating profiles keeps the ids generated and distinct. */
  lemma ProfileChangesKeepValid(t: Tables, obj: Row, id: Value, now: int)
    requires Valid(t) && "id" !in obj
    ensures Valid(CreateProfileIn(t, obj, now).0)
    ensures Valid(DeleteProfileIn(t, id).0)
    ensures Valid(UpdateProfileIn(t, id, obj).0)
  {
    CreateProfileKeepsValid(t, obj, now);
    DeleteProfileKeepsValid(t, id);
    UpdateProfileKeepsValid(t, id, obj);
  }

  /** A new profile gets the next id, which no row has yet. */
  lemma CreateProfileKeepsValid(t: Tables, obj: Row, now: int)
    requires Valid(t) && "id" !in obj
    ensures Valid(CreateProfileIn(t, obj, now).0)
  {
    if ProfileTable(t).Ok? {
      var n := ProfileTable(t).value;
      InsertKeepsKeys(t.profiles[n], t.nextId, obj, now);
      GrowKeepsKeys(t.jobs, t.nextId);
      GrowKeepsKeys(t.applications, t.nextId);
      GrowKeepsKeys(t.savedJobs, t.nextId);
      ProfilesGrow(t);
      var r := CreateProfileIn(t, obj, now).0;
      forall m | m in r.profiles ensures WellKeyed(r.profiles[m], r.nextId) {
        if m != n {
          assert r.profiles[m] == t.profiles[m];
        }
      }
    }
  }

  /** Deleting profiles leaves the remaining ids as they were. */
  lemma DeleteProfileKeepsValid(t: Tables, id: Value)
    requires Valid(t)
    ensures Valid(DeleteProfileIn(t, id).0)
  {
    if ProfileTable(t).Ok? {
      var n := ProfileTable(t).value;
      DeleteKeepsKeys(t.profiles[n], t.nextId, id);
      var r := DeleteProfileIn(t, id).0;
      forall m | m in r.profiles ensures WellKeyed(r.profiles[m], r.nextId) {
        if m != n {
          assert r.profiles[m] == t.profiles[m];
        }
      }
    }
  }

  /** Updating a profile with an object that carries no id keeps every id. */
  lemma UpdateProfileKeepsValid(t: Tables, id: Value, obj: Row)
    requires Valid(t) && "id" !in obj
    ensures Valid(UpdateProfileIn(t, id, obj).0)
  {
    if ProfileTable(t).Ok? {
      var n := ProfileTable(t).value;
      UpdateKeepsKeys(t.profiles[n], t.nextId, id, obj);
      var r := UpdateProfileIn(t, id, obj).0;
      forall m | m in r.profiles ensures WellKeyed(r.profiles[m], r.nextId) {
        if m != n {
          assert r.profiles[m] == t.profiles[m];
        }
      }
    }
  }

  // ---------------------------------------------------------------- viewer lists

  /** One column of the rows a filter finds (`rows.map(r => r[column])`). */
  function ColumnOf(rows: seq<Row>, criteria: Row, column: string): (r: seq<Value>)
    ensures |r| == |Query(rows, criteria, None)|
    ensures forall i :: 0 <= i < |r| ==> r[i] == Field(Query(rows, criteria, None)[i], column)
  {
    Map(Query(rows, criteria, None), (row: Row) => Field(row, column))
  }

  /** A value is in the column exactly when a matching row holds it. */
  lemma ColumnOfMember(rows: seq<Row>, criteria: Row, column: string, v: Value)
    ensures v in ColumnOf(rows, criteria, column) <==> exists row :: row in rows && Matches(row, criteria) && Field(row, column) == v
  {
    var found := Query(rows, criteria, None);
    var col := ColumnOf(rows, criteria, column);
    if v in col {
      var i :| 0 <= i < |col| && col[i] == v;
      QueryMember(rows, criteria, None, found[i]);
    }
    if row :| row in rows && Matches(row, criteria) && Field(row, column) == v {
      QueryMember(rows, criteria, None, row);
      var i :| 0 <= i < |found| && found[i] == row;
      assert col[i] == v;
    }
  }

  /** The job ids of a user's saved rows. */
  function SavedIds(db: Tables, email: string): (r: seq<Value>)
    ensures |r| == |Query(db.savedJobs, map["user_email" := Str(email)], None)|
  {
    ColumnOf(db.savedJobs, map["user_email" := Str(email)], "job_id")
  }

  /** The job ids of a user's applications. */
  function AppliedIds(db: Tables, email: string): (r: seq<Value>)
    ensures |r| == |Query(db.applications, map["candidate_email" := Str(email)], None)|
  {
    ColumnOf(db.applications, map["candidate_email" := Str(email)], "job_id")
  }

  /** Under a one-column filter, a value is in the column exactly when a row with that cell
      holds it. */
  lemma ColumnOfOneMember(rows: seq<Row>, column: string, want: Value, of: string, v: Value)
    ensures v in ColumnOf(rows, map[column := want], of) <==>
      exists row :: row in rows && SameCell(Field(row, column), want) && Field(row, of) == v
  {
    var criteria := map[column := want];
    ColumnOfMember(rows, criteria, of, v);
    if row :| row in rows && Matches(row, criteria) && Field(row, of) == v {
      MatchesOne(row, column, want);
    }
    if row :| row in rows && SameCell(Field(row, column), want) && Field(row, of) == v {
      MatchesOne(row, column, want);
    }
  }

  /** A job id is among the saved ids exactly when one of the user's saved rows names it. */
  lemma SavedIdsMember(db: Tables, email: string, v: Value)
    ensures v in SavedIds(db, email) <==>
      exists s :: s in db.savedJobs && SameCell(Field(s, "user_email"), Str(email)) && Field(s, "job_id") == v
  {
    ColumnOfOneMember(db.savedJobs, "user_email", Str(email), "job_id", v);
  }

  /** A job id is among the applied ids exactly when one of the user's applications names it. */
  lemma AppliedIdsMember(db: Tables, email: string, v: Value)
    ensures v in AppliedIds(db, email) <==>
      exists a :: a in db.applications && SameCell(Field(a, "candidate_email"), Str(email)) && Field(a, "job_id") == v
  {
    ColumnOfOneMember(db.applications, "candidate_email", Str(email), "job_id", v);
  }

  // ---------------------------------------------------------------- batch deletes

  /** The four tables a batch delete can name. */
  datatype Table = ProfileRows | JobRows | ApplicationRows | SavedJobRows

  /** Deleting by each id in turn. */
  function DeleteEach(rows: seq<Row>, ids: seq<Value>): (r: seq<Row>)
    ensures forall row :: row in r ==> row in rows
    decreases |ids|
  {
    if ids == [] then rows
    else
      var before := DeleteEach(rows, ids[..|ids| - 1]);
      DeleteRows(before, ids[|ids| - 1])
  }

  /** The row answers to none of the ids. */
  predicate NoneOf(row: Row, ids: seq<Value>) {
    forall i :: 0 <= i < |ids| ==> !HasId(row, ids[i])
  }

  /** Answering to none of the ids is answering to none of the earlier ones nor to the last. */
  lemma NoneOfSplit(row: Row, ids: seq<Value>)
    requires ids != []
    ensures NoneOf(row, ids) <==> NoneOf(row, ids[..|ids| - 1]) && !HasId(row, ids[|ids| - 1])
  {
    var front := ids[..|ids| - 1];
    assert forall i :: 0 <= i < |front| ==> front[i] == ids[i];
  }

  /** A row survives deleting by several ids exactly when it answers to none of them. */
  lemma {:induction false} DeleteEachMember(rows: seq<Row>, ids: seq<Value>, row: Row)
    ensures row in DeleteEach(rows, ids) <==> row in rows && NoneOf(row, ids)
    decreases |ids|
  {
    if ids != [] {
      DeleteEachMember(rows, ids[..|ids| - 1], row);
      NoneOfSplit(row, ids);
    }
  }

  /** Deleting by each id of a list of rows removes every one of them that has an id. */
  lemma DeleteOwnIds(rows: seq<Row>, gone: seq<Row>, row: Row)
    requires row in gone && Field(row, "id") != Null
    ensures row !in DeleteEach(rows, Map(gone, (g: Row) => Field(g, "id")))
  {
    var ids := Map(gone, (g: Row) => Field(g, "id"));
    var i :| 0 <= i < |gone| && gone[i] == row;
    assert ids[i] == Field(row, "id");
    DeleteEachMember(rows, ids, row);
  }

  /** `rows.map(row => row.id)`. */
  function IdsOf(rows: seq<Row>): (ids: seq<Value>)
    ensures |ids| == |rows|
    ensures forall i :: 0 <= i < |rows| ==> ids[i] == Field(rows[i], "id")
  {
    Map(rows, (row: Row) => Field(row, "id"))
  }

  /** With generated keys, a row answers only to its own id. */
  lemma KeyedSameRow(rows: seq<Row>, next: nat, a: Row, b: Row)
    requires WellKeyed(rows, next) && a in rows && b in rows
    requires HasId(a, Field(b, "id"))
    ensures a == b
  {
    var i :| 0 <= i < |rows| && rows[i] == a;
    var j :| 0 <= j < |rows| && rows[j] == b;
    NatTextInjective(Field(a, "id").n, Field(b, "id").n);
    SameIdSameIndex(rows, next, i, j);
  }

  /** With generated keys, two positions holding the same id are one position. */
  lemma SameIdSameIndex(rows: seq<Row>, next: nat, i: nat, j: nat)
    requires WellKeyed(rows, next) && i < |rows| && j < |rows|
    requires Field(rows[i], "id") == Field(rows[j], "id")
    ensures i == j
  {
  }

  /** With generated keys, deleting by the ids of some rows of the table (each id at least
      once, and no other) removes exactly those rows. */
  lemma DeleteFoundRows(rows: seq<Row>, next: nat, found: seq<Row>, ids: seq<Value>, row: Row)
    requires WellKeyed(rows, next)
    requires forall x :: x in found ==> x in rows && Field(x, "id") in ids
    requires forall v :: v in ids ==> v in IdsOf(found)
    ensures row in DeleteEach(rows, ids) <==> row in rows && row !in found
  {
    DeleteEachMember(rows, ids, row);
    if row in rows && row in found {
      var k :| 0 <= k < |ids| && ids[k] == Field(row, "id");
      assert HasId(row, ids[k]);
    }
    if row in rows && row !in found {
      forall k | 0 <= k < |ids| ensures !HasId(row, ids[k]) {
        assert ids[k] in IdsOf(found);
        var j :| 0 <= j < |found| && IdsOf(found)[j] == ids[k];
        if HasId(row, ids[k]) {
          KeyedSameRow(rows, next, row, found[j]);
        }
      }
    }
  }

  /** The id of a row is among the ids of any list holding it. */
  lemma IdsOfMember(rows: seq<Row>, x: Row)
    requires x in rows
    ensures Field(x, "id") in IdsOf(rows)
  {
    var i :| 0 <= i < |rows| && rows[i] == x;
    assert IdsOf(rows)[i] == Field(x, "id");
  }

  /** With generated keys, deleting by the ids a query found removes exactly the matching
      rows. */
  lemma DeleteQueried(rows: seq<Row>, next: nat, criteria: Row, row: Row)
    requires WellKeyed(rows, next)
    ensures row in DeleteEach(rows, IdsOf(Query(rows, criteria, None))) <==> row in rows && !Matches(row, criteria)
  {
    var found := Query(rows, criteria, None);
    forall x | x in found ensures x in rows && Field(x, "id") in IdsOf(found) {
      IdsOfMember(found, x);
    }
    DeleteFoundRows(rows, next, found, IdsOf(found), row);
    QueryMember(rows, criteria, None, row);
  }

  /** The tables after deleting the given ids from one table (nothing, for a profile table that
      does not exist). */
  function DeleteAllIn(t: Tables, which: Table, ids: seq<Value>): (r: Tables)
    ensures r.savedJobs == if which == SavedJobRows then DeleteEach(t.savedJobs, ids) else t.savedJobs
    ensures r.applications == if which == ApplicationRows then DeleteEach(t.applications, ids) else t.applications
    ensures r.jobs == if which == JobRows then DeleteEach(t.jobs, ids) else t.jobs
    ensures r.nextId == t.nextId && r.profiles.Keys == t.profiles.Keys && ProfileTable(r) == ProfileTable(t)
    ensures forall n :: n in t.profiles && (which != ProfileRows || Ok(n) != ProfileTable(t)) ==> r.profiles[n] == t.profiles[n]
    ensures which == ProfileRows && ProfileTable(t).Ok? ==>
      r.profiles[ProfileTable(t).value] == DeleteEach(t.profiles[ProfileTable(t).value], ids)
  {
    match which
    case ProfileRows =>
      (match ProfileTable(t)
       case Err(_) => t
       case Ok(n) => t.(profiles := t.profiles[n := DeleteEach(t.profiles[n], ids)]))
    case JobRows => t.(jobs := DeleteEach(t.jobs, ids))
    case ApplicationRows => t.(applications := DeleteEach(t.applications, ids))
    case SavedJobRows => t.(savedJobs := DeleteEach(t.savedJobs, ids))
  }

  /** One delete by id from the chosen table. */
  function DeleteOneIn(t: Tables, which: Table, id: Value): Tables {
    match which
    case ProfileRows => DeleteProfileIn(t, id).0
    case JobRows => t.(jobs := DeleteRows(t.jobs, id))
    case ApplicationRows => t.(applications := DeleteRows(t.applications, id))
    case SavedJobRows => t.(savedJobs := DeleteRows(t.savedJobs, id))
  }

  /** One more delete extends the batch. */
  lemma DeleteAllStep(t: Tables, which: Table, ids: seq<Value>, i: nat)
    requires i < |ids|
    ensures DeleteAllIn(t, which, ids[..i + 1]) == DeleteOneIn(DeleteAllIn(t, which, ids[..i]), which, ids[i])
  {
    assert ids[..i + 1] == ids[..i] + [ids[i]];
  }

  /** The tables behind the pages, changed only through the entity operations. */
  class Store {
    var db: Tables

    constructor(initial: Tables)
      ensures db == initial
    {
      db := initial;
    }

    /** The profile table in use, found by the fallback loop. */
    method ResolveProfileTable() returns (r: Outcome<string>)
      ensures r == ProfileTable(db)
    {
      r := WithTableFallback(ProfileTableNames, Probe(db.profiles));
      ProbeSettles(db);
    }

    method FilterProfiles(criteria: Row) returns (r: Outcome<seq<Row>>)
      ensures r == FilterProfilesIn(db, criteria)
    {
      var table := ResolveProfileTable();
      match table {
        case Err(e) => r := Err(e);
        case Ok(n) => r := Ok(Query(db.profiles[n], criteria, None));
      }
    }

    method FindProfiles(email: string) returns (r: Outcome<seq<Row>>)
      ensures r == ProfilesOf(db, email)
    {
      r := FilterProfiles(map["created_by" := Str(email)]);
    }

    method CreateProfile(obj: Row, now: int) returns (r: Outcome<Row>)
      modifies this
      ensures (db, r) == CreateProfileIn(old(db), obj, now)
    {
      var res := CreateProfileIn(db, obj, now);
      db, r := res.0, res.1;
    }

    method UpdateProfile(id: Value, obj: Row) returns (r: Outcome<Row>)
      modifies this
      ensures (db, r) == UpdateProfileIn(old(db), id, obj)
    {
      var res := UpdateProfileIn(db, id, obj);
      db, r := res.0, res.1;
    }

    method DeleteProfile(id: Value) returns (r: Outcome<()>)
      modifies this
      ensures (db, r) == DeleteProfileIn(old(db), id)
    {
      var res := DeleteProfileIn(db, id);
      db, r := res.0, res.1;
    }

    /** `Job.filter(criteria, order, limit)` as the pages call it: `Job.filter` declares no
        third parameter, so the limit is dropped and every matching job comes back. */
    method FilterJobs(criteria: Row, order: string, limit: nat) returns (r: seq<Row>)
      ensures r == JobFilter(db.jobs, criteria, order)
    {
      r := JobFilter(db.jobs, criteria, order);
    }

    method ListJobs(order: string, limit: nat) returns (r: seq<Row>)
      ensures r == JobList(db.jobs, order, limit)
    {
      r := JobList(db.jobs, order, limit);
    }

    /** `Job.create(obj)`; `rejection` is the database's answer to the insert: `None` when it
        accepts the row, the error it returns otherwise, which `create` rethrows. */
    method CreateJob(obj: Row, now: int, rejection: Option<Error>) returns (r: Outcome<Row>)
      modifies this
      ensures rejection.Some? ==> db == old(db) && r == Err(rejection.value)
      ensures rejection.None? ==> var res := CreateJobIn(old(db), obj, now); db == res.0 && r == Ok(res.1)
    {
      if rejection.Some? {
        return Err(rejection.value);
      }
      var res := CreateJobIn(db, obj, now);
      db, r := res.0, Ok(res.1);
    }

    method UpdateJob(id: Value, obj: Row) returns (r: Outcome<Row>)
      modifies this
      ensures (db, r) == UpdateJobIn(old(db), id, obj)
    {
      var res := UpdateJobIn(db, id, obj);
      db, r := res.0, res.1;
    }

    method DeleteJob(id: Value)
      modifies this
      ensures db == old(db).(jobs := DeleteRows(old(db).jobs, id))
    {
      db := db.(jobs := DeleteRows(db.jobs, id));
    }

    method FilterApplications(criteria: Row, order: string) returns (r: seq<Row>)
      ensures r == Query(db.applications, criteria, ApplyOrder(order))
    {
      r := Query(db.applications, criteria, ApplyOrder(order));
    }

    /** `Application.create(obj)` as the pages call it: `apiClient.js` gives `Application` no
        `create`, so the call throws a `TypeError` and no table changes. The insert the pages
        intend is `CreateApplicationIn`. */
    method CreateApplication(obj: Row, now: int) returns (r: Outcome<Row>)
      ensures r.Err? && Invoke(ApplicationEntity, CreateOp) == Err(r.error)
    {
      r := Err(Invoke(ApplicationEntity, CreateOp).error);
    }

    method UpdateApplication(id: Value, obj: Row) returns (r: Outcome<Row>)
      modifies this
      ensures (db, r) == UpdateApplicationIn(old(db), id, obj)
    {
      var res := UpdateApplicationIn(db, id, obj);
      db, r := res.0, res.1;
    }

    method DeleteApplication(id: Value)
      modifies this
      ensures db == old(db).(applications := DeleteRows(old(db).applications, id))
    {
      db := db.(applications := DeleteRows(db.applications, id));
    }

    /** `SavedJob.filter(criteria)`: no ordering. */
    method FilterSavedJobs(criteria: Row) returns (r: seq<Row>)
      ensures r == Query(db.savedJobs, criteria, None)
    {
      r := Query(db.savedJobs, criteria, None);
    }

    /** `SavedJob.create(obj)` as the pages call it: `apiClient.js` gives `SavedJob` no
        `create`, so the call throws a `TypeError` and no table changes. The insert the pages
        intend is `CreateSavedJobIn`. */
    method CreateSavedJob(obj: Row, now: int) returns (r: Outcome<Row>)
      ensures r.Err? && Invoke(SavedJobEntity, CreateOp) == Err(r.error)
    {
      r := Err(Invoke(SavedJobEntity, CreateOp).error);
    }

    method DeleteSavedJob(id: Value)
      modifies this
      ensures db == old(db).(savedJobs := DeleteRows(old(db).savedJobs, id))
    {
      db := db.(savedJobs := DeleteRows(db.savedJobs, id));
    }

    /** One delete by id from the chosen table. */
    method DeleteOne(which: Table, id: Value)
      modifies this
      ensures db == DeleteOneIn(old(db), which, id)
    {
      match which {
        case ProfileRows => var _ := DeleteProfile(id);
        case JobRows => DeleteJob(id);
        case ApplicationRows => DeleteApplication(id);
        case SavedJobRows => DeleteSavedJob(id);
      }
    }

    /** `Promise.all(rows.map(row => Entity.delete(row.id)))`, one delete after another. */
    method DeleteAll(which: Table, ids: seq<Value>)
      modifies this
      ensures db == DeleteAllIn(old(db), which, ids)
    {
      for i := 0 to |ids|
        invariant db == DeleteAllIn(old(db), which, ids[..i])
      {
        DeleteAllStep(old(db), which, ids, i);
        DeleteOne(which, ids[i]);
      }
      assert ids[..|ids|] == ids;
    }
  }
}
