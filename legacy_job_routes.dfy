/** The job routes of `backend/routes/jobs.js`: listing, reading, posting and deleting jobs,
    saving a job once per user, and the saved list joined with the jobs that still exist. */
module LegacyJobRoutes {

  import opened Wrappers
  import opened Seqs
  import opened Entities
  import opened ApiClient
  import opened LegacyDb

  /** The columns `POST /` inserts, in the order of the `INSERT`. */
  const JobColumns: seq<string> :=
    ["title", "company", "location", "job_type", "salary_min", "salary_max", "description", "requirements", "skills", "employer_id"]

  /** The job columns `GET /saved/:user_id` adds to each saved row. */
  const SavedJobColumns: seq<string> := ["title", "company", "location", "job_type", "salary_min", "salary_max", "skills"]

  /** The row `POST /` inserts: the ten request fields (a missing one is NULL), the serial id
      and the insertion time. */
  function NewJobRow(body: Row, id: nat, now: int): (r: Row)
    ensures forall k :: k in JobColumns ==> Field(r, k) == Field(body, k)
    ensures Field(r, "id") == Num(id) && Field(r, "created_at") == Num(now)
    ensures r.Keys == (set k | k in JobColumns) + {"id", "created_at"}
  {
    (map k | k in JobColumns :: Field(body, k)) + map["id" := Num(id), "created_at" := Num(now)]
  }

  /** `GET /`: every job, newest first. */
  method ListJobs(db: Database) returns (reply: Reply)
    ensures reply.status == 200 && reply.body.List?
    ensures multiset(reply.body.rows) == multiset(db.jobs)
    ensures forall i, j :: 0 <= i < j < |reply.body.rows| ==>
      OrderKey(reply.body.rows[i], "created_at") >= OrderKey(reply.body.rows[j], "created_at")
  {
    reply := Reply(200, List(Newest(db.jobs, "created_at")));
  }

  /** `GET /:id`: 404 when no job has the id, else the (first) job that has it. */
  method GetJob(db: Database, id: string) returns (reply: Reply)
    ensures (forall i :: 0 <= i < |db.jobs| ==> !IdIs(db.jobs[i], "id", id)) <==> reply == Reply(404, Note("Job not found!"))
    ensures reply.status == 200 ==> reply.body.Record? && reply.body.row in db.jobs && IdIs(reply.body.row, "id", id)
    ensures reply.status == 200 || reply.status == 404
  {
    var found := FirstIndex(db.jobs, (row: Row) => IdIs(row, "id", id));
    if found.None? {
      return Reply(404, Note("Job not found!"));
    }
    reply := Reply(200, Record(db.jobs[found.value]));
  }

  /** `POST /`: the job is inserted and returned with 201. */
  method PostJob(db: Database, body: Row, now: int) returns (reply: Reply)
    modifies db`jobs, db`nextId
    ensures db.jobs == old(db.jobs) + [NewJobRow(body, old(db.nextId), now)] && db.nextId == old(db.nextId) + 1
    ensures reply == Reply(201, NoteWith("Job posted successfully! 🎉", "job", Some(NewJobRow(body, old(db.nextId), now))))
  {
    var row := NewJobRow(body, db.nextId, now);
    db.jobs := db.jobs + [row];
    db.nextId := db.nextId + 1;
    reply := Reply(201, NoteWith("Job posted successfully! 🎉", "job", Some(row)));
  }

  /** `DELETE /:id`: only the job rows with that id go; the saved rows stay as they are. */
  method DeleteJob(db: Database, id: string) returns (reply: Reply)
    modifies db`jobs
    ensures forall row :: row in db.jobs <==> row in old(db.jobs) && !IdIs(row, "id", id)
    ensures IsSubsequence(db.jobs, old(db.jobs))
    ensures reply == Reply(200, Note("Job deleted successfully!"))
  {
    var keep := (row: Row) => !IdIs(row, "id", id);
    forall row ensures row in Select(db.jobs, keep) <==> row in db.jobs && keep(row) {
      SelectMember(db.jobs, keep, row);
    }
    db.jobs := Select(db.jobs, keep);
    reply := Reply(200, Note("Job deleted successfully!"));
  }

  /** `POST /save`: 400 with nothing inserted when the user already saved the job, else one
      new saved row. Saving this way never stores the same (job, user) pair twice. */
  method SaveJob(db: Database, body: Row) returns (reply: Reply)
    modifies db`savedJobs, db`nextId
    ensures var existing := Existing(old(db.savedJobs), "job_id", Field(body, "job_id"), "user_id", Field(body, "user_id"));
      (|existing| > 0 ==>
        reply == Reply(400, Note("Job already saved!")) && db.savedJobs == old(db.savedJobs) && db.nextId == old(db.nextId)) &&
      (|existing| == 0 ==>
        reply == Reply(200, Note("Job saved successfully! 🔖")) && db.nextId == old(db.nextId) + 1 &&
        db.savedJobs == old(db.savedJobs) + [map["id" := Num(old(db.nextId)), "job_id" := Field(body, "job_id"), "user_id" := Field(body, "user_id")]])
    ensures UniquePairs(old(db.savedJobs), "job_id", "user_id") ==> UniquePairs(db.savedJobs, "job_id", "user_id")
  {
    var jobId, userId := Field(body, "job_id"), Field(body, "user_id");
    var existing := Existing(db.savedJobs, "job_id", jobId, "user_id", userId);
    if |existing| > 0 {
      return Reply(400, Note("Job already saved!"));
    }
    var row: Row := map["id" := Num(db.nextId), "job_id" := jobId, "user_id" := userId];
    assert Field(row, "job_id") == jobId && Field(row, "user_id") == userId;
    if UniquePairs(db.savedJobs, "job_id", "user_id") {
      InsertKeepsUnique(db.savedJobs, "job_id", "user_id", row);
    }
    db.savedJobs := db.savedJobs + [row];
    db.nextId := db.nextId + 1;
    reply := Reply(200, Note("Job saved successfully! 🔖"));
  }

  /** The pairs of `GET /saved/:user_id`: the user's saved rows with the jobs they point at. */
  function SavedPairs(savedJobs: seq<Row>, jobs: seq<Row>, userId: string): seq<(Row, Row)> {
    JoinPairs(savedJobs, jobs, (s: Row) => IdIs(s, "user_id", userId), (s: Row, j: Row) => SameCell(Field(s, "job_id"), Field(j, "id")))
  }

  /** A pair is listed exactly when the saved row is the user's and its job exists. */
  lemma SavedPairsMember(savedJobs: seq<Row>, jobs: seq<Row>, userId: string, p: (Row, Row))
    ensures p in SavedPairs(savedJobs, jobs, userId) <==>
      p.0 in savedJobs && IdIs(p.0, "user_id", userId) && p.1 in jobs && SameCell(Field(p.0, "job_id"), Field(p.1, "id"))
  {
    JoinPairsMember(savedJobs, jobs, (s: Row) => IdIs(s, "user_id", userId), (s: Row, j: Row) => SameCell(Field(s, "job_id"), Field(j, "id")), p);
  }

  /** Once a job is deleted, the saved list no longer shows it, although its saved rows stay. */
  lemma DeletedJobLeavesSavedList(savedJobs: seq<Row>, jobs: seq<Row>, after: seq<Row>, userId: string, id: string, p: (Row, Row))
    requires forall row :: row in after <==> row in jobs && !IdIs(row, "id", id)
    requires p in SavedPairs(savedJobs, after, userId)
    ensures !IdIs(p.1, "id", id) && p in SavedPairs(savedJobs, jobs, userId)
  {
    SavedPairsMember(savedJobs, after, userId, p);
    SavedPairsMember(savedJobs, jobs, userId, p);
  }

  /** `GET /saved/:user_id`: each of the user's saved rows with its job's columns. */
  method SavedList(db: Database, userId: string) returns (reply: Reply)
    ensures reply == Reply(200, List(JoinRows(SavedPairs(db.savedJobs, db.jobs, userId), SavedJobColumns)))
  {
    reply := Reply(200, List(JoinRows(SavedPairs(db.savedJobs, db.jobs, userId), SavedJobColumns)));
  }
}
