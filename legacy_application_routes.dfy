/** The application routes of `backend/routes/applications.js`: applying once per job, the
    applications of a candidate or of a job, and a status change. */
module LegacyApplicationRoutes {

  import opened Wrappers
  import opened Seqs
  import opened Entities
  import opened ApiClient
  import opened LegacyDb

  /** The job columns `GET /candidate/:id` adds, and the user columns `GET /job/:id` adds. */
  const JobColumns: seq<string> := ["title", "company", "location"]
  const UserColumns: seq<string> := ["first_name", "last_name", "email"]

  /** `POST /`: 400 with nothing inserted when the candidate already applied, else one new
      application, returned with 201. Applying this way never stores a pair twice. */
  method Apply(db: Database, body: Row) returns (reply: Reply)
    modifies db`applications, db`nextId
    ensures var existing := Existing(old(db.applications), "job_id", Field(body, "job_id"), "candidate_id", Field(body, "candidate_id"));
      var row := map["id" := Num(old(db.nextId)), "job_id" := Field(body, "job_id"), "candidate_id" := Field(body, "candidate_id")];
      (|existing| > 0 ==>
        reply == Reply(400, Note("Already applied for this job!")) && db.applications == old(db.applications) && db.nextId == old(db.nextId)) &&
      (|existing| == 0 ==>
        reply == Reply(201, NoteWith("Applied successfully! 🎉", "application", Some(row))) &&
        db.applications == old(db.applications) + [row] && db.nextId == old(db.nextId) + 1)
    ensures UniquePairs(old(db.applications), "job_id", "candidate_id") ==> UniquePairs(db.applications, "job_id", "candidate_id")
  {
    var jobId, candidateId := Field(body, "job_id"), Field(body, "candidate_id");
    var existing := Existing(db.applications, "job_id", jobId, "candidate_id", candidateId);
    if |existing| > 0 {
      return Reply(400, Note("Already applied for this job!"));
    }
    var row: Row := map["id" := Num(db.nextId), "job_id" := jobId, "candidate_id" := candidateId];
    assert Field(row, "job_id") == jobId && Field(row, "candidate_id") == candidateId;
    if UniquePairs(db.applications, "job_id", "candidate_id") {
      InsertKeepsUnique(db.applications, "job_id", "candidate_id", row);
    }
    db.applications := db.applications + [row];
    db.nextId := db.nextId + 1;
    reply := Reply(201, NoteWith("Applied successfully! 🎉", "application", Some(row)));
  }

  /** The pairs of `GET /candidate/:id`: the candidate's applications with their jobs. */
  function CandidatePairs(applications: seq<Row>, jobs: seq<Row>, id: string): seq<(Row, Row)> {
    JoinPairs(applications, jobs, (a: Row) => IdIs(a, "candidate_id", id), (a: Row, j: Row) => SameCell(Field(a, "job_id"), Field(j, "id")))
  }

  /** The pairs of `GET /job/:id`: the job's applications with their candidates' accounts. */
  function JobPairs(applications: seq<Row>, users: seq<Row>, id: string): seq<(Row, Row)> {
    JoinPairs(applications, users, (a: Row) => IdIs(a, "job_id", id), (a: Row, u: Row) => SameCell(Field(a, "candidate_id"), Field(u, "id")))
  }

  /** Only the candidate's applications whose job exists are listed, each with that job. */
  lemma CandidatePairsMember(applications: seq<Row>, jobs: seq<Row>, id: string, p: (Row, Row))
    ensures p in CandidatePairs(applications, jobs, id) <==>
      p.0 in applications && IdIs(p.0, "candidate_id", id) && p.1 in jobs && SameCell(Field(p.0, "job_id"), Field(p.1, "id"))
  {
    JoinPairsMember(applications, jobs, (a: Row) => IdIs(a, "candidate_id", id), (a: Row, j: Row) => SameCell(Field(a, "job_id"), Field(j, "id")), p);
  }

  /** Only the job's applications whose candidate has an account are listed, with that account. */
  lemma JobPairsMember(applications: seq<Row>, users: seq<Row>, id: string, p: (Row, Row))
    ensures p in JobPairs(applications, users, id) <==>
      p.0 in applications && IdIs(p.0, "job_id", id) && p.1 in users && SameCell(Field(p.0, "candidate_id"), Field(p.1, "id"))
  {
    JoinPairsMember(applications, users, (a: Row) => IdIs(a, "job_id", id), (a: Row, u: Row) => SameCell(Field(a, "candidate_id"), Field(u, "id")), p);
  }

  /** `GET /candidate/:id`. */
  method ByCandidate(db: Database, id: string) returns (reply: Reply)
    ensures reply == Reply(200, List(JoinRows(CandidatePairs(db.applications, db.jobs, id), JobColumns)))
  {
    reply := Reply(200, List(JoinRows(CandidatePairs(db.applications, db.jobs, id), JobColumns)));
  }

  /** `GET /job/:id`. */
  method ByJob(db: Database, id: string) returns (reply: Reply)
    ensures reply == Reply(200, List(JoinRows(JobPairs(db.applications, db.users, id), UserColumns)))
  {
    reply := Reply(200, List(JoinRows(JobPairs(db.applications, db.users, id), UserColumns)));
  }

  /** `UPDATE applications SET status = $1 WHERE id = $2`. */
  function SetStatus(rows: seq<Row>, id: string, status: Value): (r: seq<Row>)
    ensures |r| == |rows|
    ensures forall i :: 0 <= i < |rows| && !IdIs(rows[i], "id", id) ==> r[i] == rows[i]
    ensures forall i :: 0 <= i < |rows| && IdIs(rows[i], "id", id) ==>
      Field(r[i], "status") == status && forall k :: k != "status" ==> Field(r[i], k) == Field(rows[i], k)
  {
    seq(|rows|, i requires 0 <= i < |rows| => if IdIs(rows[i], "id", id) then rows[i]["status" := status] else rows[i])
  }

  /** An id no row has changes nothing. */
  lemma SetStatusUnknownId(rows: seq<Row>, id: string, status: Value)
    requires forall i :: 0 <= i < |rows| ==> !IdIs(rows[i], "id", id)
    ensures SetStatus(rows, id, status) == rows
  {
  }

  /** `PUT /:id`: the status of the rows with that id becomes the one sent (NULL when none is
      sent); the reply carries the first updated row, which is `undefined` for an unknown id. */
  method UpdateStatus(db: Database, id: string, body: Row) returns (reply: Reply)
    modifies db`applications
    ensures db.applications == SetStatus(old(db.applications), id, Field(body, "status"))
    ensures reply.status == 200 && reply.body.NoteWith? && reply.body.message == "Status updated!" && reply.body.key == "application"
    ensures reply.body.item.None? <==> forall i :: 0 <= i < |old(db.applications)| ==> !IdIs(old(db.applications)[i], "id", id)
    ensures reply.body.item.Some? ==> reply.body.item.value in db.applications && Field(reply.body.item.value, "status") == Field(body, "status")
  {
    var updated := SetStatus(db.applications, id, Field(body, "status"));
    var first := FirstIndex(db.applications, (row: Row) => IdIs(row, "id", id));
    db.applications := updated;
    if first.None? {
      return Reply(200, NoteWith("Status updated!", "application", None));
    }
    reply := Reply(200, NoteWith("Status updated!", "application", Some(updated[first.value])));
  }
}
