/** The saved-jobs page of `src/pages/SavedJobs.jsx`: the user's saved rows joined with the job
    listing, the ids of the jobs applied to, and removing a saved job. */
module SavedJobsPage {

  import opened Wrappers
  import opened Seqs
  import opened Entities
  import opened ApiClient
  import opened Store
  import opened StatusLists
  import JobsPage

  /** `saved.map(s => s.job_id)`. */
  function SavedJobIds(saved: seq<Row>): (r: seq<Value>)
    ensures |r| == |saved| && forall i :: 0 <= i < |saved| ==> r[i] == Field(saved[i], "job_id")
  {
    Map(saved, (s: Row) => Field(s, "job_id"))
  }

  /** `allJobs.filter(j => savedJobIds.includes(j.id))`: the listed jobs some saved row points
      at, in listing order. */
  function SavedDetails(allJobs: seq<Row>, saved: seq<Row>): (r: seq<Row>)
    ensures IsSubsequence(r, allJobs)
    ensures forall j :: j in r <==> j in allJobs && exists s :: s in saved && Field(s, "job_id") == Field(j, "id")
  {
    var ids := SavedJobIds(saved);
    var p := (j: Row) => Field(j, "id") in ids;
    forall j ensures j in Select(allJobs, p) <==> j in allJobs && exists s :: s in saved && Field(s, "job_id") == Field(j, "id") {
      SelectMember(allJobs, p, j);
      if Field(j, "id") in ids {
        var i :| 0 <= i < |ids| && ids[i] == Field(j, "id");
        assert saved[i] in saved;
      }
      if s :| s in saved && Field(s, "job_id") == Field(j, "id") {
        var i :| 0 <= i < |saved| && saved[i] == s;
        assert ids[i] == Field(j, "id");
      }
    }
    Select(allJobs, p)
  }

  /** The listing the join reads: up to 1000 jobs, newest first. */
  function Listing(t: Tables): (r: seq<Row>)
    ensures |r| <= 1000 && multiset(r) <= multiset(t.jobs)
    ensures |t.jobs| <= 1000 ==> multiset(r) == multiset(t.jobs)
    ensures InOrder(r, ApplyOrder("-created_date"))
  {
    JobList(t.jobs, "-created_date", 1000)
  }

  /** The user's saved rows. */
  function SavedOf(t: Tables, email: string): (r: seq<Row>)
    ensures forall s :: s in r <==> s in t.savedJobs && Matches(s, map["user_email" := Str(email)])
  {
    forall s ensures s in Query(t.savedJobs, map["user_email" := Str(email)], None) <==> s in t.savedJobs && Matches(s, map["user_email" := Str(email)]) {
      QueryMember(t.savedJobs, map["user_email" := Str(email)], None, s);
    }
    Query(t.savedJobs, map["user_email" := Str(email)], None)
  }

  /** The first saved row pointing at a job (`savedJobs.find`). */
  function SavedRowFor(saved: seq<Row>, jobId: Value): (r: Option<Row>)
    ensures r.Some? <==> exists s :: s in saved && Field(s, "job_id") == jobId
    ensures r.Some? ==> r.value in saved && Field(r.value, "job_id") == jobId
  {
    match FirstIndex(saved, (s: Row) => Field(s, "job_id") == jobId)
    case None => None
    case Some(i) => Some(saved[i])
  }

  /** Once a job is removed, the join no longer shows it, and nothing else leaves. */
  lemma RemovedJobLeavesJoin(allJobs: seq<Row>, saved: seq<Row>, jobId: Value, j: Row)
    ensures j in SavedDetails(allJobs, Without(saved, "job_id", jobId)) <==> j in SavedDetails(allJobs, saved) && Field(j, "id") != jobId
  {
    if j in SavedDetails(allJobs, saved) && Field(j, "id") != jobId {
      var s :| s in saved && Field(s, "job_id") == Field(j, "id");
      assert s in Without(saved, "job_id", jobId);
    }
  }

  /** What the reads for a signed-in user leave, as (saved rows, jobs, applied ids), for a page
      that showed the jobs `before`: the user's saved rows, the listed jobs they point at (the
      old ones when nothing is saved), and the job ids of the user's applications. */
  predicate ListsLoaded(t: Tables, email: string, before: seq<Row>, after: (seq<Row>, seq<Row>, seq<Value>)) {
    var saved := SavedOf(t, email);
    after == (saved, if |saved| > 0 then SavedDetails(Listing(t), saved) else before, AppliedIds(t, email))
  }

  /** What `loadData` leaves, as (user, saved rows, jobs, applied ids), for a page that
      showed `before`: nothing changes without a user; with one, what `ListsLoaded` says. */
  predicate PageLoaded(t: Tables, session: Option<User>, before: (Option<User>, seq<Row>, seq<Row>, seq<Value>),
                       after: (Option<User>, seq<Row>, seq<Row>, seq<Value>)) {
    if session.None? then after == before
    else after.0 == session && ListsLoaded(t, session.value.email, before.2, (after.1, after.2, after.3))
  }

  /** The page state. */
  class View {
    var user: Option<User>
    var savedJobs: seq<Row>
    var jobs: seq<Row>
    var applications: seq<Value>
    var loading: bool

    constructor()
      ensures user.None? && savedJobs == [] && jobs == [] && applications == [] && loading
    {
      user, savedJobs, jobs, applications, loading := None, [], [], [], true;
    }

    /** `loadData`: the saved rows, the saved jobs out of the newest thousand (read only when
        something is saved), and the ids of the jobs applied to. */
    method LoadData(session: Option<User>, store: Store)
      modifies this`user, this`savedJobs, this`jobs, this`applications, this`loading
      ensures !loading
      ensures PageLoaded(store.db, session, (old(user), old(savedJobs), old(jobs), old(applications)), (user, savedJobs, jobs, applications))
    {
      if session.Some? {
        user := session;
        LoadLists(session.value.email, store);
      }
      loading := false;
    }

    /** The reads for a signed-in user: saved rows, their jobs, and the applied job ids. */
    method LoadLists(email: string, store: Store)
      modifies this`savedJobs, this`jobs, this`applications
      ensures ListsLoaded(store.db, email, old(jobs), (savedJobs, jobs, applications))
    {
      var saved := store.FilterSavedJobs(map["user_email" := Str(email)]);
      savedJobs := saved;
      if |saved| > 0 {
        var allJobs := store.ListJobs("-created_date", 1000);
        jobs := SavedDetails(allJobs, saved);
      }
      var apps := store.FilterApplications(map["candidate_email" := Str(email)], "");
      applications := Map(apps, (a: Row) => Field(a, "job_id"));
    }

    /** `handleRemoveSaved`: with no saved row for the job nothing happens; otherwise the first
        such row is deleted and every saved row and job with that id leaves the lists. */
    method HandleRemoveSaved(job: Row, store: Store)
      modifies this`savedJobs, this`jobs, store
      ensures var found := SavedRowFor(old(savedJobs), Field(job, "id"));
        (found.None? ==> store.db == old(store.db) && savedJobs == old(savedJobs) && jobs == old(jobs)) &&
        (found.Some? ==>
          store.db == old(store.db).(savedJobs := DeleteRows(old(store.db).savedJobs, Field(found.value, "id"))) &&
          savedJobs == Without(old(savedJobs), "job_id", Field(job, "id")) &&
          jobs == Without(old(jobs), "id", Field(job, "id")))
    {
      var found := SavedRowFor(savedJobs, Field(job, "id"));
      if found.Some? {
        store.DeleteSavedJob(Field(found.value, "id"));
        savedJobs := Without(savedJobs, "job_id", Field(job, "id"));
        jobs := Without(jobs, "id", Field(job, "id"));
      }
    }

    /** `handleApply`: the job's details page. */
    method HandleApply(job: Row) returns (nav: Nav)
      ensures nav == JobsPage.DetailsLink(job)
    {
      nav := JobsPage.DetailsLink(job);
    }
  }
}
