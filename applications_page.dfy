/** The employer's applications page of `src/pages/Applications.jsx`: loading the applications
    of one job (with each candidate's profile) or of all the employer's jobs, the status
    filter and badges, and status updates. */
module ApplicationsPage {

  import opened Wrappers
  import opened Seqs
  import opened Entities
  import opened ApiClient
  import opened Store
  import opened StatusLists

  /** The five application statuses and their badges. */
  const Configs: map<string, StatusStyle> := map[
    "pending" := StatusStyle("Pending", "bg-yellow-100 text-yellow-700"),
    "reviewed" := StatusStyle("Reviewed", "bg-blue-100 text-blue-700"),
    "shortlisted" := StatusStyle("Shortlisted", "bg-green-100 text-green-700"),
    "rejected" := StatusStyle("Rejected", "bg-red-100 text-red-700"),
    "hired" := StatusStyle("Hired", "bg-purple-100 text-purple-700")]

  /** `getStatusConfig`: an unknown status shows the pending badge. */
  function StatusConfig(status: Value): (r: StatusStyle)
    ensures ValueText(status) in Configs ==> r == Configs[ValueText(status)]
    ensures r == Configs["pending"] <==> ValueText(status) == "pending" || ValueText(status) !in Configs
  {
    StatusLookup(Configs, status, "pending")
  }

  /** `filteredApplications`: all of them for `'all'`, else those with exactly that status. */
  function FilteredApplications(apps: seq<Row>, filterStatus: string): (r: seq<Row>)
    ensures filterStatus == "all" ==> r == apps
    ensures filterStatus != "all" ==> IsSubsequence(r, apps) && forall x :: x in r <==> x in apps && HasStatus(x, filterStatus)
  {
    ByStatus(apps, filterStatus)
  }

  /** The key an application's candidate has in `candidateProfiles`: its email as a property
      name. */
  function EmailKey(app: Row): string {
    ValueText(Field(app, "candidate_email"))
  }

  /** The profile lookup of one application's candidate. */
  function LookupOf(t: Tables, app: Row): Outcome<seq<Row>> {
    FilterProfilesIn(t, map["created_by" := Field(app, "candidate_email")])
  }

  /** The first profile of the candidate, when the lookup finds one. */
  function ProfileOf(t: Tables, app: Row): Option<Row> {
    match LookupOf(t, app)
    case Ok(rows) => if |rows| > 0 then Some(rows[0]) else None
    case Err(_) => None
  }

  /** The `profiles` object the `for` loop fills when every lookup succeeds: each candidate
      whose lookup finds a profile, keyed by email, with the first profile found. */
  function ProfileMap(t: Tables, apps: seq<Row>): map<string, Row>
    decreases |apps|
  {
    if apps == [] then map[]
    else
      var m := ProfileMap(t, apps[..|apps| - 1]);
      var app := apps[|apps| - 1];
      if ProfileOf(t, app).Some? then m[EmailKey(app) := ProfileOf(t, app).value] else m
  }

  /** The loop's result: the first failed lookup stops it, and every lookup fails exactly when
      no profile table exists. */
  function CandidateProfiles(t: Tables, apps: seq<Row>): (r: Outcome<map<string, Row>>)
    ensures r.Err? <==> |apps| > 0 && ProfileTable(t).Err?
  {
    if |apps| > 0 && ProfileTable(t).Err? then Err(ProfileTable(t).error) else Ok(ProfileMap(t, apps))
  }

  /** One more application adds its candidate's profile, when the lookup finds one. */
  lemma ProfileMapStep(t: Tables, apps: seq<Row>, i: nat)
    requires i < |apps|
    ensures var m := ProfileMap(t, apps[..i]);
      ProfileMap(t, apps[..i + 1]) == if ProfileOf(t, apps[i]).Some? then m[EmailKey(apps[i]) := ProfileOf(t, apps[i]).value] else m
  {
    assert apps[..i + 1][..i] == apps[..i];
  }

  /** Every candidate whose lookup finds a profile gets a key. */
  lemma {:induction false} ProfileMapCovers(t: Tables, apps: seq<Row>, i: nat)
    requires i < |apps| && ProfileOf(t, apps[i]).Some?
    ensures EmailKey(apps[i]) in ProfileMap(t, apps)
    decreases |apps|
  {
    if i < |apps| - 1 {
      var front := apps[..|apps| - 1];
      assert front[i] == apps[i];
      ProfileMapCovers(t, front, i);
    }
  }

  /** Every key belongs to a candidate of the list and holds the first profile found for them. */
  lemma {:induction false} ProfileMapSound(t: Tables, apps: seq<Row>, k: string)
    requires k in ProfileMap(t, apps)
    ensures exists i :: 0 <= i < |apps| && EmailKey(apps[i]) == k && ProfileOf(t, apps[i]) == Some(ProfileMap(t, apps)[k])
    decreases |apps|
  {
    var front, app := apps[..|apps| - 1], apps[|apps| - 1];
    if ProfileOf(t, app).Some? && EmailKey(app) == k {
      assert apps[|apps| - 1] == app;
    } else {
      ProfileMapSound(t, front, k);
      var i :| 0 <= i < |front| && EmailKey(front[i]) == k && ProfileOf(t, front[i]) == Some(ProfileMap(t, front)[k]);
      assert apps[i] == front[i];
    }
  }

  /** What the page shows for a job id, as (job, applications, profiles): the first job with
      that id (the one shown before when there is none), its applications newest first, and
      their candidates' profiles (the ones shown before when a lookup fails). */
  predicate ShowsJob(t: Tables, jobId: string, before: (Option<Row>, map<string, Row>), shown: (Option<Row>, seq<Row>, map<string, Row>)) {
    var jobs := JobFilter(t.jobs, map["id" := Str(jobId)], "");
    var apps := Query(t.applications, map["job_id" := Str(jobId)], ApplyOrder("-created_date"));
    shown.0 == (if |jobs| > 0 then Some(jobs[0]) else before.0) && shown.1 == apps &&
    shown.2 == (if CandidateProfiles(t, apps).Ok? then CandidateProfiles(t, apps).value else before.1)
  }

  /** What `loadData` leaves, as (user, job, applications, profiles), for a page that showed
      `before`: nothing changes without a user; with a job id the page shows that job as
      `ShowsJob` says; without one it shows the employer's applications newest first. */
  predicate Loaded(t: Tables, session: Option<User>, jobId: string, before: (Option<User>, Option<Row>, seq<Row>, map<string, Row>),
                   after: (Option<User>, Option<Row>, seq<Row>, map<string, Row>)) {
    if session.None? then after == before
    else if jobId != "" then after.0 == session && ShowsJob(t, jobId, (before.1, before.3), (after.1, after.2, after.3))
    else after == (session, before.1, Query(t.applications, map["employer_id" := Str(session.value.email)], ApplyOrder("-created_date")), before.3)
  }

  /** The page state. */
  class View {
    var user: Option<User>
    var job: Option<Row>
    var applications: seq<Row>
    var candidateProfiles: map<string, Row>
    var loading: bool
    var selectedApplication: Option<Row>
    var filterStatus: string

    constructor()
      ensures user.None? && job.None? && applications == [] && candidateProfiles == map[]
      ensures loading && selectedApplication.None? && filterStatus == "all"
    {
      user, job, applications, candidateProfiles := None, None, [], map[];
      loading, selectedApplication, filterStatus := true, None, "all";
    }

    /** The `for` loop over the applications, one profile lookup after another. */
    method LoadCandidateProfiles(apps: seq<Row>, store: Store) returns (r: Outcome<map<string, Row>>)
      ensures r == CandidateProfiles(store.db, apps)
    {
      var profiles: map<string, Row> := map[];
      for i := 0 to |apps|
        invariant profiles == ProfileMap(store.db, apps[..i])
        invariant i > 0 ==> ProfileTable(store.db).Ok?
      {
        ProfileMapStep(store.db, apps, i);
        var found := store.FilterProfiles(map["created_by" := Field(apps[i], "candidate_email")]);
        if found.Err? {
          return Err(found.error);
        }
        if |found.value| > 0 {
          profiles := profiles[EmailKey(apps[i]) := found.value[0]];
        }
      }
      assert apps[..|apps|] == apps;
      r := Ok(profiles);
    }

    /** With a job id: the job, its applications newest first, and their candidates' profiles. */
    method LoadForJob(jobId: string, store: Store)
      modifies this`job, this`applications, this`candidateProfiles
      ensures ShowsJob(store.db, jobId, (old(job), old(candidateProfiles)), (job, applications, candidateProfiles))
    {
      var jobs := store.FilterJobs(map["id" := Str(jobId)], "", 0);
      if |jobs| > 0 {
        job := Some(jobs[0]);
      }
      var apps := store.FilterApplications(map["job_id" := Str(jobId)], "-created_date");
      applications := apps;
      ShowCandidateProfiles(apps, store);
    }

    /** The profiles of the candidates replace the shown ones when every lookup succeeds. */
    method ShowCandidateProfiles(apps: seq<Row>, store: Store)
      modifies this`candidateProfiles
      ensures candidateProfiles == (if CandidateProfiles(store.db, apps).Ok? then CandidateProfiles(store.db, apps).value else old(candidateProfiles))
    {
      var profiles := LoadCandidateProfiles(apps, store);
      if profiles.Ok? {
        candidateProfiles := profiles.value;
      }
    }

    /** `loadData`. With a `jobId` parameter: the job, its applications newest first, and the
        profiles of their candidates. Without one: the employer's applications newest first,
        with no profile lookups. A failed read leaves the rest as it was. */
    method LoadData(session: Option<User>, jobId: string, store: Store)
      modifies this`user, this`job, this`applications, this`candidateProfiles, this`loading
      ensures !loading
      ensures Loaded(store.db, session, jobId, (old(user), old(job), old(applications), old(candidateProfiles)),
                     (user, job, applications, candidateProfiles))
    {
      if session.None? {
        loading := false;
        return;
      }
      user := session;
      if jobId != "" {
        LoadForJob(jobId, store);
      } else {
        LoadForEmployer(session.value.email, store);
      }
      loading := false;
    }

    /** Without a job id: the employer's applications, newest first. */
    method LoadForEmployer(email: string, store: Store)
      modifies this`applications
      ensures applications == Query(store.db.applications, map["employer_id" := Str(email)], ApplyOrder("-created_date"))
    {
      applications := store.FilterApplications(map["employer_id" := Str(email)], "-created_date");
    }

    /** `handleStatusUpdate`: writes the status of that one application; once the write
        succeeds, the list changes that application's status only, and so does the opened
        application when it is the one. */
    method HandleStatusUpdate(applicationId: Value, newStatus: string, store: Store)
      modifies this`applications, this`selectedApplication, store
      ensures var res := UpdateApplicationIn(old(store.db), applicationId, map["status" := Str(newStatus)]);
        store.db == res.0 &&
        (res.1.Err? ==> applications == old(applications) && selectedApplication == old(selectedApplication)) &&
        (res.1.Ok? ==>
          applications == WithStatus(old(applications), applicationId, newStatus) &&
          selectedApplication == (if old(selectedApplication).Some? && Field(old(selectedApplication).value, "id") == applicationId
                                  then Some(old(selectedApplication).value["status" := Str(newStatus)])
                                  else old(selectedApplication)))
    {
      var res := store.UpdateApplication(applicationId, map["status" := Str(newStatus)]);
      if res.Err? {
        return;
      }
      applications := WithStatus(applications, applicationId, newStatus);
      if selectedApplication.Some? && Field(selectedApplication.value, "id") == applicationId {
        selectedApplication := Some(selectedApplication.value["status" := Str(newStatus)]);
      }
    }
  }
}
