/** The job details page of `src/pages/JobDetails.jsx`: the checks made on loading, the save
    toggle, the resume upload and the application it submits. */
module JobDetailsPage {

  import opened Wrappers
  import opened Entities
  import opened ApiClient
  import opened Store
  import JobCard

  /** `{ job_id, user_email }`, the lookup of one user's saved row for a job. */
  function SavedCriteria(jobId: Value, u: User): Row {
    map["job_id" := jobId, "user_email" := Str(u.email)]
  }

  /** `{ job_id, candidate_email }`, the lookup of one user's application to a job. */
  function AppliedCriteria(jobId: Value, u: User): Row {
    map["job_id" := jobId, "candidate_email" := Str(u.email)]
  }

  /** A row belongs to this job and this user under the given user column. */
  predicate Owns(row: Row, jobId: Value, column: string, u: User) {
    SameCell(Field(row, "job_id"), jobId) && SameCell(Field(row, column), Str(u.email))
  }

  /** A two-column lookup matches exactly the rows owned under that column. */
  lemma MatchesPair(row: Row, jobId: Value, column: string, u: User)
    requires column != "job_id"
    ensures Matches(row, map["job_id" := jobId, column := Str(u.email)]) <==> Owns(row, jobId, column, u)
  {
    var criteria := map["job_id" := jobId, column := Str(u.email)];
    assert "job_id" in criteria && column in criteria;
    assert criteria["job_id"] == jobId && criteria[column] == Str(u.email);
  }

  /** `isSaved`: the user has a saved row for this job. */
  predicate IsSaved(t: Tables, jobId: Value, u: User) {
    |Query(t.savedJobs, SavedCriteria(jobId, u), None)| > 0
  }

  /** `hasApplied`: the user has an application to this job. */
  predicate HasApplied(t: Tables, jobId: Value, u: User) {
    |Query(t.applications, AppliedCriteria(jobId, u), None)| > 0
  }

  /** The saved flag holds exactly when some saved row is this user's, for this job. */
  lemma IsSavedIff(t: Tables, jobId: Value, u: User)
    ensures IsSaved(t, jobId, u) <==> exists s :: s in t.savedJobs && Owns(s, jobId, "user_email", u)
  {
    var rows := Query(t.savedJobs, SavedCriteria(jobId, u), None);
    if |rows| > 0 {
      QueryMember(t.savedJobs, SavedCriteria(jobId, u), None, rows[0]);
      MatchesPair(rows[0], jobId, "user_email", u);
    }
    if s :| s in t.savedJobs && Owns(s, jobId, "user_email", u) {
      MatchesPair(s, jobId, "user_email", u);
      QueryMember(t.savedJobs, SavedCriteria(jobId, u), None, s);
    }
  }

  /** The applied flag holds exactly when some application is this user's, for this job. */
  lemma HasAppliedIff(t: Tables, jobId: Value, u: User)
    ensures HasApplied(t, jobId, u) <==> exists a :: a in t.applications && Owns(a, jobId, "candidate_email", u)
  {
    var rows := Query(t.applications, AppliedCriteria(jobId, u), None);
    if |rows| > 0 {
      QueryMember(t.applications, AppliedCriteria(jobId, u), None, rows[0]);
      MatchesPair(rows[0], jobId, "candidate_email", u);
    }
    if a :| a in t.applications && Owns(a, jobId, "candidate_email", u) {
      MatchesPair(a, jobId, "candidate_email", u);
      QueryMember(t.applications, AppliedCriteria(jobId, u), None, a);
    }
  }

  /** Saving a job with an id makes it saved for the user. */
  lemma SaveMarksSaved(t: Tables, jobId: Value, u: User, now: int)
    requires jobId != Null
    ensures IsSaved(CreateSavedJobIn(t, SavedCriteria(jobId, u), now).0, jobId, u)
  {
    var t2 := CreateSavedJobIn(t, SavedCriteria(jobId, u), now).0;
    var row := CreateSavedJobIn(t, SavedCriteria(jobId, u), now).1;
    assert row in t2.savedJobs;
    assert Owns(row, jobId, "user_email", u);
    IsSavedIff(t2, jobId, u);
  }

  /** Applying with a record for a job with an id marks the job applied to. */
  lemma ApplyMarksApplied(t: Tables, record: Row, u: User, now: int)
    requires Field(record, "job_id") != Null && Field(record, "candidate_email") == Str(u.email)
    ensures HasApplied(CreateApplicationIn(t, record, now).0, Field(record, "job_id"), u)
  {
    var t2 := CreateApplicationIn(t, record, now).0;
    var row := CreateApplicationIn(t, record, now).1;
    assert row in t2.applications;
    assert Owns(row, Field(record, "job_id"), "candidate_email", u);
    HasAppliedIff(t2, Field(record, "job_id"), u);
  }

  /** `resumeFile || profile?.resume_url || ''`. */
  function ResumeUrl(resumeFile: Value, profile: Option<Row>): (r: Value)
    ensures Truthy(resumeFile) ==> r == resumeFile
    ensures !Truthy(resumeFile) && profile.Some? && Truthy(Field(profile.value, "resume_url")) ==> r == Field(profile.value, "resume_url")
    ensures !Truthy(resumeFile) && (profile.None? || !Truthy(Field(profile.value, "resume_url"))) ==> r == Str("")
  {
    if Truthy(resumeFile) then resumeFile
    else if profile.Some? && Truthy(Field(profile.value, "resume_url")) then Field(profile.value, "resume_url")
    else Str("")
  }

  /** The application `handleApply` creates. */
  function ApplicationRecord(job: Row, u: User, profile: Option<Row>, resumeFile: Value, coverLetter: string): Row {
    map[
      "job_id" := Field(job, "id"),
      "candidate_email" := Str(u.email),
      "candidate_name" := Str(if u.fullName != "" then u.fullName else u.email),
      "resume_url" := ResumeUrl(resumeFile, profile),
      "cover_letter" := Str(coverLetter),
      "status" := Str("pending"),
      "employer_id" := Field(job, "employer_id"),
      "job_title" := Field(job, "title"),
      "company_name" := Field(job, "company_name")]
  }

  /** The application is pending, names the job, its employer, title and company, and carries
      the candidate's email, name (the email when there is no name), resume and cover letter. */
  lemma ApplicationRecordFields(job: Row, u: User, profile: Option<Row>, resumeFile: Value, coverLetter: string)
    ensures var r := ApplicationRecord(job, u, profile, resumeFile, coverLetter);
      Field(r, "status") == Str("pending") &&
      Field(r, "job_id") == Field(job, "id") && Field(r, "candidate_email") == Str(u.email) &&
      Field(r, "candidate_name") == Str(if u.fullName != "" then u.fullName else u.email) &&
      Field(r, "resume_url") == ResumeUrl(resumeFile, profile) &&
      Field(r, "cover_letter") == Str(coverLetter) &&
      Field(r, "employer_id") == Field(job, "employer_id") &&
      Field(r, "job_title") == Field(job, "title") && Field(r, "company_name") == Field(job, "company_name")
  {
  }

  /** `(job.applications_count || 0) + 1` under JavaScript's `+`: a missing or zero count gives
      1, a number goes up by one, and any other truthy value is written out with "1" appended. */
  function NextCount(count: Value): (r: Value)
    ensures !Truthy(count) ==> r == Num(1)
    ensures count.Num? ==> r == Num(count.n + 1)
    ensures count == Bool(true) ==> r == Num(2)
    ensures (count.Str? || count.Strs?) && Truthy(count) ==> r == Str(ValueText(count) + "1")
  {
    match count
    case Num(n) => Num(n + 1)
    case Bool(b) => if b then Num(2) else Num(1)
    case Null => Num(1)
    case _ => if Truthy(count) then Str(ValueText(count) + "1") else Num(1)
  }

  /** The counter after applying is always a positive number when it started as one or was
      missing. */
  lemma CountAfterApply(count: Value)
    requires count == Null || (count.Num? && count.n >= 0)
    ensures NextCount(count).Num? && NextCount(count).n >= 1
  {
  }

  /** The salary line, which is the one the job cards show. */
  function SalaryLine(job: Row): (r: string)
    ensures r == JobCard.NotDisclosed <==> !Truthy(Field(job, "salary_min")) && !Truthy(Field(job, "salary_max"))
  {
    JobCard.FormatSalary(Field(job, "salary_min"), Field(job, "salary_max"))
  }

  /** Save and Apply are shown to anyone who is not an employer. */
  function ShowsActions(profile: Option<Row>): (r: bool)
    ensures r <==> !IsEmployer(profile)
  {
    !IsEmployer(profile)
  }

  /** The tables after applying: the new application is created, then the job's counter is
      written; the outcome is that of the counter update. */
  function AppliedIn(t: Tables, job: Row, u: User, profile: Option<Row>, resumeFile: Value, coverLetter: string, now: int): (Tables, Outcome<Row>) {
    var created := CreateApplicationIn(t, ApplicationRecord(job, u, profile, resumeFile, coverLetter), now).0;
    UpdateJobIn(created, Field(job, "id"), map["applications_count" := NextCount(Field(job, "applications_count"))])
  }

  /** After applying to a job with an id, the user has applied to it, whatever the counter
      update did. */
  lemma AppliedMarksApplied(t: Tables, job: Row, u: User, profile: Option<Row>, resumeFile: Value, coverLetter: string, now: int)
    requires Field(job, "id") != Null
    ensures HasApplied(AppliedIn(t, job, u, profile, resumeFile, coverLetter, now).0, Field(job, "id"), u)
  {
    var record := ApplicationRecord(job, u, profile, resumeFile, coverLetter);
    ApplicationRecordFields(job, u, profile, resumeFile, coverLetter);
    ApplyMarksApplied(t, record, u, now);
  }

  /** What the signed-in part of loading leaves, as (profile, saved flag, applied flag), for a
      page that showed `before`: when the profile lookup fails nothing changes; otherwise the
      first profile found (the old one when none is) and whether the user saved and applied to
      the job. */
  predicate ViewerShown(db: Tables, jobId: string, u: User, before: (Option<Row>, bool, bool), after: (Option<Row>, bool, bool)) {
    match ProfilesOf(db, u.email)
    case Err(_) => after == before
    case Ok(found) =>
      after == (if |found| > 0 then Some(found[0]) else before.0, IsSaved(db, Str(jobId), u), HasApplied(db, Str(jobId), u))
  }

  /** What `loadData` leaves, as (navigation, job, user, profile, saved flag, applied flag), for
      a page that showed `before` = (job, user, profile, saved flag, applied flag): without an
      id or a job with it the browser goes back to Jobs and nothing changes; otherwise the first
      job with the id is shown and, for a signed-in user, the user and what `ViewerShown` says. */
  predicate DetailsLoaded(db: Tables, jobId: string, session: Option<User>,
                          before: (Option<Row>, Option<User>, Option<Row>, bool, bool),
                          after: (Nav, Option<Row>, Option<User>, Option<Row>, bool, bool)) {
    var jobs := JobFilter(db.jobs, map["id" := Str(jobId)], "");
    if jobId == "" || |jobs| == 0 then after == (GoTo(Jobs, ""), before.0, before.1, before.2, before.3, before.4)
    else
      after.0 == Stay && after.1 == Some(jobs[0]) &&
      if session.None? then (after.2, after.3, after.4, after.5) == (before.1, before.2, before.3, before.4)
      else after.2 == session && ViewerShown(db, jobId, session.value, (before.2, before.3, before.4), (after.3, after.4, after.5))
  }

  /** The page state. `resumeFile` is `Null` until a resume is uploaded. */
  class View {
    var job: Option<Row>
    var user: Option<User>
    var profile: Option<Row>
    var isSaved: bool
    var hasApplied: bool
    var loading: bool
    var applying: bool
    var showApplyDialog: bool
    var coverLetter: string
    var resumeFile: Value

    constructor()
      ensures job.None? && user.None? && profile.None? && !isSaved && !hasApplied && loading
      ensures !applying && !showApplyDialog && coverLetter == "" && resumeFile == Null
    {
      job, user, profile, isSaved, hasApplied, loading := None, None, None, false, false, true;
      applying, showApplyDialog, coverLetter, resumeFile := false, false, "", Null;
    }

    /** The signed-in part of `loadData`: the profile, then the saved and applied flags. */
    method LoadViewer(jobId: string, u: User, store: Store)
      modifies this`profile, this`isSaved, this`hasApplied
      ensures ViewerShown(store.db, jobId, u, (old(profile), old(isSaved), old(hasApplied)), (profile, isSaved, hasApplied))
    {
      var found := store.FindProfiles(u.email);
      if found.Err? {
        return;
      }
      if |found.value| > 0 {
        profile := Some(found.value[0]);
      }
      var saved := store.FilterSavedJobs(SavedCriteria(Str(jobId), u));
      isSaved := |saved| > 0;
      var apps := store.FilterApplications(AppliedCriteria(Str(jobId), u), "");
      hasApplied := |apps| > 0;
    }

    /** `loadData`: no `id` parameter, or no job with that id, sends the browser back to Jobs;
        otherwise the job is shown and, for a signed-in user, the profile and the two flags. */
    method LoadData(jobId: string, session: Option<User>, store: Store) returns (nav: Nav)
      modifies this`job, this`user, this`profile, this`isSaved, this`hasApplied, this`loading
      ensures !loading
      ensures DetailsLoaded(store.db, jobId, session, (old(job), old(user), old(profile), old(isSaved), old(hasApplied)),
                            (nav, job, user, profile, isSaved, hasApplied))
    {
      nav := Stay;
      if jobId == "" {
        loading := false;
        return GoTo(Jobs, "");
      }
      var jobs := store.FilterJobs(map["id" := Str(jobId)], "", 0);
      if |jobs| == 0 {
        loading := false;
        return GoTo(Jobs, "");
      }
      job := Some(jobs[0]);
      if session.Some? {
        user := session;
        LoadViewer(jobId, session.value, store);
      }
      loading := false;
    }

    /** `handleSave`: without a user only the sign-in redirect happens; a saved job loses the
        first of the user's saved rows for it, when one is found. For an unsaved one the call to
        `SavedJob.create` throws, the error is caught, and the job stays unsaved. */
    method HandleSave(store: Store, now: int) returns (nav: Nav)
      modifies this`isSaved, store
      ensures user.None? ==> nav == LoginThen(JobDetails) && isSaved == old(isSaved) && store.db == old(store.db)
      ensures user.Some? ==> nav == Stay
      ensures user.Some? && job.None? ==> isSaved == old(isSaved) && store.db == old(store.db)
      ensures user.Some? && job.Some? && old(isSaved) ==>
        var rows := Query(old(store.db).savedJobs, SavedCriteria(Field(job.value, "id"), user.value), None);
        if |rows| > 0 then
          store.db == old(store.db).(savedJobs := DeleteRows(old(store.db).savedJobs, Field(rows[0], "id"))) && !isSaved
        else store.db == old(store.db) && isSaved
      ensures user.Some? && job.Some? && !old(isSaved) ==> store.db == old(store.db) && !isSaved
    {
      if user.None? {
        return LoginThen(JobDetails);
      }
      nav := Stay;
      if job.None? {
        return;
      }
      if isSaved {
        var rows := store.FilterSavedJobs(SavedCriteria(Field(job.value, "id"), user.value));
        if |rows| > 0 {
          store.DeleteSavedJob(Field(rows[0], "id"));
          isSaved := false;
        }
      } else {
        // The call throws, so `isSaved` is never set.
        var _ := store.CreateSavedJob(SavedCriteria(Field(job.value, "id"), user.value), now);
      }
    }

    /** `handleResumeUpload`: a successful upload becomes the resume of the application. */
    method HandleResumeUpload(file: Option<FileInfo>, config: BucketConfig, now: nat, rand: string, reply: StorageReply)
      modifies this`resumeFile
      ensures var url := UploadFile(file, config, now, rand, reply);
        resumeFile == if file.Some? && url.Ok? then Str(url.value) else old(resumeFile)
    {
      if file.None? {
        return;
      }
      var url := UploadFile(file, config, now, rand, reply);
      if url.Ok? {
        resumeFile := Str(url.value);
      }
    }

    /** The writes of `handleApply` as the page makes them: `Application.create` throws, since
        `apiClient.js` gives `Application` no `create`, so the counter update after it is never
        reached and no table changes. `AppliedIn` is what the two writes were meant to do. */
    method Submit(store: Store, now: int) returns (res: Outcome<Row>)
      requires user.Some? && job.Some?
      ensures res.Err? && Invoke(ApplicationEntity, CreateOp) == Err(res.error)
    {
      res := store.CreateApplication(ApplicationRecord(job.value, user.value, profile, resumeFile, coverLetter), now);
    }

    /** `handleApply`: without a user only the sign-in redirect happens. Otherwise `applying`
        is raised, the writes throw on the missing `Application.create`, the error is caught,
        and `applying` is lowered again: no table changes, the job is not marked applied and
        the dialog stays as it was. */
    method HandleApply(store: Store, now: int) returns (nav: Nav)
      modifies this`applying
      ensures user.None? ==> nav == LoginThen(JobDetails) && applying == old(applying)
      ensures user.Some? ==> nav == Stay && !applying
      ensures store.db == old(store.db) && hasApplied == old(hasApplied) && showApplyDialog == old(showApplyDialog)
    {
      if user.None? {
        return LoginThen(JobDetails);
      }
      nav := Stay;
      applying := true;
      if job.Some? {
        var _ := Submit(store, now);
      }
      applying := false;
    }
  }
}
