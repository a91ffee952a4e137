/** The signed-in home page of `src/pages/Feed.jsx`: the onboarding redirect, the newest open
    jobs, the activity badges and the save toggle. */
module FeedPage {

  import opened Wrappers
  import opened Seqs
  import opened Entities
  import opened ApiClient
  import opened Store
  import JobsPage

  /** The two activity badges: the number of applied and of saved job ids. */
  function ActivityBadges(applications: seq<Value>, savedJobs: seq<Value>): (r: (nat, nat))
    ensures r.0 == |applications| && r.1 == |savedJobs|
  {
    (|applications|, |savedJobs|)
  }

  /** Saving a job raises the Saved badge by one; unsaving a job listed once lowers it by one. */
  lemma SavedBadgeAfterToggle(savedJobs: seq<Value>, applications: seq<Value>, id: Value)
    ensures id !in savedJobs ==> ActivityBadges(applications, savedJobs + [id]).1 == ActivityBadges(applications, savedJobs).1 + 1
    ensures id in savedJobs && NoDuplicates(savedJobs) ==>
      ActivityBadges(applications, Remove(savedJobs, id)).1 == ActivityBadges(applications, savedJobs).1 - 1
  {
    if id in savedJobs && NoDuplicates(savedJobs) {
      RemoveOnce(savedJobs, id);
    }
  }

  /** What `loadData` leaves, as (navigation, profile, jobs, saved ids, applied ids), for a
      page that showed `before` = (profile, jobs, saved ids, applied ids): a viewer without a
      profile goes to onboarding, one with profiles sees the first of them with every open job,
      newest first (`Job.filter` drops the limit of 10 the feed passes), and their own saved and
      applied ids, and otherwise the page stays as it was. */
  predicate FeedLoaded(db: Tables, session: Option<User>, before: (Option<Row>, seq<Row>, seq<Value>, seq<Value>),
                       after: (Nav, Option<Row>, seq<Row>, seq<Value>, seq<Value>)) {
    var kept := (after.1, after.2, after.3, after.4) == before;
    if session.None? then after.0 == Stay && kept
    else match ProfilesOf(db, session.value.email)
      case Err(_) => after.0 == Stay && kept
      case Ok(found) =>
        if |found| == 0 then after.0 == GoTo(Onboarding, "") && kept
        else after == (Stay, Some(found[0]), JobsPage.ActiveJobs(db), SavedIds(db, session.value.email), AppliedIds(db, session.value.email))
  }

  /** The page state. */
  class View {
    var user: Option<User>
    var profile: Option<Row>
    var jobs: seq<Row>
    var savedJobs: seq<Value>
    var applications: seq<Value>
    var loading: bool

    constructor()
      ensures user.None? && profile.None? && jobs == [] && savedJobs == [] && applications == [] && loading
    {
      user, profile, jobs, savedJobs, applications, loading := None, None, [], [], [], true;
    }

    /** After the profile is found: the jobs and the viewer's saved and applied ids. */
    method LoadLists(email: string, store: Store)
      modifies this`jobs, this`savedJobs, this`applications
      ensures jobs == JobsPage.ActiveJobs(store.db) && savedJobs == SavedIds(store.db, email) && applications == AppliedIds(store.db, email)
    {
      jobs := store.FilterJobs(JobsPage.ActiveCriteria, "-created_date", 10);
      var saved := store.FilterSavedJobs(map["user_email" := Str(email)]);
      savedJobs := Map(saved, (s: Row) => Field(s, "job_id"));
      var apps := store.FilterApplications(map["candidate_email" := Str(email)], "");
      applications := Map(apps, (a: Row) => Field(a, "job_id"));
    }

    /** `loadData`: a user without a profile is sent to onboarding before any job is read;
        otherwise the first profile, the open jobs newest first and the viewer's saved and applied
        job ids are loaded. A failed lookup leaves the rest as it was. */
    method LoadData(session: Option<User>, store: Store) returns (nav: Nav)
      modifies this`user, this`profile, this`jobs, this`savedJobs, this`applications, this`loading
      ensures !loading
      ensures user == if session.Some? then session else old(user)
      ensures FeedLoaded(store.db, session, (old(profile), old(jobs), old(savedJobs), old(applications)), (nav, profile, jobs, savedJobs, applications))
    {
      nav := Stay;
      if session.None? {
        loading := false;
        return;
      }
      user := session;
      var found := store.FindProfiles(session.value.email);
      if found.Err? {
        loading := false;
        return;
      }
      if |found.value| == 0 {
        loading := false;
        return GoTo(Onboarding, "");
      }
      profile := Some(found.value[0]);
      LoadLists(session.value.email, store);
      loading := false;
    }

    /** `handleSaveJob`: a saved job loses the first of the user's saved rows for it (when one
        is found) and its id. For any other job the call to `SavedJob.create` throws, the error
        is caught, and nothing changes. Without a user reading the email fails and nothing
        changes. */
    method HandleSaveJob(job: Row, store: Store, now: int)
      modifies this`savedJobs, store
      ensures user.None? ==> savedJobs == old(savedJobs) && store.db == old(store.db)
      ensures user.Some? && Field(job, "id") in old(savedJobs) ==>
        var rows := Query(old(store.db).savedJobs, JobsPage.SavedKey(job, user.value), None);
        if |rows| > 0 then
          store.db == old(store.db).(savedJobs := DeleteRows(old(store.db).savedJobs, Field(rows[0], "id"))) &&
          savedJobs == Remove(old(savedJobs), Field(job, "id"))
        else store.db == old(store.db) && savedJobs == old(savedJobs)
      ensures user.Some? && Field(job, "id") !in old(savedJobs) ==>
        store.db == old(store.db) && savedJobs == old(savedJobs)
    {
      if user.None? {
        return;
      }
      var id := Field(job, "id");
      if id in savedJobs {
        var rows := store.FilterSavedJobs(JobsPage.SavedKey(job, user.value));
        if |rows| > 0 {
          store.DeleteSavedJob(Field(rows[0], "id"));
          savedJobs := Remove(savedJobs, id);
        }
      } else {
        // The call throws, so the id is never appended.
        var _ := store.CreateSavedJob(JobsPage.SavedKey(job, user.value), now);
      }
    }

    /** `handleApply`: the job's details page. */
    method HandleApply(job: Row) returns (nav: Nav)
      ensures nav == JobsPage.DetailsLink(job)
    {
      nav := JobsPage.DetailsLink(job);
    }

  }
}
