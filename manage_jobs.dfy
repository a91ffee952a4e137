/** The employer's job list of `src/pages/ManageJobs.jsx`: the role check, the status tabs and
    their counts, closing and reopening a job, and deleting one. */
module ManageJobsPage {

  import opened Wrappers
  import opened Seqs
  import opened Entities
  import opened ApiClient
  import opened Store
  import opened StatusLists
  import JobCard

  /** The three job statuses and their badges. */
  const Configs: map<string, StatusStyle> := map[
    "active" := StatusStyle("Active", "bg-green-100 text-green-700"),
    "closed" := StatusStyle("Closed", "bg-red-100 text-red-700"),
    "draft" := StatusStyle("Draft", "bg-gray-100 text-gray-700")]

  /** `getStatusConfig`: an unknown status shows the draft badge. */
  function StatusConfig(status: Value): (r: StatusStyle)
    ensures ValueText(status) in Configs ==> r == Configs[ValueText(status)]
    ensures r == Configs["draft"] <==> ValueText(status) == "draft" || ValueText(status) !in Configs
  {
    StatusLookup(Configs, status, "draft")
  }

  /** `filteredJobs`: every job on the `'all'` tab, else the jobs whose status is the tab. */
  function FilteredJobs(jobs: seq<Row>, activeTab: string): (r: seq<Row>)
    ensures activeTab == "all" ==> r == jobs
    ensures activeTab != "all" ==> IsSubsequence(r, jobs) && forall x :: x in r <==> x in jobs && HasStatus(x, activeTab)
  {
    ByStatus(jobs, activeTab)
  }

  /** The count a tab shows: every job for All, else the jobs with that status. */
  function TabCount(jobs: seq<Row>, tab: string): (n: nat)
    ensures n == |FilteredJobs(jobs, tab)|
  {
    TabCountIsListLength(jobs, tab);
    if tab == "all" then |jobs| else StatusCount(jobs, tab)
  }

  /** When every job is active, closed or draft, the three status tabs add up to All. */
  lemma TabsAddUp(jobs: seq<Row>)
    requires forall x :: x in jobs ==> Field(x, "status").Str? && Field(x, "status").s in ["active", "closed", "draft"]
    ensures TabCount(jobs, "active") + TabCount(jobs, "closed") + TabCount(jobs, "draft") == TabCount(jobs, "all")
  {
    var statuses := ["active", "closed", "draft"];
    CountsPartition(jobs, statuses);
    assert statuses[1..] == ["closed", "draft"] && statuses[1..][1..] == ["draft"] && statuses[1..][1..][1..] == [];
    assert Sum(jobs, statuses) == StatusCount(jobs, "active") + StatusCount(jobs, "closed") + StatusCount(jobs, "draft");
  }

  /** The status a job's menu offers to switch to: Close Job for an active job, Reopen Job for
      a closed one, neither otherwise. */
  function StatusMenu(job: Row): (r: Option<string>)
    ensures r == Some("closed") <==> HasStatus(job, "active")
    ensures r == Some("active") <==> HasStatus(job, "closed")
    ensures r.None? <==> !HasStatus(job, "active") && !HasStatus(job, "closed")
  {
    if HasStatus(job, "active") then Some("closed")
    else if HasStatus(job, "closed") then Some("active")
    else None
  }

  /** Closing a job and then reopening it from the menu brings it back to active. */
  lemma CloseThenReopen(jobs: seq<Row>, i: nat)
    requires i < |jobs| && HasStatus(jobs[i], "active")
    ensures var id := Field(jobs[i], "id");
      var closed := WithStatus(jobs, id, StatusMenu(jobs[i]).value);
      StatusMenu(closed[i]) == Some("active") &&
      HasStatus(WithStatus(closed, id, StatusMenu(closed[i]).value)[i], "active")
  {
    var id := Field(jobs[i], "id");
    var closed := WithStatus(jobs, id, "closed");
    assert Field(closed[i], "id") == id;
  }

  /** The skill badges of a job card: at most five, and the number left out. */
  function SkillBadges(job: Row): (r: (seq<string>, nat))
    ensures |r.0| <= 5 && r.0 <= Items(job, "skills")
    ensures r.1 == if |Items(job, "skills")| > 5 then |Items(job, "skills")| - 5 else 0
  {
    JobCard.SkillPreview(Items(job, "skills"), 5)
  }

  /** The page state. */
  class View {
    var user: Option<User>
    var profile: Option<Row>
    var jobs: seq<Row>
    var loading: bool
    var deleteJobId: Value
    var activeTab: string

    constructor()
      ensures user.None? && profile.None? && jobs == [] && loading && deleteJobId == Null && activeTab == "active"
    {
      user, profile, jobs, loading, deleteJobId, activeTab := None, None, [], true, Null, "active";
    }

    /** `loadData`: someone whose profile is not an employer's goes to the feed before any job
        is read; otherwise (also without a profile) the employer's jobs are listed newest first.
        A failed read leaves the list as it was. */
    method LoadData(session: Option<User>, store: Store) returns (nav: Nav)
      modifies this`user, this`profile, this`jobs, this`loading
      ensures !loading
      ensures session.None? ==> nav == Stay && user == old(user) && profile == old(profile) && jobs == old(jobs)
      ensures session.Some? ==> user == session
      ensures session.Some? && ProfilesOf(store.db, session.value.email).Err? ==>
        nav == Stay && profile == old(profile) && jobs == old(jobs)
      ensures session.Some? && ProfilesOf(store.db, session.value.email).Ok? ==>
        var found := ProfilesOf(store.db, session.value.email).value;
        profile == (if |found| > 0 then Some(found[0]) else old(profile)) &&
        (if |found| > 0 && Field(found[0], "role") != Str("employer")
         then nav == GoTo(Feed, "") && jobs == old(jobs)
         else nav == Stay && jobs == JobFilter(store.db.jobs, map["employer_id" := Str(session.value.email)], "-created_date"))
    {
      nav := Stay;
      if session.None? {
        loading := false;
        return;
      }
      user := session;
      var found := store.FindProfiles(session.value.email);
      if found.Err? {
        loading := false;
        return;
      }
      if |found.value| > 0 {
        profile := Some(found.value[0]);
        if Field(found.value[0], "role") != Str("employer") {
          loading := false;
          return GoTo(Feed, "");
        }
      }
      jobs := store.FilterJobs(map["employer_id" := Str(session.value.email)], "-created_date", 0);
      loading := false;
    }

    /** `handleStatusChange`: once the write succeeds, only that job's status changes. */
    method HandleStatusChange(jobId: Value, newStatus: string, store: Store)
      modifies this`jobs, store
      ensures var res := UpdateJobIn(old(store.db), jobId, map["status" := Str(newStatus)]);
        store.db == res.0 &&
        jobs == if res.1.Ok? then WithStatus(old(jobs), jobId, newStatus) else old(jobs)
    {
      var res := store.UpdateJob(jobId, map["status" := Str(newStatus)]);
      if res.Ok? {
        jobs := WithStatus(jobs, jobId, newStatus);
      }
    }

    /** Delete Job in a card's menu opens the confirmation for that job. */
    method AskDelete(jobId: Value)
      modifies this`deleteJobId
      ensures deleteJobId == jobId
    {
      deleteJobId := jobId;
    }

    /** `handleDelete`: the confirmed job is deleted, dropped from the list, and the confirmation
        closed. */
    method HandleDelete(store: Store)
      modifies this`jobs, this`deleteJobId, store
      ensures store.db == old(store.db).(jobs := DeleteRows(old(store.db).jobs, old(deleteJobId)))
      ensures jobs == Without(old(jobs), "id", old(deleteJobId)) && deleteJobId == Null
    {
      store.DeleteJob(deleteJobId);
      jobs := Without(jobs, "id", deleteJobId);
      deleteJobId := Null;
    }

    method SelectTab(tab: string)
      modifies this`activeTab
      ensures activeTab == tab
    {
      activeTab := tab;
    }
  }
}
