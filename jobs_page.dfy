/** The job search page of `src/pages/Jobs.jsx`: the search and filter rules, the filter
    toggles, and the handlers that save and open jobs. */
module JobsPage {

  import opened Wrappers
  import opened Seqs
  import opened Strings
  import opened Entities
  import opened ApiClient
  import opened Store

  /** The filter panel: the chosen job types and levels and the salary bounds as typed. */
  datatype Filters = Filters(jobType: seq<string>, experienceLevel: seq<string>, salaryMin: string, salaryMax: string)

  const NoFilters: Filters := Filters([], [], "", "")

  /** The two list-valued filters `toggleFilter` can name. */
  datatype FilterList = JobTypeList | ExperienceLevelList

  function Chosen(f: Filters, which: FilterList): seq<string> {
    match which
    case JobTypeList => f.jobType
    case ExperienceLevelList => f.experienceLevel
  }

  /** `toggleFilter(type, value)`: flips `value` in the named list and keeps every other field. */
  function ToggleFilter(f: Filters, which: FilterList, value: string): (r: Filters)
    ensures value in Chosen(r, which) <==> value !in Chosen(f, which)
    ensures r.salaryMin == f.salaryMin && r.salaryMax == f.salaryMax
    ensures which == JobTypeList ==> r.experienceLevel == f.experienceLevel
    ensures which == ExperienceLevelList ==> r.jobType == f.jobType
  {
    match which
    case JobTypeList => f.(jobType := Toggle(f.jobType, value))
    case ExperienceLevelList => f.(experienceLevel := Toggle(f.experienceLevel, value))
  }

  /** Toggling changes the membership of `value` in the named list and of nothing else. */
  lemma ToggleFilterMember(f: Filters, which: FilterList, value: string, x: string)
    ensures x in Chosen(ToggleFilter(f, which, value), which) <==>
      (if x == value then value !in Chosen(f, which) else x in Chosen(f, which))
  {
    ToggleMember(Chosen(f, which), value, x);
  }

  // ---------------------------------------------------------------- filter rules

  /** `skills.some(skill => skill.toLowerCase().includes(query))`. */
  predicate SomeSkillContains(skills: seq<string>, query: string) {
    exists i :: 0 <= i < |skills| && Contains(Lower(skills[i]), query)
  }

  /** The search rule for an already lower-cased query. */
  predicate SearchMatch(job: Row, query: string) {
    Contains(Lower(Text(job, "title")), query) ||
    Contains(Lower(Text(job, "company_name")), query) ||
    SomeSkillContains(Items(job, "skills"), query)
  }

  /** The location rule for an already lower-cased query: a substring test. */
  predicate LocationMatch(job: Row, location: string) {
    Contains(Lower(Text(job, "location")), location)
  }

  /** `list.includes(value)` for a string list and a stored value. */
  predicate InList(v: Value, list: seq<string>) {
    v.Str? && v.s in list
  }

  /** The number a relational comparison reads from a stored value (JavaScript's `ToNumber`);
      `None` stands for `NaN`. A list reads as its elements joined with commas. */
  function Numeric(v: Value): Option<int> {
    match v
    case Null => Some(0)
    case Bool(b) => Some(if b then 1 else 0)
    case Num(n) => Some(n)
    case Str(s) => ToNumber(s)
    case Strs(items) => ToNumber(Join(items, ","))
  }

  /** A salary stored as the text of a whole number compares as that number; an empty text
      compares as 0. */
  lemma SalaryTextCompares(n: int, bound: int)
    ensures AtLeast(Str(IntText(n)), Some(bound)) <==> n >= bound
    ensures AtMost(Str(IntText(n)), Some(bound)) <==> n <= bound
    ensures AtMost(Str(""), Some(bound)) <==> 0 <= bound
  {
    ToNumberOfIntText(n);
    ToNumberBlankOrLetter("");
  }

  /** `v >= bound`, false when either side is `NaN`. */
  predicate AtLeast(v: Value, bound: Option<int>) {
    bound.Some? && Numeric(v).Some? && Numeric(v).value >= bound.value
  }

  /** `v <= bound`, false when either side is `NaN`. */
  predicate AtMost(v: Value, bound: Option<int>) {
    bound.Some? && Numeric(v).Some? && Numeric(v).value <= bound.value
  }

  /** Filter number `k` of `applyFilters`, in the order the page applies them; an empty query,
      list or bound imposes nothing. */
  predicate Stage(job: Row, search: string, location: string, f: Filters, k: nat) {
    if k == 0 then search == "" || SearchMatch(job, Lower(search))
    else if k == 1 then location == "" || LocationMatch(job, Lower(location))
    else if k == 2 then f.jobType == [] || InList(Field(job, "job_type"), f.jobType)
    else if k == 3 then f.experienceLevel == [] || InList(Field(job, "experience_level"), f.experienceLevel)
    else if k == 4 then f.salaryMin == "" || AtLeast(Field(job, "salary_max"), ParseDecimal(f.salaryMin))
    else f.salaryMax == "" || AtMost(Field(job, "salary_min"), ParseDecimal(f.salaryMax))
  }

  /** The first `n` filters all hold. */
  predicate StagesUpTo(job: Row, search: string, location: string, f: Filters, n: nat) {
    n == 0 || (StagesUpTo(job, search, location, f, n - 1) && Stage(job, search, location, f, n - 1))
  }

  /** Whether a job survives every filter. */
  predicate Keeps(job: Row, search: string, location: string, f: Filters) {
    Stage(job, search, location, f, 0) && Stage(job, search, location, f, 1) &&
    Stage(job, search, location, f, 2) && Stage(job, search, location, f, 3) &&
    Stage(job, search, location, f, 4) && Stage(job, search, location, f, 5)
  }

  /** Before any filter the copy is the whole list. */
  lemma NoStages(jobs: seq<Row>, search: string, location: string, f: Filters)
    ensures FilteredUpTo(jobs, search, location, f, 0) == jobs
  {
    SelectAll(jobs, (job: Row) => StagesUpTo(job, search, location, f, 0));
  }

  /** Surviving all six filters in turn is surviving every filter. */
  lemma AllStages(jobs: seq<Row>, search: string, location: string, f: Filters)
    ensures FilteredUpTo(jobs, search, location, f, 6) == Filtered(jobs, search, location, f)
  {
    forall job: Row ensures StagesUpTo(job, search, location, f, 6) == Keeps(job, search, location, f) {
      assert StagesUpTo(job, search, location, f, 1) == Stage(job, search, location, f, 0);
      assert StagesUpTo(job, search, location, f, 2) == (StagesUpTo(job, search, location, f, 1) && Stage(job, search, location, f, 1));
      assert StagesUpTo(job, search, location, f, 3) == (StagesUpTo(job, search, location, f, 2) && Stage(job, search, location, f, 2));
      assert StagesUpTo(job, search, location, f, 4) == (StagesUpTo(job, search, location, f, 3) && Stage(job, search, location, f, 3));
      assert StagesUpTo(job, search, location, f, 5) == (StagesUpTo(job, search, location, f, 4) && Stage(job, search, location, f, 4));
      assert StagesUpTo(job, search, location, f, 6) == (StagesUpTo(job, search, location, f, 5) && Stage(job, search, location, f, 5));
    }
    SelectAgree(jobs, (job: Row) => StagesUpTo(job, search, location, f, 6), (job: Row) => Keeps(job, search, location, f));
  }

  /** The jobs the page lists: those that survive every filter, in their loaded order. */
  function Filtered(jobs: seq<Row>, search: string, location: string, f: Filters): (r: seq<Row>)
    ensures IsSubsequence(r, jobs)
    ensures forall i :: 0 <= i < |r| ==> r[i] in jobs && Keeps(r[i], search, location, f)
  {
    Select(jobs, (job: Row) => Keeps(job, search, location, f))
  }

  /** The jobs that survive the first `n` filters. */
  function FilteredUpTo(jobs: seq<Row>, search: string, location: string, f: Filters, n: nat): seq<Row> {
    Select(jobs, (job: Row) => StagesUpTo(job, search, location, f, n))
  }

  /** Filter number `k` as the callback `filter` receives. */
  function Pass(search: string, location: string, f: Filters, k: nat): Row -> bool {
    (job: Row) => Stage(job, search, location, f, k)
  }

  /** Whether filter `k` has an input at all (`if (searchQuery)`, `if (filters.jobType.length > 0)`, …). */
  predicate Active(search: string, location: string, f: Filters, k: nat) {
    if k == 0 then search != ""
    else if k == 1 then location != ""
    else if k == 2 then |f.jobType| > 0
    else if k == 3 then |f.experienceLevel| > 0
    else if k == 4 then f.salaryMin != ""
    else f.salaryMax != ""
  }

  /** Narrowing by filter `k` takes the jobs that survive `k` filters to those that survive `k + 1`. */
  lemma Narrow(jobs: seq<Row>, search: string, location: string, f: Filters, k: nat)
    ensures Select(FilteredUpTo(jobs, search, location, f, k), Pass(search, location, f, k)) == FilteredUpTo(jobs, search, location, f, k + 1)
  {
    SelectThen(jobs, (job: Row) => StagesUpTo(job, search, location, f, k), Pass(search, location, f, k),
      (job: Row) => StagesUpTo(job, search, location, f, k + 1));
  }

  /** A filter without input keeps every job. */
  lemma Skip(jobs: seq<Row>, search: string, location: string, f: Filters, k: nat)
    requires !Active(search, location, f, k)
    ensures FilteredUpTo(jobs, search, location, f, k) == FilteredUpTo(jobs, search, location, f, k + 1)
  {
    SelectAgree(jobs, (job: Row) => StagesUpTo(job, search, location, f, k),
      (job: Row) => StagesUpTo(job, search, location, f, k + 1));
  }

  /** One step of `applyFilters`: filter `k` narrows the list when it has an input. */
  method NarrowBy(jobs: seq<Row>, search: string, location: string, f: Filters, k: nat, result: seq<Row>)
    returns (next: seq<Row>)
    requires result == FilteredUpTo(jobs, search, location, f, k)
    ensures next == FilteredUpTo(jobs, search, location, f, k + 1)
  {
    if Active(search, location, f, k) {
      Narrow(jobs, search, location, f, k);
      next := Select(result, Pass(search, location, f, k));
    } else {
      Skip(jobs, search, location, f, k);
      next := result;
    }
  }

  /** `applyFilters`: narrows a copy of the list by the search, the location, the job types, the
      levels and the two salary bounds, in that order. */
  method ApplyFilters(jobs: seq<Row>, search: string, location: string, f: Filters) returns (result: seq<Row>)
    ensures result == Filtered(jobs, search, location, f)
  {
    result := jobs;
    NoStages(jobs, search, location, f);
    result := NarrowBy(jobs, search, location, f, 0, result);
    result := NarrowBy(jobs, search, location, f, 1, result);
    result := NarrowBy(jobs, search, location, f, 2, result);
    result := NarrowBy(jobs, search, location, f, 3, result);
    result := NarrowBy(jobs, search, location, f, 4, result);
    result := NarrowBy(jobs, search, location, f, 5, result);
    AllStages(jobs, search, location, f);
  }

  /** A job is listed exactly when it was loaded and survives every filter. */
  lemma FilteredMember(jobs: seq<Row>, search: string, location: string, f: Filters, job: Row)
    ensures job in Filtered(jobs, search, location, f) <==> job in jobs && Keeps(job, search, location, f)
  {
    SelectMember(jobs, (j: Row) => Keeps(j, search, location, f), job);
  }

  /** With every filter empty the whole list is shown. */
  lemma NoFiltersKeepsAll(jobs: seq<Row>)
    ensures Filtered(jobs, "", "", NoFilters) == jobs
  {
    SelectAll(jobs, (job: Row) => Keeps(job, "", "", NoFilters));
  }

  /** The search alone keeps a job iff the lower-cased query occurs in its lower-cased title,
      company name or one of its skills. */
  lemma SearchOnly(jobs: seq<Row>, search: string, job: Row)
    requires search != ""
    ensures job in Filtered(jobs, search, "", NoFilters) <==>
      job in jobs &&
      (Contains(Lower(Text(job, "title")), Lower(search)) ||
       Contains(Lower(Text(job, "company_name")), Lower(search)) ||
       exists i :: 0 <= i < |Items(job, "skills")| && Contains(Lower(Items(job, "skills")[i]), Lower(search)))
  {
    FilteredMember(jobs, search, "", NoFilters, job);
  }

  /** The location alone keeps a job iff the lower-cased query is part of its lower-cased location. */
  lemma LocationOnly(jobs: seq<Row>, location: string, job: Row)
    requires location != ""
    ensures job in Filtered(jobs, "", location, NoFilters) <==>
      job in jobs && Contains(Lower(Text(job, "location")), Lower(location))
  {
    FilteredMember(jobs, "", location, NoFilters, job);
  }

  /** With both salary bounds typed as whole numbers, a job with numeric salaries is kept iff
      its range overlaps the wanted one. */
  lemma SalaryOverlap(job: Row, lo: int, hi: int)
    requires Field(job, "salary_min").Num? && Field(job, "salary_max").Num?
    ensures Keeps(job, "", "", Filters([], [], IntText(lo), IntText(hi))) <==>
      Field(job, "salary_max").n >= lo && Field(job, "salary_min").n <= hi
  {
    ParseDecimalOfIntText(lo);
    ParseDecimalOfIntText(hi);
    UnsignedText(lo);
    UnsignedText(hi);
  }

  // ---------------------------------------------------------------- navigation

  /** `handleApply`: signed-out users go to sign-in and come back to the list. */
  function ApplyTarget(user: Option<User>, job: Row): (r: Nav)
    ensures r.LoginThen? <==> user.None?
    ensures r.GoTo? ==> r == DetailsLink(job)
  {
    if user.None? then LoginThen(Jobs) else DetailsLink(job)
  }

  /** The job details page for one job, as the card link builds it. */
  function DetailsLink(job: Row): (r: Nav)
    ensures r.GoTo? && r.page == JobDetails && "?id=" <= r.query
  {
    GoTo(JobDetails, "?id=" + ValueText(Field(job, "id")))
  }

  /** Cards get save and apply handlers only when the viewer is not an employer. */
  function CardHandlers(profile: Option<Row>): (r: bool)
    ensures r <==> !IsEmployer(profile)
  {
    !IsEmployer(profile)
  }

  /** The criteria the save toggle looks a saved row up by. */
  function SavedKey(job: Row, user: User): Row {
    map["job_id" := Field(job, "id"), "user_email" := Str(user.email)]
  }

  /** Loading gets past the profile lookup: there is no viewer, or the lookup succeeds. */
  predicate ViewerLoads(db: Tables, session: Option<User>) {
    session.None? || ProfilesOf(db, session.value.email).Ok?
  }

  /** What a successful viewer lookup leaves in the page: the first profile found (the old one
      when none is), and the job ids of the viewer's saved rows and applications. */
  predicate Viewer(db: Tables, u: User, before: Option<Row>, profile: Option<Row>, saved: seq<Value>, applied: seq<Value>)
    requires ProfilesOf(db, u.email).Ok?
  {
    var found := ProfilesOf(db, u.email).value;
    profile == (if |found| > 0 then Some(found[0]) else before) &&
    saved == SavedIds(db, u.email) && applied == AppliedIds(db, u.email)
  }

  /** What `loadData` leaves, as (profile, saved ids, applied ids, jobs, filtered jobs), for a
      page that showed `before`: a failing viewer lookup leaves it as it was; otherwise the
      viewer's data (when someone is signed in) and the active jobs, all of them shown. */
  predicate JobsLoaded(db: Tables, session: Option<User>, before: (Option<Row>, seq<Value>, seq<Value>, seq<Row>, seq<Row>),
                       after: (Option<Row>, seq<Value>, seq<Value>, seq<Row>, seq<Row>)) {
    if !ViewerLoads(db, session) then after == before
    else
      (if session.None? then (after.0, after.1, after.2) == (before.0, before.1, before.2)
       else Viewer(db, session.value, before.0, after.0, after.1, after.2)) &&
      after.3 == ActiveJobs(db) && after.4 == after.3
  }

  /** The jobs the page lists: open ones. */
  const ActiveCriteria: Row := map["status" := Str("active")]

  /** The job listing the page loads: `Job.filter` drops the limit of 100 the page passes. */
  function ActiveJobs(db: Tables): seq<Row> {
    JobFilter(db.jobs, ActiveCriteria, "-created_date")
  }

  /** The listing holds every active job of the table and nothing else, newest first. */
  lemma ActiveJobsListed(db: Tables)
    ensures forall job :: job in ActiveJobs(db) <==> job in db.jobs && Matches(job, ActiveCriteria)
    ensures var r := ActiveJobs(db);
      forall i, j :: 0 <= i < j < |r| ==> OrderKey(r[i], "created_date") >= OrderKey(r[j], "created_date")
  {
    forall job {
      QueryMember(db.jobs, ActiveCriteria, ApplyOrder("-created_date"), job);
    }
    NewestFirst(db.jobs, ActiveCriteria);
  }

  /** The page state. */
  class View {
    var user: Option<User>
    var profile: Option<Row>
    var jobs: seq<Row>
    var filteredJobs: seq<Row>
    var savedJobs: seq<Value>
    var applications: seq<Value>
    var loading: bool
    var searchQuery: string
    var locationQuery: string
    var filters: Filters

    constructor()
      ensures user.None? && profile.None? && jobs == [] && filteredJobs == [] && savedJobs == [] && applications == []
      ensures loading && searchQuery == "" && locationQuery == "" && filters == NoFilters
    {
      user, profile, jobs, filteredJobs, savedJobs, applications := None, None, [], [], [], [];
      loading, searchQuery, locationQuery, filters := true, "", "", NoFilters;
    }

    /** A non-empty `search` URL parameter becomes the search text. */
    method InitSearch(param: Option<string>)
      modifies this`searchQuery
      ensures searchQuery == if param.Some? && param.value != "" then param.value else old(searchQuery)
    {
      if param.Some? && param.value != "" {
        searchQuery := param.value;
      }
    }

    /** Re-runs the filters after any of their inputs changed. */
    method Refresh()
      modifies this`filteredJobs
      ensures filteredJobs == Filtered(jobs, searchQuery, locationQuery, filters)
    {
      filteredJobs := ApplyFilters(jobs, searchQuery, locationQuery, filters);
    }

    /** The signed-in part of `loadData`: the viewer's first profile, then the job ids of their
        saved rows and of their applications; a failing profile lookup stops it. */
    method LoadViewer(u: User, store: Store) returns (ok: bool)
      modifies this`profile, this`savedJobs, this`applications
      ensures ok <==> ProfilesOf(store.db, u.email).Ok?
      ensures !ok ==> profile == old(profile) && savedJobs == old(savedJobs) && applications == old(applications)
      ensures ok ==> Viewer(store.db, u, old(profile), profile, savedJobs, applications)
    {
      var found := store.FindProfiles(u.email);
      if found.Err? {
        return false;
      }
      if |found.value| > 0 {
        profile := Some(found.value[0]);
      }
      var saved := store.FilterSavedJobs(map["user_email" := Str(u.email)]);
      savedJobs := Map(saved, (s: Row) => Field(s, "job_id"));
      var apps := store.FilterApplications(map["candidate_email" := Str(u.email)], "");
      applications := Map(apps, (a: Row) => Field(a, "job_id"));
      ok := true;
    }

    /** `loadData`: the viewer's data when someone is signed in, then the active jobs; a failing
        lookup abandons the rest. */
    method LoadData(session: Option<User>, store: Store)
      modifies this`user, this`profile, this`savedJobs, this`applications, this`jobs, this`filteredJobs, this`loading
      ensures !loading
      ensures user == if session.Some? then session else old(user)
      ensures JobsLoaded(store.db, session, (old(profile), old(savedJobs), old(applications), old(jobs), old(filteredJobs)),
                         (profile, savedJobs, applications, jobs, filteredJobs))
    {
      if session.Some? {
        user := session;
        var ok := LoadViewer(session.value, store);
        if !ok {
          loading := false;
          return;
        }
      }
      var loaded := store.FilterJobs(ActiveCriteria, "-created_date", 100);
      jobs := loaded;
      filteredJobs := loaded;
      loading := false;
    }

    /** `handleSaveJob`: without a user only the sign-in redirect happens; a saved job loses its
        first saved row (when one is found) and its id. For any other job the call to
        `SavedJob.create` throws, the error is caught, and neither the tables nor the saved ids
        change. */
    method HandleSaveJob(job: Row, store: Store, now: int) returns (nav: Nav)
      modifies this`savedJobs, store
      ensures user.None? ==> nav == LoginThen(Jobs) && savedJobs == old(savedJobs) && store.db == old(store.db)
      ensures user.Some? ==> nav == Stay
      ensures user.Some? && Field(job, "id") in old(savedJobs) ==>
        var rows := Query(old(store.db).savedJobs, SavedKey(job, user.value), None);
        if |rows| > 0 then
          store.db == old(store.db).(savedJobs := DeleteRows(old(store.db).savedJobs, Field(rows[0], "id"))) &&
          savedJobs == Remove(old(savedJobs), Field(job, "id"))
        else store.db == old(store.db) && savedJobs == old(savedJobs)
      ensures user.Some? && Field(job, "id") !in old(savedJobs) ==>
        store.db == old(store.db) && savedJobs == old(savedJobs)
    {
      if user.None? {
        return LoginThen(Jobs);
      }
      nav := Stay;
      var id := Field(job, "id");
      if id in savedJobs {
        var rows := store.FilterSavedJobs(SavedKey(job, user.value));
        if |rows| > 0 {
          store.DeleteSavedJob(Field(rows[0], "id"));
          savedJobs := Remove(savedJobs, id);
        }
      } else {
        // The call throws, so the id is never appended.
        var _ := store.CreateSavedJob(SavedKey(job, user.value), now);
      }
    }

    /** `clearFilters`. */
    method ClearFilters()
      modifies this`searchQuery, this`locationQuery, this`filters
      ensures searchQuery == "" && locationQuery == "" && filters == NoFilters
    {
      searchQuery, locationQuery, filters := "", "", NoFilters;
    }

    /** `toggleFilter(type, value)`. */
    method ToggleFilterOn(which: FilterList, value: string)
      modifies this`filters
      ensures filters == ToggleFilter(old(filters), which, value)
    {
      filters := ToggleFilter(filters, which, value);
    }
  }
}
