/** The job feed of the earlier client, `frontend/src/pages/Feed.js`: the job list fetched from
    the Express backend, the search box and the location and type selects, and Clear Filters. */
module LegacyFeedPage {

  import opened Wrappers
  import opened Seqs
  import opened Strings
  import opened Entities
  import JobsPage

  /** The search box: the query, lower-cased, in the title, the `company` column or a skill. */
  predicate SearchHit(job: Row, query: string) {
    Contains(Lower(Text(job, "title")), Lower(query)) ||
    Contains(Lower(Text(job, "company")), Lower(query)) ||
    JobsPage.SomeSkillContains(Items(job, "skills"), Lower(query))
  }

  /** The three stages, each imposing nothing while its input is empty; location and type are
      compared exactly. */
  predicate BySearch(job: Row, search: string) {
    search == "" || SearchHit(job, search)
  }

  predicate ByLocation(job: Row, location: string) {
    location == "" || Field(job, "location") == Str(location)
  }

  predicate ByType(job: Row, jobType: string) {
    jobType == "" || Field(job, "job_type") == Str(jobType)
  }

  predicate Keeps(job: Row, search: string, location: string, jobType: string) {
    BySearch(job, search) && ByLocation(job, location) && ByType(job, jobType)
  }

  /** What `handleSearch` shows: the jobs the three stages keep, in the fetched order. */
  function Searched(jobs: seq<Row>, search: string, location: string, jobType: string): (r: seq<Row>)
    ensures IsSubsequence(r, jobs)
    ensures forall job :: job in r <==> job in jobs && Keeps(job, search, location, jobType)
  {
    var p := (job: Row) => Keeps(job, search, location, jobType);
    forall job ensures job in Select(jobs, p) <==> job in jobs && p(job) {
      SelectMember(jobs, p, job);
    }
    Select(jobs, p)
  }

  /** With all three inputs empty every job is shown, in order. */
  lemma EmptyInputsShowAll(jobs: seq<Row>)
    ensures Searched(jobs, "", "", "") == jobs
  {
    SelectAll(jobs, (job: Row) => Keeps(job, "", "", ""));
  }

  /** The location select compares whole values: a job elsewhere, even one whose location
      contains the chosen city, is not shown. */
  lemma LocationIsExact(jobs: seq<Row>, location: string, job: Row)
    requires location != "" && job in jobs && Field(job, "location") != Str(location)
    ensures job !in Searched(jobs, "", location, "")
  {
  }

  /** The page state. */
  class View {
    var jobs: seq<Row>
    var filtered: seq<Row>
    var search: string
    var location: string
    var jobType: string
    var error: string

    constructor()
      ensures jobs == [] && filtered == [] && search == "" && location == "" && jobType == "" && error == ""
    {
      jobs, filtered, search, location, jobType, error := [], [], "", "", "", "";
    }

    /** `fetchJobs`: the backend's list, or the error message when the request fails. */
    method FetchJobs(reply: Option<seq<Row>>)
      modifies this`jobs, this`filtered, this`error
      ensures reply.Some? ==> jobs == reply.value && filtered == reply.value && error == old(error)
      ensures reply.None? ==> jobs == old(jobs) && filtered == old(filtered) && error == "Failed to load jobs!"
    {
      if reply.Some? {
        jobs, filtered := reply.value, reply.value;
      } else {
        error := "Failed to load jobs!";
      }
    }

    /** `handleSearch(searchVal, locationVal, typeVal)`: the list narrowed stage by stage. */
    method HandleSearch(searchVal: string, locationVal: string, typeVal: string)
      modifies this`filtered
      ensures filtered == Searched(jobs, searchVal, locationVal, typeVal)
    {
      var k1 := (job: Row) => BySearch(job, searchVal);
      var k2 := (job: Row) => BySearch(job, searchVal) && ByLocation(job, locationVal);
      var k3 := (job: Row) => Keeps(job, searchVal, locationVal, typeVal);
      var results := jobs;
      if searchVal != "" {
        results := Select(results, (job: Row) => SearchHit(job, searchVal));
        SelectAgree(jobs, (job: Row) => SearchHit(job, searchVal), k1);
      } else {
        SelectAll(jobs, k1);
      }
      assert results == Select(jobs, k1);
      if locationVal != "" {
        var loc := (job: Row) => Field(job, "location") == Str(locationVal);
        results := Select(results, loc);
        SelectThen(jobs, k1, loc, k2);
      } else {
        SelectAgree(jobs, k1, k2);
      }
      assert results == Select(jobs, k2);
      if typeVal != "" {
        var ty := (job: Row) => Field(job, "job_type") == Str(typeVal);
        results := Select(results, ty);
        SelectThen(jobs, k2, ty, k3);
      } else {
        SelectAgree(jobs, k2, k3);
      }
      filtered := results;
    }

    /** Typing in the search box searches with the new text and the current selects. */
    method TypeSearch(v: string)
      modifies this`search, this`filtered
      ensures search == v && filtered == Searched(jobs, v, location, jobType)
    {
      search := v;
      HandleSearch(v, location, jobType);
    }

    method ChooseLocation(v: string)
      modifies this`location, this`filtered
      ensures location == v && filtered == Searched(jobs, search, v, jobType)
    {
      location := v;
      HandleSearch(search, v, jobType);
    }

    method ChooseType(v: string)
      modifies this`jobType, this`filtered
      ensures jobType == v && filtered == Searched(jobs, search, location, v)
    {
      jobType := v;
      HandleSearch(search, location, v);
    }

    /** Clear Filters: all three inputs empty and the full list shown. */
    method ClearFilters()
      modifies this`search, this`location, this`jobType, this`filtered
      ensures search == "" && location == "" && jobType == "" && filtered == jobs
      ensures filtered == Searched(jobs, search, location, jobType)
    {
      search, location, jobType := "", "", "";
      filtered := jobs;
      EmptyInputsShowAll(jobs);
    }
  }
}
