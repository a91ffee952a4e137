/** The job posting form of `src/pages/PostJob.jsx`: the employer gate, the skill list, the
    submit rule and the record a submit stores. */
module PostJobPage {

  import opened Wrappers
  import opened Seqs
  import opened Strings
  import opened Entities
  import opened Store

  /** The form state (`jobData`); salaries are the text typed into their fields. */
  datatype JobForm = JobForm(
    title: string, companyName: string, location: string, jobType: string, experienceLevel: string,
    salaryMin: string, salaryMax: string, description: string, requirements: string,
    skills: seq<string>, status: string)

  const InitialForm: JobForm := JobForm("", "", "", "", "", "", "", "", "", [], "active")

  const PopularSkills: seq<string> :=
    ["Python", "Java", "JavaScript", "React", "Node.js", "SQL", "AWS", "Machine Learning", "Data Analysis", "Excel"]

  /** `handleAddSkill(skill)`: a non-empty skill that is not chosen yet goes at the end. */
  function AddSkill(skills: seq<string>, skill: string): (r: seq<string>)
    ensures skill != "" ==> skill in r
    ensures NoDuplicates(skills) ==> NoDuplicates(r)
    ensures r == skills || (skill != "" && skill !in skills && r == skills + [skill])
  {
    if skill != "" && skill !in skills then skills + [skill] else skills
  }

  /** `handleRemoveSkill(skill)`: every copy of the skill goes, the others keep their order. */
  function RemoveSkill(skills: seq<string>, skill: string): (r: seq<string>)
    ensures skill !in r && IsSubsequence(r, skills)
  {
    Remove(skills, skill)
  }

  /** Removing a skill just added restores the list. */
  lemma RemoveUndoesAdd(skills: seq<string>, skill: string)
    requires skill !in skills
    ensures RemoveSkill(AddSkill(skills, skill), skill) == skills
  {
    if skill != "" {
      ToggleTwice(skills, skill);
    } else {
      RemoveAbsent(skills, skill);
    }
  }

  /** The popular skills offered as one-click additions: those not chosen yet, in their order. */
  function Suggestions(skills: seq<string>): (r: seq<string>)
    ensures IsSubsequence(r, PopularSkills)
  {
    Select(PopularSkills, (s: string) => s !in skills)
  }

  /** A popular skill is offered exactly when it is not chosen. */
  lemma SuggestionMember(skills: seq<string>, s: string)
    ensures s in Suggestions(skills) <==> s in PopularSkills && s !in skills
  {
    SelectMember(PopularSkills, (x: string) => x !in skills, s);
  }

  /** The six fields the form requires. */
  predicate RequiredFilled(form: JobForm) {
    form.title != "" && form.companyName != "" && form.location != "" &&
    form.jobType != "" && form.experienceLevel != "" && form.description != ""
  }

  /** The submit button is enabled only with all six required fields and no post in flight. */
  function SubmitEnabled(posting: bool, form: JobForm): (r: bool)
    ensures r <==> !posting && RequiredFilled(form)
  {
    !(posting || form.title == "" || form.companyName == "" || form.location == "" ||
      form.jobType == "" || form.experienceLevel == "" || form.description == "")
  }

  /** A salary field as sent: `null` when empty, otherwise the number typed (a text that is not a
      number parses to `NaN`, which the request body carries as `null`). */
  function SalaryValue(text: string): (v: Value)
    ensures text == "" ==> v == Null
    ensures v.Num? ==> Some(v.n) == ParseDecimal(text)
  {
    if text == "" then Null
    else match ParseDecimal(text)
      case Some(n) => Num(n)
      case None => Null
  }

  /** A whole number typed into a salary field is sent as that number. */
  lemma SalaryValueOfNumber(n: int)
    ensures SalaryValue(IntText(n)) == Num(n)
  {
    ParseDecimalOfIntText(n);
  }

  /** The record `handleSubmit` sends, as written: the company under `company` and no level or status. */
  function SubmitPayloadAsWritten(form: JobForm, user: User): (p: Row)
    ensures "company_name" !in p && "experience_level" !in p && "status" !in p && "id" !in p
    ensures Field(p, "employer_id") == Str(user.email) && Field(p, "company") == Str(form.companyName)
  {
    map[
      "title" := Str(form.title), "company" := Str(form.companyName), "location" := Str(form.location),
      "job_type" := Str(form.jobType), "salary_min" := SalaryValue(form.salaryMin),
      "salary_max" := SalaryValue(form.salaryMax), "description" := Str(form.description),
      "requirements" := Str(form.requirements), "skills" := Strs(form.skills), "employer_id" := Str(user.email)]
  }

  /** A job stored from that record has no company name and no status, so the active listings
      never show it and cards show no company. */
  lemma PostedJobAsWrittenIsUnlisted(form: JobForm, user: User, id: int, now: int)
    ensures var row := ApiClient.Inserted(SubmitPayloadAsWritten(form, user), id, now);
      Text(row, "company_name") == "" && Field(row, "experience_level") == Null &&
      !ApiClient.Matches(row, map["status" := Str("active")])
  {
    var p := SubmitPayloadAsWritten(form, user);
    var row := ApiClient.Inserted(p, id, now);
    assert "status" !in row && "company_name" !in row && "experience_level" !in row;
  }

  /** The record the form evidently means to store: the columns the listings read. */
  function SubmitPayload(form: JobForm, user: User): (p: Row)
    ensures Field(p, "company_name") == Str(form.companyName)
    ensures Field(p, "experience_level") == Str(form.experienceLevel)
    ensures Field(p, "status") == Str(form.status)
    ensures Field(p, "employer_id") == Str(user.email)
    ensures Field(p, "salary_min") == SalaryValue(form.salaryMin) && Field(p, "salary_max") == SalaryValue(form.salaryMax)
    ensures "id" !in p
  {
    map[
      "title" := Str(form.title), "company_name" := Str(form.companyName), "location" := Str(form.location),
      "job_type" := Str(form.jobType), "experience_level" := Str(form.experienceLevel),
      "salary_min" := SalaryValue(form.salaryMin), "salary_max" := SalaryValue(form.salaryMax),
      "description" := Str(form.description), "requirements" := Str(form.requirements),
      "skills" := Strs(form.skills), "employer_id" := Str(user.email), "status" := Str(form.status)]
  }

  /** A job posted from a fresh form is active, so it appears in the active listings. */
  lemma PostedJobIsListed(form: JobForm, user: User, id: int, now: int)
    requires form.status == "active"
    ensures ApiClient.Matches(ApiClient.Inserted(SubmitPayload(form, user), id, now), map["status" := Str("active")])
  {
    var row := ApiClient.Inserted(SubmitPayload(form, user), id, now);
    assert Field(row, "status") == Str("active");
  }

  /** Where the profile check sends the visitor: employers stay, everyone else goes to the feed. */
  function RoleGate(profile: Row): (r: Nav)
    ensures r == Stay <==> Field(profile, "role") == Str("employer")
    ensures r != Stay ==> r == GoTo(Feed, "")
  {
    if Field(profile, "role") == Str("employer") then Stay else GoTo(Feed, "")
  }

  /** The page state. */
  class View {
    var user: Option<User>
    var profile: Option<Row>
    var loading: bool
    var posting: bool
    var success: bool
    var newSkill: string
    var jobData: JobForm

    constructor()
      ensures user.None? && profile.None? && loading && !posting && !success && newSkill == "" && jobData == InitialForm
    {
      user, profile, loading, posting, success, newSkill, jobData := None, None, true, false, false, "", InitialForm;
    }

    /** `loadData`: the first profile decides; employers get their company name filled in,
        anyone else is sent to the feed. */
    method LoadData(session: Option<User>, store: Store) returns (nav: Nav)
      modifies this`user, this`profile, this`jobData, this`loading
      ensures !loading
      ensures user == if session.Some? then session else old(user)
      ensures session.None? ==> nav == Stay && profile == old(profile) && jobData == old(jobData)
      ensures session.Some? ==>
        var found := ProfilesOf(store.db, session.value.email);
        if found.Err? || |found.value| == 0 then nav == Stay && profile == old(profile) && jobData == old(jobData)
        else
          profile == Some(found.value[0]) && nav == RoleGate(found.value[0]) &&
          jobData == (if nav == Stay then old(jobData).(companyName := TextOr(found.value[0], "company_name", "")) else old(jobData))
    {
      nav := Stay;
      if session.None? {
        loading := false;
        return;
      }
      user := session;
      var found := store.FindProfiles(session.value.email);
      if found.Ok? && |found.value| > 0 {
        var first := found.value[0];
        profile := Some(first);
        if Field(first, "role") == Str("employer") {
          jobData := jobData.(companyName := TextOr(first, "company_name", ""));
        } else {
          nav := GoTo(Feed, "");
        }
      }
      loading := false;
    }

    /** Typing into the skill box. */
    method TypeSkill(value: string)
      modifies this`newSkill
      ensures newSkill == value
    {
      newSkill := value;
    }

    method HandleAddSkill(skill: string)
      modifies this`jobData, this`newSkill
      ensures jobData == old(jobData).(skills := AddSkill(old(jobData).skills, skill))
      ensures newSkill == ""
    {
      if skill != "" && skill !in jobData.skills {
        jobData := jobData.(skills := jobData.skills + [skill]);
      }
      newSkill := "";
    }

    method HandleRemoveSkill(skill: string)
      modifies this`jobData
      ensures jobData == old(jobData).(skills := RemoveSkill(old(jobData).skills, skill))
    {
      jobData := jobData.(skills := Remove(jobData.skills, skill));
    }

    /** `handleSubmit`: sends the record as written; once the insert is accepted the post is
        marked a success and the page moves to the job list, with `posting` left raised. A
        missing user (whose email cannot be read) or a rejected insert is reported and releases
        the form. `rejection` is the database's answer to the insert. */
    method HandleSubmit(store: Store, now: int, rejection: Option<Error>) returns (nav: Nav)
      modifies this`posting, this`success, store
      ensures user.None? || rejection.Some? ==>
        nav == Stay && !posting && success == old(success) && store.db == old(store.db)
      ensures user.Some? && rejection.None? ==>
        nav == GoTo(ManageJobs, "") && posting && success &&
        store.db == CreateJobIn(old(store.db), SubmitPayloadAsWritten(jobData, user.value), now).0
    {
      posting := true;
      if user.None? {
        posting := false;
        return Stay;
      }
      var payload := SubmitPayloadAsWritten(jobData, user.value);
      var created := store.CreateJob(payload, now, rejection);
      if created.Err? {
        posting := false;
        return Stay;
      }
      success := true;
      nav := GoTo(ManageJobs, "");
    }
  }
}
