/** The job form of the earlier client, `frontend/src/pages/PostJob.js`: field edits, the skill
    list, and the request it posts to the Express backend. */
module LegacyPostJobPage {

  import opened Wrappers
  import opened Strings
  import opened Entities
  import opened LegacyDb
  import LegacyJobRoutes

  /** The form as it starts. */
  const BlankForm: Row := map[
    "title" := Str(""), "company" := Str(""), "location" := Str(""), "job_type" := Str("Full-time"),
    "salary_min" := Str(""), "salary_max" := Str(""), "description" := Str(""), "requirements" := Str("")]

  /** `skills.filter((_, idx) => idx !== i)`: exactly the skill at index `i` goes. */
  function WithoutIndex(skills: seq<string>, i: int): (r: seq<string>)
    ensures 0 <= i < |skills| ==> |r| == |skills| - 1
    ensures 0 <= i < |skills| ==> (forall k :: 0 <= k < i ==> r[k] == skills[k]) && (forall k :: i <= k < |r| ==> r[k] == skills[k + 1])
    ensures !(0 <= i < |skills|) ==> r == skills
  {
    if 0 <= i < |skills| then skills[..i] + skills[i + 1..] else skills
  }

  /** `parseInt(text) * 100000`, as `JSON.stringify` sends it: NaN becomes `null`. */
  function ScaledSalary(text: string): (r: Value)
    ensures ParseInt(text).Some? ==> r == Num(ParseInt(text).value * 100000)
    ensures ParseInt(text).None? ==> r == Null
  {
    match ParseInt(text)
    case Some(n) => Num(n * 100000)
    case None => Null
  }

  /** A salary typed as a whole number of lakhs is sent in rupees. */
  lemma ScaledSalaryOfNumber(n: int)
    ensures ScaledSalary(IntText(n)) == Num(n * 100000)
  {
    ParseIntOfIntText(n);
  }

  /** A salary field that is empty or only white space is sent as `null`. */
  lemma ScaledSalaryOfBlank(text: string)
    requires forall i :: 0 <= i < |text| ==> IsWhite(text[i])
    ensures ScaledSalary(text) == Null
  {
    TrimStartCuts(text);
  }

  /** The request body: the form, the two salaries scaled, the skills, and the poster's id. */
  function SubmitBody(form: Row, skills: seq<string>, userId: string): (r: Row)
    ensures Field(r, "salary_min") == ScaledSalary(ValueText(Field(form, "salary_min")))
    ensures Field(r, "salary_max") == ScaledSalary(ValueText(Field(form, "salary_max")))
    ensures Field(r, "skills") == Strs(skills) && Field(r, "employer_id") == Str(userId)
    ensures forall k :: k != "salary_min" && k != "salary_max" && k != "skills" && k != "employer_id" ==> Field(r, k) == Field(form, k)
  {
    var lo := ScaledSalary(ValueText(Field(form, "salary_min")));
    var hi := ScaledSalary(ValueText(Field(form, "salary_max")));
    var m1 := form["salary_min" := lo];
    var m2 := m1["salary_max" := hi];
    var m3 := m2["skills" := Strs(skills)];
    SetKeepsOthers(form, "salary_min", lo);
    SetKeepsOthers(m1, "salary_max", hi);
    SetKeepsOthers(m2, "skills", Strs(skills));
    SetKeepsOthers(m3, "employer_id", Str(userId));
    m3["employer_id" := Str(userId)]
  }

  /** Setting one field leaves every other field as it was. */
  lemma SetKeepsOthers(row: Row, key: string, v: Value)
    ensures Field(row[key := v], key) == v
    ensures forall k :: k != key ==> Field(row[key := v], k) == Field(row, k)
  {
  }

  /** Posted through `POST /`, the stored job carries the form's fields, the scaled salaries,
      the skills and the poster. */
  lemma PostedJobCarriesForm(form: Row, skills: seq<string>, userId: string, id: nat, now: int)
    ensures var row := LegacyJobRoutes.NewJobRow(SubmitBody(form, skills, userId), id, now);
      Field(row, "title") == Field(form, "title") && Field(row, "company") == Field(form, "company") &&
      Field(row, "salary_min") == ScaledSalary(ValueText(Field(form, "salary_min"))) &&
      Field(row, "salary_max") == ScaledSalary(ValueText(Field(form, "salary_max"))) &&
      Field(row, "skills") == Strs(skills) && Field(row, "employer_id") == Str(userId)
  {
    PostedJobKeepsNames(form, skills, userId, id, now);
    PostedJobScalesSalaries(form, skills, userId, id, now);
    PostedJobNamesPoster(form, skills, userId, id, now);
  }

  /** The stored job keeps the form's title and company. */
  lemma PostedJobKeepsNames(form: Row, skills: seq<string>, userId: string, id: nat, now: int)
    ensures var row := LegacyJobRoutes.NewJobRow(SubmitBody(form, skills, userId), id, now);
      Field(row, "title") == Field(form, "title") && Field(row, "company") == Field(form, "company")
  {
    PostedJobKeepsColumn(form, skills, userId, id, now, "title");
    PostedJobKeepsColumn(form, skills, userId, id, now, "company");
  }

  /** A column of the form other than the salaries, skills and poster is stored as it is. */
  lemma PostedJobKeepsColumn(form: Row, skills: seq<string>, userId: string, id: nat, now: int, k: string)
    requires k == "title" || k == "company"
    ensures Field(LegacyJobRoutes.NewJobRow(SubmitBody(form, skills, userId), id, now), k) == Field(form, k)
  {
    assert k == LegacyJobRoutes.JobColumns[0] || k == LegacyJobRoutes.JobColumns[1];
    assert k != "salary_min" && k != "salary_max" && k != "skills" && k != "employer_id";
  }

  /** The stored job holds the scaled salaries. */
  lemma PostedJobScalesSalaries(form: Row, skills: seq<string>, userId: string, id: nat, now: int)
    ensures var row := LegacyJobRoutes.NewJobRow(SubmitBody(form, skills, userId), id, now);
      Field(row, "salary_min") == ScaledSalary(ValueText(Field(form, "salary_min"))) &&
      Field(row, "salary_max") == ScaledSalary(ValueText(Field(form, "salary_max")))
  {
  }

  /** The stored job holds the skills and the poster's id. */
  lemma PostedJobNamesPoster(form: Row, skills: seq<string>, userId: string, id: nat, now: int)
    ensures var row := LegacyJobRoutes.NewJobRow(SubmitBody(form, skills, userId), id, now);
      Field(row, "skills") == Strs(skills) && Field(row, "employer_id") == Str(userId)
  {
  }

  /** `data.message`, which reads as "undefined" when the body has none. */
  function MessageOf(body: Body): string {
    match body
    case Note(m) => m
    case NoteWith(m, _, _) => m
    case _ => "undefined"
  }

  /** What a submission ends with: the alert text, and whether the browser goes home. */
  datatype Posted = Posted(alert: string, goHome: bool)

  /** The alerts of `handleSubmit`: success for a 2xx reply, the server's message otherwise,
      and "Server error!" when no reply arrives. */
  function SubmitOutcome(reply: Option<Reply>): (r: Posted)
    ensures r.goHome <==> reply.Some? && 200 <= reply.value.status < 300
    ensures reply.None? ==> r == Posted("Server error!", false)
    ensures reply.Some? && !r.goHome ==> r.alert == MessageOf(reply.value.body)
  {
    match reply
    case None => Posted("Server error!", false)
    case Some(rep) =>
      if 200 <= rep.status < 300 then Posted("🎉 Job posted successfully!", true)
      else Posted(MessageOf(rep.body), false)
  }

  /** The page state. */
  class View {
    var skills: seq<string>
    var skillInput: string
    var loading: bool
    var form: Row

    constructor()
      ensures skills == [] && skillInput == "" && !loading && form == BlankForm
    {
      skills, skillInput, loading, form := [], "", false, BlankForm;
    }

    /** `handleChange`: only the named field takes the typed value. */
    method HandleChange(name: string, value: string)
      modifies this`form
      ensures Field(form, name) == Str(value)
      ensures forall k :: k != name ==> Field(form, k) == Field(old(form), k)
      ensures form.Keys == old(form.Keys) + {name}
    {
      form := form[name := Str(value)];
    }

    method TypeSkill(v: string)
      modifies this`skillInput
      ensures skillInput == v
    {
      skillInput := v;
    }

    /** `addSkill`: on Enter with a non-blank input the trimmed skill is appended (repeats
        allowed) and the input cleared; any other key changes nothing. */
    method AddSkill(key: string)
      modifies this`skills, this`skillInput
      ensures key == "Enter" && Trim(old(skillInput)) != "" ==> skills == old(skills) + [Trim(old(skillInput))] && skillInput == ""
      ensures !(key == "Enter" && Trim(old(skillInput)) != "") ==> skills == old(skills) && skillInput == old(skillInput)
    {
      if key == "Enter" && Trim(skillInput) != "" {
        skills := skills + [Trim(skillInput)];
        skillInput := "";
      }
    }

    /** `removeSkill(i)`. */
    method RemoveSkill(i: int)
      modifies this`skills
      ensures skills == WithoutIndex(old(skills), i)
    {
      skills := WithoutIndex(skills, i);
    }

    /** `handleSubmit`: the request it posts for the signed-in user, and how it ends given the
        reply to that request (none when the request fails). */
    method HandleSubmit(userId: string, reply: Option<Reply>) returns (request: Row, out: Posted)
      modifies this`loading
      ensures request == SubmitBody(form, skills, userId)
      ensures !loading && out == SubmitOutcome(reply)
    {
      loading := true;
      request := SubmitBody(form, skills, userId);
      out := SubmitOutcome(reply);
      loading := false;
    }
  }

  /** Every reply `POST /` gives, whatever the body, serial and time, is a success: the page
      shows its own success alert and goes home. */
  lemma PostRouteReplySucceeds(body: Row, id: nat, now: int)
    ensures var reply := Reply(201, NoteWith("Job posted successfully! 🎉", "job", Some(LegacyJobRoutes.NewJobRow(body, id, now))));
      SubmitOutcome(Some(reply)) == Posted("🎉 Job posted successfully!", true)
  {
  }
}
