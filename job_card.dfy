/** The job card of `src/components/ui/JobCard.jsx`: salary text, job-type colour, the skill
    preview and when its buttons call back. */
module JobCard {

  import opened Strings
  import opened Entities

  const NotDisclosed: string := "Not disclosed"

  /** `formatSalary(min, max)`: the checks are truthiness tests, so a bound of 0 is absent. */
  function FormatSalary(min: Value, max: Value): (r: string)
    ensures r == NotDisclosed <==> !Truthy(min) && !Truthy(max)
    ensures Truthy(min) ==> r == "₹" + ValueText(min) + (if Truthy(max) then " - " + ValueText(max) + " LPA" else "+ LPA")
    ensures !Truthy(min) && Truthy(max) ==> r == "Up to ₹" + ValueText(max) + " LPA"
  {
    if !Truthy(min) && !Truthy(max) then NotDisclosed
    else
      var r := if Truthy(min) && Truthy(max) then "₹" + ValueText(min) + " - " + ValueText(max) + " LPA"
        else if Truthy(min) then "₹" + ValueText(min) + "+ LPA"
        else "Up to ₹" + ValueText(max) + " LPA";
      assert r[0] != NotDisclosed[0];
      r
  }

  /** A zero bound reads exactly like a missing one. */
  lemma ZeroBoundIsAbsent(v: Value)
    ensures FormatSalary(Num(0), v) == FormatSalary(Null, v)
    ensures FormatSalary(v, Num(0)) == FormatSalary(v, Null)
  {
  }

  /** Positive whole-number bounds are written as their decimal digits. */
  lemma SalaryRangeText(min: nat, max: nat)
    requires min > 0 && max > 0
    ensures FormatSalary(Num(min), Num(max)) == "₹" + NatText(min) + " - " + NatText(max) + " LPA"
    ensures FormatSalary(Num(min), Null) == "₹" + NatText(min) + "+ LPA"
    ensures FormatSalary(Null, Num(max)) == "Up to ₹" + NatText(max) + " LPA"
  {
  }

  /** The `colors` object of `getJobTypeColor`: one badge colour per known job type. */
  const TypeColors: map<string, string> := map[
    "full-time" := "bg-green-100 text-green-700",
    "part-time" := "bg-blue-100 text-blue-700",
    "internship" := "bg-purple-100 text-purple-700",
    "contract" := "bg-orange-100 text-orange-700",
    "remote" := "bg-teal-100 text-teal-700"]
  const GreyBadge: string := "bg-gray-100 text-gray-700"

  /** `colors[type] || 'bg-gray-100 text-gray-700'`: the colour table looked up by the text of
      the type, grey for any other type. */
  function JobTypeColor(jobType: Value): (r: string)
    ensures ValueText(jobType) in TypeColors ==> r == TypeColors[ValueText(jobType)]
    ensures r == GreyBadge <==> ValueText(jobType) !in TypeColors
  {
    var key := ValueText(jobType);
    if key in TypeColors then TypeColors[key] else GreyBadge
  }

  /** The first `limit` skills as badges and how many more the trailing badge counts
      (`skills.slice(0, limit)` and `skills.length - limit` when the list is longer). */
  function SkillPreview(skills: seq<string>, limit: nat): (r: (seq<string>, nat))
    ensures r.0 <= skills && |r.0| == (if |skills| > limit then limit else |skills|)
    ensures r.0 + skills[|r.0|..] == skills && r.1 == |skills| - |r.0|
    ensures r.1 > 0 <==> |skills| > limit
  {
    if |skills| > limit then (skills[..limit], |skills| - limit) else (skills, 0)
  }

  /** A preview leaves nothing out exactly when the list fits. */
  lemma PreviewOfShortList(skills: seq<string>, limit: nat)
    requires |skills| <= limit
    ensures SkillPreview(skills, limit) == (skills, 0)
  {
  }

  /** The skill badges a card draws for a job: three at most, then a `+n` badge counting the
      skills left out. */
  function CardSkills(job: Row): (r: (seq<string>, nat))
    ensures |r.0| <= 3 && r.0 <= Items(job, "skills")
    ensures r.0 + Items(job, "skills")[|r.0|..] == Items(job, "skills")
    ensures r.1 == |Items(job, "skills")| - |r.0|
    ensures r.1 > 0 <==> |Items(job, "skills")| > 3
  {
    SkillPreview(Items(job, "skills"), 3)
  }

  /** The apply button calls `onApply` only when there is one and the job is not applied to. */
  function ApplyInvoked(hasApplyHandler: bool, hasApplied: bool): (r: bool)
    ensures r ==> !hasApplied
    ensures r <==> hasApplyHandler && !hasApplied
  {
    hasApplyHandler && !hasApplied
  }
}
