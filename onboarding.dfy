/** The onboarding wizard of `src/pages/Onboarding.jsx`: taking over the role chosen before
    sign-up, reopening an incomplete employer profile, checking and storing the profile, and
    where the visitor goes next. */
module OnboardingPage {

  import opened Wrappers
  import opened Strings
  import opened Entities
  import opened ApiClient
  import opened Store

  /** The wizard's text inputs; skills are one comma-separated text, and the years of
      experience start as the number 0 and become whatever text is typed. */
  datatype ProfileForm = ProfileForm(
    headline: string, bio: string, location: string, phone: string, skills: string,
    education: string, experienceYears: Value,
    companyName: string, companyWebsite: string, companySize: string)

  const EmptyForm: ProfileForm := ProfileForm("", "", "", "", "", "", Num(0), "", "", "")

  datatype FormField =
    | Headline | Bio | Location | Phone | Skills | Education | ExperienceYears
    | CompanyName | CompanyWebsite | CompanySize

  /** A form field as a stored value. */
  function FieldValue(form: ProfileForm, field: FormField): Value {
    match field
    case Headline => Str(form.headline)
    case Bio => Str(form.bio)
    case Location => Str(form.location)
    case Phone => Str(form.phone)
    case Skills => Str(form.skills)
    case Education => Str(form.education)
    case ExperienceYears => form.experienceYears
    case CompanyName => Str(form.companyName)
    case CompanyWebsite => Str(form.companyWebsite)
    case CompanySize => Str(form.companySize)
  }

  /** `updateField(field)(e)`: the named field takes the input's value (`''` without one). */
  function WithField(form: ProfileForm, field: FormField, input: Option<string>): (r: ProfileForm)
    ensures FieldValue(r, field) == Str(if input.Some? then input.value else "")
    ensures forall other :: other != field ==> FieldValue(r, other) == FieldValue(form, other)
  {
    var v := if input.Some? then input.value else "";
    match field
    case Headline => form.(headline := v)
    case Bio => form.(bio := v)
    case Location => form.(location := v)
    case Phone => form.(phone := v)
    case Skills => form.(skills := v)
    case Education => form.(education := v)
    case ExperienceYears => form.(experienceYears := Str(v))
    case CompanyName => form.(companyName := v)
    case CompanyWebsite => form.(companyWebsite := v)
    case CompanySize => form.(companySize := v)
  }

  /** The role stored before sign-up is taken, and locked, only when it is one of the two roles. */
  function AcceptedRole(pending: Option<string>): (r: Option<string>)
    ensures r.Some? <==> pending == Some("candidate") || pending == Some("employer")
    ensures r.Some? ==> r == pending
  {
    if pending == Some("candidate") || pending == Some("employer") then pending else None
  }

  /** An employer profile missing its company name, headline or phone. */
  predicate IncompleteEmployer(profile: Row) {
    Field(profile, "role") == Str("employer") &&
    (!Truthy(Field(profile, "company_name")) || !Truthy(Field(profile, "headline")) || !Truthy(Field(profile, "phone")))
  }

  /** Where someone with a finished profile goes: employers to posting, others to the feed. */
  function HomeFor(role: string): (r: Nav)
    ensures r == GoTo(PostJob, "") <==> role == "employer"
    ensures r != GoTo(PostJob, "") ==> r == GoTo(Feed, "")
  {
    if role == "employer" then GoTo(PostJob, "") else GoTo(Feed, "")
  }

  /** The form filled from an existing profile; skills are joined with `', '`. */
  function Prefill(form: ProfileForm, p: Row): (r: ProfileForm)
    ensures r.skills == if Field(p, "skills").Strs? then Join(Field(p, "skills").items, ", ") else ""
    ensures r.companyName == TextOr(p, "company_name", "") && r.headline == TextOr(p, "headline", "") &&
      r.phone == TextOr(p, "phone", "")
    ensures r.experienceYears == if Truthy(Field(p, "experience_years")) then Field(p, "experience_years") else Num(0)
  {
    form.(
      headline := TextOr(p, "headline", ""), bio := TextOr(p, "bio", ""),
      location := TextOr(p, "location", ""), phone := TextOr(p, "phone", ""),
      skills := if Field(p, "skills").Strs? then Join(Field(p, "skills").items, ", ") else "",
      education := TextOr(p, "education", ""),
      experienceYears := if Truthy(Field(p, "experience_years")) then Field(p, "experience_years") else Num(0),
      companyName := TextOr(p, "company_name", ""), companyWebsite := TextOr(p, "company_website", ""),
      companySize := TextOr(p, "company_size", ""))
  }

  /** Clean stored skills come back unchanged through the prefilled text and the submit split. */
  lemma PrefillSkillsRoundTrip(form: ProfileForm, p: Row)
    requires Field(p, "skills").Strs? && IsCleanSkillList(Field(p, "skills").items)
    ensures SkillsFromText(Prefill(form, p).skills) == Field(p, "skills").items
  {
    SkillsRoundTrip(Field(p, "skills").items);
  }

  /** What resuming `existing` leaves, as (effects, role, role locked, profile id, step, form),
      from `before` = (role, role locked, profile id, step, form): an incomplete employer
      profile reopens at step 2 under its id with the employer role locked and the form
      prefilled; any other profile sends its owner home and changes nothing else. */
  predicate Resumed(existing: Row, before: (string, bool, Value, nat, ProfileForm),
                    after: (Effects, string, bool, Value, nat, ProfileForm)) {
    if IncompleteEmployer(existing) then
      after == (Effects(Stay, false, None), "employer", true, Field(existing, "id"), 2, Prefill(before.4, existing))
    else
      after == (Effects(HomeFor(Text(existing, "role")), true, None), before.0, before.1, before.2, before.3, before.4)
  }

  /** What `loadUser` leaves, in the same shape: without a session it goes to Login and keeps
      the rest; with one a valid pending role is taken and locked, then a failed lookup goes to
      Login, no profile stays, and the first profile found is resumed. */
  predicate UserLoaded(db: Tables, session: Option<User>, pending: Option<string>,
                       before: (string, bool, Value, nat, ProfileForm),
                       after: (Effects, string, bool, Value, nat, ProfileForm)) {
    var login := Effects(GoTo(Login, ""), false, None);
    if session.None? then after == (login, before.0, before.1, before.2, before.3, before.4)
    else
      var taken := (if AcceptedRole(pending).Some? then pending.value else before.0,
                    AcceptedRole(pending).Some? || before.1, before.2, before.3, before.4);
      LookedUp(db, session.value.email, taken, after)
  }

  /** The lookup part: a failed lookup goes to Login, no profile stays where it is, and the
      first profile found is resumed. */
  predicate LookedUp(db: Tables, email: string, before: (string, bool, Value, nat, ProfileForm),
                     after: (Effects, string, bool, Value, nat, ProfileForm)) {
    match ProfilesOf(db, email)
    case Err(_) => after == (Effects(GoTo(Login, ""), false, None), before.0, before.1, before.2, before.3, before.4)
    case Ok(found) =>
      if |found| == 0 then after == (Effects(Stay, false, None), before.0, before.1, before.2, before.3, before.4)
      else Resumed(found[0], before, after)
  }

  const MissingEmployerFields: string := "Please fill company name, role/designation, and phone number."
  const SaveFailed: string := "Unable to save profile."

  /** What `handleSubmit` rejects before writing anything. */
  function SubmitCheck(user: Option<User>, role: string, form: ProfileForm): (r: Option<string>)
    ensures r == Some(MissingEmail) <==> user.None? || user.value.email == ""
    ensures r == Some(MissingEmployerFields) <==>
      (user.Some? && user.value.email != "" && role == "employer" &&
       (form.companyName == "" || form.headline == "" || form.phone == ""))
    ensures r.None? || r == Some(MissingEmail) || r == Some(MissingEmployerFields)
  {
    if user.None? || user.value.email == "" then Some(MissingEmail)
    else if role == "employer" && (form.companyName == "" || form.headline == "" || form.phone == "") then
      Some(MissingEmployerFields)
    else None
  }

  /** The profile record a submit stores. */
  function ProfileRecord(email: string, role: string, form: ProfileForm): (p: Row)
    ensures Field(p, "created_by") == Str(email) && Field(p, "role") == Str(role)
    ensures Field(p, "skills") == Strs(SkillsFromText(form.skills))
    ensures "company_name" in p <==> role == "employer"
    ensures role == "employer" ==>
      (Field(p, "company_name") == Str(form.companyName) &&
       Field(p, "company_website") == Str(form.companyWebsite) && Field(p, "company_size") == Str(form.companySize))
    ensures "id" !in p
  {
    var base := map[
      "created_by" := Str(email), "role" := Str(role), "headline" := Str(form.headline),
      "bio" := Str(form.bio), "location" := Str(form.location), "phone" := Str(form.phone),
      "skills" := Strs(SkillsFromText(form.skills)), "education" := Str(form.education),
      "experience_years" := form.experienceYears];
    if role == "employer" then
      base["company_name" := Str(form.companyName)]["company_website" := Str(form.companyWebsite)]["company_size" := Str(form.companySize)]
    else base
  }

  /** The wizard state. */
  class View {
    var step: nat
    var role: string
    var roleLocked: bool
    var existingProfileId: Value
    var initializing: bool
    var loading: bool
    var user: Option<User>
    var formData: ProfileForm

    constructor()
      ensures step == 1 && role == "candidate" && !roleLocked && existingProfileId == Null
      ensures initializing && !loading && user.None? && formData == EmptyForm
    {
      step, role, roleLocked, existingProfileId := 1, "candidate", false, Null;
      initializing, loading, user, formData := true, false, None, EmptyForm;
    }

    /** A valid pending role is taken and locked. */
    method TakePendingRole(pending: Option<string>)
      modifies this`role, this`roleLocked
      ensures role == if AcceptedRole(pending).Some? then pending.value else old(role)
      ensures roleLocked == (AcceptedRole(pending).Some? || old(roleLocked))
    {
      if pending == Some("candidate") || pending == Some("employer") {
        role := pending.value;
        roleLocked := true;
      }
    }

    /** An existing profile: an incomplete employer one reopens at step 2 with the role locked
        and the form filled; any other ends the wizard. */
    method Resume(existing: Row) returns (fx: Effects)
      modifies this`role, this`roleLocked, this`existingProfileId, this`step, this`formData
      ensures Resumed(existing, (old(role), old(roleLocked), old(existingProfileId), old(step), old(formData)),
                      (fx, role, roleLocked, existingProfileId, step, formData))
    {
      if IncompleteEmployer(existing) {
        existingProfileId := Field(existing, "id");
        role := "employer";
        roleLocked := true;
        step := 2;
        formData := Prefill(formData, existing);
        return Effects(Stay, false, None);
      }
      fx := Effects(HomeFor(Text(existing, "role")), true, None);
    }

    /** `loadUser`: a failure to read the user or the profiles goes to the login page; otherwise
        a valid pending role is taken, and the first existing profile is resumed. */
    method LoadUser(session: Option<User>, pending: Option<string>, store: Store) returns (fx: Effects)
      modifies this`user, this`role, this`roleLocked, this`existingProfileId, this`step, this`formData, this`initializing
      ensures !initializing
      ensures session.Some? ==> user == session
      ensures UserLoaded(store.db, session, pending, (old(role), old(roleLocked), old(existingProfileId), old(step), old(formData)),
                         (fx, role, roleLocked, existingProfileId, step, formData))
    {
      initializing := false;
      fx := Effects(Stay, false, None);
      if session.None? {
        return Effects(GoTo(Login, ""), false, None);
      }
      user := session;
      TakePendingRole(pending);
      fx := LookUp(session.value.email, store);
    }

    /** The profile lookup of `loadUser`: a failure goes to Login, and the first profile found
        is resumed. */
    method LookUp(email: string, store: Store) returns (fx: Effects)
      modifies this`role, this`roleLocked, this`existingProfileId, this`step, this`formData
      ensures LookedUp(store.db, email, (old(role), old(roleLocked), old(existingProfileId), old(step), old(formData)),
                       (fx, role, roleLocked, existingProfileId, step, formData))
    {
      fx := Effects(Stay, false, None);
      var found := store.FindProfiles(email);
      if found.Err? {
        return Effects(GoTo(Login, ""), false, None);
      }
      if |found.value| > 0 {
        fx := Resume(found.value[0]);
      }
    }

    /** The role buttons do nothing while the role is locked. */
    method ChooseRole(choice: string)
      modifies this`role
      ensures role == if roleLocked then old(role) else choice
    {
      if !roleLocked {
        role := choice;
      }
    }

    method UpdateField(field: FormField, input: Option<string>)
      modifies this`formData
      ensures formData == WithField(old(formData), field, input)
    {
      formData := WithField(formData, field, input);
    }

    /** `handleSubmit`: checks the email and, for employers, the three required fields; builds
        the record, adding the company fields for employers; updates the reopened profile or
        creates one; then clears the pending role and goes home. A failure raises an alert and
        releases the button. */
    method HandleSubmit(store: Store, now: int) returns (fx: Effects)
      modifies this`loading, store
      ensures SubmitCheck(user, role, formData).Some? ==>
        fx == Effects(Stay, false, SubmitCheck(user, role, formData)) && !loading && store.db == old(store.db)
      ensures SubmitCheck(user, role, formData).None? && Truthy(existingProfileId) ==>
        var res := UpdateProfileIn(old(store.db), existingProfileId, ProfileRecord(user.value.email, role, formData));
        store.db == res.0 &&
        (if res.1.Ok? then fx == Effects(HomeFor(role), true, None) && loading
         else fx == Effects(Stay, false, Some(ErrorText(res.1.error, SaveFailed))) && !loading)
      ensures SubmitCheck(user, role, formData).None? && !Truthy(existingProfileId) ==>
        var res := CreateProfileIn(old(store.db), ProfileRecord(user.value.email, role, formData), now);
        store.db == res.0 &&
        (if res.1.Ok? then fx == Effects(HomeFor(role), true, None) && loading
         else fx == Effects(Stay, false, Some(ErrorText(res.1.error, SaveFailed))) && !loading)
    {
      loading := true;
      if user.None? || user.value.email == "" {
        loading := false;
        return Effects(Stay, false, Some(MissingEmail));
      }
      var data := map[
        "created_by" := Str(user.value.email), "role" := Str(role), "headline" := Str(formData.headline),
        "bio" := Str(formData.bio), "location" := Str(formData.location), "phone" := Str(formData.phone),
        "skills" := Strs(SkillsFromText(formData.skills)), "education" := Str(formData.education),
        "experience_years" := formData.experienceYears];
      if role == "employer" {
        if formData.companyName == "" || formData.headline == "" || formData.phone == "" {
          loading := false;
          return Effects(Stay, false, Some(MissingEmployerFields));
        }
        data := data["company_name" := Str(formData.companyName)];
        data := data["company_website" := Str(formData.companyWebsite)];
        data := data["company_size" := Str(formData.companySize)];
      }
      assert data == ProfileRecord(user.value.email, role, formData);
      var saved: Outcome<Row>;
      if Truthy(existingProfileId) {
        saved := store.UpdateProfile(existingProfileId, data);
      } else {
        saved := store.CreateProfile(data, now);
      }
      if saved.Err? {
        loading := false;
        return Effects(Stay, false, Some(ErrorText(saved.error, SaveFailed)));
      }
      fx := Effects(HomeFor(role), true, None);
    }
  }
}
