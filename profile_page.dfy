/** The profile page of `src/pages/Profile.jsx`: editing the profile form (skills and uploaded
    files), saving it as an update or as a first create, and deleting the account together
    with every row it owns. */
module ProfilePage {

  import opened Wrappers
  import opened Seqs
  import opened Strings
  import opened Entities
  import opened ApiClient
  import opened Store

  // ---------------------------------------------------------------- editing the form

  /** The form with its skill list replaced. */
  function WithSkills(data: Row, skills: seq<string>): (r: Row)
    ensures Items(r, "skills") == skills
    ensures forall k :: k != "skills" ==> Field(r, k) == Field(data, k)
  {
    data["skills" := Strs(skills)]
  }

  /** `handleAddSkill`: a non-blank entry is appended trimmed, even when it is listed already. */
  function AddedSkill(data: Row, entry: string): (r: Row)
    ensures Trim(entry) == "" ==> r == data
    ensures Trim(entry) != "" ==> Items(r, "skills") == Items(data, "skills") + [Trim(entry)]
    ensures forall k :: k != "skills" ==> Field(r, k) == Field(data, k)
  {
    if Trim(entry) == "" then data else WithSkills(data, Items(data, "skills") + [Trim(entry)])
  }

  /** Adding a skill that is listed already lists it once more: this list keeps duplicates. */
  lemma AddKeepsDuplicates(data: Row, entry: string)
    requires Trim(entry) != ""
    ensures var isEntry := (s: string) => s == Trim(entry);
      Count(Items(AddedSkill(data, entry), "skills"), isEntry) == Count(Items(data, "skills"), isEntry) + 1
  {
    var isEntry := (s: string) => s == Trim(entry);
    CountAppend(Items(data, "skills"), [Trim(entry)], isEntry);
    assert Select([Trim(entry)], isEntry) == [Trim(entry)];
  }

  /** `handleRemoveSkill`: every copy of the skill goes, the others keep their order. */
  function RemovedSkill(data: Row, skill: string): (r: Row)
    ensures skill !in Items(r, "skills")
    ensures IsSubsequence(Items(r, "skills"), Items(data, "skills"))
    ensures forall k :: k != "skills" ==> Field(r, k) == Field(data, k)
  {
    WithSkills(data, Remove(Items(data, "skills"), skill))
  }

  /** Removing the skill just added restores a list that did not hold it. */
  lemma RemoveUndoesAdd(data: Row, entry: string)
    requires Trim(entry) != "" && Trim(entry) !in Items(data, "skills")
    ensures Items(RemovedSkill(AddedSkill(data, entry), Trim(entry)), "skills") == Items(data, "skills")
  {
    var list, v := Items(data, "skills"), Trim(entry);
    ToggleTwice(list, v);
    assert Toggle(list, v) == list + [v];
    assert v in list + [v];
  }

  /** The two files the page uploads and the form key each one fills. */
  datatype Attachment = Photo | Resume

  function AttachmentKey(kind: Attachment): string {
    match kind
    case Photo => "profile_photo"
    case Resume => "resume_url"
  }

  function UploadFailed(kind: Attachment): string {
    match kind
    case Photo => "Unable to upload profile photo."
    case Resume => "Unable to upload resume file."
  }

  // ---------------------------------------------------------------- saving

  const SaveFailed: string := "Could not save profile changes."

  /** The save payload: the edited profile without its generated `id` and `created_date`. */
  function SavePayload(data: Row): (r: Row)
    ensures "id" !in r && "created_date" !in r
    ensures forall k :: k != "id" && k != "created_date" ==> Field(r, k) == Field(data, k)
    ensures r.Keys <= data.Keys
  {
    data - {"id", "created_date"}
  }

  /** The role a first save gives the profile: its own, else the role chosen before sign-up,
      else candidate. */
  function CreateRole(payload: Row, pending: Option<string>): (r: Value)
    ensures Truthy(r)
    ensures Truthy(Field(payload, "role")) ==> r == Field(payload, "role")
    ensures !Truthy(Field(payload, "role")) && pending.Some? && pending.value != "" ==> r == Str(pending.value)
    ensures !Truthy(Field(payload, "role")) && (pending.None? || pending.value == "") ==> r == Str("candidate")
  {
    if Truthy(Field(payload, "role")) then Field(payload, "role")
    else if pending.Some? && pending.value != "" then Str(pending.value)
    else Str("candidate")
  }

  /** The payload of a first save: owned by the signed-in email, with a role. */
  function CreatePayload(payload: Row, email: string, pending: Option<string>): (r: Row)
    ensures Field(r, "created_by") == Str(email) && Field(r, "role") == CreateRole(payload, pending)
    ensures forall k :: k != "created_by" && k != "role" ==> Field(r, k) == Field(payload, k)
  {
    payload["created_by" := Str(email)]["role" := CreateRole(payload, pending)]
  }

  /** The profile a save writes to: the loaded one, when it has an id. */
  predicate Updates(profile: Option<Row>) {
    profile.Some? && Truthy(Field(profile.value, "id"))
  }

  /** What `handleSave` writes: an update of the loaded profile when it has an id; otherwise,
      given an email, a create owned by that email; without one, nothing and an error. */
  function SaveIn(t: Tables, profile: Option<Row>, user: Option<User>, data: Row, pending: Option<string>, now: int): (r: (Tables, Outcome<Row>))
    ensures Updates(profile) ==> r == UpdateProfileIn(t, Field(profile.value, "id"), SavePayload(data))
    ensures !Updates(profile) && (user.None? || user.value.email == "") ==> r == (t, Err(Error(MissingEmail)))
    ensures !Updates(profile) && user.Some? && user.value.email != "" ==>
      r == CreateProfileIn(t, CreatePayload(SavePayload(data), user.value.email, pending), now)
  {
    if Updates(profile) then UpdateProfileIn(t, Field(profile.value, "id"), SavePayload(data))
    else if user.None? || user.value.email == "" then (t, Err(Error(MissingEmail)))
    else CreateProfileIn(t, CreatePayload(SavePayload(data), user.value.email, pending), now)
  }

  /** Because the payload never carries an id, saving keeps every generated id intact. */
  lemma SaveKeepsValid(t: Tables, profile: Option<Row>, user: Option<User>, data: Row, pending: Option<string>, now: int)
    requires Valid(t)
    ensures Valid(SaveIn(t, profile, user, data, pending, now).0)
  {
    var payload := SavePayload(data);
    if Updates(profile) {
      ProfileChangesKeepValid(t, payload, Field(profile.value, "id"), now);
    } else if user.Some? && user.value.email != "" {
      var created := CreatePayload(payload, user.value.email, pending);
      assert "id" !in created by {
        assert Field(created, "id") == Null;
      }
      ProfileChangesKeepValid(t, created, Null, now);
    }
  }

  /** A first save that succeeds is found by the reload that follows it: the new row belongs
      to the user's email. */
  lemma FirstSaveIsFound(t: Tables, u: User, data: Row, pending: Option<string>, now: int)
    requires u.email != ""
    requires SaveIn(t, None, Some(u), data, pending, now).1.Ok?
    ensures Found(SaveIn(t, None, Some(u), data, pending, now).0, u)
  {
    var res := SaveIn(t, None, Some(u), data, pending, now);
    var n := ProfileTable(t).value;
    var row := res.1.value;
    var criteria := map["created_by" := Str(u.email)];
    assert ProfileTable(res.0) == ProfileTable(t);
    assert res.0.profiles[n] == t.profiles[n] + [row];
    assert Field(row, "created_by") == Str(u.email);
    QueryMember(res.0.profiles[n], criteria, None, row);
  }

  // ---------------------------------------------------------------- deleting the account

  const DeleteFailed: string := "Unable to delete account right now."

  /** The name the deletion must be confirmed with: the trimmed full name, else the trimmed
      email, else nothing. */
  function ProfileName(user: Option<User>): (r: string)
    ensures user.Some? && user.value.fullName != "" ==> r == Trim(user.value.fullName)
    ensures user.Some? && user.value.fullName == "" ==> r == Trim(user.value.email)
    ensures user.None? ==> r == ""
  {
    Trim(if user.None? then "" else if user.value.fullName != "" then user.value.fullName else user.value.email)
  }

  /** `canDeleteAccount`: the trimmed confirmation equals the profile name. */
  predicate CanDeleteAccount(confirmation: string, user: Option<User>) {
    Trim(confirmation) == ProfileName(user)
  }

  /** The guard of `handleDeleteAccount`: confirmable, with an email, and not already running. */
  predicate MayDelete(confirmation: string, user: Option<User>, deleting: bool) {
    CanDeleteAccount(confirmation, user) && user.Some? && user.value.email != "" && !deleting
  }

  /** `{ [column]: email }`: the filter of the rows an account owns. */
  function OwnedBy(column: string, email: string): (r: Row)
    ensures forall row :: Matches(row, r) <==> SameCell(Field(row, column), Str(email))
  {
    map[column := Str(email)]
  }

  /** The `appMap` that `forEach` fills: ids in the order they first appear, each with the last
      application carrying it; applications without an id are skipped. */
  function Merge(apps: seq<Row>): (r: (seq<Value>, map<Value, Row>))
    ensures NoDuplicates(r.0)
    ensures forall v :: v in r.0 <==> v in r.1
    ensures Null !in r.1
    ensures forall x :: x in apps && Field(x, "id") != Null ==> Field(x, "id") in r.1
    ensures forall v :: v in r.1 ==> r.1[v] in apps && Field(r.1[v], "id") == v
    decreases |apps|
  {
    if apps == [] then ([], map[])
    else
      var rest := apps[..|apps| - 1];
      var front := Merge(rest);
      var app := apps[|apps| - 1];
      var id := Field(app, "id");
      assert forall x :: x in apps ==> x in rest || x == app;
      if id == Null then front
      else if id in front.1 then (front.0, front.1[id := app])
      else
        var order := front.0 + [id];
        assert forall i :: 0 <= i < |front.0| ==> order[i] == front.0[i];
        (order, front.1[id := app])
  }

  /** `Array.from(appMap.values())`: one application per id, in the map's order. */
  function MergedRows(apps: seq<Row>): (rows: seq<Row>)
    ensures forall x :: x in rows ==> x in apps
    ensures NoDuplicates(IdsOf(rows)) && Null !in IdsOf(rows)
    ensures forall x :: x in apps && Field(x, "id") != Null ==> Field(x, "id") in IdsOf(rows)
  {
    var m := Merge(apps);
    var rows := seq(|m.0|, i requires 0 <= i < |m.0| => m.1[m.0[i]]);
    assert IdsOf(rows) == m.0;
    rows
  }

  /** The `forEach` over the candidate's and the employer's applications, then the map's values. */
  method MergeById(apps: seq<Row>) returns (merged: seq<Row>)
    ensures merged == MergedRows(apps)
  {
    var order: seq<Value> := [];
    var byId: map<Value, Row> := map[];
    for i := 0 to |apps|
      invariant (order, byId) == Merge(apps[..i])
    {
      assert apps[..i + 1][..i] == apps[..i];
      var id := Field(apps[i], "id");
      if id != Null {
        if id !in byId {
          order := order + [id];
        }
        byId := byId[id := apps[i]];
      }
    }
    assert apps[..|apps|] == apps;
    merged := seq(|order|, i requires 0 <= i < |order| => byId[order[i]]);
  }

  /** The saved jobs of the account. */
  function SavedOf(t: Tables, email: string): seq<Row> {
    Query(t.savedJobs, OwnedBy("user_email", email), None)
  }

  /** The applications the account made or received, one per id. */
  function ApplicationsOf(t: Tables, email: string): seq<Row> {
    MergedRows(Query(t.applications, OwnedBy("candidate_email", email), None) +
      Query(t.applications, OwnedBy("employer_id", email), None))
  }

  /** The jobs the account posted. */
  function JobsOf(t: Tables, email: string): seq<Row> {
    Query(t.jobs, OwnedBy("employer_id", email), None)
  }

  /** The tables once the account is deleted: its saved jobs by `user_email`, its applications
      as candidate or employer (merged by id), its jobs by `employer_id`, and the profiles
      the profile filter found. Each batch touches its own table only. */
  function WithoutAccount(t: Tables, email: string, profiles: seq<Row>): Tables {
    DeleteAllIn(RowBatchesIn(t, email), ProfileRows, IdsOf(profiles))
  }

  /** The three batches before the profiles: saved jobs, applications, then jobs. */
  function RowBatchesIn(t: Tables, email: string): Tables {
    var t1 := DeleteAllIn(t, SavedJobRows, IdsOf(SavedOf(t, email)));
    var t2 := DeleteAllIn(t1, ApplicationRows, IdsOf(ApplicationsOf(t, email)));
    DeleteAllIn(t2, JobRows, IdsOf(JobsOf(t, email)))
  }

  /** The three row batches delete the account's saved jobs, applications and jobs, each from
      its own table. */
  lemma WithoutAccountRows(t: Tables, email: string, profiles: seq<Row>)
    ensures var r := WithoutAccount(t, email, profiles);
      r.savedJobs == DeleteEach(t.savedJobs, IdsOf(SavedOf(t, email))) &&
      r.applications == DeleteEach(t.applications, IdsOf(ApplicationsOf(t, email))) &&
      r.jobs == DeleteEach(t.jobs, IdsOf(JobsOf(t, email))) &&
      r.nextId == t.nextId
  {
  }

  /** The row batches leave the profile tables alone. */
  lemma RowBatchesKeepProfiles(t: Tables, email: string)
    ensures RowBatchesIn(t, email).profiles == t.profiles
  {
  }

  /** The profile batch deletes the profiles found from the table in use and leaves every
      other profile table as it was. */
  lemma WithoutAccountProfiles(t: Tables, email: string, profiles: seq<Row>)
    ensures var r := WithoutAccount(t, email, profiles);
      r.profiles.Keys == t.profiles.Keys && ProfileTable(r) == ProfileTable(t) &&
      (forall n :: n in t.profiles && Ok(n) != ProfileTable(t) ==> r.profiles[n] == t.profiles[n]) &&
      (ProfileTable(t).Ok? ==> r.profiles[ProfileTable(t).value] == DeleteEach(t.profiles[ProfileTable(t).value], IdsOf(profiles)))
  {
    var t3 := RowBatchesIn(t, email);
    RowBatchesKeepProfiles(t, email);
    assert ProfileTable(t3) == ProfileTable(t);
  }

  /** Exactly the saved jobs of the account are deleted. */
  lemma DeletionTakesSavedJobs(t: Tables, email: string, profiles: seq<Row>, row: Row)
    requires Valid(t)
    ensures row in WithoutAccount(t, email, profiles).savedJobs <==>
      row in t.savedJobs && !Matches(row, OwnedBy("user_email", email))
  {
    WithoutAccountRows(t, email, profiles);
    DeleteQueried(t.savedJobs, t.nextId, OwnedBy("user_email", email), row);
  }

  /** Exactly the jobs the account posted are deleted. */
  lemma DeletionTakesJobs(t: Tables, email: string, profiles: seq<Row>, row: Row)
    requires Valid(t)
    ensures row in WithoutAccount(t, email, profiles).jobs <==>
      row in t.jobs && !Matches(row, OwnedBy("employer_id", email))
  {
    WithoutAccountRows(t, email, profiles);
    DeleteQueried(t.jobs, t.nextId, OwnedBy("employer_id", email), row);
  }

  /** With generated keys, merging rows of a table by id loses none of them. */
  lemma MergeKeepsKeyedRows(rows: seq<Row>, next: nat, apps: seq<Row>, row: Row)
    requires WellKeyed(rows, next) && row in rows
    requires forall x :: x in apps ==> x in rows
    ensures row in MergedRows(apps) <==> row in apps
  {
    var found := MergedRows(apps);
    if row in apps {
      var i :| 0 <= i < |rows| && rows[i] == row;
      assert Field(row, "id") in IdsOf(found);
      var j :| 0 <= j < |found| && IdsOf(found)[j] == Field(row, "id");
      KeyedSameRow(rows, next, row, found[j]);
    }
  }

  /** Exactly the applications the account made or received are deleted, each id once. */
  lemma DeletionTakesApplications(t: Tables, email: string, profiles: seq<Row>, row: Row)
    requires Valid(t)
    ensures row in WithoutAccount(t, email, profiles).applications <==>
      row in t.applications && !Matches(row, OwnedBy("candidate_email", email)) &&
      !Matches(row, OwnedBy("employer_id", email))
  {
    WithoutAccountRows(t, email, profiles);
    MergedDeletion(t.applications, t.nextId, OwnedBy("candidate_email", email), OwnedBy("employer_id", email), row);
  }

  /** Deleting by the ids of two queries' merged rows removes exactly the rows either matches. */
  lemma MergedDeletion(rows: seq<Row>, next: nat, candidate: Row, employer: Row, row: Row)
    requires WellKeyed(rows, next)
    ensures var found := MergedRows(Query(rows, candidate, None) + Query(rows, employer, None));
      row in DeleteEach(rows, IdsOf(found)) <==> row in rows && !Matches(row, candidate) && !Matches(row, employer)
  {
    var apps := Query(rows, candidate, None) + Query(rows, employer, None);
    var found := MergedRows(apps);
    MergedFromRows(rows, candidate, employer);
    DeleteFoundRows(rows, next, found, IdsOf(found), row);
    if row in rows {
      QueryMember(rows, candidate, None, row);
      QueryMember(rows, employer, None, row);
      MergeKeepsKeyedRows(rows, next, apps, row);
    }
  }

  /** The rows two queries return, and the merged ones, come from the table, and each merged
      row's id is listed. */
  lemma MergedFromRows(rows: seq<Row>, candidate: Row, employer: Row)
    ensures var apps := Query(rows, candidate, None) + Query(rows, employer, None);
      (forall x :: x in apps ==> x in rows) &&
      forall x :: x in MergedRows(apps) ==> x in rows && Field(x, "id") in IdsOf(MergedRows(apps))
  {
    var apps := Query(rows, candidate, None) + Query(rows, employer, None);
    forall x | x in apps ensures x in rows {
      QueryMember(rows, candidate, None, x);
      QueryMember(rows, employer, None, x);
    }
    var found := MergedRows(apps);
    forall x | x in found ensures Field(x, "id") in IdsOf(found) {
      IdsOfMember(found, x);
    }
  }

  /** Exactly the profiles the profile filter found are deleted, from the table in use. */
  lemma DeletionTakesProfiles(t: Tables, email: string, row: Row)
    requires Valid(t) && ProfilesOf(t, email).Ok?
    ensures var after := WithoutAccount(t, email, ProfilesOf(t, email).value);
      ProfileTable(after) == ProfileTable(t) &&
      (row in after.profiles[ProfileTable(t).value] <==>
       row in t.profiles[ProfileTable(t).value] && !Matches(row, OwnedBy("created_by", email)))
  {
    var n := ProfileTable(t).value;
    WithoutAccountProfiles(t, email, ProfilesOf(t, email).value);
    DeleteQueried(t.profiles[n], t.nextId, OwnedBy("created_by", email), row);
  }

  // ---------------------------------------------------------------- the page

  /** The page state. */
  class View {
    var user: Option<User>
    var profile: Option<Row>
    var loading: bool
    var saving: bool
    var editMode: bool
    var editData: Row
    var deletingAccount: bool
    var deleteConfirmName: string
    var newSkill: string

    constructor()
      ensures user.None? && profile.None? && loading && !saving && !editMode && editData == map[]
      ensures !deletingAccount && deleteConfirmName == "" && newSkill == ""
    {
      user, profile, loading, saving, editMode, editData := None, None, true, false, false, map[];
      deletingAccount, deleteConfirmName, newSkill := false, "", "";
    }

    /** The loaded profile, and the form, after a load: the user's first profile when there is
        one, and what they were otherwise. */
    predicate Reloaded(db: Tables, session: Option<User>, before: (Option<Row>, Row))
      reads this
    {
      if session.Some? && Found(db, session.value) then
        var first := ProfilesOf(db, session.value.email).value[0];
        profile == Some(first) && editData == first
      else profile == before.0 && editData == before.1
    }

    /** `loadData`: the signed-in user and the first profile they created, which also fills
        the form; a failed read leaves the rest as it was. */
    method LoadData(session: Option<User>, store: Store)
      modifies this`user, this`profile, this`editData, this`loading
      ensures !loading
      ensures user == if session.Some? then session else old(user)
      ensures Reloaded(store.db, session, (old(profile), old(editData)))
    {
      if session.Some? {
        user := session;
        var found := store.FindProfiles(session.value.email);
        if found.Ok? && |found.value| > 0 {
          profile := Some(found.value[0]);
          editData := found.value[0];
        }
      }
      loading := false;
    }

    method TypeSkill(text: string)
      modifies this`newSkill
      ensures newSkill == text
    {
      newSkill := text;
    }

    /** `handleAddSkill`; the entry box is cleared only when something was added. */
    method HandleAddSkill()
      modifies this`editData, this`newSkill
      ensures editData == AddedSkill(old(editData), old(newSkill))
      ensures newSkill == if Trim(old(newSkill)) == "" then old(newSkill) else ""
    {
      var entry := Trim(newSkill);
      if entry != "" {
        var skills := Items(editData, "skills");
        editData := editData["skills" := Strs(skills + [entry])];
        newSkill := "";
      }
    }

    method HandleRemoveSkill(skill: string)
      modifies this`editData
      ensures editData == RemovedSkill(old(editData), skill)
    {
      var skills := Items(editData, "skills");
      editData := editData["skills" := Strs(Remove(skills, skill))];
    }

    /** `handlePhotoUpload` and `handleResumeUpload`: a chosen file is uploaded and its public
        URL put in the form, to be stored by the next save; a failure raises an alert. */
    method HandleUpload(kind: Attachment, file: Option<FileInfo>, config: BucketConfig, now: nat, rand: string, reply: StorageReply)
      returns (alert: Option<string>)
      modifies this`editData
      ensures file.None? ==> alert.None? && editData == old(editData)
      ensures file.Some? && UploadFile(file, config, now, rand, reply).Ok? ==>
        alert.None? && editData == old(editData)[AttachmentKey(kind) := Str(UploadFile(file, config, now, rand, reply).value)]
      ensures file.Some? && UploadFile(file, config, now, rand, reply).Err? ==>
        alert == Some(ErrorText(UploadFile(file, config, now, rand, reply).error, UploadFailed(kind))) &&
        editData == old(editData)
    {
      if file.None? {
        return None;
      }
      var url := UploadFile(file, config, now, rand, reply);
      if url.Err? {
        return Some(ErrorText(url.error, UploadFailed(kind)));
      }
      editData := editData[AttachmentKey(kind) := Str(url.value)];
      alert := None;
    }

    /** The write `handleSave` makes: the form without its id and creation date, as an update
        of the loaded profile or as a new profile. */
    method WriteProfile(pending: Option<string>, store: Store, now: int) returns (saved: Outcome<Row>)
      modifies store
      ensures (store.db, saved) == SaveIn(old(store.db), profile, user, editData, pending, now)
    {
      var payload := editData;
      payload := payload - {"id"};
      payload := payload - {"created_date"};
      assert payload == SavePayload(editData);
      if profile.Some? && Truthy(Field(profile.value, "id")) {
        saved := store.UpdateProfile(Field(profile.value, "id"), payload);
      } else if user.None? || user.value.email == "" {
        saved := Err(Error(MissingEmail));
      } else {
        saved := store.CreateProfile(CreatePayload(payload, user.value.email, pending), now);
      }
    }

    /** `handleSave`: writes `SaveIn`; on success reloads the profile and leaves edit mode, on
        failure raises an alert. */
    method HandleSave(session: Option<User>, pending: Option<string>, store: Store, now: int) returns (fx: Effects)
      modifies this`saving, this`editMode, this`user, this`profile, this`editData, this`loading, store
      ensures !saving
      ensures var res := SaveIn(old(store.db), old(profile), old(user), old(editData), pending, now);
        store.db == res.0 &&
        (res.1.Err? ==>
          fx == Effects(Stay, false, Some(ErrorText(res.1.error, SaveFailed))) &&
          editMode == old(editMode) && profile == old(profile) && editData == old(editData) && user == old(user)) &&
        (res.1.Ok? ==>
          fx == Effects(Stay, false, None) && !editMode &&
          user == (if session.Some? then session else old(user)) &&
          Reloaded(store.db, session, (old(profile), old(editData))))
    {
      saving := true;
      var saved := WriteProfile(pending, store, now);
      if saved.Err? {
        saving := false;
        return Effects(Stay, false, Some(ErrorText(saved.error, SaveFailed)));
      }
      LoadData(session, store);
      editMode := false;
      saving := false;
      fx := Effects(Stay, false, None);
    }

    /** `handleDeleteAccount` with the answer to `window.confirm`: reads every row the account
        owns, then deletes them (each application id once) and goes to the landing page,
        forgetting the pending role; a failed read raises an alert and deletes nothing. */
    method HandleDeleteAccount(confirmed: bool, store: Store) returns (fx: Effects)
      modifies this`deletingAccount, store
      ensures !MayDelete(deleteConfirmName, user, old(deletingAccount)) || !confirmed ==>
        fx == Effects(Stay, false, None) && store.db == old(store.db) && deletingAccount == old(deletingAccount)
      ensures MayDelete(deleteConfirmName, user, old(deletingAccount)) && confirmed ==>
        var profiles := ProfilesOf(old(store.db), user.value.email);
        (profiles.Err? ==>
          fx == Effects(Stay, false, Some(ErrorText(profiles.error, DeleteFailed))) &&
          store.db == old(store.db) && !deletingAccount) &&
        (profiles.Ok? ==>
          fx == Effects(GoTo(Landing, ""), true, None) &&
          store.db == WithoutAccount(old(store.db), user.value.email, profiles.value) && deletingAccount)
    {
      if !CanDeleteAccount(deleteConfirmName, user) || user.None? || user.value.email == "" || deletingAccount {
        return Effects(Stay, false, None);
      }
      if !confirmed {
        return Effects(Stay, false, None);
      }
      deletingAccount := true;
      var email := user.value.email;
      var saved := store.FilterSavedJobs(OwnedBy("user_email", email));
      var candidateApps := store.FilterApplications(OwnedBy("candidate_email", email), "");
      var employerApps := store.FilterApplications(OwnedBy("employer_id", email), "");
      var jobs := store.FilterJobs(OwnedBy("employer_id", email), "", 0);
      var profiles := store.FilterProfiles(OwnedBy("created_by", email));
      if profiles.Err? {
        deletingAccount := false;
        return Effects(Stay, false, Some(ErrorText(profiles.error, DeleteFailed)));
      }
      var merged := MergeById(candidateApps + employerApps);
      store.DeleteAll(SavedJobRows, IdsOf(saved));
      store.DeleteAll(ApplicationRows, IdsOf(merged));
      store.DeleteAll(JobRows, IdsOf(jobs));
      store.DeleteAll(ProfileRows, IdsOf(profiles.value));
      fx := Effects(GoTo(Landing, ""), true, None);
    }
  }
}
