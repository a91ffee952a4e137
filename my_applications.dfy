/** The candidate's applications page of `src/pages/MyApplications.jsx`: the candidate's own
    applications, newest first, and the badge each status shows. */
module MyApplicationsPage {

  import opened Wrappers
  import opened Entities
  import opened ApiClient
  import opened Store
  import opened StatusLists

  /** The candidate's wording of the five application statuses. */
  const Configs: map<string, StatusStyle> := map[
    "pending" := StatusStyle("Under Review", "bg-yellow-100 text-yellow-700"),
    "reviewed" := StatusStyle("Reviewed", "bg-blue-100 text-blue-700"),
    "shortlisted" := StatusStyle("Shortlisted", "bg-green-100 text-green-700"),
    "rejected" := StatusStyle("Not Selected", "bg-red-100 text-red-700"),
    "hired" := StatusStyle("Hired!", "bg-purple-100 text-purple-700")]

  /** `getStatusConfig`: the candidate-facing labels, with an unknown status shown as pending. */
  function StatusConfig(status: Value): (r: StatusStyle)
    ensures ValueText(status) in Configs ==> r == Configs[ValueText(status)]
    ensures ValueText(status) == "pending" ==> r.caption == "Under Review"
    ensures ValueText(status) == "rejected" ==> r.caption == "Not Selected"
    ensures ValueText(status) == "hired" ==> r.caption == "Hired!"
    ensures r == Configs["pending"] <==> ValueText(status) == "pending" || ValueText(status) !in Configs
  {
    StatusLookup(Configs, status, "pending")
  }

  /** The applications the page loads: the user's own, by `candidate_email`, newest first. */
  function OwnApplications(t: Tables, email: string): (r: seq<Row>)
    ensures forall i, j :: 0 <= i < j < |r| ==> OrderKey(r[i], "created_date") >= OrderKey(r[j], "created_date")
  {
    NewestFirst(t.applications, map["candidate_email" := Str(email)]);
    Query(t.applications, map["candidate_email" := Str(email)], ApplyOrder("-created_date"))
  }

  /** Exactly the user's applications are loaded: those whose `candidate_email` is theirs. */
  lemma OwnApplicationsMember(t: Tables, email: string, app: Row)
    ensures app in OwnApplications(t, email) <==> app in t.applications && SameCell(Field(app, "candidate_email"), Str(email))
  {
    QueryMember(t.applications, map["candidate_email" := Str(email)], ApplyOrder("-created_date"), app);
    MatchesOne(app, "candidate_email", Str(email));
  }

  /** The page state. */
  class View {
    var user: Option<User>
    var applications: seq<Row>
    var loading: bool

    constructor()
      ensures user.None? && applications == [] && loading
    {
      user, applications, loading := None, [], true;
    }

    /** `loadData`: the signed-in user and their applications; a failed sign-in check leaves
        the list empty as it was. */
    method LoadData(session: Option<User>, store: Store)
      modifies this`user, this`applications, this`loading
      ensures !loading
      ensures session.None? ==> user == old(user) && applications == old(applications)
      ensures session.Some? ==> user == session && applications == OwnApplications(store.db, session.value.email)
    {
      if session.Some? {
        user := session;
        applications := store.FilterApplications(map["candidate_email" := Str(session.value.email)], "-created_date");
      }
      loading := false;
    }
  }
}
