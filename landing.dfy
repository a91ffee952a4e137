/** The public landing page of `src/pages/Landing.jsx`: the search that opens the job list, the
    experience toggle, and the login and register buttons that remember the chosen account type. */
module LandingPage {

  import opened Wrappers
  import opened Strings
  import opened Entities
  import OnboardingPage

  /** A `URLSearchParams` object: its entries in insertion order. */
  type Params = seq<(string, string)>

  /** `params.toString()`; entries are written as they are, without percent-encoding. */
  function QueryText(params: Params): (r: string)
    ensures params == [] <==> r == ""
  {
    if params == [] then ""
    else
      var entry := params[0].0 + "=" + params[0].1;
      assert entry[|params[0].0|] == '=';
      if |params| == 1 then entry else entry + "&" + QueryText(params[1..])
  }

  /** `params.get(key)`: the first value stored under the key. */
  function Get(params: Params, key: string): (r: Option<string>)
    ensures r.Some? ==> (key, r.value) in params
    ensures r.None? <==> forall i :: 0 <= i < |params| ==> params[i].0 != key
  {
    if params == [] then None
    else if params[0].0 == key then Some(params[0].1)
    else Get(params[1..], key)
  }

  /** `baseSearch || searchText.trim()`. */
  function ResolvedSearch(baseSearch: string, searchText: string): (r: string)
    ensures baseSearch != "" ==> r == baseSearch
    ensures baseSearch == "" ==> r == Trim(searchText)
  {
    if baseSearch != "" then baseSearch else Trim(searchText)
  }

  /** `params.set(key, v)` behind `if (v)`: one entry when the value is not empty. */
  function Entry(key: string, v: string): Params {
    if v != "" then [(key, v)] else []
  }

  /** The entries `createJobsUrl` sets: search, location and experience, each only when not
      empty. */
  function JobsParams(baseSearch: string, searchText: string, locationText: string, experience: string): (r: Params)
    ensures |r| <= 3
    ensures forall i :: 0 <= i < |r| ==> r[i].1 != "" && r[i].0 in ["search", "location", "experience"]
  {
    Entry("search", ResolvedSearch(baseSearch, searchText)) + Entry("location", Trim(locationText)) + Entry("experience", experience)
  }

  /** `createJobsUrl(baseSearch)`: the jobs page, with a `?` only when some entry is set. */
  function CreateJobsUrl(baseSearch: string, searchText: string, locationText: string, experience: string): (r: Nav)
    ensures r.GoTo? && r.page == Jobs
    ensures r.query == "" <==> ResolvedSearch(baseSearch, searchText) == "" && Trim(locationText) == "" && experience == ""
    ensures r.query != "" ==> r.query[0] == '?'
  {
    var q := QueryText(JobsParams(baseSearch, searchText, locationText, experience));
    GoTo(Jobs, if q != "" then "?" + q else "")
  }

  /** Each entry reads back as what was set: the search text the jobs page picks up is the
      resolved search, and the location and experience are the trimmed location and the
      experience. */
  lemma JobsParamsRead(baseSearch: string, searchText: string, locationText: string, experience: string)
    ensures var params, search := JobsParams(baseSearch, searchText, locationText, experience), ResolvedSearch(baseSearch, searchText);
      Get(params, "search") == (if search != "" then Some(search) else None) &&
      Get(params, "location") == (if Trim(locationText) != "" then Some(Trim(locationText)) else None) &&
      Get(params, "experience") == (if experience != "" then Some(experience) else None)
  {
    var a := Entry("search", ResolvedSearch(baseSearch, searchText));
    var b := Entry("location", Trim(locationText));
    var c := Entry("experience", experience);
    assert a + b + c == a + (b + c);
    EntryFirst("search", ResolvedSearch(baseSearch, searchText), b + c);
    EntrySkipped("search", ResolvedSearch(baseSearch, searchText), b + c, "location");
    EntryFirst("location", Trim(locationText), c);
    EntrySkipped("search", ResolvedSearch(baseSearch, searchText), b + c, "experience");
    EntrySkipped("location", Trim(locationText), c, "experience");
    EntryFirst("experience", experience, []);
    assert c + [] == c;
  }

  /** An entry in front answers for its own key. */
  lemma EntryFirst(key: string, v: string, rest: Params)
    ensures Get(Entry(key, v) + rest, key) == if v != "" then Some(v) else Get(rest, key)
  {
    if v == "" {
      assert Entry(key, v) + rest == rest;
    }
  }

  /** An entry in front is passed over when looking up another key. */
  lemma EntrySkipped(key: string, v: string, rest: Params, other: string)
    requires other != key
    ensures Get(Entry(key, v) + rest, other) == Get(rest, other)
  {
    GetAppend(Entry(key, v), rest, other);
  }

  /** A key absent from the front of the entries is looked up in the rest. */
  lemma {:induction false} GetAppend(front: Params, rest: Params, key: string)
    requires forall i :: 0 <= i < |front| ==> front[i].0 != key
    ensures Get(front + rest, key) == Get(rest, key)
    decreases |front|
  {
    if front == [] {
      assert front + rest == rest;
    } else {
      assert (front + rest)[1..] == front[1..] + rest;
      GetAppend(front[1..], rest, key);
    }
  }

  const ZeroToTwoYears: string := "0-2 Years"

  /** The experience button: a chosen experience is cleared, none becomes '0-2 Years'. */
  function ToggledExperience(prev: string): (r: string)
    ensures r == "" <==> prev != ""
    ensures r != "" ==> r == ZeroToTwoYears
  {
    if prev != "" then "" else ZeroToTwoYears
  }

  /** Pressing the experience button twice: unset stays unset, and any chosen experience
      comes back as '0-2 Years'. */
  lemma ExperienceToggleTwice(prev: string)
    ensures prev == "" ==> ToggledExperience(ToggledExperience(prev)) == ""
    ensures prev != "" ==> ToggledExperience(ToggledExperience(prev)) == ZeroToTwoYears
  {
  }

  /** `getRedirectUrl`: an employer goes on to onboarding, anyone else to the feed. */
  function RedirectTarget(accountType: string): (r: Page)
    ensures r == Onboarding <==> accountType == "employer"
    ensures r != Onboarding ==> r == Feed
  {
    if accountType == "employer" then Onboarding else Feed
  }

  /** Either account type the selector offers is taken over, and locked, by onboarding. */
  lemma StoredRoleIsAccepted(accountType: string)
    requires accountType == "employer" || accountType == "candidate"
    ensures OnboardingPage.AcceptedRole(Some(accountType)) == Some(accountType)
  {
  }

  /** What a login or register button leaves behind: the pending role written to
      `localStorage` (when one is written) and where the browser goes. */
  datatype Launch = Launch(pendingRole: Option<string>, nav: Nav)

  /** The page state. */
  class View {
    var loading: bool
    var searchText: string
    var locationText: string
    var experience: string
    var accountType: string

    constructor()
      ensures loading && searchText == "" && locationText == "" && experience == "" && accountType == "employer"
    {
      loading, searchText, locationText, experience, accountType := true, "", "", "", "employer";
    }

    method ToggleExperience()
      modifies this`experience
      ensures experience == ToggledExperience(old(experience))
    {
      experience := if experience != "" then "" else ZeroToTwoYears;
    }

    /** `handleSearch`: the jobs page with the typed search, location and experience. */
    method HandleSearch() returns (nav: Nav)
      ensures nav == CreateJobsUrl("", searchText, locationText, experience)
    {
      nav := CreateJobsUrl("", searchText, locationText, experience);
    }

    /** `openLoginFlow` and `openRegisterFlow`: the account type is stored as the pending role,
        then sign-in (or Clerk's sign-up, which returns to the same page) opens. */
    method OpenFlow() returns (out: Launch)
      ensures out == Launch(Some(accountType), LoginThen(RedirectTarget(accountType)))
    {
      out := Launch(Some(accountType), LoginThen(RedirectTarget(accountType)));
    }

    /** `handleLogin` and `handleRegister`: someone already signed in is asked whether to switch
        accounts and, declining, stays with nothing stored; anyone else opens the flow. */
    method HandleAuthButton(authenticated: bool, confirmSwitch: bool) returns (out: Launch)
      ensures authenticated && !confirmSwitch ==> out == Launch(None, Stay)
      ensures !authenticated || confirmSwitch ==> out == Launch(Some(accountType), LoginThen(RedirectTarget(accountType)))
    {
      if authenticated && !confirmSwitch {
        return Launch(None, Stay);
      }
      out := OpenFlow();
    }
  }
}
