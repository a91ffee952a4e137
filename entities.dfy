/** The records the pages exchange with the data layer. Supabase rows are JavaScript objects,
    so they are maps from column names to values; a missing key reads as `Null`. */
module Entities {

  import opened Wrappers
  import opened Strings

  /** A JSON value as stored in a row. */
  datatype Value = Null | Bool(b: bool) | Num(n: int) | Str(s: string) | Strs(items: seq<string>)

  type Row = map<string, Value>

  /** JavaScript truthiness of a stored value (arrays are always truthy). */
  predicate Truthy(v: Value) {
    match v
    case Null => false
    case Bool(b) => b
    case Num(n) => n != 0
    case Str(s) => s != ""
    case Strs(_) => true
  }

  /** How a template literal or a query string writes a value. */
  function ValueText(v: Value): string {
    match v
    case Null => "null"
    case Bool(b) => if b then "true" else "false"
    case Num(n) => IntText(n)
    case Str(s) => s
    case Strs(xs) => Join(xs, ",")
  }

  /** `row[key]`; an absent key is `undefined`, which behaves like `null` here. */
  function Field(row: Row, key: string): (v: Value)
    ensures key !in row ==> v == Null
  {
    if key in row then row[key] else Null
  }

  /** A text column, with anything that is not a string read as empty. */
  function Text(row: Row, key: string): (s: string)
    ensures Field(row, key).Str? ==> s == Field(row, key).s
    ensures !Field(row, key).Str? ==> s == ""
  {
    match Field(row, key)
    case Str(s) => s
    case _ => ""
  }

  /** `row[key] || fallback` for a text column. */
  function TextOr(row: Row, key: string, fallback: string): (s: string)
    ensures Text(row, key) != "" ==> s == Text(row, key)
    ensures Text(row, key) == "" ==> s == fallback
  {
    if Text(row, key) != "" then Text(row, key) else fallback
  }

  /** A list-of-strings column, with anything else read as the empty list. */
  function Items(row: Row, key: string): seq<string> {
    match Field(row, key)
    case Strs(xs) => xs
    case _ => []
  }

  /** Each row's `id`, present when it is a number. */
  function Id(row: Row): (r: Option<int>)
    ensures r.Some? <==> Field(row, "id").Num?
  {
    match Field(row, "id")
    case Num(n) => Some(n)
    case _ => None
  }

  /** The signed-in account; an empty string is a missing email or name. */
  datatype User = User(email: string, fullName: string)

  /** The pages a handler can send the browser to (`createPageUrl`). */
  datatype Page =
    | Landing | Login | Onboarding | Feed | Jobs | JobDetails | PostJob
    | ManageJobs | Applications | MyApplications | SavedJobs | Profile

  /** Where a handler sends the browser: nowhere, to a page with a query string, or to the
      sign-in flow that returns afterwards. `LoginThen(p)` stands for returning to the current
      URL of page `p`, query string included (`redirectToLogin(window.location.href)`). */
  datatype Nav = Stay | GoTo(page: Page, query: string) | LoginThen(page: Page)

  /** `profile?.role === 'employer'`. */
  predicate IsEmployer(profile: Option<Row>) {
    profile.Some? && Field(profile.value, "role") == Str("employer")
  }

  /** What the browser is asked to do once a handler finishes: where to go, whether to forget
      the role chosen before sign-up, and the message to show, if any. */
  datatype Effects = Effects(nav: Nav, clearPendingRole: bool, alert: Option<string>)

  /** `error?.message || fallback`: the text an alert or toast shows for a failure. */
  function ErrorText(e: Error, fallback: string): (r: string)
    ensures e.message != "" ==> r == e.message
    ensures e.message == "" ==> r == fallback
  {
    if e.message != "" then e.message else fallback
  }

  /** The alert both profile forms raise when the signed-in user has no email. */
  const MissingEmail: string := "User email is missing. Please sign in again."
}
