# FreshersJob, modelled in Dafny

FreshersJob is a job board for freshers. Candidates search and filter openings, save them and apply. Employers post jobs, manage them and review the applications they receive. It has two generations:

- **Current client.** A React application over Supabase. Its data layer is `src/api/apiClient.js`: entity wrappers with `filter`, `list`, `create`, `update` and `delete`, an order-spec parser, a table-name fallback and file upload. Its pages under `src/pages/` hold the rules for:
  - listing and filtering;
  - skill lists and saved-job toggling;
  - onboarding and profile saving;
  - status updates.
- **Earlier client.** A small Create React App client (`frontend/src/pages/Feed.js`, `frontend/src/pages/PostJob.js`) over an Express server whose routes in `backend/routes/` read and write PostgreSQL tables.

This project states those rules in Dafny and proves what they promise.

Layout, one module per source file plus shared modules:

- `wrappers.dfy` (`Wrappers`): `Option` and an `Outcome` result type for operations that can throw.
- `seqs.dfy` (`Seqs`): `Array.prototype.filter`, `includes`, `findIndex` and list toggling, with their membership and order lemmas.
- `text.dfy` (`Strings`):
  - the JavaScript string operations the rules use (`toLowerCase` on ASCII, `trim`, `includes`, `split`, `join`);
  - integer text and `parseInt`/`parseFloat`;
  - the comma-separated skills round trip.
- `ordering.dfy` (`Ordering`): ascending and descending sorts by an integer key, which stand for `ORDER BY`.
- `entities.dfy` (`Entities`): JSON values and rows (`Value`, `Row = map<string, Value>`), JavaScript truthiness, the signed-in `User` and the page names used for navigation.
- `api_client.dfy` (`ApiClient`): `src/api/apiClient.js` as functions over in-memory tables:
  - `applyOrder`, `sanitizeFileName`, `getFileExt` and `isMissingTableError`;
  - `withTableFallback` as a loop;
  - the entity operations and what each entity exposes;
  - `UploadFile`.
- `store.dfy` (`Store`): the Supabase tables as a `Store` class whose methods perform the entity operations, including the profile-table fallback, and the lemmas about the rows they keep.
- `status_lists.dfy` (`StatusLists`): status lookup with fallbacks, status filters and tab counts shared by several pages.
- One module per page of the current client:
  - `jobs_page.dfy`, `job_card.dfy`, `post_job.dfy`, `onboarding.dfy` and `profile_page.dfy`;
  - `applications_page.dfy`, `manage_jobs.dfy`, `my_applications.dfy` and `saved_jobs.dfy`;
  - `job_details.dfy`, `feed_page.dfy` and `landing.dfy`.

  Each page is a `View` class whose fields are the component's state. Each handler is a method that states the new state, and the pure rules are functions beside it.
- `legacy_db.dfy` (`LegacyDb`): the PostgreSQL tables as a `Database` class, with SQL joins, duplicate lookups and `ORDER BY … DESC`.
- `legacy_job_routes.dfy`, `legacy_application_routes.dfy`, `legacy_feed.dfy` and `legacy_post_job.dfy`: the Express routes and the earlier client's pages.

Modelling conventions:

- **Storage.** Storage is in-memory state. A Supabase call that can throw returns an `Outcome`. The errors it models are:
  - a missing profile table, which the table fallback gets past;
  - an `update` of an id that names no row or several, which `.single()` rejects (a `delete` has no `.single()`, so deleting an absent id succeeds and removes nothing);
  - a call to an entity method `apiClient.js` does not define, which throws a `TypeError` (`ApiClient.Invoke`, used by `Store.Store.CreateApplication` and `Store.Store.CreateSavedJob`);
  - a rejected `Job.create`, whose answer is a parameter.
- **As written.** The page methods model the code as it is written, faults included. Where a fault is logged under "## Findings", the corrected definition sits beside the as-written one with the intended property proved about it.
- **Navigation.** A page's navigation is the returned value `Nav`:
  - `Stay`;
  - `GoTo(page, query)`;
  - `LoginThen(page)`.
- **Browser state.** `localStorage` is a parameter plus a returned value.
- **Time and randomness.** `Date.now()` and `Math.random()` are parameters.

## Model

| member | source | states |
|---|---|---|
| Seqs.Select | src/pages/Jobs.jsx:105-109 | `filter` keeps exactly the elements that pass, in their original order |
| Seqs.SelectThen | src/pages/Jobs.jsx:103-136 | filters applied one after the other select what their conjunction selects |
| Seqs.Remove | src/pages/Profile.jsx:145 | `filter(s => s !== v)` drops every occurrence of the value and keeps the rest in order |
| Seqs.RemoveMember | src/pages/PostJob.jsx:112 | after removal exactly the other elements remain |
| Seqs.RemoveOnce | src/pages/Feed.jsx:70-78 | unsaving an id listed once shortens the list by one |
| Seqs.Toggle | src/pages/Jobs.jsx:188-195 | the toggled value is in the new list exactly when it was not in the old one |
| Seqs.ToggleMember | src/pages/Jobs.jsx:188-195 | a checkbox toggle changes the membership of its value and of no other |
| Seqs.ToggleTwice | src/pages/Jobs.jsx:188-195 | ticking and unticking the same box restores the list |
| Seqs.FirstIndex | backend/routes/jobs.js:23-26 | the first matching index, before which nothing matches, or none when no element matches |
| Ordering.SortDesc | src/api/apiClient.js:8-13 | a `-column` order: the same rows, with keys that never increase |
| Ordering.SortAsc | src/api/apiClient.js:8-13 | a plain column order: the same rows, with keys that never decrease |
| Strings.Lower | src/pages/Jobs.jsx:104 | `toLowerCase` maps each character and keeps the length |
| Strings.LowerIdempotent | src/pages/Jobs.jsx:104-108 | lower-casing an already lower-cased query changes nothing |
| Strings.Trim | src/pages/Landing.jsx:181-182 | `trim` gives a piece of the text with no white space at either end, never longer than the text |
| Strings.TrimCuts | src/pages/Landing.jsx:181-182 | `trim` cuts off white space at both ends and nothing else: the result is the piece of the text between a white prefix and a white suffix |
| Strings.TrimEmptyIffBlank | src/pages/Profile.jsx:136-138 | the trim is empty exactly when every character is white space |
| Strings.ContainsAt | src/pages/Jobs.jsx:106-108 | `includes` holds exactly when the text occurs at some position |
| Strings.SplitAtSeparator | src/pages/Onboarding.jsx:289 | the first comma ends the first piece of `split(',')` |
| Strings.Split | src/pages/Onboarding.jsx:289 | `split(',')` yields at least one piece and no piece holds the separator |
| Strings.Join | src/pages/Onboarding.jsx:253 | `skills.join(', ')`; its partner SkillsRoundTrip shows that splitting the joined text gives a clean skill list back |
| Strings.ParseIntOfIntText | frontend/src/pages/PostJob.js:38-39 | `parseInt` reads back the decimal text JavaScript writes for an integer |
| Strings.ParseInt | frontend/src/pages/PostJob.js:38-39 | `parseInt` skips leading white space, reads an optional sign, a `0x` prefix and the longest digit run; text that is empty after its white space is NaN |
| Strings.ParseDecimal | src/pages/Jobs.jsx:132-135 | `parseFloat` on integer text: leading white space, an optional sign and the longest decimal run; text that is empty after its white space is NaN (also src/pages/PostJob.jsx:126-127) |
| Strings.ToNumber | src/pages/Jobs.jsx:131-136 | `Number` of a text a comparison reads: blank is 0, a signed run of decimal digits with white space around it is that integer, and anything else is NaN; pinned down by ToNumberOfIntText and ToNumberBlankOrLetter |
| Strings.ParseDecimalOfIntText | src/pages/Jobs.jsx:132-135 | `parseFloat` reads back the decimal text of an integer |
| Strings.ToNumberOfIntText | src/pages/Jobs.jsx:132-135 | `Number`, which a relational comparison applies to a stored text, reads back the decimal text of an integer |
| Strings.ToNumberBlankOrLetter | src/pages/Jobs.jsx:132-135 | `Number` reads blank text as 0 and text starting with a letter as NaN |
| Strings.SkillsFromText | src/pages/Onboarding.jsx:289 | the skills read from the comma text are non-empty and trimmed |
| Strings.SkillsRoundTrip | src/pages/Onboarding.jsx:253 | skills shown as `join(', ')` and read back with the split are the same list (also line 289) |
| Strings.SkillsFromTextStable | src/pages/Onboarding.jsx:253 | reading the text, joining the skills and reading again gives the same skills (also line 289) |
| Strings.SkillPieceHasNoComma | src/pages/Onboarding.jsx:289 | no skill read from the text holds a comma |
| ApiClient.ApplyOrder | src/api/apiClient.js:8-13 | no ordering exactly for an empty order string; a leading '-' means descending on the rest of the string, anything else ascending on the whole string |
| ApiClient.ApplyOrderInverse | src/api/apiClient.js:8-13 | every non-empty order string is the text of the ordering it parses to |
| ApiClient.OrderTextInverse | src/api/apiClient.js:8-13 | an ordering whose column is non-empty (and does not start with '-' when ascending) parses back from its own text |
| ApiClient.MaskUnsafe | src/api/apiClient.js:18 | same length; each character outside `[a-z0-9._-]` becomes '-', the others stay |
| ApiClient.Squeeze | src/api/apiClient.js:19 | dash runs collapse: never longer, never two dashes in a row, first character kept, no leading dash after a dash, the safe character set preserved |
| ApiClient.SqueezeKeepsOthers | src/api/apiClient.js:19 | squeezing drops only dashes: the other characters stay, in order |
| ApiClient.SqueezeDropsDoubledDash | src/api/apiClient.js:19 | dropping one dash of a doubled pair leaves the squeezed result unchanged, so a run of dashes comes out as one dash |
| ApiClient.SqueezeKeeps | src/api/apiClient.js:19 | a string with no doubled dash is left unchanged by the squeeze |
| ApiClient.SanitizeFileName | src/api/apiClient.js:15-20 | an empty name becomes "file"; the result is non-empty, contains only `[a-z0-9._-]` and never two consecutive dashes |
| ApiClient.SanitizeFixpoints | src/api/apiClient.js:15-20 | a name is left unchanged exactly when it is non-empty, already safe and has no doubled dash |
| ApiClient.SanitizeIdempotent | src/api/apiClient.js:15-20 | sanitising twice equals sanitising once |
| ApiClient.LastIndexOf | src/api/apiClient.js:23 | `lastIndexOf`: -1 or an index holding the character, with no occurrence after it |
| ApiClient.LastIndexNone | src/api/apiClient.js:23-24 | the index is -1 exactly when the character does not occur |
| ApiClient.GetFileExt | src/api/apiClient.js:22-25 | "bin" when there is no '.', else the lower-cased text after the last '.'; the result never contains '.' |
| ApiClient.GetFileExtOf | src/api/apiClient.js:22-25 | for `base.ext` with a dot-free `ext` the extension is the lower-cased `ext` |
| ApiClient.LastIndexAt | src/api/apiClient.js:23 | a position holding the character with none after it is the last index |
| ApiClient.StripExtension | src/api/apiClient.js:184 | the regex replace yields a prefix of the name |
| ApiClient.StripExtensionOf | src/api/apiClient.js:184 | `base.ext` with a non-empty extension free of '.' and '/' loses exactly `.ext` |
| ApiClient.StripWithoutDot | src/api/apiClient.js:184 | a name without '.' keeps every character |
| ApiClient.IsMissingTableError | src/api/apiClient.js:27-30 | `isMissingTableError`: the lower-cased message mentions a table that could not be found or the schema cache; a message shorter than either phrase never qualifies |
| ApiClient.MissingTableIsClassified | src/api/apiClient.js:27-30 | the error PostgREST reports for a missing table is classified as missing-table, whatever the table name |
| ApiClient.MissingTableIgnoresCase | src/api/apiClient.js:28-29 | the classification gives the same answer for a message and its lower-cased form |
| ApiClient.EmptyMessageIsNotMissing | src/api/apiClient.js:28 | an error without a message is not a missing-table error |
| ApiClient.WithTableFallback | src/api/apiClient.js:32-47 | the loop over the table names returns what the fallback rule settles on, with no missing-table error seen yet |
| ApiClient.FallbackFirstDecisive | src/api/apiClient.js:34-43 | when every earlier name failed with a missing table, the first name that succeeds or fails otherwise decides the result, success or rethrown error |
| ApiClient.FallbackIgnoresLaterNames | src/api/apiClient.js:36-42 | once a name decides, names after it are never tried: appending more names changes nothing |
| ApiClient.FallbackAllMissing | src/api/apiClient.js:45-46 | an empty name list throws 'No table names configured for fallback'; if every name is missing the last missing-table error is thrown |
| ApiClient.FallbackLastMissing | src/api/apiClient.js:38-45 | with every name missing, the error kept in `lastMissingError` is the last name's, whatever was seen before |
| ApiClient.Arrange | src/api/apiClient.js:8-13 | ordering a result is a permutation of it |
| ApiClient.ArrangeDescending | src/api/apiClient.js:10-12 | a descending order on a column yields rows whose keys never increase |
| ApiClient.MatchesOne | src/api/apiClient.js:76-78 | a one-column filter object matches exactly the rows whose cell in that column equals the value |
| ApiClient.Matches | src/api/apiClient.js:76-78 | `query.match(filterObj)`: every column of the filter object equals the given value; MatchesOne and Query's contract use it |
| ApiClient.Query | src/api/apiClient.js:73-81 | each returned row matches every criterion and comes from the table (also line 106-115) |
| ApiClient.QueryPermutes | src/api/apiClient.js:73-81 | the result is a permutation of the rows that match every criterion (also line 106-115) |
| ApiClient.QueryMember | src/api/apiClient.js:76-110 | a table row is returned exactly when it matches the criteria |
| ApiClient.NewestFirst | src/api/apiClient.js:8-13 | the '-created_date' order the pages ask for returns rows newest first (also line 111) |
| ApiClient.EmptyCriteriaReturnsAll | src/api/apiClient.js:76 | an empty filter object applies no match: every row comes back, in table order (also line 108, line 142, line 163) |
| ApiClient.Limit | src/api/apiClient.js:119 | a zero limit keeps everything; a positive one keeps the first `limit` rows |
| ApiClient.JobFilter | src/api/apiClient.js:106-115 | `Job.filter` takes no limit and returns only matching jobs of the table |
| ApiClient.JobFilterPermutes | src/api/apiClient.js:106-115 | whatever the order string, `Job.filter` returns a permutation of the matching jobs |
| ApiClient.JobFilterLimited | src/api/apiClient.js:106-115 | the corrected filter with a limit returns at most `limit` rows, a prefix of the unlimited result |
| ApiClient.JobFilterIgnoresLimit | src/api/apiClient.js:106 | eleven active jobs all come back from the feed's request for ten |
| ApiClient.EmptyOrderless | src/api/apiClient.js:106-115 | the number of jobs `Job.filter` returns is the number of matching jobs, whatever the order |
| ApiClient.JobFilterLimitedHonoursLimit | src/api/apiClient.js:116-119 | with the limit honoured, the same eleven jobs give at most ten rows |
| ApiClient.JobList | src/api/apiClient.js:116-123 | `Job.list` returns jobs of the table in the order asked for, each at most as often as stored, all of them when the limit is 0 or not exceeded, and exactly `limit` rows when it is exceeded |
| ApiClient.JobListPrefix | src/api/apiClient.js:116-123 | a limited listing is a prefix of the unlimited one |
| ApiClient.Inserted | src/api/apiClient.js:86-125 | an inserted row keeps every given field and gains exactly `id` and `created_date`, the id being the table's when none was given |
| ApiClient.UpdateRows | src/api/apiClient.js:93 | same length; the rows with that id take the new values, the others stay (also line 130, line 151) |
| ApiClient.UpdateRowsOnlyTouchesId | src/api/apiClient.js:130 | rows with other ids are unchanged, keys outside the update object keep their value, updated keys take the new value |
| ApiClient.DeleteRows | src/api/apiClient.js:100 | exactly the rows without that id remain, in their order (also line 135, line 156, line 171) |
| ApiClient.Invoke | src/api/apiClient.js:71-175 | a call succeeds exactly when the entity object defines that operation; otherwise it is a TypeError |
| ApiClient.MissingCreates | src/api/apiClient.js:139-174 | some call the pages make fails: neither `Application.create` nor `SavedJob.create` exists |
| ApiClient.IntendedCoversPageCalls | src/api/apiClient.js:84-90 | with a `create` on every entity, as on UserProfile and Job, every call the pages make is defined (also line 124-128) |
| ApiClient.ObjectPath | src/api/apiClient.js:190 | the path starts with the folder and '/', and ends with '-' + base + '.' + extension |
| ApiClient.Target | src/api/apiClient.js:183-190 | an image type selects the profile bucket (default 'Profilephoto') and 'images/', anything else the resume bucket (default 'Resume') and 'files/'; the path ends with the sanitised base name and the extension |
| ApiClient.UploadFile | src/api/apiClient.js:178-206 | a missing file fails with 'No file provided', an upload error is rethrown, a missing public URL fails with 'Failed to generate file URL'; success exactly otherwise, returning the public URL |
| ApiClient.TargetOfNamedFile | src/api/apiClient.js:183-190 | a file named `base.ext` is stored under a path ending in '-' + sanitised base + '.' + lower-cased ext |
| Store.ProfileTable | src/api/apiClient.js:74-99 | the profile operations use a table spelled 'userprofile' or 'UserProfile' that exists, and fail exactly when neither exists |
| Store.ProbeSettles | src/api/apiClient.js:32-47 | running the fallback loop over the two spellings settles on that table (also line 74) |
| Store.UpdateOne | src/api/apiClient.js:93 | `.update().eq('id').single()` applies and returns a row of the new table when exactly one row has the id; otherwise nothing changes and it fails (also line 130, line 151) |
| Store.FilterProfilesIn | src/api/apiClient.js:73-83 | `UserProfile.filter` fails exactly when no profile table exists, else returns the matching rows of the table in use |
| Store.CreateProfileIn | src/api/apiClient.js:84-90 | `UserProfile.create` appends one inserted row to the table in use, or fails with the table error and changes nothing |
| Store.UpdateProfileIn | src/api/apiClient.js:91-97 | `UserProfile.update` updates the single row with that id in the table in use, or fails leaving the tables as they were |
| Store.DeleteProfileIn | src/api/apiClient.js:98-103 | `UserProfile.delete` removes the rows with that id from the table in use, or fails changing nothing |
| Store.CreateJobIn | src/api/apiClient.js:124-128 | an accepted `Job.create` appends the inserted row to the jobs and returns it |
| Store.UpdateJobIn | src/api/apiClient.js:129-133 | `Job.update` is the single-row update of the jobs table |
| Store.CreateApplicationIn | src/pages/JobDetails.jsx:155-165 | the intended `Application.create` appends the inserted row to the applications and returns it |
| Store.UpdateApplicationIn | src/api/apiClient.js:150-154 | `Application.update` is the single-row update of the applications table |
| Store.CreateSavedJobIn | src/pages/JobDetails.jsx:121-124 | the intended `SavedJob.create` appends the inserted row to the saved jobs and returns it |
| Store.InsertKeepsKeys | src/api/apiClient.js:86-125 | inserting an object with no id of its own keeps every row's generated id below the counter and distinct |
| Store.DeleteKeepsKeys | src/api/apiClient.js:100 | deleting keeps the generated ids distinct (also line 135, line 156, line 171) |
| Store.DeleteKeepsDistinct | src/api/apiClient.js:135 | deleting from rows with distinct ids leaves rows with distinct ids |
| Store.KeyedCountAtMostOne | src/api/apiClient.js:93 | with generated keys an id names at most one row (also line 130, line 151) |
| Store.KeyedUpdateSucceeds | src/api/apiClient.js:130-151 | with generated keys, `.single()` succeeds when updating the id of a present row |
| Store.CreatesKeepValid | src/api/apiClient.js:125 | creating a job, an application or a saved job keeps the key invariant of every table |
| Store.UpdateKeepsKeys | src/api/apiClient.js:93-130 | an update whose object carries no id keeps the keys as they were |
| Store.ProfileChangesKeepValid | src/api/apiClient.js:84-103 | creating, updating and deleting profiles keep the key invariant |
| Store.CreateProfileKeepsValid | src/api/apiClient.js:84-90 | a created profile takes the next id, so every table keeps generated, distinct ids |
| Store.UpdateProfileKeepsValid | src/api/apiClient.js:91-97 | updating a profile with an object that carries no id keeps every table's ids generated and distinct |
| Store.DeleteProfileKeepsValid | src/api/apiClient.js:98-103 | deleting profiles keeps every table's ids generated and distinct |
| Store.ColumnOf | src/pages/Jobs.jsx:82-86 | one value per matching row, each the named column of that row |
| Store.ColumnOfMember | src/pages/Jobs.jsx:82-86 | a value is in the column exactly when some matching row holds it |
| Store.SavedIds | src/pages/Jobs.jsx:82-83 | one job id per saved row of the user |
| Store.AppliedIds | src/pages/Jobs.jsx:85-86 | one job id per application of the user |
| Store.ColumnOfOneMember | src/pages/Jobs.jsx:82-86 | under a one-column filter, a value is in the column exactly when a row with that cell holds it |
| Store.SavedIdsMember | src/pages/Feed.jsx:55-56 | a job id is among the saved ids exactly when one of the user's saved rows names it |
| Store.AppliedIdsMember | src/pages/Feed.jsx:59-60 | a job id is among the applied ids exactly when one of the user's applications names it |
| Store.DeleteEach | src/pages/Profile.jsx:215-220 | deleting by several ids only ever drops rows |
| Store.DeleteEachMember | src/pages/Profile.jsx:215-220 | a row survives exactly when it answers to none of the ids |
| Store.DeleteOwnIds | src/pages/Profile.jsx:216-219 | deleting by the ids of some rows removes every one of them that has an id |
| Store.IdsOf | src/pages/Profile.jsx:216-219 | `rows.map(row => row.id)`: one id per row, in order |
| Store.KeyedSameRow | src/api/apiClient.js:135 | with generated keys a row answers only to its own id |
| Store.DeleteFoundRows | src/pages/Profile.jsx:202-220 | with generated keys, deleting by the ids of some rows of the table removes exactly those rows |
| Store.DeleteQueried | src/pages/Profile.jsx:203-219 | deleting by the ids a filter found removes exactly the matching rows |
| Store.DeleteAllIn | src/pages/Profile.jsx:215-220 | a batch delete changes only the table it names, and a profile batch only the profile table in use |
| Store.DeleteAllStep | src/pages/Profile.jsx:215-220 | one more delete extends the batch by that id |
| Store.Store.constructor | src/api/apiClient.js:71-175 | the store starts with the given tables |
| Store.Store.ResolveProfileTable | src/api/apiClient.js:32-47 | the fallback loop finds the profile table in use (also line 74) |
| Store.Store.FilterProfiles | src/api/apiClient.js:73-83 | returns what `UserProfile.filter` gives on the current tables |
| Store.Store.FindProfiles | src/api/apiClient.js:73-83 | the profiles created by that email |
| Store.Store.CreateProfile | src/api/apiClient.js:84-90 | the new tables and result are those of `UserProfile.create` |
| Store.Store.UpdateProfile | src/api/apiClient.js:91-97 | the new tables and result are those of `UserProfile.update` |
| Store.Store.DeleteProfile | src/api/apiClient.js:98-103 | the new tables and result are those of `UserProfile.delete` |
| Store.Store.FilterJobs | src/api/apiClient.js:106-115 | the `Job.filter` result on the current table: the limit the caller passes is dropped, so every matching job comes back, ordered |
| Store.Store.ListJobs | src/api/apiClient.js:116-123 | the `Job.list` result on the current table (jobs of the table, in the order asked for, all of them unless the limit cuts), table unchanged |
| Store.Store.CreateJob | src/api/apiClient.js:124-128 | an accepted insert leaves the tables of `Job.create` and returns its row; a rejected one leaves the tables as they were and rethrows the database error |
| Store.Store.UpdateJob | src/api/apiClient.js:129-133 | the new tables and result are those of `Job.update` |
| Store.Store.DeleteJob | src/api/apiClient.js:134-137 | only the jobs table changes: the rows with that id go |
| Store.Store.FilterApplications | src/api/apiClient.js:140-149 | the matching applications in the requested order |
| Store.Store.CreateApplication | src/api/apiClient.js:139-159 | `Application.create` as the pages call it throws the `TypeError` of the missing method, and no table changes |
| Store.Store.UpdateApplication | src/api/apiClient.js:150-154 | the new tables and result are those of `Application.update` |
| Store.Store.DeleteApplication | src/api/apiClient.js:155-158 | only the applications table changes: the rows with that id go |
| Store.Store.FilterSavedJobs | src/api/apiClient.js:161-169 | the matching saved rows, unordered |
| Store.Store.CreateSavedJob | src/api/apiClient.js:160-174 | `SavedJob.create` as the pages call it throws the `TypeError` of the missing method, and no table changes |
| Store.Store.DeleteSavedJob | src/api/apiClient.js:170-173 | only the saved jobs change: the rows with that id go |
| Store.Store.DeleteAll | src/pages/Profile.jsx:215-220 | the deletes run one after another and leave the tables the batch delete describes |
| Store.Store.DeleteOne | src/pages/Profile.jsx:215-220 | one `Entity.delete(id)` of the batch leaves the tables with that id gone from the chosen table only |
| Entities.Field | src/pages/JobDetails.jsx:155-165 | an absent key reads as null (`undefined`) |
| Entities.Text | src/pages/Jobs.jsx:103-110 | a string column gives its text, anything else the empty string |
| Entities.TextOr | src/pages/JobDetails.jsx:160 | the text of `row[key]` when it is non-empty, else the fallback |
| Entities.Id | src/pages/Profile.jsx:210-214 | a row's id is present exactly when it is a number |
| Entities.ErrorText | src/pages/Onboarding.jsx:314 | the error message when it is non-empty, else the fallback text |
| JobsPage.ToggleFilter | src/pages/Jobs.jsx:188-195 | the value's membership in the named list flips; the salary bounds and the other list are unchanged |
| JobsPage.ToggleFilterMember | src/pages/Jobs.jsx:191-193 | toggling changes the membership of that value only: every other value stays in or out of the list |
| JobsPage.AllStages | src/pages/Jobs.jsx:99-139 | passing the six filters one after another is the same as passing all of them at once |
| JobsPage.Filtered | src/pages/Jobs.jsx:99-139 | the listed jobs are an order-preserving subsequence of the loaded jobs, each surviving every filter |
| JobsPage.Narrow | src/pages/Jobs.jsx:105-135 | one `result.filter` call takes the jobs surviving `k` filters to those surviving `k + 1` |
| JobsPage.Skip | src/pages/Jobs.jsx:103-134 | a filter whose input is empty imposes nothing |
| JobsPage.NarrowBy | src/pages/Jobs.jsx:103-136 | one guarded stage of `applyFilters` yields the jobs surviving one more filter |
| JobsPage.ApplyFilters | src/pages/Jobs.jsx:99-139 | the stage-by-stage reassignment of `result` ends with exactly the jobs surviving every filter, in loaded order |
| JobsPage.FilteredMember | src/pages/Jobs.jsx:99-139 | a job is listed exactly when it was loaded and survives every filter |
| JobsPage.NoFiltersKeepsAll | src/pages/Jobs.jsx:99-139 | with every query, list and bound empty the whole list is shown |
| JobsPage.SearchOnly | src/pages/Jobs.jsx:103-110 | the search alone keeps a job iff the lower-cased query occurs in its lower-cased title, company_name or some skill |
| JobsPage.LocationOnly | src/pages/Jobs.jsx:113-118 | the location alone keeps a job iff the lower-cased query is a substring of its lower-cased location |
| JobsPage.SalaryOverlap | src/pages/Jobs.jsx:131-136 | with numeric bounds, a job with numeric salaries is kept iff salary_max >= the minimum and salary_min <= the maximum, so the ranges overlap |
| JobsPage.SalaryTextCompares | src/pages/Jobs.jsx:131-136 | a salary stored as the text of a whole number compares as that number with both filters, and an empty text compares as 0 |
| JobsPage.Numeric | src/pages/Jobs.jsx:131-136 | the number a relational comparison reads from a stored cell: null is 0, a boolean 0 or 1, a number itself, and text (a list joined with commas) through `Number`; NaN makes both salary comparisons false |
| JobsPage.ApplyTarget | src/pages/Jobs.jsx:169-175 | a signed-out user is sent to sign-in and back to the list; a signed-in one to the job's details page |
| JobsPage.DetailsLink | src/pages/Jobs.jsx:174 | the details page with an `?id=` query |
| JobsPage.CardHandlers | src/pages/Jobs.jsx:197 | cards get the save and apply handlers exactly when the viewer is not an employer (also line 414-415) |
| JobsPage.View.constructor | src/pages/Jobs.jsx:32-49 | the page starts loading, with no user, no jobs, empty queries and no filters |
| JobsPage.View.InitSearch | src/pages/Jobs.jsx:58-63 | a non-empty `search` URL parameter becomes the search text; otherwise it stays |
| JobsPage.View.Refresh | src/pages/Jobs.jsx:66-68 | after any input changes the shown list is the filtered list of the loaded jobs |
| JobsPage.View.LoadViewer | src/pages/Jobs.jsx:74-86 | when the profile lookup succeeds, the first profile (if any), the saved job ids and the applied job ids are loaded; when it fails nothing is |
| JobsPage.View.LoadData | src/pages/Jobs.jsx:70-97 | loading ends; the viewer's data is loaded when signed in; unless a lookup failed, every active job newest first (the limit of 100 is dropped) is both the loaded and the shown list |
| JobsPage.ActiveJobsListed | src/pages/Jobs.jsx:89 | the loaded listing holds every active job of the table and nothing else, newest first |
| JobsPage.ActiveJobs | src/pages/Jobs.jsx:89 | `Job.filter({status: 'active'}, '-created_date', n)` with the limit dropped, as the jobs page and the feed call it; its rows are characterised by ActiveJobsListed (also src/pages/Feed.jsx:51) |
| JobsPage.View.HandleSaveJob | src/pages/Jobs.jsx:141-167 | without a user only the sign-in redirect happens; a saved job id loses its first saved row and leaves the list; for an unsaved one `SavedJob.create` throws and neither the tables nor the list change |
| JobsPage.View.ClearFilters | src/pages/Jobs.jsx:177-186 | both queries become empty and the filter lists and bounds are cleared |
| JobsPage.View.ToggleFilterOn | src/pages/Jobs.jsx:188-195 | the filters become the toggled filters |
| JobCard.FormatSalary | src/components/ui/JobCard.jsx:8-13 | 'Not disclosed' exactly when neither bound is truthy; both give '₹min - max LPA', only min '₹min+ LPA', only max 'Up to ₹max LPA' |
| JobCard.ZeroBoundIsAbsent | src/components/ui/JobCard.jsx:9-12 | a bound of 0 gives the same text as a missing bound |
| JobCard.SalaryRangeText | src/components/ui/JobCard.jsx:10-12 | positive whole-number bounds are written as their decimal digits in each of the three shapes |
| JobCard.JobTypeColor | src/components/ui/JobCard.jsx:15-24 | a type in the `colors` table gets its own badge colour; the grey badge exactly for a type outside the five known ones |
| JobCard.SkillPreview | src/components/ui/JobCard.jsx:92-101 | the badges are the first `limit` skills (all of them when the list fits) and the trailing count is the number left out, positive exactly when the list is longer |
| JobCard.PreviewOfShortList | src/components/ui/JobCard.jsx:97 | a list that fits is shown whole with no '+n' badge |
| JobCard.ApplyInvoked | src/components/ui/JobCard.jsx:109-117 | the apply handler runs exactly when there is one and the job is not applied to, so never when hasApplied holds |
| PostJobPage.AddSkill | src/pages/PostJob.jsx:102-107 | a non-empty skill not yet chosen is appended, otherwise nothing changes; a duplicate-free list stays duplicate-free |
| PostJobPage.RemoveSkill | src/pages/PostJob.jsx:109-114 | every copy of the skill goes and the others keep their order |
| PostJobPage.RemoveUndoesAdd | src/pages/PostJob.jsx:102-114 | removing a skill just added restores the list |
| PostJobPage.Suggestions | src/pages/PostJob.jsx:68 | the suggestions are an order-preserving subsequence of the popular skills (also line 357) |
| PostJobPage.SuggestionMember | src/pages/PostJob.jsx:357 | a popular skill is offered exactly when it is not chosen |
| PostJobPage.SubmitEnabled | src/pages/PostJob.jsx:411 | submit is enabled exactly when no post is in flight and title, company_name, location, job_type, experience_level and description are non-empty |
| PostJobPage.SalaryValue | src/pages/PostJob.jsx:126-127 | an empty field sends null; a number sent is the one typed |
| PostJobPage.SalaryValueOfNumber | src/pages/PostJob.jsx:126-127 | a whole number typed is sent as that number |
| PostJobPage.SubmitPayloadAsWritten | src/pages/PostJob.jsx:121-132 | as written the payload carries the company under `company`, the user's email as employer_id, and no company_name, experience_level, status or id |
| PostJobPage.PostedJobAsWrittenIsUnlisted | src/pages/PostJob.jsx:121-136 | a job stored from that payload has no status, so the active listings never show it |
| PostJobPage.SubmitPayload | src/pages/PostJob.jsx:38-50 | the corrected payload carries company_name, experience_level and status from the form, the user's email as employer_id and the parsed salaries, and no id (also line 121-132) |
| PostJobPage.PostedJobIsListed | src/pages/PostJob.jsx:49 | a job posted from a form with the default 'active' status matches the active listing filter (also line 134) |
| PostJobPage.RoleGate | src/pages/PostJob.jsx:84-93 | an employer stays; any other role is sent to Feed |
| PostJobPage.View.constructor | src/pages/PostJob.jsx:30-50 | the page starts loading with the initial form and an empty skill box |
| PostJobPage.View.LoadData | src/pages/PostJob.jsx:74-100 | loading ends; with a first profile, an employer gets company_name prefilled and anyone else is redirected to Feed |
| PostJobPage.View.TypeSkill | src/pages/PostJob.jsx:35 | the skill box holds what was typed |
| PostJobPage.View.HandleAddSkill | src/pages/PostJob.jsx:102-107 | only the skill list changes, as AddSkill says, and the skill box is cleared |
| PostJobPage.View.HandleRemoveSkill | src/pages/PostJob.jsx:109-114 | only the skill list changes, as RemoveSkill says |
| PostJobPage.View.HandleSubmit | src/pages/PostJob.jsx:116-155 | with a user and an accepted insert the record as written is stored, success is set and the page moves to ManageJobs; without a user or on a rejected insert nothing is written and posting ends |
| JobCard.CardSkills | src/components/ui/JobCard.jsx:92-101 | a card shows at most three of the job's skills, in order, and the trailing count is the number left out, positive exactly when the job has more than three |
| OnboardingPage.WithField | src/pages/Onboarding.jsx:319-322 | the named field takes the input's value ('' without one) and every other field is unchanged |
| OnboardingPage.IncompleteEmployer | src/pages/Onboarding.jsx:238-240 | an employer profile lacking a truthy company name, headline or phone |
| OnboardingPage.AcceptedRole | src/pages/Onboarding.jsx:227-231 | a pending role is taken exactly when it is 'candidate' or 'employer', and then as it is |
| OnboardingPage.HomeFor | src/pages/Onboarding.jsx:264-266 | employers go to PostJob, every other role to Feed (also line 309-311) |
| OnboardingPage.Prefill | src/pages/Onboarding.jsx:247-259 | each field takes the profile's value or '' (experience_years 0), and the skills are joined with ', ' |
| OnboardingPage.PrefillSkillsRoundTrip | src/pages/Onboarding.jsx:253-289 | trimmed, non-empty, comma-free stored skills come back unchanged through the prefill join and the submit split |
| OnboardingPage.SubmitCheck | src/pages/Onboarding.jsx:279-297 | a missing email is rejected first; an employer missing company_name, headline or phone is rejected; nothing else is |
| OnboardingPage.ProfileRecord | src/pages/Onboarding.jsx:282-301 | the record carries the email as created_by, the role and the split skills; the company fields are present exactly for employers; no id |
| OnboardingPage.View.constructor | src/pages/Onboarding.jsx:197-215 | the wizard starts at step 1 as an unlocked candidate with an empty form |
| OnboardingPage.View.TakePendingRole | src/pages/Onboarding.jsx:227-231 | a valid pending role becomes the role and locks it; otherwise role and lock stay |
| OnboardingPage.View.Resume | src/pages/Onboarding.jsx:235-267 | an incomplete employer profile reopens at step 2 with its id, the employer role locked and the form prefilled; any other profile redirects by its role and leaves role, id, step and form as they were |
| OnboardingPage.View.LoadUser | src/pages/Onboarding.jsx:221-274 | initialising ends; no session, or a failed profile lookup, goes to Login; with a session the pending role is taken and the first existing profile is resumed as above |
| OnboardingPage.View.LookUp | src/pages/Onboarding.jsx:234-272 | a failed profile lookup goes to Login and changes nothing; no profile stays; the first profile found is resumed as above |
| OnboardingPage.View.ChooseRole | src/pages/Onboarding.jsx:371-389 | the role buttons change the role only while it is unlocked |
| OnboardingPage.View.UpdateField | src/pages/Onboarding.jsx:319-322 | the form becomes WithField of the old form |
| OnboardingPage.View.HandleSubmit | src/pages/Onboarding.jsx:276-317 | a rejected submit alerts and writes nothing; otherwise the record updates the existing profile when its id is set and is created otherwise, the pending role is cleared and the page redirects by role |
| ProfilePage.WithSkills | src/pages/Profile.jsx:138-145 | the form's skill list becomes the given list and every other key is unchanged |
| ProfilePage.AddedSkill | src/pages/Profile.jsx:135-141 | a blank entry changes nothing; otherwise the trimmed entry is appended and nothing else changes |
| ProfilePage.AddKeepsDuplicates | src/pages/Profile.jsx:136-138 | adding a listed skill lists it once more: this page does not keep skills unique |
| ProfilePage.RemovedSkill | src/pages/Profile.jsx:143-146 | every element equal to the skill goes, the others keep their order, and nothing else changes |
| ProfilePage.RemoveUndoesAdd | src/pages/Profile.jsx:135-146 | removing the skill just added restores a list that did not hold it |
| ProfilePage.SavePayload | src/pages/Profile.jsx:151-154 | the payload is the form without id and created_date, every other key as it was |
| ProfilePage.CreateRole | src/pages/Profile.jsx:162-166 | the role is the payload's when truthy, else the non-empty pending role, else 'candidate'; always truthy |
| ProfilePage.CreatePayload | src/pages/Profile.jsx:163-167 | the creation payload is owned by the user's email, has that role, and keeps every other key |
| ProfilePage.SaveIn | src/pages/Profile.jsx:156-169 | a loaded profile with an id is updated; otherwise a missing email fails with the sign-in message and writes nothing, and a present one creates the profile |
| ProfilePage.SaveKeepsValid | src/pages/Profile.jsx:151-169 | since the payload never carries an id, saving keeps every generated id intact |
| ProfilePage.FirstSaveIsFound | src/pages/Profile.jsx:163-170 | a first save that succeeds is found by the reload that follows it |
| ProfilePage.ProfileName | src/pages/Profile.jsx:189 | the trimmed full name, else the trimmed email, else '' |
| ProfilePage.CanDeleteAccount | src/pages/Profile.jsx:190 | `canDeleteAccount`: the trimmed confirmation equals the profile name |
| ProfilePage.OwnedBy | src/pages/Profile.jsx:203-207 | a row matches `{ [column]: email }` exactly when that column holds the email |
| ProfilePage.Merge | src/pages/Profile.jsx:210-213 | the Map has one entry per non-null id of the applications, no duplicate keys, and each entry is an application with that id |
| ProfilePage.MergedRows | src/pages/Profile.jsx:210-217 | the merged rows come from the applications, with distinct non-null ids covering every non-null id |
| ProfilePage.MergeById | src/pages/Profile.jsx:210-217 | the `forEach` loop and `Array.from(appMap.values())` give the merged rows |
| ProfilePage.WithoutAccountRows | src/pages/Profile.jsx:202-218 | the batches delete the account's saved jobs, its applications merged by id and its jobs, each from its own table, and generate no id |
| ProfilePage.WithoutAccount | src/pages/Profile.jsx:202-220 | the tables once the account's saved jobs, applications, jobs and found profiles are deleted; what survives is stated by the DeletionTakes lemmas |
| ProfilePage.WithoutAccountProfiles | src/pages/Profile.jsx:207-220 | the last batch deletes the profiles found from the profile table in use and leaves every other profile table as it was |
| ProfilePage.DeletionTakesSavedJobs | src/pages/Profile.jsx:203-216 | a saved row survives exactly when it is not the user's |
| ProfilePage.DeletionTakesJobs | src/pages/Profile.jsx:206-218 | a job survives exactly when the user did not post it |
| ProfilePage.MergeKeepsKeyedRows | src/pages/Profile.jsx:210-217 | with generated keys, merging by id loses none of the rows |
| ProfilePage.DeletionTakesApplications | src/pages/Profile.jsx:204-217 | an application survives exactly when the user neither made nor received it |
| ProfilePage.DeletionTakesProfiles | src/pages/Profile.jsx:207-219 | exactly the profiles the filter found are deleted from the table in use |
| ProfilePage.View.constructor | src/pages/Profile.jsx:42-54 | the page starts loading with no profile and an empty form |
| ProfilePage.View.LoadData | src/pages/Profile.jsx:62-79 | loading ends; the user's first profile becomes the profile and the form; without one, or on a failed read, both stay |
| ProfilePage.View.TypeSkill | src/pages/Profile.jsx:54 | the skill box holds what was typed |
| ProfilePage.View.HandleAddSkill | src/pages/Profile.jsx:135-141 | the form gains the trimmed skill as AddedSkill says; the box is cleared only when something was added |
| ProfilePage.View.HandleRemoveSkill | src/pages/Profile.jsx:143-146 | the form loses the skill as RemovedSkill says |
| ProfilePage.View.HandleUpload | src/pages/Profile.jsx:81-133 | no file changes nothing; a successful upload puts the public URL under profile_photo or resume_url; a failure alerts with the error text and leaves the form |
| ProfilePage.View.WriteProfile | src/pages/Profile.jsx:151-169 | the tables and outcome are those of SaveIn on the form without its id and creation date |
| ProfilePage.View.HandleSave | src/pages/Profile.jsx:148-186 | the tables are those of SaveIn; on failure an alert and nothing else changes; on success the profile is reloaded and edit mode ends; saving ends either way |
| ProfilePage.View.HandleDeleteAccount | src/pages/Profile.jsx:192-241 | without confirmation, an email, or while running, nothing happens; otherwise every owned row is deleted, each application id once, and the page goes to Landing forgetting the pending role; a failed read alerts and deletes nothing |
| StatusLists.StatusLookup | src/pages/Applications.jsx:141 | a known status gets its own badge, any other the fallback's |
| StatusLists.ByStatus | src/pages/ManageJobs.jsx:120-123 | every row on 'all'; otherwise an order-preserving subsequence holding exactly the rows with that status |
| StatusLists.TabCountIsListLength | src/pages/ManageJobs.jsx:151-154 | a tab's count is the length of the list it shows: all rows for 'all', else the rows with that status |
| StatusLists.CountsPartition | src/pages/ManageJobs.jsx:151-154 | when every row has one of several distinct statuses, their counts add up to the number of rows |
| StatusLists.WithStatus | src/pages/ManageJobs.jsx:87 | same length; the rows with that id get the new status and the others are unchanged |
| StatusLists.WithStatusTwice | src/pages/Applications.jsx:102-104 | setting the same status twice is setting it once |
| StatusLists.Without | src/pages/ManageJobs.jsx:96 | an order-preserving subsequence holding exactly the rows whose key is not the value |
| StatusLists.WithoutAbsent | src/pages/SavedJobs.jsx:50-51 | dropping a value no row holds changes nothing |
| ApplicationsPage.StatusConfig | src/pages/Applications.jsx:113-142 | a known status gets its own badge; the pending badge exactly for 'pending' or an unknown status |
| ApplicationsPage.FilteredApplications | src/pages/Applications.jsx:154-156 | all applications for 'all', otherwise an order-preserving subsequence holding exactly those whose status equals the filter |
| ApplicationsPage.CandidateProfiles | src/pages/Applications.jsx:73-83 | the loop fails exactly when there are applications and no profile table exists |
| ApplicationsPage.ProfileMapCovers | src/pages/Applications.jsx:79-80 | every candidate whose lookup finds a profile gets a key |
| ApplicationsPage.ProfileMap | src/pages/Applications.jsx:74-82 | the `profiles` object the loop fills: each candidate whose lookup finds a profile, keyed by email, with the first row found; stated by ProfileMapCovers and ProfileMapSound |
| ApplicationsPage.EmailKey | src/pages/Applications.jsx:80 | the property name `profiles[app.candidate_email]` uses: the candidate email as text |
| ApplicationsPage.ProfileMapSound | src/pages/Applications.jsx:74-82 | every key is the email of some application whose lookup found rows, and holds the first row found |
| ApplicationsPage.View.constructor | src/pages/Applications.jsx:41-47 | the page starts loading, with no job or applications and the 'all' filter |
| ApplicationsPage.View.LoadCandidateProfiles | src/pages/Applications.jsx:74-83 | the `for` loop of lookups gives CandidateProfiles of the applications |
| ApplicationsPage.ProfileMapStep | src/pages/Applications.jsx:75-81 | one more application adds its candidate's first profile under its email when the lookup finds one, and nothing otherwise |
| ApplicationsPage.View.ShowCandidateProfiles | src/pages/Applications.jsx:74-83 | the shown profiles become CandidateProfiles of the applications when every lookup succeeds, and stay otherwise |
| ApplicationsPage.View.LoadForJob | src/pages/Applications.jsx:61-83 | the first job with that id (if any), that job's applications newest first, and the candidate profiles when the lookups succeed |
| ApplicationsPage.View.LoadForEmployer | src/pages/Applications.jsx:84-90 | the list becomes the employer's applications, newest first |
| ApplicationsPage.View.LoadData | src/pages/Applications.jsx:53-97 | loading ends; with a jobId as LoadForJob; without one only the employer's applications newest first, with no profile lookups |
| ApplicationsPage.View.HandleStatusUpdate | src/pages/Applications.jsx:99-111 | the status is written; once that succeeds only the application with that id changes status in the list, length and order kept, and the opened one too when it has that id |
| ManageJobsPage.StatusConfig | src/pages/ManageJobs.jsx:103-110 | a known status gets its own badge; the draft badge exactly for 'draft' or an unknown status |
| ManageJobsPage.FilteredJobs | src/pages/ManageJobs.jsx:120-123 | all jobs on the 'all' tab, else an order-preserving subsequence of exactly the jobs whose status is the tab |
| ManageJobsPage.TabCount | src/pages/ManageJobs.jsx:151-154 | each tab's count is the number of jobs that tab lists |
| ManageJobsPage.TabsAddUp | src/pages/ManageJobs.jsx:151-154 | with every job active, closed or draft, the three status counts add up to All |
| ManageJobsPage.StatusMenu | src/pages/ManageJobs.jsx:241-252 | 'Close Job' exactly for active jobs, 'Reopen Job' exactly for closed ones, neither otherwise |
| ManageJobsPage.CloseThenReopen | src/pages/ManageJobs.jsx:84-91 | closing an active job and then reopening it from the menu brings it back to active (also line 241-252) |
| ManageJobsPage.SkillBadges | src/pages/ManageJobs.jsx:268-277 | at most five badges, the first skills, and '+n more' with n = count - 5 when there are more |
| ManageJobsPage.View.constructor | src/pages/ManageJobs.jsx:47-52 | the page starts loading on the 'active' tab with no job to delete |
| ManageJobsPage.View.LoadData | src/pages/ManageJobs.jsx:58-82 | loading ends; a first profile that is not an employer's redirects to Feed before any job is loaded; otherwise the employer's jobs load newest first |
| ManageJobsPage.View.HandleStatusChange | src/pages/ManageJobs.jsx:84-91 | the status is written; once that succeeds only the job with that id changes status in the list |
| ManageJobsPage.View.AskDelete | src/pages/ManageJobs.jsx:253-255 | the confirmation opens for that job |
| ManageJobsPage.View.HandleDelete | src/pages/ManageJobs.jsx:93-101 | exactly the jobs whose id is deleteJobId are deleted from the table and the list, and deleteJobId is cleared |
| ManageJobsPage.View.SelectTab | src/pages/ManageJobs.jsx:149 | the chosen tab becomes active |
| MyApplicationsPage.StatusConfig | src/pages/MyApplications.jsx:47-76 | a status in the configuration table gets its own entry; pending reads 'Under Review', rejected 'Not Selected', hired 'Hired!'; the pending badge exactly for 'pending' or an unknown status |
| MyApplicationsPage.OwnApplications | src/pages/MyApplications.jsx:35-38 | the loaded applications are newest first |
| MyApplicationsPage.OwnApplicationsMember | src/pages/MyApplications.jsx:35-38 | exactly the applications whose candidate_email is the user's are loaded |
| MyApplicationsPage.View.constructor | src/pages/MyApplications.jsx:22-24 | the page starts loading with no applications |
| MyApplicationsPage.View.LoadData | src/pages/MyApplications.jsx:30-45 | loading ends; with a user the list is their own applications newest first |
| SavedJobsPage.SavedJobIds | src/pages/SavedJobs.jsx:30 | one job id per saved row, in order |
| SavedJobsPage.SavedDetails | src/pages/SavedJobs.jsx:29-32 | the shown jobs are an order-preserving subsequence of the listing, holding exactly the listed jobs whose id some saved row's job_id names |
| SavedJobsPage.Listing | src/pages/SavedJobs.jsx:29 | `Job.list('-created_date', 1000)`: at most 1000 of the table's jobs, all of them when the table is no larger, newest first |
| SavedJobsPage.SavedOf | src/pages/SavedJobs.jsx:25-26 | exactly the saved rows whose user_email is the user's |
| SavedJobsPage.SavedRowFor | src/pages/SavedJobs.jsx:46 | `savedJobs.find`: a row with that job_id exactly when one exists |
| SavedJobsPage.RemovedJobLeavesJoin | src/pages/SavedJobs.jsx:49-50 | after dropping the saved rows of a job, the join shows the same jobs except that one |
| SavedJobsPage.View.constructor | src/pages/SavedJobs.jsx:10-14 | the page starts loading with empty lists |
| SavedJobsPage.View.LoadData | src/pages/SavedJobs.jsx:20-42 | loading ends; the saved rows load, the job listing is read only when there are saved rows and then joined, and the applied job ids load |
| SavedJobsPage.View.LoadLists | src/pages/SavedJobs.jsx:25-36 | the saved rows are the user's, the jobs are the listed ones they point at (unchanged when nothing is saved), and the applied ids are the user's applications' job ids |
| SavedJobsPage.View.HandleRemoveSaved | src/pages/SavedJobs.jsx:44-55 | with no saved row for the job nothing changes; otherwise the first such row is deleted and every saved row and job with that id leaves local state |
| SavedJobsPage.View.HandleApply | src/pages/SavedJobs.jsx:57-59 | the job's details page |
| JobDetailsPage.MatchesPair | src/pages/JobDetails.jsx:84-95 | a two-column lookup matches exactly the rows of that job and that user |
| JobDetailsPage.IsSavedIff | src/pages/JobDetails.jsx:84-88 | isSaved holds exactly when some saved row is this user's, for this job |
| JobDetailsPage.HasAppliedIff | src/pages/JobDetails.jsx:91-95 | hasApplied holds exactly when some application is this user's, for this job |
| JobDetailsPage.SaveMarksSaved | src/pages/JobDetails.jsx:121-125 | the intended saved-row insert for a job with an id makes it saved for the user |
| JobDetailsPage.ApplyMarksApplied | src/pages/JobDetails.jsx:155-165 | the intended application insert for a job with an id makes it applied to |
| JobDetailsPage.ResumeUrl | src/pages/JobDetails.jsx:159 | the uploaded file, else the profile's resume when truthy, else '' |
| JobDetailsPage.ApplicationRecordFields | src/pages/JobDetails.jsx:155-165 | status 'pending'; job_id, employer_id, title and company copied from the job; the candidate's email, name (falling back to the email), resume and cover letter |
| JobDetailsPage.ApplicationRecord | src/pages/JobDetails.jsx:155-165 | the application object `handleApply` passes to `Application.create`; its fields are stated by ApplicationRecordFields |
| JobDetailsPage.AppliedMarksApplied | src/pages/JobDetails.jsx:155-172 | after both intended writes of applying to a job with an id, the user has applied to it whatever the counter update did |
| JobDetailsPage.AppliedIn | src/pages/JobDetails.jsx:155-170 | the tables an intended `Application.create` followed by the counter update would leave, with the outcome of the update; the corrected half of applying |
| JobDetailsPage.NextCount | src/pages/JobDetails.jsx:168-170 | a missing or zero count becomes 1, a number n becomes n + 1, `true` becomes 2, a truthy text gets '1' appended |
| JobDetailsPage.CountAfterApply | src/pages/JobDetails.jsx:169 | from a missing or non-negative count the counter is a number at least 1 |
| JobDetailsPage.SalaryLine | src/pages/JobDetails.jsx:181-186 | the salary line is JobCard's text: 'Not disclosed' exactly when neither bound is truthy (also line 279) |
| JobDetailsPage.ShowsActions | src/pages/JobDetails.jsx:188 | Save and Apply are shown exactly to viewers who are not employers (also line 239, line 297) |
| JobDetailsPage.View.constructor | src/pages/JobDetails.jsx:38-48 | the page starts loading with no job, not saved, not applied, and no resume |
| JobDetailsPage.View.LoadViewer | src/pages/JobDetails.jsx:75-95 | when the profile read succeeds, the first profile (if any) and the two flags are loaded; when it fails nothing is |
| JobDetailsPage.View.LoadData | src/pages/JobDetails.jsx:54-102 | loading ends; no id parameter or no job with it redirects to Jobs and changes nothing else; otherwise the first job is shown, and for a signed-in user the profile and the two flags load as LoadViewer does |
| JobDetailsPage.View.HandleSave | src/pages/JobDetails.jsx:104-130 | without a user only the sign-in redirect happens; a saved job loses the first matching row and isSaved becomes false; for an unsaved one `SavedJob.create` throws, no table changes and isSaved stays false |
| JobDetailsPage.View.HandleResumeUpload | src/pages/JobDetails.jsx:132-145 | a successful upload becomes the resume; no file or a failed upload leaves it |
| JobDetailsPage.View.Submit | src/pages/JobDetails.jsx:154-170 | the first write, `Application.create`, throws the `TypeError` of the missing method, so the counter update is never reached and no table changes |
| JobDetailsPage.View.HandleApply | src/pages/JobDetails.jsx:147-179 | without a user only the sign-in redirect happens; otherwise applying ends lowered; no table changes, hasApplied and the dialog stay as they were |
| FeedPage.ActivityBadges | src/pages/Feed.jsx:149-156 | the Applications and Saved badges are the lengths of the applied and saved job id lists |
| FeedPage.SavedBadgeAfterToggle | src/pages/Feed.jsx:77 | saving a job raises the Saved badge by one; unsaving a job listed once lowers it by one (also line 84, line 156) |
| FeedPage.View.constructor | src/pages/Feed.jsx:27-32 | the page starts loading with empty lists |
| FeedPage.View.LoadLists | src/pages/Feed.jsx:50-60 | the jobs are every active job newest first (the limit of 10 is dropped) and the two id lists those of the viewer's saved rows and applications |
| FeedPage.View.LoadData | src/pages/Feed.jsx:38-66 | loading ends; a user without a profile is sent to Onboarding and no jobs are read; with one the first profile and the lists load as LoadLists does; a failed lookup or no session changes nothing else |
| FeedPage.View.HandleSaveJob | src/pages/Feed.jsx:68-89 | without a user nothing changes; a saved job id loses its first saved row and leaves the list; for an unsaved one `SavedJob.create` throws and neither the tables nor the list change |
| FeedPage.View.HandleApply | src/pages/Feed.jsx:91-93 | the job's details page |
| LandingPage.QueryText | src/pages/Landing.jsx:186 | `params.toString()` is empty exactly when there are no entries |
| LandingPage.Get | src/pages/Jobs.jsx:59-60 | `params.get(key)` finds an entry under the key, and nothing exactly when no entry has it |
| LandingPage.ResolvedSearch | src/pages/Landing.jsx:181 | an explicit base search wins over the trimmed search text |
| LandingPage.JobsParams | src/pages/Landing.jsx:180-185 | at most the three entries search, location and experience, each with a non-empty value |
| LandingPage.CreateJobsUrl | src/pages/Landing.jsx:179-188 | the jobs page, with no query exactly when search, trimmed location and experience are all empty, and a query starting with '?' otherwise (also line 295) |
| LandingPage.JobsParamsRead | src/pages/Landing.jsx:183-185 | each entry reads back as what was set, so the jobs page picks up the resolved search (also src/pages/Jobs.jsx:59-63) |
| LandingPage.GetAppend | src/pages/Landing.jsx:183-185 | a key absent from the earlier entries is looked up in the later ones |
| LandingPage.ToggledExperience | src/pages/Landing.jsx:263 | a chosen experience is cleared, an empty one becomes '0-2 Years' |
| LandingPage.ExperienceToggleTwice | src/pages/Landing.jsx:263 | pressing the button twice leaves an unset experience unset and turns any chosen one into 0-2 Years |
| LandingPage.RedirectTarget | src/pages/Landing.jsx:121-122 | an employer goes on to Onboarding, any other account type to Feed |
| LandingPage.StoredRoleIsAccepted | src/pages/Landing.jsx:125-130 | either account type written as the pending role is taken and locked by onboarding (also src/pages/Onboarding.jsx:227-231) |
| LandingPage.View.constructor | src/pages/Landing.jsx:84-88 | the page starts loading with empty inputs and the employer account type |
| LandingPage.View.ToggleExperience | src/pages/Landing.jsx:263 | the experience becomes the toggled one |
| LandingPage.View.HandleSearch | src/pages/Landing.jsx:190-192 | the jobs page URL built from the typed inputs with no base search |
| LandingPage.View.OpenFlow | src/pages/Landing.jsx:124-137 | the account type is stored as the pending role before sign-in, which returns to the redirect target |
| LandingPage.View.HandleAuthButton | src/pages/Landing.jsx:139-177 | a signed-in user who declines the switch stays and nothing is stored; otherwise the login or register flow opens |
| LegacyFeedPage.Searched | frontend/src/pages/Feed.js:30-46 | the jobs all three stages keep, in the fetched order, and exactly those |
| LegacyFeedPage.SearchHit | frontend/src/pages/Feed.js:33-37 | the lower-cased query occurs in the lower-cased title, the `company` column or some skill |
| LegacyFeedPage.EmptyInputsShowAll | frontend/src/pages/Feed.js:32-42 | with every input empty no stage removes anything |
| LegacyFeedPage.LocationIsExact | frontend/src/pages/Feed.js:40 | the location filter compares whole values, so any other location leaves the list |
| LegacyFeedPage.View.constructor | frontend/src/pages/Feed.js:8-13 | the page starts with empty lists, inputs and error |
| LegacyFeedPage.View.FetchJobs | frontend/src/pages/Feed.js:19-28 | a reply puts the backend's list in both lists; a failed request sets "Failed to load jobs!" and keeps the lists |
| LegacyFeedPage.View.HandleSearch | frontend/src/pages/Feed.js:30-46 | the shown list is the searched list of the fetched jobs; nothing else changes |
| LegacyFeedPage.View.TypeSearch | frontend/src/pages/Feed.js:65 | the search text is set and the list is searched with it and the current selects |
| LegacyFeedPage.View.ChooseLocation | frontend/src/pages/Feed.js:126 | the location is set and the list is searched with it |
| LegacyFeedPage.View.ChooseType | frontend/src/pages/Feed.js:114 | the job type is set and the list is searched with it |
| LegacyFeedPage.View.ClearFilters | frontend/src/pages/Feed.js:135 | the inputs become empty and the full list shows, which is what searching with empty inputs gives |
| LegacyDb.Database.constructor | backend/config/db.js:3-9 | the database starts with no jobs, saved rows or applications, the given users and serial 1 |
| LegacyDb.JoinPairsMember | backend/routes/jobs.js:80 | a pair is in the join exactly when its left row passes the WHERE and matches its right row (also backend/routes/applications.js:32, backend/routes/applications.js:45) |
| LegacyDb.Combined | backend/routes/jobs.js:80 | a joined row keeps the left columns not picked and takes every picked column from the right row |
| LegacyDb.JoinRows | backend/routes/jobs.js:80 | one combined row per joined pair, in order |
| LegacyDb.JoinPairs | backend/routes/jobs.js:80 | every pair of the inner join has a kept left row and a right row it joins on; JoinPairsMember gives the converse |
| LegacyDb.Existing | backend/routes/jobs.js:59-62 | exactly the rows that match both the WHERE values (also backend/routes/applications.js:10-13) |
| LegacyDb.InsertKeepsUnique | backend/routes/jobs.js:63-69 | inserting a pair the duplicate lookup did not find keeps every pair unique (also backend/routes/applications.js:14-21) |
| LegacyDb.Newest | backend/routes/jobs.js:9 | the same rows as a multiset, in non-increasing order of the column |
| LegacyJobRoutes.NewJobRow | backend/routes/jobs.js:34-38 | the inserted row has the ten request fields, the serial id and the insertion time, and no other columns |
| LegacyJobRoutes.ListJobs | backend/routes/jobs.js:6-15 | status 200 with every job, newest first |
| LegacyJobRoutes.GetJob | backend/routes/jobs.js:18-30 | 404 "Job not found!" exactly when no job has the id, else 200 with a job that has it |
| LegacyJobRoutes.PostJob | backend/routes/jobs.js:33-44 | the new row is appended, the serial advances, and 201 returns the message with the row |
| LegacyJobRoutes.DeleteJob | backend/routes/jobs.js:47-54 | exactly the jobs with the id go, the rest keep their order, and 200 is returned |
| LegacyJobRoutes.SaveJob | backend/routes/jobs.js:56-74 | 400 and no insert when the pair is already saved, else one row appended and 200; pairs stay unique |
| LegacyJobRoutes.SavedPairsMember | backend/routes/jobs.js:80 | a pair is listed exactly when the saved row is the user's and the job it names exists |
| LegacyJobRoutes.SavedPairs | backend/routes/jobs.js:80 | `saved_jobs s JOIN jobs j ON s.job_id = j.id WHERE s.user_id = $1`; its partner SavedPairsMember states which pairs it holds |
| LegacyJobRoutes.DeletedJobLeavesSavedList | backend/routes/jobs.js:49-80 | after a delete the saved list shows no pair with the deleted job, and only pairs listed before |
| LegacyJobRoutes.SavedList | backend/routes/jobs.js:77-87 | status 200 with the user's saved rows joined to their jobs' listed columns |
| LegacyApplicationRoutes.Apply | backend/routes/applications.js:6-26 | 400 and no insert when the candidate already applied, else one row appended and 201 with it; pairs stay unique |
| LegacyApplicationRoutes.CandidatePairsMember | backend/routes/applications.js:32 | only the candidate's applications whose job exists are listed, each with that job |
| LegacyApplicationRoutes.JobPairsMember | backend/routes/applications.js:45 | only the job's applications whose candidate has an account are listed, each with that account |
| LegacyApplicationRoutes.CandidatePairs | backend/routes/applications.js:32 | `applications a JOIN jobs j ON a.job_id = j.id WHERE a.candidate_id = $1`; its partner CandidatePairsMember states which pairs it holds |
| LegacyApplicationRoutes.JobPairs | backend/routes/applications.js:45 | `applications a JOIN users u ON a.candidate_id = u.id WHERE a.job_id = $1`; its partner JobPairsMember states which pairs it holds |
| LegacyApplicationRoutes.ByCandidate | backend/routes/applications.js:29-39 | status 200 with the candidate's applications joined to their jobs' title, company and location |
| LegacyApplicationRoutes.ByJob | backend/routes/applications.js:42-52 | status 200 with the job's applications joined to their candidates' names and email |
| LegacyApplicationRoutes.SetStatus | backend/routes/applications.js:58-61 | the rows with the id take the new status and nothing else changes |
| LegacyApplicationRoutes.SetStatusUnknownId | backend/routes/applications.js:58-61 | an id that no row has changes nothing |
| LegacyApplicationRoutes.UpdateStatus | backend/routes/applications.js:55-66 | the statuses are set; the reply is always 200 "Status updated!", and it carries no row exactly when no row had the id |
| LegacyPostJobPage.WithoutIndex | frontend/src/pages/PostJob.js:27 | exactly the skill at the index goes and the others keep their order; an index out of range changes nothing |
| LegacyPostJobPage.ScaledSalary | frontend/src/pages/PostJob.js:38-39 | a parsed number times 100000; an unparsable field is sent as null |
| LegacyPostJobPage.ScaledSalaryOfNumber | frontend/src/pages/PostJob.js:38-39 | a whole number of lakhs typed in is sent in rupees (also line 120) |
| LegacyPostJobPage.ScaledSalaryOfBlank | frontend/src/pages/PostJob.js:13-38 | an empty or all-white salary field is sent as null |
| LegacyPostJobPage.SubmitBody | frontend/src/pages/PostJob.js:36-42 | the form's fields, with the two salaries scaled, the skills and the poster's id; no other field changes |
| LegacyPostJobPage.PostedJobCarriesForm | frontend/src/pages/PostJob.js:36-42 | the job the backend stores has the form's title and company, the scaled salaries, the skills and the poster (also backend/routes/jobs.js:34-38) |
| LegacyPostJobPage.SubmitOutcome | frontend/src/pages/PostJob.js:44-53 | home exactly on a 2xx reply; a failed request alerts "Server error!"; any other reply alerts the server's message |
| LegacyPostJobPage.MessageOf | frontend/src/pages/PostJob.js:49 | `data.message`, reading as "undefined" when the reply body has none |
| LegacyPostJobPage.View.constructor | frontend/src/pages/PostJob.js:8-15 | no skills, an empty skill input, not loading, and the blank form |
| LegacyPostJobPage.View.HandleChange | frontend/src/pages/PostJob.js:17 | only the named field takes the typed value |
| LegacyPostJobPage.View.TypeSkill | frontend/src/pages/PostJob.js:147 | the skill input takes the typed text |
| LegacyPostJobPage.View.AddSkill | frontend/src/pages/PostJob.js:19-25 | on Enter with a non-blank input the trimmed skill is appended and the input cleared; otherwise nothing changes |
| LegacyPostJobPage.View.RemoveSkill | frontend/src/pages/PostJob.js:27 | the skill list loses the skill at the index (also line 144) |
| LegacyPostJobPage.View.HandleSubmit | frontend/src/pages/PostJob.js:29-55 | the posted body is built from the form and skills, loading ends, and the outcome follows the reply |
| LegacyPostJobPage.PostRouteReplySucceeds | frontend/src/pages/PostJob.js:45-47 | every reply the job route gives, whatever the body, serial and time, makes the page alert its success text and go home (also backend/routes/jobs.js:40) |

## Left out

- Network, database and storage I/O are abstracted as in-memory tables. Supabase, the `pg` pool and the Storage bucket are not modelled. A response that arrives from the network (the earlier client's `fetch` replies, the uploaded file's public URL) is a parameter.
- Strings.Lower: maps only the ASCII letters, and leaves every other character as it is. `toLowerCase` also maps non-ASCII letters. That Unicode table is not part of this model.
- LandingPage.QueryText: joins `key=value` pairs without the percent-encoding `URLSearchParams.toString` applies. The model states which keys are present and that an empty list gives an empty query. It does not give the exact encoded text.
- Strings.ParseDecimalOfIntText: `parseFloat` is modelled on integer-valued text only. Salaries are integers throughout, because floating point is outside the model, and so are fractional salary inputs. A stored salary is compared as JavaScript's `Number` reads it, with `NaN` failing both salary filters of `src/pages/Jobs.jsx:131-136`.
- Ordering.SortDesc: `ORDER BY` on a column holding something other than a number sorts that row with key 0. The model fixes one order among rows with equal keys; the database may return ties in another order. Join order likewise follows the left table, then the right.
- ProfilePage.View.HandleDeleteAccount: the `Promise.all` bulk deletes at `src/pages/Profile.jsx:202-220` happen one after another. The signed-in account's own deletion and `signOut` belong to Clerk, which is not part of this model.
- Concurrency: the non-atomic `applications_count` increment and the check-then-insert of the saving and applying routes are modelled as single sequential calls, so races between clients are not captured.
- Store.Store.FilterJobs: a Supabase error is not modelled; `Job.filter` rethrows any error the query returns, and the model's query always answers.
- Store.Store.ListJobs: a Supabase error is not modelled; `Job.list` rethrows any error the query returns.
- Store.Store.FilterApplications: a Supabase error is not modelled; `Application.filter` rethrows any error the query returns.
- Store.Store.FilterSavedJobs: a Supabase error is not modelled; `SavedJob.filter` rethrows any error the query returns.
- Store.FilterProfilesIn: a Supabase error other than a missing table is not modelled; `UserProfile.filter` rethrows any error the query returns (`src/api/apiClient.js:80`).
- Store.CreateProfileIn: a Supabase error other than a missing table is not modelled; `UserProfile.create` rethrows any error the insert returns (`src/api/apiClient.js:87`).
- Store.UpdateProfileIn: a Supabase error other than a missing table or `.single()` finding no row is not modelled; `UserProfile.update` rethrows any error the update returns (`src/api/apiClient.js:94`).
- Store.UpdateJobIn: a Supabase error other than `.single()` finding no row is not modelled; `Job.update` rethrows any error the update returns (`src/api/apiClient.js:131`).
- Store.UpdateApplicationIn: a Supabase error other than `.single()` finding no row is not modelled; `Application.update` rethrows any error the update returns (`src/api/apiClient.js:152`).
- Store.Store.FilterProfiles: the errors of Store.FilterProfilesIn only; any other rejection of `UserProfile.filter` (`src/api/apiClient.js:80`) is not modelled.
- Store.Store.FindProfiles: the errors of Store.FilterProfilesIn only; any other rejection of the profile lookup by email (`src/api/apiClient.js:80`) is not modelled.
- Store.Store.CreateProfile: the errors of Store.CreateProfileIn only; any other rejection of the insert (`src/api/apiClient.js:87`), which `src/pages/Onboarding.jsx:312-316` would report in an alert, is not modelled.
- Store.Store.UpdateProfile: the errors of Store.UpdateProfileIn only; any other rejection of the update (`src/api/apiClient.js:94`), which `src/pages/Profile.jsx:176-182` would report as a "Save failed" toast, is not modelled.
- Store.Store.UpdateJob: the errors of Store.UpdateJobIn only; any other rejection of the update (`src/api/apiClient.js:131`) is not modelled. The status change of `src/pages/ManageJobs.jsx:86` would then only log it and leave the list unchanged.
- Store.Store.UpdateApplication: the errors of Store.UpdateApplicationIn only; any other rejection of the update (`src/api/apiClient.js:152`) is not modelled. The status change of `src/pages/Applications.jsx:101` would then only log it and leave the list unchanged.
- Store.CreateJobIn: the accepted insert only. A rejected insert is the `rejection` parameter of `Store.Store.CreateJob`, which the post page reports. The table schema is not part of this model, so which objects the database rejects is not modelled.
- Store.CreateApplicationIn: the intended insert never fails. It stands for a `create` that `apiClient.js` lacks, so no page's method reaches it.
- Store.CreateSavedJobIn: the intended insert never fails. It stands for a `create` that `apiClient.js` lacks, so no page's method reaches it.
- Deletes and the update of a job's `applications_count`: a database error other than a missing row is not modelled.
- Strings.ToNumber: `Number` is modelled on integer-valued text only. A fraction, an exponent, a hexadecimal or an `Infinity` text reads as NaN here, where JavaScript reads a number.
- JavaScript `undefined` and `null` are one `Null` value. Object-literal lookups (`configs[status]`) consider only the keys the literal defines, not inherited `Object.prototype` properties.
- Reading `job.title` or `job.company` of a row without them reads as `""`. The source would throw a `TypeError` from `toLowerCase`. A non-array `skills` value spread into a list is read as an empty list.
- Schema defaults, foreign keys and the `500 Server error` replies of the legacy routes are not modelled. A route parameter such as `:id` is compared as text with the column's value. One serial counter numbers all three legacy tables.
- Clerk is not part of this model: sign-in, `openSignUp`, `signOut`, user deletion and the session hooks. The signed-in user is a parameter, and a missing session (`None`) stands for `api.auth.me()` rejecting; an auth provider whose `me()` resolves to `null` would take other branches, which are not modelled.
- Rendering, styles, animations and toasts are not part of this model. Neither is the `uploading` spinner state. Two render-only rules are out as well:
  - the total badge of `src/pages/MyApplications.jsx:100-102`;
  - the "every card is saved" flag of `src/pages/SavedJobs.jsx:93`.
- `window.location`, `window.confirm` and `alert` become returned values or parameters.
- The Landing page's category links call `createJobsUrl(search)`, and the suggestion buttons call it likewise. Both are covered by the `baseSearch` parameter of `LandingPage.CreateJobsUrl`.
- Out of scope:
  - `backend/routes/auth.js` (bcrypt and JWT);
  - the Clerk middleware;
  - `Navbar.jsx` and `Layout.jsx`;
  - the static pages;
  - the bootstrap and configuration files;
  - the rename scripts;
  - `js/main.js`.

## Findings

The page methods follow the code as written. Each corrected member states the intended behaviour and proves it.

| source | as written | input that shows it | evidently intended | confidence | as-written member | corrected member |
|---|---|---|---|---|---|---|
| src/pages/JobDetails.jsx:155 | `Application` and `SavedJob` in `apiClient.js` expose `filter` and `delete` but no `create`. The pages still call `Application.create` and `SavedJob.create` (`JobDetails.jsx:121`, `JobDetails.jsx:155`, `Jobs.jsx:158`, `Feed.jsx:80`), so each call throws a `TypeError` that the page catches: nothing is saved and nothing is applied | a signed-in candidate presses Apply on any job | both entities have a `create` like `Job` and `UserProfile` | not executed | ApiClient.MissingCreates | JobDetailsPage.AppliedMarksApplied |
| src/pages/Feed.jsx:51 | `Job.filter(criteria, order)` takes no third argument, so the limit of 10 passed by the feed (and of 100 by `Jobs.jsx:89`) is ignored and every active job comes back | eleven active jobs: the feed shows all eleven | the feed returns at most the requested number of jobs, as `Job.list` does | not executed | ApiClient.JobFilterIgnoresLimit | ApiClient.JobFilterLimitedHonoursLimit |
| src/pages/PostJob.jsx:121 | the submitted job has three faults: the company goes under `company`, not the `company_name` the cards and the search read; the chosen experience level is not sent; no `status` is set. So a job posted this way never matches the `status: 'active'` listing every page uses. If the `Job` table has no `company` column the database rejects the insert instead and nothing is posted; the schema is not part of this model, and either way the job is never listed, unless the `Job` table gives `status` a default of 'active' (its `company_name` would still be missing) | any completed form | the payload carries `company_name`, `experience_level` and `status: 'active'`, so the posted job is listed | not executed | PostJobPage.PostedJobAsWrittenIsUnlisted | PostJobPage.PostedJobIsListed |
