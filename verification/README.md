# Portfolio site — a verified model of its behaviour

This project models the logic of a personal portfolio site in Dafny. The site has two halves.

The React frontend has three pieces of logic:
- a navigation bar, which holds the mobile-menu flag, highlights the active entry and resets the scroll position;
- a route table, which maps six paths to six pages;
- a contact form, which holds four fields, each edited separately, and clears them on submit without sending anything.

The Flask backend has the rest:
- public content endpoints: personal info with a built-in fallback, projects with a `featured` filter, skills grouped by category, and contact-message submission;
- an admin area behind a session gate: login, logout, check-auth, dashboard counters, partial updates of personal info and projects, project and skill creation, and mark-as-read;
- SQLAlchemy models whose JSON-list columns are read back as `[]` when NULL, empty or undecodable;
- start-up seeding that fills empty tables once.

Everything is a pure function over immutable values:
- The database is a record of tables. Each table is a sequence of rows in creation order, and every listing returns its rows in that order (see "## Left out" for the sorting the code does).
- The Flask session is a map.
- An HTTP answer is a status code plus a payload.
- The scroll reset `window.scrollTo(0, 0)` is an observable counter in the navigation state.
- `json.dumps` and `json.loads` on lists of strings are written out concretely in `JsonList`, and `json.dumps` of any JSON value in `Http.DumpsValue`. The decode-after-encode round trip is proved there, not assumed.

Modules, one file each:
- `Wrappers`: the Option type.
- `JsonList`: the JSON text of a list of strings.
- `Http`: request values, Python truthiness, column fit and status codes.
- `Models`: rows, defaults, keys and the list accessors.
- `SkillGroups`: the grouping loop of `get_skills`.
- `PublicApi`: the public endpoints.
- `Admin`: the admin endpoints.
- `Seed`: `init_default_data`.
- `Navigation`, `Router` and `ContactForm`: the frontend pieces.

Modelling conventions:
- A row inserted into a table gets the key one above the largest present key. This is SQLite's rowid rule for an `INTEGER PRIMARY KEY`.
- A column given `None` takes its declared default. A NOT NULL column left NULL fails the commit.
- A failed commit is rolled back and answered with 500. It leaves the database as it was.
- A request without a JSON body (`get_json()` returning `None`) makes the handler raise. That is answered with 500.
- `Seed.InitDefaultData` takes the seeded content as a parameter. `Seed.MainSeeds` holds the literals of the start-up code, and the lemmas about the seeded data are stated for it.
- `Project.query.get_or_404` runs inside the handlers' own `try`/`except Exception`. Its NotFound is therefore caught, and an unknown key is answered with 500, not 404. The model follows the code here.

Three behaviours of the frontend code that the model reproduces:
- Only the entries' click handler closes the mobile menu. The logo link and any other route change (for example the back button) leave an open menu open. `Navigation.LogoClick` shows this.
- A nav click resets the scroll in its handler, and the pathname effect resets it again when the path changes. A click on a new page therefore resets it twice; see `Navigation.NavClick` and `Navigation.ClickScenario`.
- Exactly one entry is lit only on the six listed paths. Any other path lights no entry and shows no page (`Navigation.ActiveItemUnique`, `Router.NoCatchAll`).

`Admin.GateIgnoresDeactivation` records a property of the code. The gate checks only that `admin_id` is in the session. An admin deactivated after login therefore keeps passing it, while `check_auth` already answers "not authenticated".

## Model

| member | source | states |
|---|---|---|
| Navigation.Mount | frontend/src/components/Navigation.jsx:7-13 | the menu starts closed and the pathname effect resets the scroll once on first render |
| Navigation.Toggle | frontend/src/components/Navigation.jsx:68 | the menu button flips the open flag and changes nothing else |
| Navigation.ToggleInvolution | frontend/src/components/Navigation.jsx:68 | toggling twice restores the state |
| Navigation.LocationChange | frontend/src/components/Navigation.jsx:11-13 | a route change resets the scroll exactly when the pathname differs and leaves the menu flag alone |
| Navigation.HandleNavClick | frontend/src/components/Navigation.jsx:24-28 | the click handler closes the menu and resets the scroll, whatever the state |
| Navigation.NavClick | frontend/src/components/Navigation.jsx:41-45 | a click on any entry ends with the menu closed on that entry's path; the scroll is reset once when already there and twice otherwise |
| Navigation.LogoClick | frontend/src/components/Navigation.jsx:35 | the logo navigates to "/" without a handler, so an open menu stays open |
| Navigation.ItemsView | frontend/src/components/Navigation.jsx:46-53 | an entry is highlighted, and carries the indicator where drawn, iff the pathname equals its path |
| Navigation.Render | frontend/src/components/Navigation.jsx:40-101 | desktop entries are always drawn with highlight and indicator; the mobile list is drawn iff the menu is open, highlighted the same way and without indicator |
| Navigation.CountHighlighted | frontend/src/components/Navigation.jsx:47 | the number of highlighted entries is zero iff no entry is highlighted |
| Navigation.HighlightUnique | frontend/src/components/Navigation.jsx:15-22 | over distinct paths at most one entry is highlighted, and exactly one iff the pathname is listed |
| Navigation.NavPathsDistinct | frontend/src/components/Navigation.jsx:15-22 | the bar has six entries with pairwise-distinct paths |
| Navigation.ActiveItemUnique | frontend/src/components/Navigation.jsx:47-53 | in every state at most one desktop entry is lit, and exactly one iff the pathname is one of the six |
| Navigation.Step | frontend/src/components/Navigation.jsx:11-28 | no event of the bar decreases the number of scroll resets |
| Navigation.ScrollsCoverPathChanges | frontend/src/components/Navigation.jsx:11-13 | along any run of events the scroll resets are at least the pathname changes |
| Navigation.ClickCloses | frontend/src/components/Navigation.jsx:24-25 | after any history of events, a click on an entry leaves the menu closed |
| Navigation.ClickScenario | frontend/src/components/Navigation.jsx:24-28 | loading "/" then clicking Projects gives three resets; opening the menu and clicking Contact closes it again |
| Router.MatchIn | frontend/src/App.jsx:16-23 | no page iff no route has the path; otherwise the page listed with that path |
| Router.Render | frontend/src/App.jsx:15-23 | the navigation bar is present for every path; a page is shown iff the path is in the table, and it is that path's page |
| Router.RoutesDistinct | frontend/src/App.jsx:17-22 | six routes, with pairwise-distinct paths and pairwise-distinct pages |
| Router.EachPathOnePage | frontend/src/App.jsx:16-23 | each listed path selects exactly the page listed with it |
| Router.MatchInjective | frontend/src/App.jsx:17-22 | two paths that select the same page are the same path |
| Router.RoutePathsAreNavPaths | frontend/src/App.jsx:17-22 | the set of route paths equals the set of navigation-bar paths |
| Router.NavItemsReachPages | frontend/src/components/Navigation.jsx:15-22 | every navigation-bar entry leads to a page |
| Router.NoCatchAll | frontend/src/App.jsx:16-23 | a path outside the table shows the bar and no page |
| ContactForm.Edit | frontend/src/pages/Contact.jsx:18-24 | the edited field takes the typed value and the other three keep theirs |
| ContactForm.HandleSubmit | frontend/src/pages/Contact.jsx:26-37 | submitting logs the form as it was and clears all four fields, whatever they held |
| ContactForm.Complete | frontend/src/pages/Contact.jsx:146-192 | the form is submittable iff none of the four `required` fields is empty |
| ContactForm.Press | frontend/src/pages/Contact.jsx:140-192 | the browser submits iff no required field is empty; a blocked press changes nothing |
| ContactForm.InitialEmpty | frontend/src/pages/Contact.jsx:11-16 | the form starts with four empty fields and so cannot be submitted untouched |
| ContactForm.EditLastWins | frontend/src/pages/Contact.jsx:18-24 | two edits of one field leave the last value |
| ContactForm.EditsCommute | frontend/src/pages/Contact.jsx:20-22 | edits of different fields commute |
| ContactForm.SubmitForgets | frontend/src/pages/Contact.jsx:31-36 | the state after submitting does not depend on what was typed |
| ContactForm.PressIdempotent | frontend/src/pages/Contact.jsx:26-37 | pressing submit twice leaves the state of pressing once, and the second press sends nothing |
| ContactForm.FillThenSubmit | frontend/src/pages/Contact.jsx:146-192 | filling the four inputs gives that record, which is submittable iff every value is non-empty |
| JsonList.Dumps | backend/src/models/portfolio.py:85 | the JSON text of a list is bracketed, and is "[]" iff the list is empty |
| JsonList.Loads | backend/src/models/portfolio.py:79 | decoding succeeds only on text whose first non-blank character opens an array |
| JsonList.LoadsDumps | backend/src/models/portfolio.py:84-85 | decoding the JSON text of any list of strings gives the list back |
| JsonList.DumpsInjective | backend/src/models/portfolio.py:84-85 | different lists have different JSON texts |
| JsonList.LoadsRejectsNonArray | backend/src/models/portfolio.py:78-81 | text that is blank or does not start an array fails to decode |
| JsonList.LoadsRejectsUnclosed | backend/src/models/portfolio.py:78-81 | the JSON text of any list with its closing bracket cut off fails to decode |
| JsonList.ParseBodyRejectsRaw | backend/src/models/portfolio.py:78-81 | a raw control character after any escaped text in a literal's body makes decoding fail, whatever follows |
| JsonList.LoadsRejectsRawControl | backend/src/models/portfolio.py:78-81 | an array whose first string literal holds a raw control character after any escaped text fails to decode, whatever follows |
| JsonList.EscapeChar | backend/src/models/portfolio.py:85 | a character stands for itself iff it is printable ASCII other than quote and backslash; exactly the other characters without a short escape get `\u` escapes (a surrogate pair above U+FFFF), as with the default `ensure_ascii` |
| JsonList.ParseBodyChar | backend/src/models/portfolio.py:79-85 | decoding any single escaped character, whatever follows, gives that character back first |
| Http.Truthy | backend/src/routes/admin.py:28 | Python truthiness: null, false, 0, the empty string and the empty list are false |
| Http.TextCell | backend/src/models/portfolio.py:62 | a nullable text column holds NULL exactly for a JSON null and a string exactly for that string |
| Http.StrCell | backend/src/models/portfolio.py:61 | a NOT NULL text column takes exactly the JSON strings |
| Http.BoolCell | backend/src/models/portfolio.py:71 | a nullable boolean column holds NULL for null and a boolean exactly for that boolean |
| Http.IntCell | backend/src/models/portfolio.py:72 | a nullable integer column holds NULL for null and an integer exactly for that integer |
| Http.Strings | backend/src/models/portfolio.py:84-85 | a JSON list reads as strings iff every item is a string, item by item |
| Http.StrListCell | backend/src/models/portfolio.py:84-85 | a value is a list of strings iff it is a JSON list whose every item is a string |
| Http.Patch | backend/src/routes/admin.py:236-245 | an absent key always fits; a present key fits iff its column takes it; a fitting result is what the partial-update rule gives |
| Http.DumpsValue | backend/src/models/portfolio.py:85 | the JSON text of any value is non-empty and starts with a bracket iff it is a list and with a quote iff it is a string |
| Http.DumpsValueStrings | backend/src/models/portfolio.py:84-85 | on a list of strings the general writer gives the same text as the list writer |
| Models.NextId | backend/src/models/portfolio.py:60 | a new key is above every present key, and 1 in an empty table |
| Models.FindKey | backend/src/routes/admin.py:234 | a key lookup finds the first row holding that key, and finds nothing exactly when no row holds it |
| Models.GetList | backend/src/models/portfolio.py:76-82 | NULL, empty and undecodable columns read as `[]`; otherwise the decoded list |
| Models.SetList | backend/src/models/portfolio.py:84-85 | reading back a column just set gives the list that was set |
| Models.SetTechnologies | backend/src/models/portfolio.py:84-85 | `get_technologies` returns the list just set and no other column changes |
| Models.SetFeatures | backend/src/models/portfolio.py:95-96 | `get_features` returns the list just set and no other column changes |
| Models.SetResponsibilities | backend/src/models/portfolio.py:43-44 | `get_responsibilities` returns the list just set and no other column changes |
| Models.SetExperienceProjects | backend/src/models/portfolio.py:54-55 | `get_projects` of an experience returns the list just set and no other column changes |
| Models.SetOverwrites | backend/src/models/portfolio.py:84-85 | a setter replaces whatever was stored before: the last set wins |
| SkillGroups.AddSkill | backend/src/routes/portfolio.py:107-114 | one step of the grouping loop never removes a group |
| SkillGroups.AddSkillLookup | backend/src/routes/portfolio.py:107-114 | one step appends the entry to its own category's group, opening it if absent, and leaves other categories alone |
| SkillGroups.AddSkillTotal | backend/src/routes/portfolio.py:109 | one step adds exactly one entry in total |
| SkillGroups.AddSkillShape | backend/src/routes/portfolio.py:107-108 | one step keeps category keys distinct and no group empty |
| SkillGroups.GroupByCategory | backend/src/routes/portfolio.py:105-114 | each category's group is the skills of that category in input order, present iff non-empty; keys distinct; entries total the skill count |
| SkillGroups.EntriesNonEmpty | backend/src/routes/portfolio.py:107-108 | a category has entries iff some skill has that category |
| SkillGroups.EntriesSound | backend/src/routes/portfolio.py:109-114 | every entry of a category's group comes from a skill of that category |
| SkillGroups.EntriesComplete | backend/src/routes/portfolio.py:106-114 | every skill's entry appears in its own category's group |
| SkillGroups.SkillListedUnderItsCategory | backend/src/routes/portfolio.py:102-114 | in the grouped answer, every skill is listed under its own category |
| PublicApi.GetPersonalInfo | backend/src/routes/portfolio.py:13-37 | with no row, the built-in record; otherwise the first row's six fields |
| PublicApi.ProjectViewOf | backend/src/routes/portfolio.py:54-66 | a listed project carries its key and flag, and its list columns read through the getters |
| PublicApi.Lower | backend/src/routes/portfolio.py:45 | lower-casing keeps the length and lower-cases each character in place |
| PublicApi.FeaturedProjects | backend/src/routes/portfolio.py:48 | a project is kept iff it is in the input and has `is_featured` set |
| PublicApi.FeaturedProjectsSnoc | backend/src/routes/portfolio.py:48 | a row added at the end joins the end of the featured rows iff it is featured, so the featured rows are the table's featured rows in table order, each once |
| PublicApi.FeaturedOnly | backend/src/routes/portfolio.py:45 | the flag is on iff the argument, or "false" when absent, lower-cases to "true" |
| PublicApi.Views | backend/src/routes/portfolio.py:54-66 | the listing has one view per project, in order |
| PublicApi.GetProjects | backend/src/routes/portfolio.py:44-50 | with the flag on, the views of the featured rows in table order and every featured row among them; otherwise every project, in order |
| PublicApi.FeaturedFlagValues | backend/src/routes/portfolio.py:45 | examples: on for "true", "TRUE" and "True"; off when absent and for "false", "1", "yes" and " true" |
| PublicApi.FeaturedOnlyCasings | backend/src/routes/portfolio.py:45 | for every text, the flag is on iff the text is one of the sixteen casings of "true" |
| PublicApi.GetSkills | backend/src/routes/portfolio.py:100-119 | the grouped answer has distinct, non-empty categories and as many entries as skills |
| PublicApi.SubmitContact | backend/src/routes/portfolio.py:184-205 | 400 iff a key is missing; on success exactly one message is appended, with the four values, unread and a fresh key; otherwise nothing changes |
| PublicApi.SubmitContactMissingKey | backend/src/routes/portfolio.py:188-189 | a body lacking "message" is answered 400 and stores nothing |
| PublicApi.SubmitContactEmptyStrings | backend/src/routes/portfolio.py:188 | empty strings pass the check, which tests key presence only |
| PublicApi.SubmitContactWellFormed | backend/src/routes/portfolio.py:191-199 | a submission keeps every table's keys distinct |
| Admin.LoggedIn | backend/src/routes/admin.py:15 | the gate only asks whether `admin_id` is in the session |
| Admin.CredentialsGiven | backend/src/routes/admin.py:25-28 | both credentials are present and truthy |
| Admin.FindActiveByName | backend/src/routes/admin.py:31 | the first active admin with that username, or none exactly when there is none |
| Admin.PasswordAccepted | backend/src/routes/admin.py:31-33 | the first active admin of that username exists and its hash accepts the string password |
| Admin.Login | backend/src/routes/admin.py:22-49 | 400 iff a credential is missing or empty; success iff the credentials are given and the matching active user's hash accepts the password, writing id and username into the session; for a string password only 200 or 401; 500 iff there is no body or the password of a matched user is not a string; only success changes anything |
| Admin.LoginEmptyUsername | backend/src/routes/admin.py:28-29 | an empty-string username is answered 400 whatever the password |
| Admin.Logout | backend/src/routes/admin.py:51-55 | the session becomes empty and the database is untouched |
| Admin.CheckAuth | backend/src/routes/admin.py:57-72 | authenticated iff the session names an existing active admin, and then the answer carries that admin's id, username and e-mail; otherwise no admin record |
| Admin.CountFeatured | backend/src/routes/admin.py:81 | the count is at most the total; zero iff none is featured; the total iff all are |
| Admin.CountFeaturedListing | backend/src/routes/admin.py:81 | the featured counter equals the length of the public featured listing |
| Admin.CountFeaturedAppend | backend/src/routes/admin.py:81 | the featured counter of two joined tables is the sum of their counters |
| Admin.CountUnread | backend/src/routes/admin.py:83 | the count is at most the total; zero iff none is unread; the total iff all are |
| Admin.CountUnreadAppend | backend/src/routes/admin.py:83 | the unread counter of two joined tables is the sum of their counters |
| Admin.Newest | backend/src/routes/admin.py:87 | the latest messages, newest first, at most the limit |
| Admin.Dashboard | backend/src/routes/admin.py:77-103 | featured ≤ total projects, unread ≤ total messages, totals match the tables; the featured and unread counters are the counts above and the recent list is the five newest messages |
| Admin.InsertInfo | backend/src/routes/admin.py:147-158 | on an empty table the new row commits iff the body fits it, and nothing else changes |
| Admin.ModifyInfo | backend/src/routes/admin.py:151-158 | on the existing row the update commits iff every given key is a string, and the table keeps its length |
| Admin.UpdatePersonalInfo | backend/src/routes/admin.py:140-164 | success iff the body fits; on the existing row each absent key keeps its value and each present key overwrites; on an empty table one row with key 1, the given summary, and each other field given or defaulted; failure changes nothing |
| Admin.UpdatePersonalInfoEmptyBody | backend/src/routes/admin.py:151-156 | an update that names no field leaves the database unchanged |
| Admin.StoredList | backend/src/models/portfolio.py:76-85 | a setter stores the JSON text of any value; a list of strings reads back as itself and any non-list as `[]` |
| Admin.NewProject | backend/src/routes/admin.py:202-218 | a row is built iff title and description are strings and every other given column fits |
| Admin.CreateProject | backend/src/routes/admin.py:196-227 | success iff the body fits; then one row appended with a fresh key, the body's fields, the column defaults for absent or null keys, and the list columns stored iff truthy; failure changes nothing |
| Admin.CreateProjectWellFormed | backend/src/routes/admin.py:220-221 | creating a project keeps every table's keys distinct |
| Admin.PatchProject | backend/src/routes/admin.py:236-250 | the patch succeeds iff every given column fits, and keeps the row's key |
| Admin.UpdateProject | backend/src/routes/admin.py:229-258 | success iff the key exists and the body fits; each absent key keeps its value and each present key overwrites; lists are replaced iff their key is present; an unknown key gives 500; nothing else changes |
| Admin.UpdateProjectWellFormed | backend/src/routes/admin.py:236-252 | an update keeps every table's keys distinct |
| Admin.UpdateProjectEmptyBody | backend/src/routes/admin.py:236-250 | an update that names no field leaves the database unchanged |
| Admin.CreateSkill | backend/src/routes/admin.py:296-317 | success iff name and category are strings and every other given column fits; then one skill appended with a fresh key; an absent or null level is 50 and a given level is kept without range check |
| Admin.CreateSkillWellFormed | backend/src/routes/admin.py:310-311 | creating a skill keeps every table's keys distinct |
| Admin.MarkMessageRead | backend/src/routes/admin.py:342-354 | succeeds iff the message exists; that message becomes read and nothing else changes |
| Admin.MarkMessageReadCountsDown | backend/src/routes/admin.py:346-348 | marking a message read lowers the unread counter by one iff it was unread |
| Admin.MarkMessageReadWellFormed | backend/src/routes/admin.py:346-348 | marking a message read keeps every table's keys distinct |
| Admin.Handle | backend/src/routes/admin.py:51-354 | only logout touches the session, logout and the dashboard leave the database alone, and a failed handler changes nothing |
| Admin.Call | backend/src/routes/admin.py:12-18 | without `admin_id` in the session every gated call is answered 401 and its handler does not run |
| Admin.LoginOpensGate | backend/src/routes/admin.py:33-35 | after a successful login the gate lets calls through |
| Admin.LogoutClosesGate | backend/src/routes/admin.py:51-55 | after logout every gated call is answered 401 |
| Admin.CheckAuthImpliesGate | backend/src/routes/admin.py:57-61 | a session `check_auth` accepts also passes the gate |
| Admin.GateIgnoresDeactivation | backend/src/routes/admin.py:12-18 | a deactivated admin's session passes the gate while `check_auth` rejects it |
| Admin.MarkMessageReadIdempotent | backend/src/routes/admin.py:346-347 | marking a message read twice is the same as marking it once |
| Admin.MarkMessageReadFrame | backend/src/routes/admin.py:346-348 | every other message keeps every field |
| Admin.EmptyTechnologiesOnCreate | backend/src/routes/admin.py:215-216 | an empty technologies list on create leaves the column NULL |
| Admin.EmptyTechnologiesOnUpdate | backend/src/routes/admin.py:247-248 | an empty technologies list on update is stored as "[]" |
| Admin.CreateSkillAnyLevel | backend/src/routes/admin.py:305 | a level of 250 is accepted and stored |
| Seed.InfoRow | backend/src/main.py:44-53 | the seeded personal info has key 1, the default name and e-mail, and the long summary |
| Seed.SeedProject | backend/src/main.py:99-103 | a seeded project carries its literal title, subtitle, descriptions, URLs, status, flag and order index, no image URL, and its getters return the literal lists |
| Seed.ProjectRows | backend/src/main.py:56-103 | the seeded projects get keys 1..n, keep their order and flags, and read back their lists |
| Seed.SkillRows | backend/src/main.py:106-123 | the seeded skills get keys 1..n, no description and the default order index |
| Seed.LanguageRows | backend/src/main.py:126-134 | the seeded languages get keys 1..n and their literal fields |
| Seed.SeedIfEmpty | backend/src/main.py:44-56 | a content table is replaced by its seed rows iff it is empty |
| Seed.InitDefaultData | backend/src/main.py:30-136 | each content table is seeded iff empty and left alone otherwise; the admin is added iff none is named "admin"; the run fails, writing nothing, iff that insert clashes on the e-mail |
| Seed.SeedIdempotent | backend/src/main.py:30-136 | a second run inserts nothing, whatever hash it would use |
| Seed.SeedWellFormed | backend/src/main.py:34-41 | seeding keeps keys distinct and admin usernames and e-mails unique |
| Seed.MainSeedsShape | backend/src/main.py:57-134 | three projects, all featured, ordered 1, 2, 3; eleven skills; two languages ordered 1, 2 |
| Seed.PublicInfoBeforeAndAfterSeed | backend/src/main.py:44-51 | before seeding the public endpoint answers its built-in record; afterwards the seeded row, whose summary differs |

## Left out

- `serve` and the static-file fallback (backend/src/main.py:142-156): this is filesystem I/O.
- The secret key, CORS, blueprint prefixes, the database URI and `app.run`: these are configuration.
- `src.routes.user` is not part of this model.
- Page bodies of Home, About, Projects, Skills and CV: hardcoded content and animation.
- The contact page's static contact and social lists.
- The admin listing handlers and `delete_project`: read-only listings and a plain delete. None of the modelled properties reads them.
- The admin `get_personal_info`, which inserts the default row on first read: also left out.
- The public `get_project`, `get_experience`, `get_education` and `get_languages`: read-only listings.
- Sorting of listings: the model lists rows in creation order. The code sorts the featured projects by `order_index`, all projects by `order_index` then `created_at` descending, and skills by category then `order_index` before grouping them, so its groups come in category order with each group in `order_index` order. The model keeps first-appearance order of categories and creation order within a group. Only the newest-first order of the dashboard's recent messages is modelled (`Admin.Newest`), as the reverse of creation order.
- `created_at`, `updated_at` and `last_login`: clock columns, never read by the modelled logic.
- Password hashing: `generate_password_hash` is replaced by a hash parameter and `check_password_hash` by a function parameter. Salting and hash formats are left out.
- The response JSON envelope (`success`, `message`) and the transport: a reply is reduced to a status and a payload.
- The `console.log` of the form data is returned as a value instead of printed.
- `framer-motion` animation, Tailwind classes and icons: cosmetic.
- React Router's case-insensitive and trailing-slash matching: paths are matched exactly.
- The browser's `type="email"` format check on the contact form: only the `required` check is modelled.
- JsonList.Loads: covers only arrays of strings. It accepts every JSON escape and joins an escaped surrogate pair into one character. A surrogate half outside such a pair fails, where Python keeps the lone half. Any other JSON value decodes as failure, so the model reads it back as `[]`; Python's `json.loads` would return the decoded value instead. Raw control characters inside literals are rejected, as by Python's strict decoder.
- Admin.StoredList: a stored value that is not a list of strings reads back as `[]` in the model, because decoding covers lists of strings only (see the JsonList.Loads line). Python's getter would return the decoded value.
- Http.StrCell: a JSON value of the wrong type for a column is modelled as a failed commit (500). SQLite would store a number in a text column.
- Http.TextCell: the same for a nullable text column. A number or boolean sent for it is modelled as a failed commit, where SQLite would store it.
- Http.BoolCell: a non-boolean value is modelled as a failed commit. SQLAlchemy also accepts the integers 0 and 1 for a boolean column.
- Http.IntCell: a non-integer value is modelled as a failed commit. SQLite would store text or a float in an integer column.
- Admin.Login: a truthy username that is not a string never matches, so the model answers 401. In the code a list or object fails to bind in the query (500), and a number is compared against the text column by SQLite's type affinity and can match a numeric username.
- Http.JVal, PublicApi.SubmitContact: a request body is always a JSON object, and JSON objects do not occur as values. In the code a body that is a list or a string makes every `key in data` false, so `submit_contact` answers 400; a number body answers 500; in the admin handlers `data.get` on a list or string body raises and answers 500. An object value such as `"technologies": {...}`, which `json.dumps` would store, cannot be expressed either.
- PublicApi.SubmitContact: a non-string value for one of the four keys is answered 500 under the same simplification.
- PublicApi.Lower: lower-cases ASCII letters only. Python's `str.lower` also folds letters outside ASCII, and that folding is not modelled.
- Navigation.Render: the `motion.div` layout animation and the exit transition of the mobile list are left out.
