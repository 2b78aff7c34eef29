# HR front end: session, request wrapper, routing and list-page rules

A Dafny model of the logic inside the React front end of a small HR
application (employees, projects, assignments). The model covers:

- the two-slot session store (`accessToken`, `refreshToken`) that login writes and logout clears;
- `authFetch`, the request wrapper. It attaches a bearer credential and, after a 401 answer, exchanges the refresh token once and retries once. It is written twice: once as the code's nested branches and once as an explicit four-phase machine, and the two are proved to agree;
- the route table;
- the side menu's selected key and its navigation;
- the start-up profile fetch that fills the user context;
- the employee, project and assignment pages: the URLs they build, what a response loads, the validation and guard rules of their handlers, and which actions each role sees.

Browser storage, `fetch`, JSON decoding, `alert`/`toast`/`message` and
`window.location` become values. The store is a record of two optional
strings. The network is an oracle: a function from the request (and attempt
number) to an answer, or a `Reply` value naming one answer. Notices are
sequences of events. The page a handler navigates to is an optional path.
Dates are integer day numbers; a date that cannot be read is `None`.

One module per source file: `Common` (optional values, JavaScript truthiness,
roles, the user profile), `Session`, `Text` (`String.prototype.trim`),
`Urls` (decimal integers and query strings), `AuthFetch`, `Login`, `Header`,
`Routes`, `Sidebar`, `App`, `Employees`, `Projects`, `Assignments`.

When the refresh `fetch` rejects, or its OK body fails to decode, the error
propagates out of `authFetch` with both storage items left in place, no
alert and no navigation; `AuthFetch.AfterRefresh` states this.

## Model

| member | source | states |
|---|---|---|
| Session.Clear | src/components/Header.tsx:20-21 | removing both items leaves no access token and no refresh token, so the routes treat the user as signed out |
| AuthFetch.AuthorizationValue | src/utils/authFetch.ts:11 | the header value is empty exactly when no truthy token is stored; otherwise it is `Bearer ` followed by exactly the token |
| AuthFetch.TargetRequest | src/utils/authFetch.ts:7-14 | the caller's URL, method and body are kept; the header names are the caller's plus `Authorization` and `Content-Type`; those two take the wrapper's values; every other caller header keeps its value |
| AuthFetch.Expire | src/utils/authFetch.ts:34-47 | a refused refresh empties the store, appends the expiry notice once, opens `/login` and throws the session-expired error |
| AuthFetch.ExpiredSessionIsSignedOut | src/utils/authFetch.ts:34-47 | after an expiry the opened page renders the login form, no path renders the protected page for the emptied store, and the finished call makes no further move |
| AuthFetch.Renewed | src/utils/authFetch.ts:28-32 | the new access token is stored; the refresh token is replaced only when a truthy one came; the result is a complete session whenever a refresh token was stored before |
| AuthFetch.Step | src/utils/authFetch.ts:16-47 | each move makes exactly one network call and lowers the phase rank; a finished state is a fixed point; refreshing is entered only from the start with a truthy stored refresh token; retrying holds the newly stored access token; the store changes only while refreshing, and then to empty or to an authenticated store, a complete one when a refresh token was stored |
| AuthFetch.Run | src/utils/authFetch.ts:3-51 | with fuel at least the rank the machine finishes; calls are only appended, at most rank many |
| AuthFetch.RefreshCallCounts | src/utils/authFetch.ts:19-33 | the refresh exchange makes exactly one refresh call and at most one more target request |
| AuthFetch.AfterRefresh | src/utils/authFetch.ts:19-47 | for each refresh answer: rejected, or OK but undecodable, the call throws with store, alerts and page untouched; non-OK or no access token, the store is emptied and `/login` opened; otherwise the store is renewed, one retry carries the new token, and its response is returned |
| AuthFetch.AuthFetch | src/utils/authFetch.ts:3-51 | one to three calls; the first carries the stored token. A refresh happens exactly when the first answer is 401 and a refresh token is stored, at most once, with at most two target requests. Without a refresh the response passes through and store, alerts and page are untouched. The store ends unchanged, empty, or complete after a retry, so the call never writes a partial session. The call throws session-expired exactly when it opens `/login`, and then the store is empty and the notice shown once; without navigation no alert is shown |
| AuthFetch.RefreshingMatchesAfterRefresh | src/utils/authFetch.ts:19-47 | from the refreshing phase, the machine's two remaining moves reach the state the nested refresh branch reaches |
| AuthFetch.RunMatchesAuthFetch | src/utils/authFetch.ts:3-51 | three moves of the machine from the start reach the same final state as the nested-branch definition |
| AuthFetch.RunSettles | src/utils/authFetch.ts:3-51 | fuel beyond the rank changes nothing: the machine has no cycle |
| AuthFetch.NoRefreshLoop | src/utils/authFetch.ts:18-48 | any fuel of three or more yields the code's final state, so a second 401 never triggers another refresh |
| AuthFetch.BackToBackCallsAreIndependent | src/utils/authFetch.ts:16-50 | against a server that never answers 401, two consecutive calls each send one request with the same credential, return its response and leave the store as found |
| AuthFetch.RefreshScenario | src/utils/authFetch.ts:18-33 | with A1/R1 stored, a 401, and a refresh answering A2/R2, the store ends as A2/R2 and the retried request carries `Bearer A2` |
| Login.Accepted | src/pages/Login.tsx:34-41 | the one condition under which the session is written: an OK status, a readable body with a `data` object, and both tokens truthy |
| Login.OnFinish | src/pages/Login.tsx:23-54 | the credentials are posted and loading ends off. Only an OK answer carrying both tokens writes the store: both tokens, error cleared, `/home` opened, success toast. Every other outcome leaves store and page, sets the error message and shows the error toast. The same handler appears in src/pages/Login/Login.tsx |
| Login.NoPartialSession | src/pages/Login.tsx:39-41 | a submission never writes one token without the other |
| Login.NotOkWritesNothing | src/pages/Login.tsx:34-37 | a non-OK status writes nothing, shows the error and stays on the page |
| Login.MissingTokenWritesNothing | src/pages/Login.tsx:39-47 | an OK answer lacking either token writes nothing and shows the error |
| Login.ErrorClearedBySuccess | src/pages/Login.tsx:25-53 | an earlier error does not survive a successful login, and loading ends off |
| Login.HomeIffWritten | src/pages/Login.tsx:39-43 | the page navigates home exactly when the answer carries both tokens |
| Header.HandleLogout | src/components/Header.tsx:10-23 | both items are removed and `/login` opened; a server request is sent exactly when a truthy token was stored, carrying `Bearer` and that token |
| Header.LogoutIgnoresServer | src/components/Header.tsx:13-18 | the server's answer, even a rejection, does not change the result |
| Header.LogoutIdempotent | src/components/Header.tsx:10-23 | logging out twice leaves what logging out once leaves, and the second time sends nothing |
| Header.AvatarInitial | src/components/Header.tsx:33 | one character: the first of a non-empty name, otherwise `U` |
| Routes.Resolve | src/routes/index.tsx:27-67 | `/login` always renders the login page; `/home` renders the home page exactly when a token is stored; `/` redirects home exactly when a token is stored; every redirect goes to `/login` or `/home` |
| Routes.UnauthenticatedNeverReachesHome | src/routes/index.tsx:43-55 | without a stored token no path renders the protected page |
| Routes.RedirectSettlesInOneHop | src/routes/index.tsx:43-67 | the target of every redirect renders a page |
| Routes.LandingPage | src/routes/index.tsx:29-67 | after at most one redirect, `/home` and `/` land on the home page when signed in, and every other path lands on the login page |
| Sidebar.RemoveFirstSlash | src/components/Sidebar.tsx:64 | the first slash is removed wherever it is; a string without one is unchanged |
| Sidebar.SelectedKey | src/components/Sidebar.tsx:64 | `/` selects dashboard; any other absolute path selects what follows its leading slash |
| Sidebar.Navigate | src/components/Sidebar.tsx:76-80 | dashboard opens `/home`; projects opens `/pm-projects` for a project manager; any other key opens `/` plus the key; the result is always an absolute path |
| Sidebar.SelectedKeyAfterNavigate | src/components/Sidebar.tsx:64-79 | for a non-empty key that navigates to `/` plus the key, the key selected on arrival is that key |
| Sidebar.MenuRoundTrip | src/components/Sidebar.tsx:64-86 | for every menu item other than dashboard (and projects for a project manager), the path the item navigates to selects that item again |
| Sidebar.MenuTargetsAreUnrouted | src/routes/index.tsx:27-67 | every menu item other than dashboard opens a path the route table does not list, so it redirects to `/login` whatever the store |
| Sidebar.DashboardAndPmProjectsLoseHighlight | src/components/Sidebar.tsx:64-86 | clicking dashboard selects `home`, and projects as a project manager selects `pm-projects`; neither names a menu item, so nothing is highlighted |
| Sidebar.EmptyKeyReturnsDashboard | src/components/Sidebar.tsx:64-79 | an empty key navigates to `/`, which selects dashboard |
| Text.TrimStart | src/App.tsx:25 | a suffix of the input; everything removed is white space; it does not start with white space |
| Text.TrimEnd | src/App.tsx:25 | a prefix of the input; everything removed is white space; it does not end with white space |
| Text.Trim | src/App.tsx:25 | a contiguous part of the input with white space at neither end, and only white space cut off before and after it |
| Text.TrimOfTrimmed | src/App.tsx:25 | a string without white space at its ends is its own trim |
| Text.TrimIdempotent | src/App.tsx:25 | trimming twice is trimming once |
| Text.TrimDropsTrailingSpace | src/App.tsx:25 | a run of white space after a trimmed word disappears |
| Text.TrimDropsLeadingSpace | src/App.tsx:25 | a run of white space before a trimmed word disappears |
| Text.AllSpaceTrimsToEmpty | src/App.tsx:25 | a string of white space only trims to the empty string |
| Text.SpaceTrimsToEmpty | src/App.tsx:25 | the lone joining space trims to the empty string |
| App.FullName | src/App.tsx:25 | a contiguous part of the joined name parts, with white space at neither end and only white space cut off around it |
| App.RoleOf | src/App.tsx:26 | never empty: a truthy role is kept, otherwise `Employee` |
| App.FetchUser | src/App.tsx:13-33 | a profile request is sent exactly when a token is stored, carrying that token. A user is set exactly when the answer is OK and has a `data` object. The user's fields are the trimmed full name, the defaulted role, and the profile's avatar, id and e-mail |
| App.StoredNameIsTrimmed | src/App.tsx:25-28 | the name put into the user context is its own trim |
| App.AvatarInitialOfFetchedUser | src/components/Header.tsx:33 | the header letter of a fetched user is `U` for an empty name and otherwise the name's first character, which is never white space because the name was trimmed |
| App.NoTokenNoUser | src/App.tsx:15-16 | without a stored token nothing is requested and no user is set, whatever the server would say |
| App.NamelessProfile | src/App.tsx:25 | a profile with neither name part, or empty ones, has the empty name |
| App.FirstNameOnly | src/App.tsx:25 | a first name alone is the whole name |
| App.LastNameOnly | src/App.tsx:25 | a last name alone is the whole name |
| App.TwoPartName | src/App.tsx:25 | two trimmed parts are joined by exactly one space |
| App.RoleDefaults | src/App.tsx:26 | the role is the default exactly when none or an empty one is given, or the default itself |
| Urls.NatToDecimal | src/pages/Employees/EmployeeList.tsx:65 | at least one decimal digit, with a leading zero only for zero |
| Urls.NatRoundTrip | src/pages/Employees/EmployeeList.tsx:65 | the digits of a natural number read back as that number |
| Urls.IntRoundTrip | src/pages/Projects/ProjectList.tsx:43-44 | every integer written into a URL, negative ones included, reads back as itself |
| Urls.Lookup | src/pages/Employees/EmployeeList.tsx:65-66 | a name is found exactly when some parameter has it, and what is found is that parameter's value |
| Urls.LookupAppend | src/pages/Employees/EmployeeList.tsx:65-66 | appending parameters does not change the value of a name already present, and exposes the new ones otherwise |
| Urls.PageQuery | src/pages/Employees/EmployeeList.tsx:65 | `page` reads back as the one-based page minus one, `size` as the size, and no other name is present |
| Urls.FirstPageQuery | src/pages/Projects/ProjectList.tsx:66 | the first page of ten is sent as `page=0` and `size=10` |
| Urls.FirstPageRender | src/pages/Projects/ProjectList.tsx:43 | the first page of ten renders as `?page=0&size=10` after any path |
| Employees.EmployeesUrl | src/pages/Employees/EmployeeList.tsx:61-83 | no request without a user. An administrator asks for the admin listing with `page` reading back as page minus one and `size` as size; `role` is present exactly when a truthy role is given, and then carries it; no other name is sent. Anyone else asks for their own record |
| Employees.AdminQuery | src/pages/Employees/EmployeeList.tsx:64-65 | `page` reads back as page minus one and `size` as size; `role` is present exactly when a truthy role filter is given, and carries it; no other name is present |
| Employees.FirstAdminPageUrl | src/pages/Employees/EmployeeList.tsx:65-99 | an administrator's first load requests `/employee/admin?page=0&size=10` |
| Employees.AdminLoaded | src/pages/Employees/EmployeeList.tsx:68-78 | an OK answer loads the content rows (none when missing), the requested page and size, and `totalElements` or zero; any other answer loads nothing |
| Employees.AdminPageMatchesRequest | src/pages/Employees/EmployeeList.tsx:65-78 | the page an OK answer loads is the one requested: the `page` sent reads back as the loaded page minus one, and `size` as its page size |
| Employees.OwnRecordLoaded | src/pages/Employees/EmployeeList.tsx:84-89 | an OK answer loads at most one row, exactly the record when present, on the fixed pagination one, ten, one |
| Employees.CanEdit | src/pages/Employees/EmployeeList.tsx:221-223 | the role editor and the edit button are offered exactly to an administrator; `DeleteGuards` relates it to deletion |
| Employees.CanDelete | src/pages/Employees/EmployeeList.tsx:278-281 | delete is offered exactly when the record is not an administrator and the viewer is an administrator or a different employee |
| Employees.DeleteGuards | src/pages/Employees/EmployeeList.tsx:220-281 | administrator records are never deletable; a non-administrator cannot delete their own record; without a viewer nothing is offered; an editor may delete exactly the non-administrator records |
| Employees.Insert | src/pages/Employees/EmployeeList.tsx:385-386 | inserting into a list sorted latest-start-first keeps it sorted and adds exactly that period |
| Employees.SortByStartDesc | src/pages/Employees/EmployeeList.tsx:385-386 | the sorted copy is ordered latest start first and is a permutation of the periods |
| Employees.PeriodColumn | src/pages/Employees/EmployeeList.tsx:382-392 | one date row per period |
| Employees.WorkloadColumn | src/pages/Employees/EmployeeList.tsx:393-400 | one workload row per period |
| Employees.ColumnsAgree | src/pages/Employees/EmployeeList.tsx:385-397 | row by row the two columns describe the same period of the record; dates descend; every period of the record appears in some row |
| Projects.ProjectsUrl | src/pages/Projects/ProjectList.tsx:39-44 | no request without a user; an administrator asks for the admin listing with `page` reading back as page minus one, `size` as size and no other name; anyone else asks for `/project/` plus their employee id, with no query |
| Projects.OwnProjectsPath | src/pages/Projects/ProjectList.tsx:44 | the path starts with the `/project/` prefix of the API host and has something after it; the round-trip lemma reads the employee id back from it |
| Projects.OwnProjectsPathRoundTrip | src/pages/Projects/ProjectList.tsx:44 | the employee id reads back from the path after the `/project/` prefix |
| Projects.OwnProjectsPathInjective | src/pages/Projects/ProjectList.tsx:44 | distinct employees request distinct paths |
| Projects.FetchProjects | src/pages/Projects/ProjectList.tsx:39-63 | nothing without a user; otherwise the request is recorded. A failure keeps rows and pagination and shows the error toast. An administrator's OK answer loads the page content, the requested page and size, and `totalElements` or zero. Anyone else's OK answer loads the array or nothing and keeps the pagination |
| Projects.LoadedPageMatchesRequest | src/pages/Projects/ProjectList.tsx:43-55 | the page an administrator's OK answer loads is the one requested: the `page` sent reads back as the loaded page minus one, and `size` as its page size |
| Projects.HandleEdit | src/pages/Projects/ProjectList.tsx:103-140 | without a truthy project id: the error toast and no request. Otherwise the update is sent; a failed update shows the error toast and changes nothing else. On OK the form closes, the success toast shows and the current admin page is refetched, keeping its page and size. A decoded refetch answer replaces the rows with its content (none when missing) and the total with `totalElements` or zero; a refetch that throws keeps rows and pagination and adds the failure toast after the success toast. Rows and pagination change only through a decoded refetch |
| Projects.EditRefetchesShownPage | src/pages/Projects/ProjectList.tsx:129-133 | after an administrator has loaded a page, a successful edit requests that same page again, and loads what fetching it again would load |
| Projects.FindByCode | src/pages/Projects/ProjectList.tsx:145 | nothing exactly when no row has the code; otherwise the first row with it |
| Projects.RemoveId | src/pages/Projects/ProjectList.tsx:157 | the rows kept are exactly those whose id is not the deleted one (rows without an id are kept), and never more |
| Projects.RemoveIdAppend | src/pages/Projects/ProjectList.tsx:157 | filtering distributes over concatenation, so the remaining rows keep their order |
| Projects.RemoveIdSingle | src/pages/Projects/ProjectList.tsx:157 | a single row is dropped exactly when it carries the id |
| Projects.RemoveIdAbsent | src/pages/Projects/ProjectList.tsx:157 | a list without the id is unchanged |
| Projects.HandleDelete | src/pages/Projects/ProjectList.tsx:142-165 | no row with the code, or no truthy id on the first one: the error toast and no request. Otherwise one delete request for that id. On OK every row with that id goes, including the one found, with the success toast; on failure rows are kept and the error toast shows |
| Projects.DeleteRemovesExactlyThatId | src/pages/Projects/ProjectList.tsx:145-157 | after a successful delete a row remains exactly when it was there and does not carry the deleted id |
| Projects.ValidateStartDate | src/pages/Projects/ProjectList.tsx:384-393 | a missing start or end date always passes; the only message it can give is the start-after-end message |
| Projects.ValidatorMatchesInterval | src/pages/Projects/ProjectList.tsx:384-393 | two given dates pass exactly when some day lies between them |
| Projects.ValidatorAgreesWithAssignments | src/pages/Projects/ProjectList.tsx:387-389 | the project form's validator and the assignment form's start-after-end check accept the same dates |
| Projects.ActionColumnFor | src/pages/Projects/ProjectList.tsx:272-295 | edit and delete exactly for an administrator; the periods viewer exactly for a signed-in user who is neither administrator nor project manager; no column otherwise |
| Projects.HasPeriodEditColumn | src/pages/Projects/ProjectList.tsx:302-311 | the period edit column exists exactly for a project manager |
| Projects.ProjectColumns | src/pages/Projects/ProjectList.tsx:265-295 | six fixed columns, plus `Action` exactly when the role has row actions |
| Projects.RolesActExclusively | src/pages/Projects/ProjectList.tsx:272-311 | each signed-in user gets exactly one of row actions and period editing; without a user neither; a project manager's table has no action column |
| Assignments.ValidProjects | src/pages/Assignments/AssignmentList.tsx:56-58 | a body that is not an array yields no projects; otherwise exactly the received projects that have an id |
| Assignments.KeepIdentified | src/pages/Assignments/AssignmentList.tsx:57 | exactly the projects whose id is neither null nor undefined, and never more |
| Assignments.KeepIdentifiedAppend | src/pages/Assignments/AssignmentList.tsx:57 | the filter distributes over concatenation, so kept projects stay in order |
| Assignments.FindProject | src/pages/Assignments/AssignmentList.tsx:101 | nothing exactly when no loaded project has the id; otherwise the first loaded project with that id |
| Assignments.FindProjectIgnoresUnidentified | src/pages/Assignments/AssignmentList.tsx:56-101 | dropping the projects without an id on arrival never changes which project an id selects |
| Assignments.PeriodsOverlap | src/pages/Assignments/AssignmentList.tsx:136-143 | the overlap rule as written, every bound inclusive; `OverlapIsSound`, `OverlapExactWhenBounded` and `OpenEndedRule` relate it to shared days |
| Assignments.Errors | src/pages/Assignments/AssignmentList.tsx:112-150 | at most four errors; each message is present exactly when its check fails, and there are none exactly when all four pass |
| Assignments.AnyOverlap | src/pages/Assignments/AssignmentList.tsx:131-144 | true exactly when some member row with the selected key has a period the rule calls overlapping |
| Assignments.HandleAssign | src/pages/Assignments/AssignmentList.tsx:98-151 | an unknown project stops with no request. Otherwise the request is posted exactly when all four checks pass. When blocked, each of the four messages is present exactly when its check fails. The posted body carries the form's values |
| Assignments.StartFieldShowsLastError | src/pages/Assignments/AssignmentList.tsx:112-129 | when both start-date checks fail, the field shows only the start-after-end message, because the later call replaces the earlier one |
| Assignments.OverlapIsSound | src/pages/Assignments/AssignmentList.tsx:136-143 | for well-formed periods, everything the rule flags shares a day |
| Assignments.OverlapExactWhenBounded | src/pages/Assignments/AssignmentList.tsx:140-143 | when the new period has an end date, every period sharing a day with it is flagged |
| Assignments.OpenEndedRule | src/pages/Assignments/AssignmentList.tsx:136-139 | an open new period is flagged exactly when a bounded existing period contains its start, or an open one starts on the same day; so an earlier open start, or two open periods with different starts, pass although they share days |
| Assignments.NumericSelectionMatchesNoCode | src/pages/Assignments/AssignmentList.tsx:131-132 | with string member codes and a numeric selected id, strict inequality never matches, so no overlap is ever found |
| Assignments.DuplicatePeriodSubmitted | src/pages/Assignments/AssignmentList.tsx:131-151 | an exact repeat of a member's period inside the project bounds is submitted when the selection is numeric |
| Assignments.SameKeyOverlapRejected | src/pages/Assignments/AssignmentList.tsx:131-150 | when the selection is keyed like the member rows, an overlapping period is blocked with the overlap message |

## Left out

- Real HTTP, JSON decoding and browser storage: they are abstracted as the oracle, the `Reply` value and the two-slot store.
- React state, effects, rendering, antd tables, forms and styling: only the values the handlers compute are modelled.
- Concurrency: overlapping `authFetch` calls that each refresh, the debounced search timers, and the `setTimeout` form filling. One call is modelled at a time.
- dayjs parsing and `DD-MM-YYYY` formatting: dates are day numbers. A project date that dayjs would read as "now" when missing is modelled as unreadable.
- Menu navigation in the running application: the route table lists only `/login`, `/home` and `/`, so every menu item other than dashboard redirects to `/login`, and the routed home page renders no side menu (only the unrouted `Home/Home.tsx` does). The highlight lemmas are about the menu's own key and path computation, not about a page that is reached.
- Header.AvatarInitial: the initial is the first character of the name, where `name?.[0]` takes the first UTF-16 code unit; for a name starting outside the Basic Multilingual Plane the source shows a lone high surrogate, which the model (strings of Unicode scalars) cannot represent.
- Assignments.AnyOverlap: member dates are taken as readable day numbers; a member date that dayjs cannot parse, for which every comparison would be false, is not modelled.
- AuthFetch.TargetRequest: header names are compared exactly; the case-insensitive merging `fetch` performs is not modelled.
- Routes.Resolve: paths are matched exactly; react-router's case-insensitive and trailing-slash matching is not modelled.
- Urls.Lookup: a query is a list of name/value pairs, so a value containing `&` or `=` (the role filter is not URL-encoded) is not re-split as a server would split it.
- Employees.SortByStartDesc: stability is not stated. Among periods with equal start dates the order is the input order, as `Array.prototype.sort` keeps it, but no lemma says so.
- Employees.AdminLoaded: the separate error-toast texts for the admin and single-record fetches are not modelled; a failure is one `Failed` value.
- Project creation (`handleAdd`), the participation-period viewer and editor (`handleViewPeriods`, `handleEditPeriodOk`) and the project-manager search (`handleSearchPM`): they build request bodies and load lists without guard logic of their own.
- The employee page's role change, delete, history and add/edit handlers: they only send requests and reload the list.
- The assignment page's member and employee-search fetches, and the handling of the assign request's answer: they only load lists or show a toast.
- The project-manager project page, the user-context glue, and the static home pages: they only fetch and display, or declare types.
- App.FetchUser: the `loading` flag it sets is never read, so it is not modelled; a profile `data` without an `employeeId` is not modelled, since the id is a number in the model.
