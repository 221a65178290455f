# Expense tracker: a verified model of the API and the dashboard's list logic

This project models the core of a small expense tracker. It is a web API with
user accounts and per-user expense records, and a browser dashboard that pages
through, filters, charts and exports those records. The model is in Dafny and
covers the following pieces.

- **The expense controller** (`ExpenseController`):
  - the list query with its owner, category and calendar-range match, newest-first sort and skip/limit paging;
  - the per-user summary aggregate;
  - create, update and delete on a mutable collection.
  The collection is the class `ExpenseStore`, and each operation checks ownership first.
- **The auth controller** (`AuthController`):
  - registration and profile update on a mutable user collection (the class `UserStore`);
  - login, as a pure lookup and password comparison.
  Each success answers with a fresh token.
- **The access guard `protect`** (`AuthMiddleware`). It reads the `Authorization` header and takes the token after `Bearer`. It then verifies the token and looks up its user. Finally it either rejects with one of four 401 messages, or attaches the user to the request and passes on.
- **The routers and their mount points** (`Routes`). Each route maps a (method, path) pair to a chain of steps, with the guard in front of every private handler.
- **The client's request interceptor** (`Api`). It writes the bearer header that the guard parses.
- **The dashboard** (`Dashboard`):
  - the query each fetch sends;
  - replacing and appending pages, and `hasMore`;
  - the list edits after a create, delete or update;
  - the search and quick filters;
  - the per-category chart data and its totals;
  - the CSV export.
  The dashboard's state is the class `DashboardState`.
- **End-to-end properties** (`Flows`). A registered user can log in. A login's token gets a request past the guard to the handler, with that user attached. The dashboard's query is read back by the list endpoint as the filters it shows. Loading page after page fills the dashboard with the matches in order, and with all of them once a short page arrives.

Supporting modules:
- `Common`: Option, the status-plus-body reply, and the by-id search both collections use.
- `Strings`: split, join, substring, ASCII lower case, decimal numerals.
- `Calendar`: the ECMAScript `Date` arithmetic of ECMA-262, section 21.4.1, with a civil-calendar reference to prove the query bounds against.
- `Crypto`: password hashing and JSON Web Tokens. Both are kept abstract; the signed claims and the expiry rule follow sections 4.1.4 and 4.1.6 of RFC 7519.

Dates are integer milliseconds since the epoch, in UTC. Amounts are integers.
The clock, the token secret, the signer, the hasher, and the date formatter of
the CSV export are all parameters.

## Model

| member | source | states |
|---|---|---|
| ExpenseController.Select | backend/controllers/expenseController.js:34 | `find(match)` keeps exactly the records satisfying the match, and never more records than it was given |
| ExpenseController.SortNewestFirst | backend/controllers/expenseController.js:35 | `.sort({ date: -1 })` is a permutation of its input |
| ExpenseController.SortSorted | backend/controllers/expenseController.js:35 | the sort's output is ordered newest first |
| ExpenseController.SortedMembers | backend/controllers/expenseController.js:35 | sorting keeps exactly the records it was given |
| ExpenseController.FindNewestFirst | backend/controllers/expenseController.js:34-35 | the matching records, exactly, newest first, as many as the unsorted selection |
| ExpenseController.Window | backend/controllers/expenseController.js:36-37 | `.skip(n).limit(l)` has `min(l, remaining)` elements, each the element at `n + k` |
| ExpenseController.WindowOfSorted | backend/controllers/expenseController.js:34-37 | a window of a newest-first list is newest first and holds only the list's elements |
| ExpenseController.AdjacentWindowsDisjoint | backend/controllers/expenseController.js:32-37 | adjacent windows of a list without repeats share no element |
| ExpenseController.ShortWindowIsLast | backend/controllers/expenseController.js:36-37 | a window shorter than the limit is followed by an empty one |
| ExpenseController.WindowsCover | backend/controllers/expenseController.js:32-37 | every element lies in some window starting at a multiple of the limit |
| ExpenseController.DateBoundsMonth | backend/controllers/expenseController.js:19-22 | the bounds for a year and a 1-based month are the first and last instant of that civil month, the month end found as day 0 of the next month (December included) |
| ExpenseController.DateBoundsYear | backend/controllers/expenseController.js:23-25 | the bounds for a year alone run from January 1 00:00 to December 31 23:59:59.999 |
| ExpenseController.DateConditionMonth | backend/controllers/expenseController.js:19-27 | the inclusive date condition holds exactly for the instants of that civil month |
| ExpenseController.DateConditionYear | backend/controllers/expenseController.js:23-27 | the inclusive date condition holds exactly for the instants of that civil year |
| ExpenseController.MatchMeaning | backend/controllers/expenseController.js:9-28 | a record matches exactly when it is the caller's, of the given category when one is given, and in the given month or year |
| ExpenseController.MonthIgnoredWithoutYear | backend/controllers/expenseController.js:15-19 | a month given without a year leaves the match unchanged |
| ExpenseController.GetExpenses | backend/controllers/expenseController.js:7-39 | status 200; newest first, all the caller's matches; exactly `min(limit, remaining)` records, where `limit` is the one asked for or the default of 10 and `remaining` is the number of matches from `(page - 1) * limit` on; the k-th is the match at `(page - 1) * limit + k` |
| ExpenseController.ListedAreCallers | backend/controllers/expenseController.js:9-13 | every listed record belongs to the caller and has the requested category |
| ExpenseController.NextStart | backend/controllers/expenseController.js:30-32 | the next page starts one limit further on |
| ExpenseController.ConsecutivePagesDisjoint | backend/controllers/expenseController.js:30-37 | with unique ids, consecutive pages share no record |
| ExpenseController.ShortPageIsLast | backend/controllers/expenseController.js:30-37 | after a page shorter than the limit, the next page is empty |
| ExpenseController.PageStart | backend/controllers/expenseController.js:30-32 | page n + 1 starts after n full pages, for a limit given or defaulted to 10 |
| ExpenseController.EveryMatchIsPaged | backend/controllers/expenseController.js:30-37 | every matching record is on some page of the same query, whether its limit is given or the default |
| ExpenseController.GroupAll | backend/controllers/expenseController.js:55-59 | the `$group` stage yields one group for a non-empty input and none for an empty one |
| ExpenseController.GroupAllTotals | backend/controllers/expenseController.js:55-59 | that group holds the sum of the amounts and the count |
| ExpenseController.GetExpenseSummary | backend/controllers/expenseController.js:48-73 | status 200 with the total and the count of all the caller's records, ignoring the list filters; {0, 0} when there are none |
| ExpenseController.SummaryAfterAppend | backend/controllers/expenseController.js:48-73 | a new record changes its owner's summary by its amount and by one, and no other user's |
| ExpenseController.PageWithinSummary | backend/controllers/expenseController.js:34-37 | no page holds more records than the summary counts |
| ExpenseController.CreatedOwnerIsCaller | backend/controllers/expenseController.js:90-96 | the created record's owner is the caller; its date is the body's, or the store's default (the current time) when absent |
| Common.FindById | backend/controllers/expenseController.js:109 | `findById` gives the position of the first document with that id, or none exactly when no document has it |
| ExpenseController.FindIndex | backend/controllers/expenseController.js:109 | `findById` finds the position of the record with that id, or reports that none has it (the shared `Common.FindById` over expenses) |
| ExpenseController.RemoveAtContents | backend/controllers/expenseController.js:158 | with unique ids, removal keeps every other record and only those, one fewer |
| ExpenseController.RemoveAtIsolated | backend/controllers/expenseController.js:158 | removing one user's record leaves another user's records as they were |
| ExpenseController.RemoveAtIsolatedAll | backend/controllers/expenseController.js:158 | the same, for every other user at once |
| ExpenseController.RemoveAtKeepsIds | backend/controllers/expenseController.js:158 | removal keeps the ids unique and below the store's next id |
| ExpenseController.ExpenseStore.SetExpense | backend/controllers/expenseController.js:82-98 | a missing or falsy title, amount (0 included) or category gives 400 and changes nothing; otherwise exactly one record with a fresh id is appended and 201 returns it |
| ExpenseController.ExpenseStore.UpdateExpense | backend/controllers/expenseController.js:107-131 | an unknown id gives 404 (before the user checks), no user gives 401 "User not found", a non-owner 401 "User not authorized", with the store unchanged; the owner's request on an existing record always succeeds, writes the patch into that one record and 200 returns it |
| ExpenseController.ExpenseStore.DeleteExpense | backend/controllers/expenseController.js:140-160 | the same 404 and 401 outcomes with the store unchanged; the owner's request on an existing record always succeeds, removes exactly that record, leaves every other user's records as they were, and returns {id, 'Expense deleted'} |
| AuthController.FindByEmail | backend/controllers/authController.js:63 | `findOne({ email })` finds the first user with that email, or reports that none has it |
| AuthController.FindUserById | backend/controllers/authController.js:93 | `findById` finds the user with that id, or reports that none has it (the shared `Common.FindById` over users) |
| AuthController.Respond | backend/controllers/authController.js:75-80 | the success body carries the user's id, name and email |
| AuthController.RespondTokenVerifies | backend/controllers/authController.js:4-8 | the body's token verifies to that user's id until 30 days less a second after issue, and is expired from 30 days on |
| AuthController.LoginUser | backend/controllers/authController.js:54-86 | 400 when either field is empty; with both fields given, every failure is the one 401 "Invalid email or password"; success exactly when the email is found and the password compares, answering 200 for that user |
| AuthController.LoginFailuresIndistinguishable | backend/controllers/authController.js:65-73 | an unknown email and a wrong password get the identical 401 |
| AuthController.LoginSucceedsIff | backend/controllers/authController.js:63-80 | with collision-free hashing, login succeeds exactly for the registered password, answering for that user |
| AuthController.UpdatedUser | backend/controllers/authController.js:96-100 | the name changes only to a truthy new name, the password only to the hash of a truthy new one, and the id and email never change |
| AuthController.UserStore.RegisterUser | backend/controllers/authController.js:13-44 | 400 for a missing field, and 400 "User already exists with this email" for a taken email, each with the store unchanged; otherwise exactly one user with a fresh id and the hashed password is appended, and 201 answers for it with a token |
| AuthController.UserStore.UpdateUser | backend/controllers/authController.js:91-112 | 404 with the store unchanged when the id no longer resolves; otherwise only that user is rewritten and 200 answers with a fresh token |
| AuthMiddleware.WithoutPassword | backend/middleware/authMiddleware.js:20 | `.select('-password')` keeps the id, name and email |
| AuthMiddleware.LookupIn | backend/middleware/authMiddleware.js:20 | the lookup over the user collection finds the user with the id, without the password, and never fails |
| AuthMiddleware.ExtractToken | backend/middleware/authMiddleware.js:7-14 | a token exactly when the header starts with `Bearer` and its second space-separated field is non-empty, and then it is that field, which holds no space |
| AuthMiddleware.ExtractBearer | backend/middleware/authMiddleware.js:7-10 | `Bearer <token>` yields exactly that token, for any non-empty token without spaces |
| AuthMiddleware.NoTokenHeaders | backend/middleware/authMiddleware.js:10-14 | `Bearer`, `Bearerxyz`, `Bearer  x` and `bearer x` carry no token |
| AuthMiddleware.Decide | backend/middleware/authMiddleware.js:4-37 | every rejection is a 401; no token gives "no token provided"; it proceeds exactly when the token verifies and its user is found, with that user |
| AuthMiddleware.RejectionMessages | backend/middleware/authMiddleware.js:17-32 | an expired token gives "token expired"; any other verification failure, and a failing lookup, give "invalid token"; a missing user gives "user no longer exists" |
| AuthMiddleware.Request.Protect | backend/middleware/authMiddleware.js:4-37 | the outcome is the decision's; `next` is called exactly when it proceeds, and `req.user` is then the user; a missing user leaves `req.user` empty, and every other rejection leaves it unchanged |
| Routes.FirstMatchAt | backend/routes/expenseRoutes.js:12-14 | the position of a route matching both the method and the path with no earlier route matching both, or none exactly when no route matches both |
| Routes.FirstMatch | backend/routes/expenseRoutes.js:12-14 | the route at `FirstMatchAt`'s position, that is the first registered route matching both the method and the path, or none exactly when no route matches both |
| Routes.Dispatch | backend/server.js:22-23 | a request the routers claim runs the chain of one of their routes |
| Routes.Execute | backend/routes/expenseRoutes.js:12-14 | a chain that runs a handler runs one of its own handlers |
| Routes.MountsApart | backend/server.js:22-23 | no path under the expense mount is under the auth mount |
| Routes.ExpensesDispatch | backend/server.js:23 | a path under `/api/expenses` goes to the expense router as the rest of the path |
| Routes.AuthDispatch | backend/server.js:22 | a path under `/api/auth` goes to the auth router as the rest of the path |
| Routes.ExpenseRoutesGuarded | backend/routes/expenseRoutes.js:12-14 | every expense route is the guard followed by an expense handler |
| Routes.AuthRoutesGuarding | backend/routes/authRoutes.js:6-8 | update is guarded; the unguarded routes are register and login |
| Routes.GuardedHandlersSeeUser | backend/routes/expenseRoutes.js:12-14 | for any request, an expense handler or the profile update runs only when the guard proceeded, and it sees the guard's user |
| Routes.LiteralRouter | backend/routes/expenseRoutes.js:12-13 | within the expense router, `/summary` answers GET, and `/` answers GET and POST |
| Routes.SummaryRoute | backend/routes/expenseRoutes.js:12 | `GET /api/expenses/summary` (with or without a trailing slash) runs the guard, then the summary |
| Routes.CollectionRoutes | backend/routes/expenseRoutes.js:13 | `GET` and `POST /api/expenses` (with or without the slash) run the guard, then list or create |
| Routes.IdSegment | backend/routes/expenseRoutes.js:14 | `/:id` matches any one non-empty segment |
| Routes.IdRouter | backend/routes/expenseRoutes.js:12-14 | DELETE and PUT of a one-segment path skip the literal routes and reach the `/:id` routes |
| Routes.DeleteRoute | backend/routes/expenseRoutes.js:14 | `DELETE /api/expenses/<id>` runs the guard, then delete, for every id (`summary` included) |
| Routes.UpdateRoute | backend/routes/expenseRoutes.js:14 | `PUT /api/expenses/<id>` runs the guard, then update, for every id |
| Routes.AuthRouter | backend/routes/authRoutes.js:6-8 | within the auth router, register and login answer POST, update answers PUT, and nothing answers `GET /login` |
| Routes.AuthRouteTable | backend/routes/authRoutes.js:6-8 | register and login under `/api/auth` are unguarded, and update runs the guard first |
| Api.BearerHeader | frontend/src/services/api.js:17 | the header is `Bearer`, one space, then the token unchanged |
| Api.BearerRoundTrip | frontend/src/services/api.js:16-17 | the guard's extraction recovers exactly the token from the built header |
| Api.RequestConfig.Intercept | frontend/src/services/api.js:12-21 | with a stored token, only `headers.Authorization` is set, to the bearer header; without one, nothing changes |
| Crypto.CompareHashed | backend/controllers/authController.js:69 | with collision-free hashing, a candidate compares equal exactly when it is the hashed password |
| Crypto.IssuedClaimsExpireIn30Days | backend/controllers/authController.js:4-8 | the signed claims name the user, and `exp` is 2592000 seconds after `iat`, which is the current second |
| Crypto.VerifyIssued | backend/middleware/authMiddleware.js:17 | an issued token verifies to its id while the clock's second is before `exp`, and is expired from then on |
| Crypto.TokenLifetime | backend/controllers/authController.js:4-8 | in milliseconds: valid until 30 days less one second after issue, and expired from 30 days on |
| Crypto.ForeignSecretInvalid | backend/middleware/authMiddleware.js:17 | a token signed under another secret is invalid |
| Crypto.TokenShape | backend/controllers/authController.js:4-8 | issued tokens are non-empty and contain no space |
| Calendar.MonthLength | backend/controllers/expenseController.js:22 | months have 28 to 31 days: 29 exactly for a leap February, 30 exactly for April, June, September and November |
| Calendar.DayZeroOfNextMonth | backend/controllers/expenseController.js:22 | day 0 of the next month is the last day of this month, December included |
| Calendar.MonthQueryStart | backend/controllers/expenseController.js:21 | `new Date(year, m - 1, 1)` is the first instant of the civil month |
| Calendar.MonthQueryEnd | backend/controllers/expenseController.js:22 | `new Date(year, m, 0, 23, 59, 59, 999)` is the last instant of the civil month |
| Calendar.YearQueryStart | backend/controllers/expenseController.js:24 | `new Date(year, 0, 1)` is the first instant of the civil year |
| Calendar.YearQueryEnd | backend/controllers/expenseController.js:25 | `new Date(year, 11, 31, 23, 59, 59, 999)` is the last instant before the next year |
| Calendar.FullYear | backend/controllers/expenseController.js:21 | the `Date` constructor reads years 0 to 99 as 1900 to 1999 |
| Strings.SplitJoin | backend/middleware/authMiddleware.js:10 | splitting a join of space-free fields on the separator gives the fields back |
| Strings.JoinSplit | backend/middleware/authMiddleware.js:10 | joining the split fields gives the string back |
| Strings.IncludesIffOccurs | frontend/src/pages/Dashboard.jsx:126 | `includes` holds exactly when the text occurs at some position |
| Strings.ToLowerAscii | frontend/src/pages/Dashboard.jsx:126 | `toLowerCase` maps each ASCII capital to its small letter and keeps every other character |
| Strings.ParseNatToDecimal | backend/controllers/expenseController.js:16 | `parseInt` reads a number's decimal `toString` back as the number |
| Dashboard.GetParam | frontend/src/pages/Dashboard.jsx:27-34 | a value appended under the key with no earlier parameter under that key, that is the first one, or none exactly when none was appended |
| Dashboard.FetchParamsValues | frontend/src/pages/Dashboard.jsx:27-32 | each filter is sent exactly when it is not 'All'; the page number and a limit of 10 are always sent |
| Dashboard.FetchParamsDistinct | frontend/src/pages/Dashboard.jsx:27-32 | no key is sent twice |
| Dashboard.DashboardState.constructor | frontend/src/pages/Dashboard.jsx:7-17 | the initial state: an empty list, page 1, more expected, the filters at 'All' except the current year |
| Dashboard.DashboardState.ReceivePage | frontend/src/pages/Dashboard.jsx:36-42 | page 1 replaces the list, and a later page is appended after it; more is expected exactly when 10 items came back |
| Dashboard.DashboardState.Refresh | frontend/src/pages/Dashboard.jsx:20-23 | a filter change goes back to page 1, sends page 1 of the current filters, and replaces the list with the answer |
| Dashboard.DashboardState.LoadMore | frontend/src/pages/Dashboard.jsx:48-52 | the page advances by one, that page of the current filters is requested, and its answer is appended |
| Dashboard.DashboardState.AddExpense | frontend/src/pages/Dashboard.jsx:63 | the created record is put first; the filters, the search, the quick filter, the page and `hasMore` stay as they were |
| Dashboard.DashboardState.DeleteExpense | frontend/src/pages/Dashboard.jsx:73 | the list becomes the list without that id; the filters, the search, the quick filter, the page and `hasMore` stay as they were |
| Dashboard.DashboardState.UpdateExpense | frontend/src/pages/Dashboard.jsx:94 | every item with the returned record's id is replaced by that record; the filters, the search, the quick filter, the page and `hasMore` stay as they were |
| Dashboard.DashboardState.ApplyQuickFilter | frontend/src/pages/Dashboard.jsx:138-150 | 'This Month' selects the current month and year, 'This Year' all months of the current year, and 'This Week' and 'All' lift both date filters; nothing else changes |
| Dashboard.Keep | frontend/src/pages/Dashboard.jsx:125-136 | `filter` gives an order-preserving sublist holding each passing element as often as before, and nothing else; the list is unchanged when every element passes |
| Dashboard.WithoutUniqueId | frontend/src/pages/Dashboard.jsx:73 | with unique ids, the client's delete drops exactly the one record at that position, as the server's delete does |
| Dashboard.ReplacedInPlace | frontend/src/pages/Dashboard.jsx:94 | with unique ids, the update rewrites just the one record with that id, in place, and the ids stay unique |
| Dashboard.ReplacedAbsent | frontend/src/pages/Dashboard.jsx:94 | an update for an id not in the list leaves the list as it was |
| Dashboard.FilteredEverything | frontend/src/pages/Dashboard.jsx:125-136 | with an empty search and no week filter the whole list is shown |
| Dashboard.SearchIgnoresCase | frontend/src/pages/Dashboard.jsx:126 | the search does not depend on the case of the query |
| Dashboard.WeekFilter | frontend/src/pages/Dashboard.jsx:129-133 | under 'This Week', a record of the last seven days is shown exactly when its title matches, and an older one never is |
| Dashboard.Categories | frontend/src/pages/Dashboard.jsx:156-164 | the categories of a list, each once, every record's among them, and each one some record's |
| Dashboard.CategoryData | frontend/src/pages/Dashboard.jsx:156-164 | the reduce builds one slice per category, in order of first appearance, worth that category's total |
| Dashboard.SlicesGrow | frontend/src/pages/Dashboard.jsx:157-159 | a record of an already charted category adds its amount to that slice and to no other |
| Dashboard.SlicesExtend | frontend/src/pages/Dashboard.jsx:160-162 | a record of a new category appends a slice worth its amount |
| Dashboard.CategoriesAddUp | frontend/src/pages/Dashboard.jsx:153-164 | the category totals add up to `totalExpenses`, the sum of all the amounts |
| Dashboard.SlicesAddUp | frontend/src/pages/Dashboard.jsx:153-164 | the chart's values add up to `totalExpenses` |
| Dashboard.CategoriesPrefix | frontend/src/pages/Dashboard.jsx:156-164 | more records never reorder or drop a category |
| Dashboard.Escape | frontend/src/pages/Dashboard.jsx:106 | doubling the quotes keeps every other character |
| Dashboard.QuoteRoundTrip | frontend/src/pages/Dashboard.jsx:106 | the quoted title reads back, as a quoted field of section 2 of RFC 4180, as the original title, commas and quotes included |
| Dashboard.RowTitle | frontend/src/pages/Dashboard.jsx:106-108 | a row's first field reads back as the title, followed by the category, the amount and the date |
| Dashboard.ExportCsv | frontend/src/pages/Dashboard.jsx:101-111 | nothing for an empty list; otherwise the header and one row per record, joined by newlines |
| Dashboard.CsvLinesRoundTrip | frontend/src/pages/Dashboard.jsx:104-111 | with no newline in the fields, the text splits back into the header and exactly one line per record |
| Flows.RegisteredUserLogsIn | backend/controllers/authController.js:29-80 | after registration appends a user, logging in with the same email and password answers 200 for that user |
| Flows.LookupOwnId | backend/middleware/authMiddleware.js:20 | with unique ids, a stored user's id resolves to that user, without the password |
| Flows.IssuedTokenPassesGuard | backend/middleware/authMiddleware.js:4-26 | a stored user's token, in the interceptor's header, lets the guard through for that user for 30 days less a second, and is rejected as expired from 30 days on |
| Flows.LoginTokenPassesGuard | backend/controllers/authController.js:75-80 | a successful login answers for a stored user with that email, and its token passes the guard for that user |
| Flows.GuardedRouteSeesUser | backend/routes/expenseRoutes.js:12-14 | a guarded route, run with a live token of a stored user, reaches its handler, which sees that user |
| Flows.LoggedInDeleteReachesHandler | backend/routes/expenseRoutes.js:14 | right after a login, `DELETE /api/expenses/<id>` with its token reaches delete with the logged-in user |
| Flows.NoHeaderStopsAtGuard | backend/middleware/authMiddleware.js:34-36 | without a header, the guard rejects with "no token provided" and no guarded handler runs |
| Flows.QueryReadBack | frontend/src/pages/Dashboard.jsx:27-32 | the list endpoint reads the page number and the limit of 10 back exactly, reads the category when it is not 'All', and sees no year or month left at 'All' |
| Flows.PagesShareQuery | frontend/src/pages/Dashboard.jsx:27-32 | the fetches for different pages differ only in the page the endpoint reads |
| Flows.DatedQuery | frontend/src/pages/Dashboard.jsx:29-30 | a year and month sent as numerals are read back as those numbers |
| Flows.ThisMonthQuery | frontend/src/pages/Dashboard.jsx:140-142 | after 'This Month', the endpoint returns exactly the caller's records of the current civil month (and of the chosen category) |
| Flows.ThisYearQuery | frontend/src/pages/Dashboard.jsx:143-145 | after 'This Year', the endpoint returns exactly the caller's records of the current civil year |
| Flows.WindowsJoin | frontend/src/pages/Dashboard.jsx:39 | appending the next window to the first windows gives the longer first window |
| Flows.ShortWindowEnds | frontend/src/pages/Dashboard.jsx:42 | once a window comes back short, the windows so far are the whole list |
| Flows.PageIsWindow | backend/controllers/expenseController.js:30-37 | page n + 1 of the query is the window of the matches after n full pages, for a limit given or defaulted to 10 |
| Flows.FirstWindow | backend/controllers/expenseController.js:30-37 | page 1 of a query with a positive limit is its first window |
| Flows.AnswerIsWindow | frontend/src/pages/Dashboard.jsx:25-34 | the endpoint's answer to the dashboard's page i + 1 is the window of the matches after i full pages |
| Flows.FirstAnswer | frontend/src/pages/Dashboard.jsx:20-23 | its answer to page 1 is the first window of the matches |
| Flows.FirstPage | frontend/src/pages/Dashboard.jsx:20-42 | after a refresh, the dashboard holds the first page of the matches of its own filters |
| Flows.NextPage | frontend/src/pages/Dashboard.jsx:48-52 | load more, answered by the endpoint, shows one page more of the same matches |
| Flows.Browse | frontend/src/pages/Dashboard.jsx:36-52 | after a refresh and n - 1 loads, the dashboard holds the first n pages of the matches, in order; once it expects no more, it holds all of them |

## Left out

- **I/O and asynchrony.** Requests are atomic steps and every await is one call. The database, `localStorage`, the network and `axios` are left out. So are stale or reordered responses, and the check-then-act race between registration's email lookup and its create.
- **Failing stores.** The 500 replies of the controllers (store errors) are not modelled. The only store failure modelled is the guard's, where a failing user lookup gives "invalid token".
- **The unreachable branch.** `registerUser`'s `if (user) … else 400` else branch cannot be taken, since `User.create` resolves with a user or throws. It is not modelled.
- **The models directory.** The schemas, their validators and defaults, hashing on save and `comparePassword` are not part of this model. Hashing is an abstract `Hasher` applied where the user is stored. An expense's absent date defaults to the current time, which is a parameter.
- **The update patch.** `updateExpense` hands the whole request body to the store, so the model's patch can also change the owner; the record's id is kept. No schema validation is applied.
- **Cryptography.** JWT signing and verification and bcrypt are abstract function-valued parameters, with the contracts `SoundSigner` and `CollisionFree`. Tokens are checked only for signature and `exp`.
- **Local time.** The local time zone is taken to be UTC. `toLocaleDateString` is a parameter of the CSV rows. 'This Week' goes back exactly seven days of milliseconds, so daylight-saving shifts are not modelled.
- **Date normalisation.** Only months 1 to 12 are accepted with a year, which is how the dashboard sends them. Other month values, which `Date` would roll over, are left out. Non-numeric years and months are read as absent (NaN) rather than giving invalid dates.
- **Numbers.** Amounts are integers. `Number(...)` coercion and floating-point sums are left out. `parseInt` is modelled on plain decimal numerals only; leading spaces, signs and trailing text are not modelled.
- **Paging bounds.** `GetExpenses` requires `ValidPaging`: a page number and a limit of at least 1 after the `|| 1` and `|| 10` defaults. This excludes inputs the source accepts. A negative page gives a negative skip, which the store rejects with an error; that is the 500 path, which is not modelled. A negative limit is accepted by the store, which returns at most its absolute value of records in one batch; the model does not cover that case. An absent or zero limit takes the default of 10, and that case is covered. The dashboard always sends a page of at least 1 and a limit of 10.
- **Sort stability.** The store's order among records with equal dates is taken to be stable. MongoDB does not promise this.
- **Case.** Route paths are matched exactly, whereas the web framework matches them case-insensitively by default. Header names are already normalised. `toLowerCase` is modelled on ASCII letters only.
- **URL encoding.** Query parameters are modelled as key/value pairs; their URL encoding and decoding is left out.
- **Quick filters.** They are a datatype of the four buttons, so an unknown filter name, which the source ignores, cannot occur.
- **Unmodelled routes and rendering.** The root route `GET /` and the server's start-up are left out. So are the dashboard's form handlers, its rendering and the Blob download of the CSV.
- **Calendar.DayFromYear:** it is defined as a running sum of year lengths (consecutive years start a year's length apart, as ECMA-262 requires), not by ECMA-262's closed formula; the two are not proved equal here.
- **Dashboard.DashboardState.UpdateExpense:** does not state that ids stay unique; that is `Dashboard.ReplacedInPlace`, which needs the list's ids to be unique to begin with.
