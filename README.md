# SmartPass backend core in Dafny

This project models the decision logic of the SmartPass Express/Mongoose back end: the
user and employee directory of an ID-card service. It covers the bearer-token guards, the
user administration routes and the employee routes, the login and "who am I" routes, the
report computations, the activity-log query and the User schema with its defaults and
computed `name`.

Each MongoDB collection is a sequence of records. Its unique indexes are stated as
`Collections.Distinct` over a key function. Handlers that only read become functions that
return an `Http.Reply`: a status with a body, or a status with an error text under the JSON
key the route uses (`error` or `message`). Handlers that insert, replace or remove documents
become methods of `Users.UserStore` and `Employees.EmployeeStore`. Each such method states
the whole new collection and keeps the unique indexes as a class invariant.

The libraries the code calls are parameters:
- `jsonwebtoken` sign and verify are `Services.TokenLibrary`.
- `bcryptjs` hash and compare are `Services.PasswordLibrary`.
- `qrcode` is a `string -> string` function.
- The clock is a `now` argument. Fresh document ids are a `newId` argument.

What the proofs assume of these libraries is written as the predicates
`Services.SoundTokens` and `Services.SoundPasswords`. These are required by the lemmas that
need them. They are never assumed.

Modules, in dependency order:
- `Wrappers`, `Text`, `Calendar`, `Collections` and `Http` are supporting definitions. They
  cover JavaScript string operations, `Date` arithmetic and the cursor operations `sort`,
  `skip`, `limit` and `countDocuments`.
- `Services` holds the token and password libraries.
- `Guards` covers middleware/auth.js and the three inlined copies of the guard.
- `UserModel` covers models/User.js.
- `Users` covers routes/users.js.
- `AuthRoutes` covers routes/auth.js.
- `Employees` covers routes/employee.js and models/Employee.js.
- `Reports` covers routes/reports.js.
- `ActivityLog` covers routes/activity.js and models/Activity.js.
- `Flows` relates login, the guards and `/me`.

Where the code and its documentation differ, the model follows the code. These are the
differences:
- `POST /api/users` has no guard.
- The user list searches a `name` path that is not stored, so (with Mongoose 7 and later) the
  search only matches on email and role. The list also selects `name` without its parts, so every listed name is
  empty.
- The public employee card reads `position`, which the schema does not have, so it is always
  absent.
- Login signs with `JWT_SECRET || "fallbacksecret123"`, but the middleware verifies with
  `JWT_SECRET || "smartpass2025supersecret"`. When `JWT_SECRET` is unset, no login token
  passes `/me`.
- The application entry point mounts only the auth and employee routers. The users, reports
  and activity routers are modelled as written, but a running server does not reach them.

## Model

| member | source | states |
|---|---|---|
| Guards.BearerToken | middleware/auth.js:15 | the verified token is what lies between `Bearer ` and the next space: the second space-separated word |
| Guards.Authenticate | middleware/auth.js:4-24 | a missing header or one not starting with exactly `Bearer ` gives 401 "No token, authorization denied"; a verify failure gives 401 "Token is not valid or expired"; otherwise `next` with `user` set to the payload and nothing else changed; exactly one of the two outcomes |
| Guards.RouteAuthenticate | routes/users.js:9-19 | the first `Bearer ` anywhere is removed; an empty or missing result gives 401 "No token"; a verify failure under `JWT_SECRET` or "fallbacksecret123" gives 401 "Invalid token"; success sets only `userId` to the payload id (the same copy is at routes/reports.js:9-19 and routes/activity.js:10-20) |
| Guards.EmployeeAuthenticate | routes/employee.js:9-19 | the raw header is verified with `JWT_SECRET` and no fallback; an unset secret gives 401 "Invalid token"; success sets only `userId` |
| Guards.BearerTokenExamples | middleware/auth.js:15 | "Bearer a b" verifies "a"; "Bearer " verifies "" |
| Guards.BearerTokenOf | middleware/auth.js:15 | for a token without spaces, `Bearer <token>` verifies exactly that token |
| Guards.EmptyBearerRejected | middleware/auth.js:15-23 | the header `Bearer ` alone is refused with "Token is not valid or expired" |
| Guards.MiddlewareAdmits | middleware/auth.js:17-20 | a live token signed with the middleware secret, sent as `Bearer <token>`, calls `next` with exactly its payload |
| Guards.RouteTokenStrips | routes/users.js:10 | a leading `Bearer ` is stripped; otherwise the first `Bearer ` later in the header is cut out and the text around it joined; a header without one, of any length, is passed unchanged |
| Guards.NoBearerInSpaceless | routes/users.js:10 | a signed token has no space, so `replace` finds no `Bearer ` in a bare token and leaves it alone |
| Guards.RouteAdmits | routes/users.js:10-15 | a live token signed with the route secret passes with or without `Bearer `, and `userId` becomes its id |
| Guards.EmployeeRejectsBearerForm | routes/employee.js:10-18 | `Bearer <anything>` never passes the employee guard, because the space makes the token invalid |
| Guards.EmployeeAdmitsBareToken | routes/employee.js:10-15 | a bare live token signed with `JWT_SECRET` passes and sets `userId` |
| Services.Secret | routes/users.js:13 | `JWT_SECRET` when it is non-empty, the fallback otherwise |
| Services.KeyBytes | routes/auth.js:23 | for a password without U+0000, bcrypt reads the password and its 0 byte when it is shorter than 72 bytes, and its first 72 bytes with no 0 byte otherwise |
| Services.ShortPasswordExact | routes/auth.js:23 | among passwords without U+0000, one shorter than 72 UTF-8 bytes matches only itself under `bcrypt.compare` |
| Services.LongKey | routes/auth.js:23 | of a password of at least 72 UTF-8 bytes bcrypt reads exactly its first 72 bytes |
| Services.LongPasswordsCollide | routes/auth.js:23 | passwords that share a prefix of at least 72 UTF-8 bytes match each other's hashes |
| Services.CycleDoubled | routes/auth.js:23 | reading a doubled key cyclically gives the same bytes as reading it once |
| Services.NulRepeatCollides | routes/auth.js:23 | `s`, U+0000, `s` matches a hash of `s`: the closing 0 byte makes passwords holding U+0000 collide |
| Text.Utf8HasNoZero | routes/auth.js:23 | only U+0000 encodes to a 0 byte |
| Text.Utf8Injective | routes/auth.js:23 | distinct strings have distinct UTF-8 encodings |
| Services.SessionClaims | routes/auth.js:28-32 | the payload carries the user id and expires seven days (604800 s) after issue |
| Services.SessionLifetime | routes/auth.js:28-32 | a login token verifies to its own payload for six days and is refused from seven days on |
| UserModel.ResolvePermissions | models/User.js:11-19 | viewEmployees defaults to true and the other six flags to false; given flags are kept |
| UserModel.DefaultSettings | models/User.js:20-24 | darkMode false, language "English (United States)", timezone "(GMT+01:00) West Africa Time (Luanda)" |
| UserModel.FullNameCases | models/User.js:32-34 | `name` is first and last name with empty parts dropped, joined by a single space |
| UserModel.NewUser | models/User.js:3-30 | a new document takes role "Viewer", forcePasswordChange true, the permission and settings defaults, and the given fields unchanged |
| UserModel.NewUserDefaults | models/User.js:9-24 | a user given nothing optional is a Viewer who must change the password and may only view employees, with the default settings |
| UserModel.View | routes/auth.js:44 | the password-free view keeps every stored field except the password (id, names, email, cargo, photo, role, forcePasswordChange, permissions, settings, both timestamps) and adds the computed name |
| UserModel.ViewHidesPassword | routes/users.js:58 | two users that differ only in the password have the same view |
| Users.Matching | routes/users.js:27-35 | keeps exactly the users whose email or role contains the search case-insensitively, or all users for an empty search |
| Users.SearchIgnoresNames | routes/users.js:30 | a name that is not part of the email or the role finds nobody, because `name` is not stored |
| Users.Summaries | routes/users.js:37-41 | the page has exactly the length of the `skip`/`limit` window (at most `limit`), newest first, starting `skip` places into the ordered matches |
| Users.ListUsers | routes/users.js:22-53 | defaults are page 1, limit 10 and no search; a negative skip gives 500 "Failed to fetch users"; otherwise the page of the newest-first matches and `totalPages = ceil(matches / limit)`, or none for limit 0 |
| Users.ListedNamesAreEmpty | routes/users.js:38 | every listed `name` is the empty string |
| Users.GetUser | routes/users.js:56-67 | the user without the password, or 404 "User not found" exactly when no user has the id |
| Users.GetSettings | routes/users.js:185-196 | the caller's settings, or 404 exactly when the caller's user does not exist |
| Users.Patched | routes/users.js:141-157 | each of email, photo, role, cargo, forcePasswordChange and permissions takes the body's value when given and keeps the stored one otherwise (given permissions replace the whole record, missing flags at their defaults); the password changes only when a new hash is given; the names, settings and creation time are kept |
| Users.PatchIgnoresNameAndIsActive | routes/users.js:141-150 | `name` and `isActive` in the body change nothing |
| Users.MergeSettings | routes/users.js:209-217 | darkMode is set whenever given, false included; language and timezone only when non-empty; all else is kept |
| Users.UserStore.Create | routes/users.js:70-124 | missing fields give 400 and an already used email gives 400, with the store unchanged; on success exactly one user is appended, holding the hash of the temporary password, and 201 returns id, names, email and role without the password; email stays unique |
| Users.UserStore.Update | routes/users.js:127-168 | an unknown id gives 404 with the store unchanged; for a known id the update succeeds exactly when no other user holds the resulting email, and fails with 500 otherwise; a success replaces only that user by the patched one, re-hashed only if a password was given, and returns it without the password |
| Users.UserStore.Delete | routes/users.js:171-182 | the store becomes exactly the old one without that id; 404 exactly when the id is unknown, and 200 "User deleted successfully" for a known one; a success removes exactly one user |
| Users.UserStore.UpdateSettings | routes/users.js:199-225 | 404 when the caller's user is gone; for an existing user it succeeds exactly when the document passes validation, and 500 with nothing changed otherwise; only that user's settings change, merged field by field |
| Users.OnlyMatchRemoved | routes/users.js:173-176 | with unique ids, deleting by id removes one user when the id exists and none otherwise |
| AuthRoutes.Login | routes/auth.js:10-38 | a missing email or password gives 400 "Email and password required"; success exactly when the email is known and the password matches the stored hash; every other case gives 400 "Invalid credentials"; a token for that user with "Login successful" |
| AuthRoutes.FailuresLookAlike | routes/auth.js:19-26 | an unknown email and a wrong password get identical answers |
| AuthRoutes.LoginIffPasswordMatches | routes/auth.js:23-33 | for a stored hash of `plain`, login succeeds exactly with the passwords that agree with `plain` on the bytes bcrypt reads, so only with `plain` when neither holds U+0000 and `plain` is shorter than 72 bytes; the token names that user |
| AuthRoutes.Me | routes/auth.js:41-53 | the payload's user without the password, or 404 "User not found" when it does not exist: success exactly when the payload's id is stored; 500 without a payload |
| Employees.EmployeeCodeShape | routes/employee.js:36 | after 100000 ms of clock time the code is "EMP" followed by the clock's last six digits: nine characters |
| Employees.EmployeeCodeRepeats | routes/employee.js:36 | two creations 1000 s apart get the same code |
| Employees.NewEmployee | routes/employee.js:35-37 | the new document has the request fields, status "Active" and the placeholder photo unless given, the generated code and the QR code of its own public URL |
| Employees.Override | routes/employee.js:44 | a field given in the body replaces the stored one and an absent one keeps it |
| Employees.Patched | routes/employee.js:44 | every schema field the body gives (name, email, mobile, cargo, department, company, officeLocation, status, employeeId, qrCode, idCardExpirationDate, photo) replaces the stored value and every absent one keeps it; the id and creation time are kept |
| Employees.EmployeeIdNotFixed | routes/employee.js:44 | an update body carrying `employeeId` overwrites the generated code |
| Employees.EmptyPatchKeepsFields | routes/employee.js:44 | an empty body changes nothing but the update time |
| Employees.GetEmployee | routes/employee.js:28-31 | the employee with that id, or `null` with status 200 when there is none |
| Employees.PublicEmployee | routes/employee.js:55-65 | no token needed; 404 "Not found" exactly when the id is unknown; otherwise name, department, status and photo, with `position` always absent |
| Employees.CardRevealsOnlyPublicFields | routes/employee.js:58-64 | employees that agree on name, department, status and photo show the same card |
| Employees.EmployeeStore.Create | routes/employee.js:34-40 | exactly one employee is appended, and it is returned |
| Employees.EmployeeStore.Update | routes/employee.js:43-46 | an unknown id answers `null` (200, not 404) with the store unchanged; otherwise only that employee is replaced by the patched one, which is returned |
| Employees.EmployeeStore.Delete | routes/employee.js:49-52 | the store becomes the old one without that id, and the answer is always "Deleted" |
| Reports.Stats | routes/reports.js:22-42 | the total number of employees, those with status exactly "Active", those exactly "Inactive", and the number of users |
| Reports.StatsBounded | routes/reports.js:26-28 | the active and inactive counts never add up to more than the total |
| Reports.GrowthLookback | routes/reports.js:47-67 | "7days" looks back 7 days, "quarter" 3 months, and anything else, a missing range included, 30 days |
| Reports.GranularityOf | routes/reports.js:54-66 | month buckets exactly for the month lookback, day buckets otherwise |
| Reports.UnknownRangeIsThirtyDays | routes/reports.js:64-66 | an unknown or missing range gives the same window and buckets as "30days" |
| Reports.DayRangesReachBack | routes/reports.js:52-59 | the day ranges start exactly 7 or 30 days before now and bucket by day |
| Reports.AddKeyAscending | routes/reports.js:71-77 | adding one creation keeps the tally strictly ascending with positive counts |
| Reports.AddKeyCounts | routes/reports.js:71-77 | adding one creation raises its bucket's count by one and leaves every other count alone |
| Reports.Tally | routes/reports.js:69-78 | entries ascend strictly by bucket and every count is positive |
| Reports.TallyCounts | routes/reports.js:71-76 | each bucket's count is the number of keys that fall in it |
| Reports.EntryIsCountOf | routes/reports.js:71-77 | each entry of an ascending tally holds the count of its own bucket |
| Reports.CountedIsListed | routes/reports.js:71-77 | a bucket with a non-zero count has an entry |
| Reports.OccurrencesCount | routes/reports.js:69-76 | a bucket's key count is the number of employees created since the start that fall in that bucket |
| Reports.KeyListed | routes/reports.js:70 | an employee created since the start contributes its bucket's key |
| Reports.Growth | routes/reports.js:69-85 | one entry per bucket, in strictly ascending order, each with a positive count |
| Reports.GrowthCounts | routes/reports.js:69-85 | each entry counts exactly the employees created since the start that fall in its bucket |
| Reports.GrowthComplete | routes/reports.js:69-85 | every employee created since the start is counted in some entry |
| Reports.EntryOf | routes/reports.js:104-109 | a feed entry is by "System/Admin" and its action is "New Employee Added: " followed by the name, or "undefined" when there is none |
| Reports.RecentActivity | routes/reports.js:94-124 | with limit defaulting to 10, exactly min(limit, employees) entries, newest first, the i-th being the i-th newest employee |
| Reports.FeedEntriesAttributed | routes/reports.js:104-109 | every feed entry is attributed to "System/Admin" and names the new employee |
| Reports.ZeroLimitFeedIsEmpty | routes/reports.js:101-117 | `limit=0` fetches every employee but the final slice leaves none |
| Reports.WithoutQrCode | routes/reports.js:154 | the result has no qrCode and is otherwise the same employee |
| Reports.Summarize | routes/reports.js:157-160 | total is the number of results, active those exactly "Active", and inactive the rest, which equals the count of results that are not "Active" |
| Reports.Selected | routes/reports.js:131-154 | keeps exactly the employees meeting the status filter and both date bounds, all together |
| Reports.Stripped | routes/reports.js:154 | removing QR codes keeps the order and changes nothing else |
| Reports.StrippedSelected | routes/reports.js:154 | reordering and removing QR codes keeps every employee inside the query |
| Reports.Results | routes/reports.js:154 | the selected employees newest first without their QR codes, as a permutation: each selected employee appears exactly as often as it was selected |
| Reports.Custom | routes/reports.js:127-173 | results newest first with no QR code; they are a permutation of the employees that satisfy the filters, stripped of QR codes; the summary counts them; the body is echoed |
| Reports.DateToCoversWholeDay | routes/reports.js:145-150 | for a bare `dateTo` date, everyone created on that day passes the upper bound and no one from the next day does |
| Reports.AllStatusesKept | routes/reports.js:134-137 | "All", an empty or a missing status filters nothing |
| ActivityLog.NameMatching | routes/activity.js:28-33 | keeps exactly the users whose first or last name contains the search case-insensitively |
| ActivityLog.MatchingUserIds | routes/activity.js:34 | the ids of exactly those users |
| ActivityLog.Since | routes/activity.js:40-57 | "Last 7 Days" and "Last 30 Days" give a lower bound 7 or 30 days back; every other value gives none |
| ActivityLog.Selected | routes/activity.js:25-60 | keeps exactly the activities that meet every given filter |
| ActivityLog.ListLogs | routes/activity.js:23-72 | defaults are page 1 and limit 10; a negative skip gives 500 "Failed to fetch activity logs"; otherwise the page of the newest-first matches, at most `limit`, and `totalPages = ceil(matches / limit)` |
| ActivityLog.MatchingMeetsFilters | routes/activity.js:27-57 | a selected log belongs to a user whose name matches, has exactly the requested action, and lies inside the date preset |
| ActivityLog.FiltersSelect | routes/activity.js:25-60 | a log that meets every given filter is selected |
| ActivityLog.ListedLogsMatch | routes/activity.js:60-64 | every listed log is one of the selected ones |
| ActivityLog.NoMatchingUserNoLogs | routes/activity.js:27-36 | a search that matches no user's name selects no log at all |
| ActivityLog.OtherPresetsUnbounded | routes/activity.js:44-56 | "All Time", any other value and a missing preset impose no date bound |
| Flows.LoginTokenOpensRouteGuards | routes/auth.js:28-33 | the login token passes the users, reports and activity guard for six days, bare or with `Bearer `, and passes on the user's id |
| Flows.LoginThenMe | routes/auth.js:41-48 | with `JWT_SECRET` set, `Bearer <login token>` passes the middleware and `/me` answers the logged-in user without the password |
| Flows.MeAnswersStoredUser | routes/auth.js:44-48 | with unique ids, `/me` for a payload naming a stored user answers exactly that user without the password |
| Flows.UnsetSecretLocksOutMe | middleware/auth.js:18 | with `JWT_SECRET` unset, no login token passes the middleware, because the two fallback secrets differ |
| Flows.CreatedUserLogsIn | routes/users.js:95-110 | a user just created logs in exactly with the passwords that agree with the temporary one on the bytes bcrypt reads, so with that password alone when neither holds U+0000 and it is shorter than 72 bytes |
| Flows.LoggedIn | routes/auth.js:18 | the user a login is for is stored under the given email |
| Text.ReplaceFirstOfPrefix | routes/users.js:10 | `replace` on a string that starts with the pattern drops exactly that prefix |
| Text.LastDigits | routes/employee.js:36 | `slice(-k)` of a number with at least k digits is its last k digits |
| Text.PaddedPeriodic | routes/employee.js:36 | the last k digits repeat every 10^k |
| Collections.SortNewestFirst | routes/users.js:41 | `sort({ createdAt: -1 })` orders by descending key and keeps the same elements |
| Collections.SortKeepsSorted | routes/reports.js:115-116 | sorting a list that is already newest first changes nothing |
| Collections.Find | routes/auth.js:18 | `findOne` and `findById` on one field: the index of a document with that key, or none exactly when no document has it |
| Collections.Window | routes/users.js:39-40 | `skip` then `limit`, where `limit(0)` means no limit: the exact length, and the elements from `skip` onwards |
| Collections.TotalPages | routes/users.js:47 | `Math.ceil(total / limit)`: the fewest pages of `limit` that hold `total`, and none for limit 0 |
| Collections.LastPageStart | routes/users.js:47 | the last of `ceil(n / limit)` pages starts `n mod limit` items before the end, or a full page before it when `limit` divides `n` |
| Collections.LastPageHoldsRemainder | routes/users.js:39-47 | the last page holds the remainder and the page after it is empty |
| Collections.WindowWithin | routes/activity.js:60-64 | every element of a page comes from the sequence it was cut from |
| Collections.FilterNone | routes/activity.js:27-35 | a filter that no element satisfies keeps nothing |
| Collections.FilterOutKey | routes/users.js:173-176 | under a unique index, filtering out one key removes exactly one document when the key is present and none otherwise |
| Collections.MapPermutation | routes/reports.js:154 | mapping two orderings of the same elements gives two orderings of the same images |
| Collections.Count | routes/reports.js:26-28 | `countDocuments` is the number of elements the filter keeps |
| Calendar.DaysBefore | routes/reports.js:53 | `setDate(getDate() - n)` moves back exactly n days |
| Calendar.RolloverExample | routes/reports.js:61 | `setMonth` normalises a day past the month's end: 31 February 2023 is 3 March |

## Left out

- Signing and verifying tokens and hashing passwords are parameters. Only the properties in
  `Services.SoundTokens` and `Services.SoundPasswords` are used, so the real algorithms and
  the bcrypt salt rounds are not modelled. bcrypt itself is taken to be collision-free.
  What bcryptjs feeds it is modelled (`Services.BcryptInput`): for the `$2a$`/`$2b$` salts
  that `genSalt` makes, the UTF-8 bytes of the password and a closing 0 byte, read cyclically
  until 72 bytes are taken. So a password longer than 71 bytes is cut, and a password holding
  U+0000 can collide with a shorter one. Salts of other versions (no closing 0 byte) are not
  modelled. Strings are sequences of Unicode scalar values, so the UTF-8 encoding of a lone
  UTF-16 surrogate is not modelled.
- The Mongoose version is not pinned in the files modelled; the model follows Mongoose 7 and
  later. In updates, a field left undefined is dropped and the stored value is kept (Mongoose 6
  and earlier would send it as `null` and erase the field). In queries, `strictQuery` is off,
  so the user search's `name` condition reaches the database and matches nothing (Mongoose 6's
  default `strictQuery` would instead remove the `name` condition from the filter before
  sending it). Neither of the older behaviours is modelled.
- The regular expressions of the searches (`$regex`, `new RegExp(search, 'i')`) are read as
  ASCII case-insensitive substring searches. Regex metacharacters and non-ASCII case folding
  are not modelled.
- Query-string coercion is not modelled. `page` and `limit` arrive as numbers: a non-numeric
  value (NaN) and a negative `limit` are outside the model, and so are array-valued
  parameters.
- Dates are not parsed. `dateFrom` and `dateTo` arrive as times, and an unparseable date
  (which MongoDB answers with an error) is not modelled.
- The server clock is taken to run in UTC, so daylight-saving shifts in `setDate` and
  `setMonth` are not modelled.
- Calendar.MonthsBefore: only its rollover on short months is proved. No general relation
  to civil months is stated.
- Buckets are day or month numbers, not the `%Y-%m-%d` and `%Y-%m` strings. For four-digit
  years the string order is the number order.
- MongoDB does not promise an order between documents with equal `createdAt`. The model
  keeps collection order (the sort is stable), which is one of the allowed orders.
- `populate('user', 'name profilePic')` in the activity list is not modelled. Logs are
  returned with the user id.
- Casting errors for malformed ObjectIds are not modelled: such ids are treated as unknown.
  The catch-all 500 answers for database failures are modelled only where a modelled
  condition leads to them.
- The user search in the activity route runs outside its `try`, so a failure there would be
  unhandled. That failure cannot happen in the model.
- `GET /api/employees/` (list all) returns the whole collection and is not modelled.
- CSV export (routes/activity.js:75-92) and the placeholder PDF and CSV export endpoints
  (routes/reports.js:176-184) are not modelled.
- server.js (wiring, database connection, port) and dropUsers.js are pure I/O and are not
  part of this model.
- Concurrent requests and last-write-wins between them are not modelled. Each handler runs
  on its own.
- Employees.EmployeeStore.Create requires the new id to be fresh, as ObjectId generation
  guarantees. Users.UserStore.Create instead answers 500 for a taken id.
- `GET /stats` reads a `filter` parameter that changes nothing. The model takes no such
  parameter.
