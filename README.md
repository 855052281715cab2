# URL shortener: a Dafny model of its routes, guards, schemas and tables

This project models the core of a small URL-shortening HTTP API.

- An authenticated user shortens a long url into a short code: a custom code, or one generated from the
  current time and a module-level counter.
- Anyone can follow the code, which redirects to the url. A password may gate the link and an expiry
  may end it; every redirect is counted.
- Owners list, delete and patch their links.
- Batch creation is reserved to enterprise-tier users.
- Users sign up with an email address and receive an API key; they can be looked up by email.

The model is organised after the program:

| module | file | models |
|---|---|---|
| `Schema` | `schema.dfy` | the `users` and `urls` rows, their unique and foreign keys as the store invariant `Consistent`, and the lookups and deletion the handlers run on the tables |
| `Utils` | `utils.dfy` | `ensureUrlHasScheme`, and the short-code generator: its counter wraps modulo 2^31, and its encoding is an opaque function |
| `Validations` | `validations.dfy` | the request schemas of the url routes, as functions from the raw request to `Accepted(value)` or `Rejected(issues)` |
| `Auth` | `auth.dfy` | the guards `validateApiKey`, `blacklistCheck` and `requireEnterpriseTier`, as pure decisions that let the request through or answer it |
| `Http` | `http.dfy` | the JSON bodies and redirects the routes answer with |
| `Store` | `store.dfy` | the two tables and their autoincrement counters as the `Db` class; its table writes keep `Consistent` |
| `UrlRoutes` | `url_routes.dfy` | the six url routes |
| `UserRoutes` | `user_routes.dfy` | the two user routes |

Each url and user route has two parts:

- a pure specification function (`Shorten`, `ShortenBatch`, `Follow`, `Delete`, `Update`, `OwnedBy`, `SignUp`, `UsersByEmail`), whose contract and lemmas state what the handler promises;
- a method on the `Db` (and, for creates, the `SqidGenerator`) that runs the guards, then the schema, then the handler's steps. Its postcondition ties the answer and the new tables to the specification function applied to the old ones.

A guard that stops the request, or a schema that rejects it, leaves every table and the counter as they were.

Where the code behaves differently from what one might expect of such a service, the model follows the code:

- On redirect, the password is checked before the expiry.
- A link expires only when its expiry is strictly earlier than now; an expiry equal to now still redirects.
- A short code that is already taken makes the insert throw, and the catch block answers 500, not 409.
- A batch is one INSERT statement, so it is all or nothing. A code repeated within the batch or already stored fails all of it. So does an empty list, because the query builder refuses an insert without values. The sqids drawn for the batch are spent all the same.
- `GET /urls/` returns the caller's rows with every column, the stored `password` column included (a hash, or the plaintext a patch wrote).
- `PATCH /urls/:id` stores a new password as given, without hashing it.
- A patch with neither field has an empty `set` clause. The update statement then fails, and the catch block answers 500.
- `GET /users` returns every column of the matching users, api keys included.
- Sign-up answers 409 on any unique-constraint failure, which includes a collision of the generated api key.

Foreign calls are parameters:

- zod's `url()`, `datetime()` and `email()` checks (`LibraryChecks`, `isEmail`);
- the Sqids encoding (`SqidGenerator.encode`);
- `hashPassword` (`hash`) and `validatePassword`;
- the clock (`now`), the fresh api key, and the blacklist read from the key-value store.

## Model

| member | source | states |
|---|---|---|
| Schema.FindByShortCode | src/routes/urls.ts:128-132 | finds nothing exactly when no row holds the code; otherwise finds the first row holding it |
| Schema.Consistent | src/db/schema.ts:10-40 | the store invariant: distinct ids, emails and api keys in `users`, distinct ids and short codes in `urls`, every `user_id` naming a stored user, and both autoincrement counters above every id handed out |
| Schema.FindById | src/routes/urls.ts:226-230 | finds nothing exactly when no row has the id; otherwise finds the first row with it |
| Schema.FoundRowIsUnique | src/db/schema.ts:29 | under the unique `short_code` column, the lookup by code finds the one row holding that code |
| Schema.RemoveCode | src/routes/urls.ts:196-198 | deleting by code keeps exactly the rows whose code differs |
| Schema.RemoveUniqueCode | src/routes/urls.ts:196-198 | under the unique `short_code` column, deleting a stored code removes exactly the row at its index and keeps the others in order |
| Schema.InsertKeepsConsistent | src/db/schema.ts:26-40 | rows that take the next ids, with pairwise distinct codes not yet stored and owners that exist, keep unique keys, foreign key and id counters intact |
| Schema.ReplaceKeepsConsistent | src/db/schema.ts:26-40 | rewriting a row without touching its id, code or owner keeps the invariant |
| Schema.RemoveKeepsConsistent | src/db/schema.ts:26-40 | deleting by code keeps the invariant |
| Schema.InsertUserKeepsConsistent | src/db/schema.ts:10-21 | a user with the next id and an email and key nobody holds keeps the unique `email` and `api_key` columns and the invariant |
| Utils.EnsureUrlHasScheme | src/utils.ts:3-8 | the result always starts with `http://` or `https://` ignoring ASCII case; an input that already does is returned unchanged, any other gets `https://` prepended |
| Utils.HasHttpScheme | src/utils.ts:4 | the regular expression `^https?://` with the `i` flag: the string starts with `http://` or `https://` in any ASCII case |
| Utils.EnsureUrlHasSchemeIdempotent | src/utils.ts:3-8 | applying it twice is applying it once |
| Utils.NextCounter | src/utils.ts:13 | the counter stays in [0, 2^31) and moves up by exactly one, except that 2^31-1 wraps to 0 |
| Utils.Advance | src/utils.ts:13 | the counter after `k` calls to `getSqid`, always in [0, 2^31) |
| Utils.AdvanceAdd | src/utils.ts:13 | `i` then `k` further calls leave the counter where `i + k` calls do |
| Utils.AdvanceWrapsOnce | src/utils.ts:13 | fewer than 2^31 calls wrap the counter at most once |
| Utils.CountersDistinct | src/utils.ts:13 | any 2^31 consecutive calls see pairwise distinct counter values |
| Utils.SqidGenerator.constructor | src/utils.ts:10 | the counter starts at 0 |
| Utils.SqidGenerator.GetSqid | src/utils.ts:12-17 | advances the counter by one step and encodes exactly the pair (now, new counter) |
| Validations.CreateIssues | src/validations/urls.ts:3-8 | no issue exactly when every field of the create body meets its constraint; every issue names the element it lies in |
| Validations.ValidateCreate | src/validations/urls.ts:3-8 | accepts exactly when the url passes `url()`, a custom code has 1 to 255 characters, an expiry passes `datetime()` and a password is non-empty; the accepted value copies the fields, with the expiry read as an instant; a rejection names each failing field and only those |
| Validations.ValidateBatch | src/validations/urls.ts:10-12 | accepts exactly when every element meets the create constraints; the accepted list has one input per element, in order |
| Validations.BatchAcceptsElementwise | src/validations/urls.ts:10-12 | each accepted element is what the single create schema accepts for it |
| Validations.BatchIssuesLocated | src/validations/urls.ts:10-12 | every issue of a rejected batch is an issue of one element, reported at that element's index |
| Validations.BatchIssueReported | src/validations/urls.ts:10-12 | a rejected batch reports every issue of every element |
| Validations.ValidateRedirect | src/validations/urls.ts:14-17 | accepts exactly when the code is present and non-empty; `pw` is optional and passed on |
| Validations.ValidateDelete | src/validations/urls.ts:19-21 | accepts exactly a non-empty code |
| Validations.ValidateUpdate | src/validations/urls.ts:23-26 | each field may be absent, null or a value; accepts exactly when a given expiry passes `datetime()` and a given password is non-empty; absent and null are kept apart; a rejection names each failing field |
| UserRoutes.Decimal | src/routes/users.ts:26 | the decimal numeral of an id is a non-empty string of digits |
| Validations.ParseId | src/validations/urls.ts:28-30 | a value exactly for a non-empty string of decimal digits |
| Validations.DecimalValue | src/validations/urls.ts:29 | the number `Number` reads from a string of decimal digits, leading zeros allowed |
| UserRoutes.DecimalValueOfDecimal | src/validations/urls.ts:29 | reading the numeral of `n` gives back `n` |
| UserRoutes.ParseIdRoundTrip | src/validations/urls.ts:28-30 | the numeral of every id parses back to that id |
| Validations.ValidateUpdateParams | src/validations/urls.ts:28-30 | accepts exactly a non-empty string of decimal digits, as the number it denotes |
| Auth.FindByApiKey | src/middleware/auth.ts:19-23 | finds nothing exactly when no user holds the key; otherwise a user of the table holding it |
| Auth.ValidateApiKey | src/middleware/auth.ts:12-31 | a missing or empty header is 401 "Missing API Key"; otherwise the request continues exactly when some user holds the key, with that user bound; every stop is 401 |
| Auth.BoundUserIsKeyHolder | src/middleware/auth.ts:19-31 | under the unique `api_key` column, the user bound is the one holding the key |
| Auth.BlacklistCheck | src/middleware/auth.ts:54-60 | stops with 403 exactly when a blacklist exists and lists the user's key |
| Auth.RequireEnterpriseTier | src/middleware/auth.ts:42-46 | continues exactly for enterprise users, 403 otherwise |
| Auth.Authenticate | src/routes/urls.ts:88-93 | the guard chain continues exactly for a known, non-blacklisted key (and an enterprise user on the batch route), binding its holder; a key failure is answered first with its 401, and any later stop is 403 "Operation not allowed" |
| Auth.BlacklistedKeyRefused | src/middleware/auth.ts:54-60 | a known key listed in the blacklist is refused with 403 "Operation not allowed" on every authenticated route |
| Auth.HobbyUserRefusedBatch | src/middleware/auth.ts:42-46 | a hobby-tier user with a valid, non-blacklisted key is refused with 403 "Operation not allowed" on the batch route |
| Store.Db.constructor | src/db/schema.ts:10-40 | empty tables with ids starting at 1 satisfy the invariant |
| Store.Db.InsertUser | src/routes/users.ts:18-22 | appends exactly the new user, advances the user id, keeps the invariant |
| Store.Db.InsertUrls | src/routes/urls.ts:64-72 | appends exactly the given rows, advances the url id by their number, keeps the invariant |
| Store.Db.ReplaceUrl | src/routes/urls.ts:155-158 | replaces exactly one row and keeps the invariant |
| Store.Db.DeleteUrlsByCode | src/routes/urls.ts:196-198 | leaves exactly the rows without the code and keeps the invariant |
| UrlRoutes.OwnedBy | src/routes/urls.ts:33-37 | exactly the rows whose owner is the caller |
| UrlRoutes.OwnedByCounts | src/routes/urls.ts:33-37 | the list holds each of the caller's rows exactly as often as the table does, and no row of another user |
| UrlRoutes.GetUrls | src/routes/urls.ts:30-44 | a guard stop is answered with its status; otherwise 200 with exactly the caller's rows; nothing changes |
| UrlRoutes.Shorten | src/routes/urls.ts:54-84 | the code is the custom one, else the sqid of the next counter; a taken code is 500 with the table unchanged; otherwise one row is appended with the next id, the url, the code, the caller as owner, 0 clicks, the given expiry (null when absent) and the hash of a given password (null otherwise), and the 201 body carries only id, url, code and expiry |
| UrlRoutes.StoredHash | src/routes/urls.ts:62 | a non-empty password is stored as its hash; an absent or empty one stores null |
| UrlRoutes.ChooseCode | src/routes/urls.ts:61 | the custom code when one is given, with the counter untouched; otherwise the sqid of the next counter value, with the counter advanced |
| UrlRoutes.NewRow | src/routes/urls.ts:66-71 | the inserted row: the given id, url, code, owner, password column and expiry, with the column defaults of 0 clicks, no last access and `created_at` now |
| UrlRoutes.BatchRows | src/routes/urls.ts:101-107 | one row per item, in order, numbered from the next id, owned by the caller, without password; the counter ends advanced once per item without a custom code |
| UrlRoutes.BatchRowsStep | src/routes/urls.ts:101-107 | mapping one more item appends that item's row to the rows before it |
| UrlRoutes.BatchCodeOf | src/routes/urls.ts:104 | item `k` keeps its custom code, or takes the sqid of the counter after the draws of items `0..k` |
| UrlRoutes.Views | src/routes/urls.ts:109-114 | the returned columns of every inserted row, in order |
| UrlRoutes.ShortenBatch | src/routes/urls.ts:97-120 | 201 exactly for a non-empty batch whose codes are pairwise distinct and not stored, appending all its rows and listing them; otherwise 500 with the table unchanged; the counter is advanced either way |
| UrlRoutes.BatchStoresEveryItem | src/routes/urls.ts:97-116 | a successful batch appends one row per item after the stored ones and lists as many rows as were submitted |
| UrlRoutes.BatchStoresItem | src/routes/urls.ts:102-116 | each stored item has the caller as owner, no password, no clicks, its url and expiry, and is listed under its id |
| UrlRoutes.MapBatch | src/routes/urls.ts:101-107 | the loop over the items calls `getSqid` once per item without a custom code and builds exactly the rows and counter of `BatchRows` |
| UrlRoutes.Follow | src/routes/urls.ts:127-164 | 404 exactly for an unknown code; then 403 for a protected link without `pw`, 401 when `pw` fails verification, 410 when the expiry is strictly before now; otherwise a 302 to the scheme-normalised url that adds one click and sets the last access to now on that row only; every other answer leaves the table unchanged |
| UrlRoutes.Protected | src/routes/urls.ts:140 | a link is password-protected when its `password` column is non-empty |
| UrlRoutes.Supplied | src/routes/urls.ts:141 | a `pw` query parameter counts as given when present and non-empty |
| UrlRoutes.PasswordPasses | src/routes/urls.ts:140-149 | the password step lets the request through when the link is unprotected, or `pw` is given and verifies against the stored value |
| UrlRoutes.Expired | src/routes/urls.ts:151 | a link has expired when it has an expiry strictly earlier than now |
| UrlRoutes.AppendedRowIsFound | src/routes/urls.ts:128-132 | a row just inserted with a fresh code is the one its code finds |
| UrlRoutes.ShortenedUrlRedirects | test/urls.test.ts:58-89 | a link just created, unexpired, and followed without password (or with the password it was created with, when that verifies) redirects with 302 to its url and counts one click |
| UrlRoutes.ProtectedUrlWantsPassword | src/routes/urls.ts:140-143 | a link created with a password answers 403 to a redirect without `pw` and is not changed |
| UrlRoutes.Delete | src/routes/urls.ts:183-204 | 404 exactly for an unknown code; 403 exactly when the caller does not own the row found, with the table unchanged; otherwise 200 and the rows holding the code are deleted |
| UrlRoutes.DeleteRemovesOneRow | src/routes/urls.ts:196-204 | under the unique key a successful delete removes exactly the row found, keeping the others in order |
| UrlRoutes.DeletedCodeIsGone | src/routes/urls.ts:196-198 | after a successful delete, following the code answers 404 |
| UrlRoutes.ApplyPatch | src/routes/urls.ts:240-247 | an absent field is kept, null clears it, a value sets it; the password is stored as given; id, url, code, owner, clicks and dates are untouched |
| UrlRoutes.Merge | src/routes/urls.ts:243-246 | an absent field keeps the current value, null clears it, a value replaces it |
| UrlRoutes.NothingToSet | src/routes/urls.ts:240-254 | the `set` clause is empty exactly when neither field was given |
| UrlRoutes.Update | src/routes/urls.ts:232-260 | 404 exactly for an unknown id; 403 exactly for a row of another user; 500 when neither field is given; otherwise 200 with that row patched, every other row unchanged, and the patched row's returned columns |
| UrlRoutes.ClearedExpiryNeverExpires | src/routes/urls.ts:240-245 | after a patch that sets the expiry to null, following the link never answers 410 |
| UrlRoutes.PostShorten | src/routes/urls.ts:46-86 | a guard stop or a schema rejection (400) changes nothing; otherwise the answer, table, next id and counter are those of `Shorten`; the invariant is kept |
| UrlRoutes.PostShortenBatch | src/routes/urls.ts:88-122 | the same for the batch route behind the enterprise guard, with `ShortenBatch` |
| UrlRoutes.GetRedirect | src/routes/urls.ts:124-169 | no guard; a rejected query is 400 with nothing changed; otherwise the answer and table are those of `Follow` |
| UrlRoutes.DeleteShortcode | src/routes/urls.ts:171-210 | guard stop or 400 change nothing; otherwise the answer and table are those of `Delete` |
| UrlRoutes.PatchUrl | src/routes/urls.ts:212-266 | guard stop, or 400 for the id and then the body, change nothing; otherwise the answer and table are those of `Update` |
| UserRoutes.ValidateSignUp | src/validations/users.ts:4-8 | accepts exactly an email address with, when given, a tier from the enumeration; a rejection names each failing field |
| UserRoutes.SignUp | src/routes/users.ts:14-36 | 409 with nothing added exactly when the email or the key is taken; otherwise exactly one user is appended with the next id, the submitted email and name, the fresh key and the tier `hobby` whatever was asked, and 201 echoes id, email, name and key |
| UserRoutes.SecondSignUpConflicts | test/users.test.ts:31-43 | signing up again with the same email answers 409 |
| UserRoutes.UsersByEmail | src/routes/users.ts:47-50 | exactly the users with that email; none exactly when the email is unknown |
| UserRoutes.UsersByEmailCounts | src/routes/users.ts:47-50 | the result holds each user with that email exactly as often as the table does, and no other user |
| UserRoutes.SignedUpUserIsFound | src/routes/users.ts:47-56 | after a sign-up, the lookup by that email finds exactly the new user |
| UserRoutes.AppendedUserFound | src/routes/users.ts:47-50 | a user appended with a fresh email is the only one found under it |
| UserRoutes.PostUser | src/routes/users.ts:11-40 | 400 with nothing changed for a rejected body; otherwise the answer and table are those of `SignUp`; the invariant is kept |
| UserRoutes.ValidateEmailQuery | src/validations/users.ts:10-12 | accepts exactly an email address |
| UserRoutes.GetUsers | src/routes/users.ts:42-61 | 400 for a rejected query; otherwise 404 exactly when no user has the email, else 200 with exactly the users that do; nothing changes |

## Left out

- Database connections, libSQL and drizzle are left out. The store is in memory and never fails, so the catch blocks answer only the constraint failures modelled above. A store failure (500) in a handler or in `validateApiKey` is not modelled, and neither is a failed blacklist fetch in `blacklistCheck`.
- The request logger, routing, CORS and the application entry are framework wiring and are not part of this model.
- zod's `url()`, `datetime()` and `email()` are opaque parameters. The issue structure of `error.format()` is reduced to a set of (element index, field name) pairs.
- The Sqids encoding, `hashPassword` and `validatePassword` are opaque parameters; both are imported from `@/utils`, but their definitions do not appear in src/utils.ts, so they are not part of this model.
- `Date.now()` and `new Date()` are one integer `now` per request. Every `getSqid` call of a batch therefore sees the same instant. Timestamp columns store seconds while `new Date()` has milliseconds; this granularity is not modelled.
- `crypto.randomUUID()` is a parameter.
- The lost update of `clicks` between concurrent redirects is not modelled: requests are sequential.
- The `rowsAffected === 0` and empty-`returning` answers (src/routes/urls.ts:160-162, 200-202, 256-258) only fire when a concurrent request deletes the row, so they are not modelled.
- Validations.ValidateCreate: takes a body that is well-typed JSON: a `url` string is always present and an optional field is either absent or a string. A missing `url`, a non-string value, or an explicit `null` in `shortCode`, `expiresAt` or `password` (which `.optional()` refuses, 400) is not representable.
- Validations.ValidateBatch: takes the `urls` array as already extracted; a body without a `urls` array (400) and malformed elements, as for `Validations.ValidateCreate`, are not modelled.
- UserRoutes.ValidateSignUp: takes a body with an `email` string always present and `name` and `tier` absent or strings; a missing email, a non-string value or an explicit `null` (400) is not representable.
- Validations.ValidateUpdateParams: reads the digits exactly; JavaScript's `Number` loses precision above 2^53.
- Validations.ValidateCreate: counts a short code's length in Unicode scalar values, while zod counts UTF-16 code units; they differ only for characters outside the Basic Multilingual Plane.
- The `short_code` column's declared length of 255 is not enforced by SQLite and is not part of the store invariant.
- `created_at` defaults to the insert's clock, modelled as `now`.
- UserRoutes.SignUp: the response's `id` is the decimal numeral of the new id; the JSON null/undefined distinction for a missing `name` is not kept.
