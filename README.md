# Farm certification portal: a verified model of the request handlers

The backend of the farm portal is a small HTTP service over four database
tables: users, certificates, complaints and ratings. This project models
that service in Dafny.

- **Database.** Objects of the class `Portal.FarmPortal` hold the four
  tables as sequences of rows. Its constructor is the first start-up, which
  seeds three demo accounts, two certificates and one complaint.
- **Handlers that write.** Filing a complaint, updating a complaint's
  status, issuing a certificate, revoking a certificate and submitting a
  rating are methods that change exactly the table their SQL statement
  names, and only after the caller passes the role check.
- **Read-only endpoints.** Login, "who am I", the complaint listing, the
  Active-certificate listing, the public certificate lookup, the farmer
  rating summary and the admin analytics are functions over the tables.
- **The SQL.** The statements behind them are pure functions in
  `Queries` (WHERE filters, COUNT, AVG, GROUP BY) and `Lifecycle`
  (UPDATE ... WHERE and the identifier formats).
- **Lemmas.** These prove what the service promises: table invariants,
  idempotence, freshness, round trips and sums.

Modules, in dependency order:

| module | holds |
|---|---|
| `Wrappers` | `Option` |
| `Decimal` | decimal numerals: `str(n)`, zero-filled `%03d`, fixed-width strftime fields, and their values |
| `Time` | calendar date-times, the `Clock` (local time, UTC, POSIX seconds), `%Y%m%d%H%M%S` and the SQLite date/timestamp texts |
| `Records` | rows, request bodies, replies, the HTTP errors (401/403/404/500) and `Result` |
| `Auth` | the session token, login, resolving the caller from the token, the role gate |
| `Queries` | the read-only SQL |
| `Lifecycle` | complaint ids, certificate numbers, revocation and status updates as row functions |
| `Portal` | the seed data, the table invariants, `FarmPortal`, and two sample sessions (`WorkerSession`, `AdminSession`) |

Modelling decisions:

- **Password hashing.** SHA-256 is the symbolic constructor
  `Digest.Sha256(plaintext)`. Two digests are equal exactly when their
  plaintexts are, so the hash behaves as an injective function.
- **Tokens.** A token either carries claims this server signed
  (`Signed(claims)`) or does not verify (`Unverifiable`).
  - A signed token is accepted while `now < exp`. The token library
    rejects a token at `exp <= now`.
  - The caller is the users row named by the token's `user_id`, looked up
    again on every request. The role checks therefore use the stored role,
    not the role written in the token.
- **Time.** Time is an explicit `Clock` parameter.
  - The complaint id and the certificate year come from local time
    (`datetime.now()`).
  - `CURRENT_TIMESTAMP` and `DATE('now')` are SQLite's UTC texts.
  - Token expiry uses POSIX seconds.
- **The seed.** The seed runs only when the users table is empty. The
  constructor is that case.
- **Complaint-id collisions.** Two complaints filed in the same second get
  the same id. The UNIQUE constraint on `complaint_id` then raises an error
  the handler does not catch, so the reply is a 500. `CreateComplaint`
  models this as `ServerError`.
- **Row order.** `ORDER BY created_at DESC` is modelled as reverse table
  order, newest row first. Rows are appended with the clock's current
  stamp, so reverse table order is an order by `created_at`, descending,
  as long as the clock does not go backwards. SQLite leaves the order of
  rows with equal stamps unspecified; the model picks reverse insertion.
  The admin listing states this order in full. The per-user listing
  states its contents with multiplicity, not their order. The order of the
  GROUP BY rows is left unspecified by every contract. SQLite usually
  sorts them by category; the model happens to list them in order of
  first appearance.
- **64-bit integers.** The database driver binds a Python `int` only in
  the signed 64-bit range. Outside it the driver raises an error the
  handler does not catch, and the reply is a 500. `CreateRating` and
  `GetFarmerRatings` model this.

## Model

| member | source | states |
|---|---|---|
| `Decimal.ValueOfZeroPad` | farm-backend/main.py:316 | zero-filling a numeral (`:03d`) never changes the number it denotes |
| `Decimal.ZeroPadWidth` | farm-backend/main.py:316 | a number below 10^w fills a w-wide zero-filled field exactly |
| `Decimal.ZeroPadInjective` | farm-backend/main.py:316 | distinct numbers give distinct zero-filled numerals |
| `Time.CompactRoundTrip` | farm-backend/main.py:248 | `%Y%m%d%H%M%S` of a valid date-time is 14 digits and parses back to that date-time |
| `Time.CompactInjective` | farm-backend/main.py:248 | distinct date-times give distinct 14-digit stamps |
| `Time.DateText` | farm-backend/main.py:320 | definition of the text `DATE('now')` gives; its format and field values are in `Time.DateTextFields` |
| `Time.DateTextFields` | farm-backend/main.py:320 | `DATE('now')` of a valid date is 10 characters YYYY-MM-DD whose three digit fields give back the year, month and day |
| `Time.TimestampText` | farm-backend/main.py:281 | definition of the text `CURRENT_TIMESTAMP` gives; its format and field values are in `Time.TimestampTextFields` |
| `Time.TimestampTextFields` | farm-backend/main.py:281 | `CURRENT_TIMESTAMP` of a valid instant is 19 characters: the date text, a space, and HH:MM:SS whose fields give back the hour, minute and second |
| `Auth.CreateAccessToken` | farm-backend/main.py:187-191 | definition: a signed token carrying the user's id, username and role, expiring 86400 s (1440 minutes) after issue; its properties are in `Auth.TokenRoundTrip` |
| `Auth.VerifyToken` | farm-backend/main.py:193-198 | accepts exactly a signed token with now < exp and returns its claims; anything else is 401 "Invalid token" |
| `Auth.TokenRoundTrip` | farm-backend/main.py:187-198 | a freshly issued token verifies exactly while now < issue time + 86400 s (1440 minutes), returns the identity it was issued for, and is rejected with 401 "Invalid token" after expiry |
| `Auth.FindUser` | farm-backend/main.py:204-205 | finds a row iff some user has that id; the row found is in the table and has that id |
| `Auth.FindByCredentials` | farm-backend/main.py:220-222 | finds a row iff some user has the username and the stored verifier; the row found matches both |
| `Auth.Login` | farm-backend/main.py:215-237 | succeeds iff some user has the username and verifier = SHA-256(password); the reply is that user's role, "bearer" and a token for the user's id, username and role; otherwise 401 "Invalid credentials" |
| `Auth.GetCurrentUser` | farm-backend/main.py:200-208 | succeeds iff the token is signed, unexpired, and its user id is in users; the caller is that stored row; every failure is a 401, "Invalid token" when the token does not verify or has expired and "User not found" otherwise |
| `Auth.Authorize` | farm-backend/main.py:275-276 | a 401 from caller resolution propagates unchanged; a resolved caller with another role gets 403 with the handler's message; otherwise the caller is returned |
| `Auth.LoginThenResolve` | farm-backend/main.py:215-237 | with unique user ids, the token a successful login returns resolves, until it expires, to a user with exactly those credentials and the announced role |
| `Auth.RightPasswordAccepted` | farm-backend/main.py:219-237 | with unique usernames, a user's own password logs that user in, with a "bearer" token for the user's id, username and role |
| `Auth.WrongPasswordRejected` | farm-backend/main.py:219-225 | with unique usernames, a password whose hash differs from a user's verifier never logs that user in |
| `Queries.Where` | farm-backend/main.py:266 | a WHERE filter keeps exactly the rows satisfying the predicate, each as many times as in the table |
| `Queries.WhereCountsRows` | farm-backend/main.py:382-389 | COUNT(*) WHERE p equals the number of row positions p holds at |
| `Queries.Reversed` | farm-backend/main.py:264 | newest first: position i holds the row |s| - 1 - i positions in, with the same rows and multiplicities |
| `Queries.VisibleComplaints` | farm-backend/main.py:263-269 | an admin sees the whole table, newest first; anyone else sees exactly the complaints under their own user id, each as many times as it is in the table |
| `Queries.ActiveCertificates` | farm-backend/main.py:293 | a certificate is listed iff it is in the table with status Active, each Active row as many times as it is in the table and no other row |
| `Queries.FindCertificate` | farm-backend/main.py:297-307 | 404 "Certificate not found" iff no row has the number; otherwise a row of the table with that number |
| `Queries.Average` | farm-backend/main.py:362-365 | AVG is NULL iff there are no rows; otherwise average × count = sum |
| `Queries.TotalOfRatingsFor` | farm-backend/main.py:362-367 | summing an aspect over the farmer's rows equals summing it over the whole table with other farmers' rows counted as 0 |
| `Queries.AverageOfFarmer` | farm-backend/main.py:362-367 | AVG of an aspect WHERE farmer_id = ? is NULL iff the farmer has no ratings, otherwise the farmer's score sum divided by their rating count |
| `Queries.FarmerSummary` | farm-backend/main.py:357-371 | total_ratings is the number of ratings for that farmer; each of avg_transport, avg_conditions, avg_equipment and avg_wages is NULL iff that count is 0 and otherwise that aspect's sum over the farmer's ratings divided by the count |
| `Queries.TotalBounds` | farm-backend/main.py:362-365 | a sum of scores within [lo, hi] lies within [lo·n, hi·n] |
| `Queries.AverageBounds` | farm-backend/main.py:362-365 | an average lies between the lowest and highest possible score |
| `Queries.TransportAverageExample` | farm-backend/main.py:357-371 | scores 5 and 3 for one farmer average to 4.0 over 2 ratings; another farmer's rating is not counted |
| `Queries.Categories` | farm-backend/main.py:391 | the GROUP BY keys are distinct and are exactly the categories that occur |
| `Queries.CountsFor` | farm-backend/main.py:391 | each group's count is the number of complaints in its category |
| `Queries.GroupByCategory` | farm-backend/main.py:391 | one group per distinct category, covering every complaint, each count being that category's complaint count (never 0) |
| `Queries.TallySnoc` | farm-backend/main.py:391 | one more complaint adds one to the total over the groups exactly when its category is among them |
| `Queries.GroupByCategoryTotal` | farm-backend/main.py:391 | the per-category counts sum to the number of complaints |
| `Queries.Statistics` | farm-backend/main.py:382-399 | active_certificates, total_workers and pending_complaints count the Active certificates, the users with role worker and the complaints New or In Review; one group per category that occurs and none other: the groups are distinct, cover every complaint, each count is that category's complaint count and at least 1, and the counts sum to the number of complaints |
| `Lifecycle.ComplaintId` | farm-backend/main.py:248 | definition: "CPL-" followed by the creation second as `%Y%m%d%H%M%S`; its properties are in `Lifecycle.ComplaintIdRoundTrip` and `Lifecycle.ComplaintIdCollision` |
| `Lifecycle.ComplaintIdRoundTrip` | farm-backend/main.py:248 | a generated complaint id is "CPL-" and 14 digits, and parses back to its creation second |
| `Lifecycle.ComplaintIdCollision` | farm-backend/main.py:248-253 | two generated ids are equal iff the two creation seconds are |
| `Lifecycle.SeedComplaintIdIsNotGenerated` | farm-backend/main.py:149 | the seed id "CPL-001" does not have the generated form, so no generated id equals it |
| `Lifecycle.CertNumberRoundTrip` | farm-backend/main.py:316 | "CERT-<year>-<n zero-filled to 3>" gives back n as its sequence number, for any 4-digit year |
| `Lifecycle.SequencedNumbersAreUnique` | farm-backend/main.py:63 | if row i carries sequence number i + 1, the certificate numbers are unique |
| `Lifecycle.NextCertNumber` | farm-backend/main.py:316 | definition: `CertNumber` of the local year and the row count + 1; its properties are in `Lifecycle.NextCertNumberIsFresh` |
| `Lifecycle.NextCertNumberIsFresh` | farm-backend/main.py:316-324 | count + 1 gives a number no existing certificate has; appending it keeps the table sequenced and its numbers unique |
| `Lifecycle.LookupAfterIssue` | farm-backend/main.py:301-307 | after a certificate is appended under a fresh number, the lookup by that number returns it |
| `Lifecycle.Revoke` | farm-backend/main.py:333 | revocation sets exactly the rows with that number to Revoked and leaves every other row untouched |
| `Lifecycle.RevokeIdempotent` | farm-backend/main.py:333 | revoking twice is revoking once |
| `Lifecycle.RevokeUnknownIsNoOp` | farm-backend/main.py:333-336 | revoking a number no row has changes nothing |
| `Lifecycle.RevokedRowsAreRevoked` | farm-backend/main.py:333 | afterwards, every row with that number is Revoked |
| `Lifecycle.RevokedCertificateIsWithdrawn` | farm-backend/main.py:333 | after revoking an existing number, the lookup reports Revoked and no row with that number is listed as Active |
| `Lifecycle.SetStatus` | farm-backend/main.py:280-283 | a status update stores the status verbatim and refreshes updated_at on exactly the rows with that complaint id; no other row or field changes |
| `Lifecycle.SetStatusUnknownIsNoOp` | farm-backend/main.py:280-286 | updating an id no complaint has changes nothing |
| `Lifecycle.SetStatusLastWins` | farm-backend/main.py:280-283 | a second update of the same complaint overrides the first |
| `Portal.SeedCertificatesAreSequenced` | farm-backend/main.py:135-144 | the seeded numbers CERT-2025-001 and -002 carry sequence numbers 1 and 2 |
| `Portal.SeedLogins` | farm-backend/main.py:124-132 | each seeded account logs in with its demo password and gets a token for its own id and role |
| `Portal.SeedCallers` | farm-backend/main.py:128-132 | a token issued for a seeded account resolves to that account's row until it expires |
| `Portal.SetStatusKeepsComplaintsValid` | farm-backend/main.py:280-283 | a status update keeps complaint row ids, complaint ids (UNIQUE) and filers intact |
| `Portal.IssueKeepsCertificatesValid` | farm-backend/main.py:316-321 | appending an Active, unowned row with the next id and number `CERT-<year>-<count + 1>` keeps the certificate invariants, and the number is new to the table |
| `Portal.RevokeKeepsCertificatesValid` | farm-backend/main.py:333 | revocation keeps row ids, the numbering invariant and the status domain {Active, Revoked} |
| `Portal.SeedTablesValid` | farm-backend/main.py:124-150 | the seed rows satisfy the four table invariants |
| `Portal.FarmPortal.constructor` | farm-backend/main.py:120-152 | the first start-up seeds the three users, two certificates and one complaint with the values the inserts give, with no ratings, and establishes the table invariants |
| `Portal.FarmPortal.LoginAs` | farm-backend/main.py:215-237 | login over the current users table: succeeds iff some user has the username and verifier = SHA-256(password); the reply is that user's role, "bearer" and a token for the user's id, username and role; otherwise 401 "Invalid credentials" |
| `Portal.FarmPortal.Me` | farm-backend/main.py:239-241 | succeeds iff the token is signed, unexpired and names an existing user id; the reply is the stored row with that id; otherwise 401 "Invalid token" (bad or expired token) or "User not found" |
| `Portal.FarmPortal.GetComplaints` | farm-backend/main.py:258-270 | a caller-resolution 401 propagates unchanged; an admin gets every complaint, newest first; anyone else gets exactly the complaints under the token's user id, each as many times as it is in the table |
| `Portal.FarmPortal.GetCertificates` | farm-backend/main.py:289-295 | a caller-resolution 401 propagates unchanged; otherwise exactly the Active rows, each as many times as it is in the table |
| `Portal.FarmPortal.VerifyCertificate` | farm-backend/main.py:297-307 | no authentication; 404 "Certificate not found" iff no row has the number; otherwise a row with that number |
| `Portal.FarmPortal.GetFarmerRatings` | farm-backend/main.py:357-371 | no authentication; 500 iff the farmer id is outside the 64-bit range; otherwise the summary `Queries.FarmerSummary` states: the farmer's rating count and, per aspect, NULL iff it is 0, else score sum / count |
| `Portal.FarmPortal.GetAnalytics` | farm-backend/main.py:374-399 | admins only: a caller-resolution 401 propagates unchanged, another role gets 403 "Only admins can view analytics"; the three counts, and groups that are distinct, cover every complaint, count their category's complaints (at least 1 each) and sum to the number of complaints |
| `Portal.FarmPortal.CreateComplaint` | farm-backend/main.py:244-256 | any resolved caller; appends one row with the caller's id, the given texts, status New, id CPL-<14 digits of now>, and replies "submitted"; 401 or a same-second id collision (500) leaves every table unchanged; the other tables never change |
| `Portal.FarmPortal.UpdateComplaint` | farm-backend/main.py:272-286 | admins only; 401/403 leave every table unchanged; otherwise the complaints table becomes `SetStatus` of the old one and the reply is success even if no row matched |
| `Portal.FarmPortal.CreateCertificate` | farm-backend/main.py:309-324 | admins only; 401/403 leave every table unchanged; otherwise appends one Active row numbered CERT-<local year>-<count + 1>, issued today (UTC), whose number no earlier certificate has |
| `Portal.FarmPortal.RevokeCertificate` | farm-backend/main.py:326-336 | admins only; 401/403 leave every table unchanged; otherwise the certificates table becomes `Revoke` of the old one and the reply is success even for an unknown number |
| `Portal.FarmPortal.CreateRating` | farm-backend/main.py:339-355 | workers only; 401/403 leave every table unchanged; an integer outside the 64-bit range is a 500 and inserts nothing; otherwise appends one rating under the caller's id with the given scores and comments, unchecked |
| `Portal.OwnRowListed` | farm-backend/main.py:263-269 | a non-admin caller's listing includes every complaint filed under the caller's id |
| `Portal.OwnPairListed` | farm-backend/main.py:258-270 | when the complaints table is two New rows of a non-admin caller, the caller's listing has exactly those two rows, both New |
| `Portal.SignInWorker` | farm-backend/main.py:215-241 | on the seeded users table, the worker's login token resolves within its lifetime to the worker's row, both in /auth/me and in caller resolution |

The two sample sessions have no postconditions of their own. Each starts
from a freshly seeded portal and proves an end-to-end behaviour by
assertions and by the methods and lemmas it calls:

- **Worker.** `Portal.WorkerSession` calls `Portal.SignInWorker` and
  then `Portal.FileAndList`. `Portal.FileAndList` uses
  `Portal.OwnRowListed`, files through `Portal.FileOwn`, and then
  uses `Portal.OwnPairListed`. The
  worker logs in and already sees complaint CPL-001. After filing, the
  listing holds exactly two rows, CPL-001 and the new complaint. Both
  are New, and nothing filed by anyone else is listed.
- **Admin.** `Portal.AdminSession` calls `Portal.IssueAndLookup` and
  then `Portal.RevokeTwice` on the number just issued. The admin issues
  a certificate and finds it by its number. Revoking it twice succeeds
  both times and the second call changes nothing. The lookup then
  reports the certificate Revoked, and it is no longer listed as
  Active.

Where the documented behaviour and the code differ, the model follows the
code:

- **The worker sees two complaints.** The documented example says
  worker1 sees exactly one complaint after filing one. In the code, the
  seeded complaint CPL-001 is filed under user id 2, which is worker1
  (farm-backend/main.py:128-131, 149). So worker1 sees two complaints, both
  New. `Portal.FileAndList` asserts it, through
  `Portal.OwnPairListed`.
- **Unknown ids still succeed.** Updating an unknown complaint id or
  revoking an unknown certificate number reports success and changes
  nothing. There is no 404 for either.

## Left out

- Face endpoints (`register_face`, `verify_face`, `get_face_registered_users`, farm-backend/main.py:400-464): image handling with no table logic worth modelling; `verify_face` ignores its input. The admin gate of the face-user listing is therefore not modelled.
- JWT signing and decoding (HS256, the secret key) and SHA-256: foreign libraries. The token is abstract and the hash is a symbolic injective constructor.
- SQLite connections, the schema DDL, CORS, FastAPI dependency wiring and uvicorn start-up: plumbing.
- Request-body validation by the web framework (422 replies for missing or ill-typed fields): the model receives well-typed bodies.
- Concurrency: the race between counting and inserting certificates, and simultaneous complaints; the model is sequential. A same-second collision between sequential requests is modelled (the 500 reply).
- Result order: `ORDER BY created_at DESC` is modelled as reverse table order, which matches it only while the clock does not go backwards between inserts; among equal stamps SQLite's order is unspecified and the model's choice is one of the allowed ones. The order of GROUP BY rows is unspecified in the contracts; the model's function lists them in order of first appearance, where SQLite usually sorts by category.
- `Queries.VisibleComplaints`: for a non-admin caller the contract states the rows and their multiplicities, not their order.
- `Portal.FarmPortal.GetComplaints`: as for `Queries.VisibleComplaints`, the order is stated only for an admin caller.
- `Portal.FarmPortal.constructor`: all seed rows get one `created_at` stamp, while SQLite evaluates `CURRENT_TIMESTAMP` once per INSERT statement, so a seed that straddles a second boundary would give later rows a later stamp.
- `Queries.Average`: AVG is an exact real quotient, not a floating-point value.
- `Time.Compact`: `%Y` is taken as four zero-filled digits, so years are 1 to 9999; the clock's own source is a parameter.
- The seed on a non-empty database (start-up after the first): it inserts nothing, which needs no model; the constructor is the empty-database start-up.
- The browser client (`api.js`): HTTP calls and local storage, with no logic of its own.
- Foreign keys: SQLite does not enforce them by default and `create_rating` checks neither the farmer id nor the score range; the model does not assume either.
