# Manpower management backend — a verified Dafny model

This project models the rules of the Go backend of a manpower-management
system. The backend tracks employees of several companies and the documents
each employee holds (visas, permits, contracts), with an expiry date where one
applies. One document per employee may be marked *primary*; the employee
list, the dashboard counts and the expiry alerts are all computed from it.

The model covers:

- **Employee list** (`employee_handler.dfy`):
  - query-string normalisation of `page` and `limit` and the page offset;
  - the ORDER BY whitelist;
  - the dynamic `WHERE` builder, whose `$n` placeholders must stay in step with the `args` slice;
  - the `doc_status` CASE over the primary document and the `status` filter;
  - the LEFT JOIN with the primary document;
  - the dynamic `SET` builder of the update;
  - the CSV escaping of the export.
- **Document transactions** (`document_handler.dfy`): `TogglePrimary`, `Renew` and `Update`. They are methods of a `DocumentTable` class over an in-memory table. The class keeps the invariant "at most one primary document per employee".
- **Dashboard** (`dashboard_handler.dfy`): the three document counts, the expiry alerts and the per-company employee counts.
- **Authentication** (`auth_handler.dfy`, `auth_middleware.dfy`):
  - substring search and duplicate-key detection;
  - the outcomes of registration and login;
  - the `Bearer` header check;
  - the role-level check.
- **Upload rules** (`upload_handler.dfy`): size limit, content-type whitelist, filename sanitising and the storage path.
- **Request validators** (`employee_model.dfy`, `document_model.dfy`, `user_model.dfy`).
- **Shared pieces**:
  - `wrappers.dfy`: `Option`;
  - `text.dfy`: `%d`, `strings.Join`, `strings.ReplaceAll`;
  - `sorting.dfy`: the order an `ORDER BY` yields;
  - `sql.dfy`: the placeholder convention and the UPDATE statement both update handlers issue.

Conventions:

- **Dates** are whole day numbers. `CURRENT_DATE` is a parameter `today`.
- **Strings** are sequences of `char`, one per byte, so `|s|` is Go's `len(s)`.
- **Integers:** Go's `int` is taken as 64 bits wide. The model is unbounded except where the width matters; see the finding below.
- **The database** is replaced by sequences of rows. Each SQL statement becomes a function of those rows; each transaction becomes one method.
- **Parameters** stand in for everything outside the repository: bcrypt, JWT signing and verification, MIME sniffing, the clock, database-generated ids and database failures.

## Model

| member | source | states |
|---|---|---|
| `EmployeeHandler.CsvEscape` | backend/internal/handlers/employee.go:565-570 | a value without `,` or `"` is returned unchanged; otherwise the result is wrapped in quotes |
| `EmployeeHandler.CsvRoundTrip` | backend/internal/handlers/employee.go:565-570 | stripping the outer quotes and collapsing `""` recovers every escaped value |
| `EmployeeHandler.CollapseUndoesDoubling` | backend/internal/handlers/employee.go:567 | doubling every quote yields an escaped interior that collapses back to the input |
| `EmployeeHandler.CsvEscapeConformance` | backend/internal/handlers/employee.go:565-570 | the output is an RFC 4180 field exactly unless the value holds a line break but no comma and no quote |
| `EmployeeHandler.NilIfEmpty` | backend/internal/handlers/employee.go:557-562 | NULL exactly for the empty text; otherwise the text itself |
| `EmployeeHandler.Atoi` | backend/internal/handlers/employee.go:131 | `strconv.Atoi` with the error dropped, through its fast path below 19 bytes and `ParseInt` otherwise, equals `AtoiReading`: the signed value of an all-digit text clamped to 64 bits; 0 for other text, unless its leading digits alone exceed 2^64 − 1, which clamps too |
| `EmployeeHandler.ScanUintReadsDigitPrefix` | backend/internal/handlers/employee.go:131 | `ParseUint`'s digit loop ends with a range error iff the leading digits exceed 2^64 − 1, else with a syntax error iff a non-digit follows them, else with their value |
| `EmployeeHandler.ParseIntReading` | backend/internal/handlers/employee.go:131 | `ParseInt`'s value with the error dropped (sign, digit loop, clamp to 64 bits) equals `AtoiReading` |
| `EmployeeHandler.FastPathReading` | backend/internal/handlers/employee.go:131 | for texts of 1 to 18 bytes, Atoi's fast path reads what `ParseInt` would: such digits cannot overflow |
| `EmployeeHandler.OverflowBeforeJunkClamps` | backend/internal/handlers/employee.go:131 | digits above 2^64 − 1 followed by a non-digit read as MaxInt64, and as MinInt64 after a `-` |
| `Text.LeadingDigits` | backend/internal/handlers/employee.go:131 | the length of the longest all-digit prefix: every byte before it is a digit and the byte at it is not |
| `Text.DigitsValueBelow` | backend/internal/handlers/employee.go:131 | n decimal digits are worth less than 10^n |
| `Text.Pow10Monotone` | backend/internal/handlers/employee.go:131 | 10^m ≤ 10^n when m ≤ n |
| `Text.Pow10Eighteen` | backend/internal/handlers/employee.go:131 | 10^18 < 2^63 − 1, the bound behind Atoi's 19-byte fast path |
| `EmployeeHandler.AtoiReadsDecimal` | backend/internal/handlers/employee.go:131 | a 64-bit non-negative number written in decimal is read back unchanged |
| `EmployeeHandler.NormalizePage` | backend/internal/handlers/employee.go:131-134 | page is at least 1; a parsed value below 1 becomes 1 |
| `EmployeeHandler.NormalizeLimit` | backend/internal/handlers/employee.go:135-138 | limit lies in [1, 100]; any value outside that range, or unparsable text, becomes 20 |
| `EmployeeHandler.UnparsableTakesDefaults` | backend/internal/handlers/employee.go:131-138 | a missing or non-numeric page and limit give page 1 and limit 20, provided the text's leading digits do not exceed 2^64 − 1 (that case is `OverflowBeforeJunkClamps`) |
| `EmployeeHandler.Wrap64` | backend/internal/handlers/employee.go:139 | two's-complement reduction to 64 bits: the result is in range and congruent to the input |
| `EmployeeHandler.OffsetAsWrittenAgrees` | backend/internal/handlers/employee.go:139 | where page·limit fits in 64 bits, the source's offset equals the intended one |
| `EmployeeHandler.OffsetAsWritten` | backend/internal/handlers/employee.go:139 | the source's offset is a 64-bit value congruent to (page − 1) · limit modulo 2^64 |
| `EmployeeHandler.WrapDown` | backend/internal/handlers/employee.go:139 | a product k moduli above a 64-bit value wraps down by exactly k · 2^64 |
| `EmployeeHandler.OffsetWrapsNegative` | backend/internal/handlers/employee.go:131-139 | `page=500000000000000001&limit=20` passes normalisation, yet the 64-bit offset is negative |
| `EmployeeHandler.JunkAfterHugePageWrapsNegative` | backend/internal/handlers/employee.go:131-139 | `page=99999999999999999999x` reads as page 2^63 − 1, and with the default limit the 64-bit offset wraps to −40 |
| `EmployeeHandler.Offset` | backend/internal/handlers/employee.go:139 | the offset is non-negative, and offset + limit = page · limit |
| `EmployeeHandler.TotalPages` | backend/internal/handlers/employee.go:271 | the ceiling of total / limit: the pages hold every row, and the last page is not empty |
| `EmployeeHandler.PagesStartInsideTotal` | backend/internal/handlers/employee.go:139-271 | every page from 1 to the total number of pages starts at an existing row |
| `EmployeeHandler.PageOf` | backend/internal/handlers/employee.go:242-245 | LIMIT/OFFSET returns at most `limit` rows |
| `EmployeeHandler.PagesArePrefix` | backend/internal/handlers/employee.go:242-245 | pages 1 to n in sequence form the first n·limit rows |
| `EmployeeHandler.PagesCoverRows` | backend/internal/handlers/employee.go:242-271 | walking pages 1 to the total number of pages returns every row once, in order |
| `EmployeeHandler.SortColumn` | backend/internal/handlers/employee.go:151-160 | the ORDER BY column is always a whitelist value; a known key maps to its column, anything else to `e.name` |
| `EmployeeHandler.SortDirection` | backend/internal/handlers/employee.go:161-163 | `desc` exactly when `desc` was asked for, otherwise `asc` |
| `EmployeeHandler.DocStatusOf` | backend/internal/handlers/employee.go:229-234 | none iff there is no expiry; expired iff expiry < today; expiring iff today ≤ expiry ≤ today+30; valid iff expiry > today+30 |
| `EmployeeHandler.ExpiryDaysLeft` | backend/internal/handlers/employee.go:235 | NULL iff the joined expiry is NULL (no primary document, or a primary without an expiry date); otherwise expiry − today |
| `EmployeeHandler.StatusFromDaysLeft` | backend/internal/handlers/employee.go:229-235 | the status is read off the days left: below 0, from 0 to 30, or above 30 |
| `EmployeeHandler.StatusFilterOf` | backend/internal/handlers/employee.go:202-209 | `expiring`, `expired` and `valid`/`active` each select their filter; any other value selects none |
| `EmployeeHandler.StatusFilterSelectsStatus` | backend/internal/handlers/employee.go:202-234 | each filter keeps exactly the rows whose doc_status has that name (`active` meaning `valid`); any other value keeps every row |
| `EmployeeHandler.PrimaryDocs` | backend/internal/handlers/employee.go:239 | the join condition selects exactly that employee's primary documents: each one selected is, and each one in the table is selected |
| `EmployeeHandler.EmployeeRows` | backend/internal/handlers/employee.go:236-239 | one employee joins to at least one row, each carrying that employee and either no document or one of its primary documents |
| `EmployeeHandler.JoinPrimary` | backend/internal/handlers/employee.go:236-239 | the LEFT JOIN gives every employee at least one row; each row's employee comes from the list and its document is a primary document of that employee |
| `EmployeeHandler.AtMostOnePrimaryDoc` | backend/internal/models/document.go:7-12 | under the table invariant, an employee has at most one primary document |
| `EmployeeHandler.JoinOneRowPerEmployee` | backend/internal/handlers/employee.go:212-239 | under the invariant the LEFT JOIN yields exactly one row per employee, in employee order; a row carries a document iff its employee has a primary one, and that document is it |
| `EmployeeHandler.FilterKeeps` | backend/internal/handlers/employee.go:202-209 | without a status filter every row is kept; under a filter only rows with an expiry are kept |
| `EmployeeHandler.FilterRows` | backend/internal/handlers/employee.go:202-216 | a row is kept iff the status condition holds of its primary document's expiry |
| `EmployeeHandler.ListFilters` | backend/internal/handlers/employee.go:175-199 | the five optional filters, in source order |
| `EmployeeHandler.RenderConditionsSplit` | backend/internal/handlers/employee.go:171-199 | the k-th condition of the WHERE text names placeholder `$(first+k)` |
| `EmployeeHandler.AppendCondition` | backend/internal/handlers/employee.go:175-179 | appending a condition extends the text by its clause, numbered after those already there |
| `EmployeeHandler.AppendConditionArg` | backend/internal/handlers/employee.go:175-179 | appending a condition extends the arguments by its value |
| `EmployeeHandler.BuildWhere` | backend/internal/handlers/employee.go:171-199 | the WHERE text has one clause per non-empty filter; clause k names `$k` bound to `args[k-1]`; argIdx = len(args) + 1 |
| `EmployeeHandler.BuildWhereFrom` | backend/internal/handlers/employee.go:171-199 | the loop keeps text, arguments and argIdx in step after every filter |
| `EmployeeHandler.PlanList` | backend/internal/handlers/employee.go:131-245 | LIMIT is `$argIdx` bound to the limit; OFFSET is `$argIdx+1` bound to the corrected `Offset` (the source binds the 64-bit wrapped product, see Findings); the filter arguments come first |
| `EmployeeHandler.EmployeeUpdateFields` | backend/internal/handlers/employee.go:399-440 | the fourteen updatable columns, in source order |
| `EmployeeHandler.NoFieldsMeansAllAbsent` | backend/internal/handlers/employee.go:399-445 | the request has no member iff every column of the field list is absent |
| `EmployeeHandler.UpdateEmployee` | backend/internal/handlers/employee.go:372-455 | an empty id is refused; then a request with no member ("No fields to update"); otherwise the SET list holds the provided columns then `updated_at = NOW()`, and the id is bound to the placeholder after them |
| `EmployeeHandler.FieldsFollowColumns` | backend/internal/handlers/employee.go:399-440 | the k-th SET candidate is the k-th column's name paired with the request's value for that column |
| `EmployeeHandler.ColumnsDetermineRow` | backend/internal/handlers/employee.go:389-455 | two employees with the same id and the same fourteen column values are the same row, so the columns cover everything an update can touch |
| `EmployeeHandler.ApplyEmployeeUpdate` | backend/internal/handlers/employee.go:389-455 | the update keeps the employee's id, and a request with no member leaves the employee unchanged |
| `EmployeeHandler.UpdatedColumn` | backend/internal/handlers/employee.go:399-455 | after the update, each of the fourteen columns holds the request's value when the request provides it and the row's old value otherwise |
| `EmployeeHandler.UpdateSetsOnlyProvided` | backend/internal/handlers/employee.go:389-455 | the row written is exactly the SET list: each bound (column, value) pair is the new value of that column, every column that changed is bound with its new value, and `id` is never bound |
| `EmployeeHandler.SetListIsWritten` | backend/internal/handlers/employee.go:399-455 | each (column, value) pair the statement binds is the updated row's value of that column; `id` is never bound |
| `EmployeeHandler.ChangesAreInSetList` | backend/internal/handlers/employee.go:399-455 | a column whose value changed is bound in the SET list with its new value |
| `EmployeeHandler.UpdateIdempotent` | backend/internal/handlers/employee.go:389-455 | applying the same update twice gives the row of applying it once |
| `Sql.ProvidedMembers` | backend/internal/handlers/employee.go:399-440 | a (column, value) pair is provided exactly when its request member is present |
| `Sql.BuildSetClauses` | backend/internal/handlers/employee.go:389-397 | `addField` over the members: clause k is `col = $(k+1)` bound to `args[k]`; argIdx = len(args) + 1 |
| `Sql.JoinClauses` | backend/internal/handlers/document.go:274-280 | the `setStr` loop builds `strings.Join(setClauses, ", ")` |
| `Sql.UpdateStatement` | backend/internal/handlers/employee.go:442-455 | no statement iff no member is present; otherwise the SET list with the timestamp clause last, and the id at placeholder count + 1 |
| `Text.DecimalRoundTrip` | backend/internal/handlers/employee.go:176 | a `$%d` placeholder's number reads back as the number printed |
| `Text.DecimalInjective` | backend/internal/handlers/employee.go:176 | distinct argument indices give distinct placeholders |
| `Text.ReplaceChar` | backend/internal/handlers/employee.go:567 | `strings.ReplaceAll` with a one-byte needle: no needle remains when the replacement lacks it, and the text is unchanged without it; with a one-byte replacement, each position holds the replacement where the needle was and the old byte elsewhere |
| `Sorting.SortBy` | backend/internal/handlers/dashboard.go:97 | ORDER BY: the result is sorted by the key and is a permutation of the rows |
| `Sorting.Insert` | backend/internal/handlers/dashboard.go:97 | inserting into a sorted sequence keeps it sorted and adds exactly the element |
| `EmployeeModel.CreateEmployeeRequest.Validate` | backend/internal/models/employee.go:73-93 | name error iff length < 2 or > 100; trade error iff length < 2; companyId, mobile and joiningDate errors iff empty; optional members never err; empty map iff all checks pass |
| `DocumentModel.CreateDocumentRequest.Validate` | backend/internal/models/document.go:53-67 | documentType error iff length < 2; fileUrl and fileName errors iff empty; the expiry is never checked |
| `UserModel.RegisterRequest.Validate` | backend/internal/models/user.go:23-37 | email error iff empty; password error iff length < 6; name error iff empty; empty map iff all pass |
| `UserModel.LoginRequest.Validate` | backend/internal/models/user.go:46-57 | email and password errors iff each is empty; empty map iff both are present |
| `UserModel.RegisteredCredentialsPassLogin` | backend/internal/models/user.go:29-54 | credentials that pass registration's checks pass login's |
| `DocumentHandler.ExpiryColumn` | backend/internal/handlers/document.go:30-52 | `COALESCE(expiry_date::text, '')`: a stored date is read as its own text |
| `DocumentHandler.ScanExpiry` | backend/internal/handlers/document.go:50-52 | an empty expiry text maps to nil; any other text maps to itself |
| `DocumentHandler.ScanExpiryRoundTrip` | backend/internal/handlers/document.go:30-52 | a stored date read through COALESCE and scanned back is the stored value |
| `DocumentHandler.FindDocument` | backend/internal/handlers/document.go:335-342 | the row `WHERE id = $1` selects, or proof that none has that id |
| `DocumentHandler.UnsetPrimaryOf` | backend/internal/handlers/document.go:354 | after clearing, none of the employee's rows is primary; other employees' rows are unchanged; only flags change |
| `DocumentHandler.SetPrimary` | backend/internal/handlers/document.go:352-358 | only flags change; the chosen row is primary and no other row of its employee is |
| `DocumentHandler.SetPrimaryMakesSolePrimary` | backend/internal/handlers/document.go:352-358 | setting a document primary leaves it the only primary of its employee; other employees' rows are unchanged; the invariant holds |
| `DocumentHandler.ClearFlagKeepsInvariant` | backend/internal/handlers/document.go:349-351 | clearing one flag changes only that row and keeps the invariant |
| `DocumentHandler.Prefer` | backend/internal/handlers/document.go:467-478 | a file field takes the request's value when non-empty, else keeps the old one |
| `DocumentHandler.RenewedDocument` | backend/internal/handlers/document.go:467-502 | the renewal has the old row's employee and type, the requested expiry, is primary, and takes each file field from the request when given (size when > 0), else from the old row |
| `DocumentHandler.RenewMakesSolePrimary` | backend/internal/handlers/document.go:489-502 | after clearing and inserting, the new row is the employee's only primary and the invariant holds |
| `DocumentHandler.DocumentUpdateFields` | backend/internal/handlers/document.go:236-265 | the six updatable columns; all absent iff the request has no member the handler reads |
| `DocumentHandler.FieldsFollowColumns` | backend/internal/handlers/document.go:236-265 | the k-th SET candidate is the k-th column's name paired with the request's value for that column |
| `DocumentHandler.ColumnsDetermineRow` | backend/internal/handlers/document.go:232-287 | two documents with the same id, employee, primary flag and six column values are the same row |
| `DocumentHandler.ApplyDocumentUpdate` | backend/internal/handlers/document.go:232-287 | an update never changes id, employee or primary flag (a requested `is_primary` is ignored); each of the six columns takes the request's value when provided and keeps the old value otherwise |
| `DocumentHandler.UpdateSetsOnlyProvided` | backend/internal/handlers/document.go:232-287 | each bound (column, value) pair is the new value of that column, and every column that changed is bound with its new value |
| `DocumentHandler.UpdateIdempotent` | backend/internal/handlers/document.go:232-287 | applying the same update twice gives the row of applying it once |
| `DocumentHandler.UpdateKeepsInvariant` | backend/internal/handlers/document.go:232-287 | an update keeps at most one primary per employee |
| `DocumentHandler.FlagsKeepIds` | backend/internal/handlers/document.go:351-356 | flag updates keep ids distinct and issued |
| `DocumentHandler.DocumentTable.UnsetPrimary` | backend/internal/handlers/document.go:354 | the row-by-row clearing loop yields `UnsetPrimaryOf` of the old rows |
| `DocumentHandler.DocumentTable.TogglePrimary` | backend/internal/handlers/document.go:312-385 | unknown id → 404, no expiry → 400, both with the table unchanged; a primary loses its flag; otherwise the document becomes its employee's sole primary; the invariant is kept |
| `DocumentHandler.DocumentTable.Renew` | backend/internal/handlers/document.go:426-524 | empty expiry → 422 before the lookup; unknown id → 404; neither changes the table; otherwise the employee's primaries are cleared and the renewal is appended under a fresh id; the old row is kept |
| `DocumentHandler.DocumentTable.Update` | backend/internal/handlers/document.go:213-305 | no member → 400 before the lookup; the SET string is the clauses joined by ", " with `last_updated` last; the found row takes the given columns; a missing row → 404 |
| `DashboardHandler.BucketsAreDisjoint` | backend/internal/handlers/dashboard.go:39-65 | each primary document with an expiry lies in exactly one bucket; no other document lies in any |
| `DashboardHandler.BucketsAreStatuses` | backend/internal/handlers/dashboard.go:39-65 | the active, expiring-soon and expired buckets are the primary documents whose doc_status is valid, expiring and expired |
| `DashboardHandler.GetMetrics` | backend/internal/handlers/dashboard.go:39-65 | the employee total is the number of employees, and the three document counts add up to the primary documents with an expiry |
| `DashboardHandler.MetricsPartitionTracked` | backend/internal/handlers/dashboard.go:39-65 | the active, expiring-soon and expired counts add up to the number of primary documents with an expiry |
| `DashboardHandler.UntrackedNotCounted` | backend/internal/handlers/dashboard.go:39-63 | a non-primary document or one without expiry changes no count |
| `DashboardHandler.CountIn` | backend/internal/handlers/dashboard.go:39-65 | a count never exceeds the number of documents; it is 0 iff no document lies in the bucket, and all of them iff every one does |
| `DashboardHandler.AlertLevelOf` | backend/internal/handlers/dashboard.go:87-91 | expired iff expiry < today; urgent iff today ≤ expiry ≤ today+7; warning iff expiry > today+7 |
| `DashboardHandler.AlertOf` | backend/internal/handlers/dashboard.go:84-91 | daysLeft = expiry − today, negative iff the status is expired |
| `DashboardHandler.AlertRows` | backend/internal/handlers/dashboard.go:95-96 | an alert is produced exactly for each primary document with expiry ≤ today+30 |
| `DashboardHandler.GetExpiryAlerts` | backend/internal/handlers/dashboard.go:82-123 | the alerts are sorted by expiry ascending, are a permutation of the selected rows, and `total` is their number |
| `DashboardHandler.AlertsAreExactlySelected` | backend/internal/handlers/dashboard.go:95-97 | an alert appears iff it is the alert of a selected document |
| `DashboardHandler.AlertLevelsInWindow` | backend/internal/handlers/dashboard.go:86-96 | every alert is at most 30 days ahead; warnings are more than 7 days ahead; `expired` iff daysLeft < 0 |
| `DashboardHandler.EmployeeCount` | backend/internal/handlers/dashboard.go:133-139 | the `COUNT(e.id)` of a company is 0 iff no employee has its id |
| `DashboardHandler.Summaries` | backend/internal/handlers/dashboard.go:133-139 | before ordering: row i has company i's id, name and employee count |
| `DashboardHandler.GetCompanySummary` | backend/internal/handlers/dashboard.go:133-139 | one row per company, counts non-increasing, a permutation of the per-company counts |
| `DashboardHandler.EveryCompanyListed` | backend/internal/handlers/dashboard.go:134-137 | every company is listed with its employee count, zero included |
| `DashboardHandler.TotalCountStep` | backend/internal/handlers/dashboard.go:134-137 | one more employee raises the summed counts by the number of companies with its company id |
| `DashboardHandler.CountsCoverEmployees` | backend/internal/handlers/dashboard.go:134-137 | with distinct company ids and every employee's company listed, the counts sum to the number of employees |
| `AuthHandler.SearchString` | backend/internal/handlers/auth.go:207-214 | true iff some 0 ≤ i ≤ len(s) − len(substr) has `s[i:i+len(substr)] == substr` |
| `AuthHandler.Contains` | backend/internal/handlers/auth.go:203-205 | true iff the substring occurs; false when the substring is longer than the text |
| `AuthHandler.EmptyOccurs` | backend/internal/handlers/auth.go:203-214 | the empty substring is always found |
| `AuthHandler.OccursInExtension` | backend/internal/handlers/auth.go:207-214 | an occurrence in a prefix is an occurrence in the whole text |
| `AuthHandler.IsDuplicateKeyError` | backend/internal/handlers/auth.go:199-201 | false for a nil error; otherwise true iff the message contains "duplicate key" or "23505" |
| `AuthHandler.UniqueViolationDetected` | backend/internal/handlers/auth.go:74-77 | PostgreSQL's unique-violation message is recognised as a duplicate |
| `AuthHandler.FindByEmail` | backend/internal/handlers/auth.go:120-123 | the user with that email, or proof that there is none |
| `AuthHandler.Register` | backend/internal/handlers/auth.go:34-96 | validation failure → 422; a failed hash → 500; a repeated email, or any INSERT error whose text names a duplicate key, → 409; any other INSERT error → 500 "Failed to create account"; the account is inserted with role admin; without a token → 500 "Account created but login failed", the account kept; the reply carries no password hash |
| `AuthHandler.Login` | backend/internal/handlers/auth.go:99-155 | an unknown email and a wrong password get the same 401 "Invalid email or password"; success returns the user with an empty hash |
| `AuthMiddleware.IndexOf` | backend/internal/middleware/auth.go:29 | the first occurrence of the separator, or none |
| `AuthMiddleware.SplitAtSpace` | backend/internal/middleware/auth.go:29 | `SplitN(s, " ", 2)`: one part iff there is no space; two parts rejoin to s, the first without a space |
| `AuthMiddleware.BearerToken` | backend/internal/middleware/auth.go:29-35 | a token is accepted only from a header of the form `Bearer ` + token |
| `AuthMiddleware.BearerTokenIsRest` | backend/internal/middleware/auth.go:29-35 | every `Bearer ` header is accepted; its token is all the rest, empty or with spaces |
| `AuthMiddleware.StringClaim` | backend/internal/middleware/auth.go:57-58 | the claim's text when it is a string, else "" |
| `AuthMiddleware.Authenticate` | backend/internal/middleware/auth.go:23-68 | empty header → 401; malformed header → 401; an unverified token → 401 "Invalid or expired token"; an identity iff the token verifies and carries a non-empty userId, and its userId and role are the token's own claims |
| `AuthMiddleware.MissingUserIdRejected` | backend/internal/middleware/auth.go:60-63 | a verified token without a usable userId is refused |
| `AuthMiddleware.RoleLevel` | backend/internal/middleware/auth.go:75-78 | viewer 1, admin 2, any other role 0 |
| `AuthMiddleware.Permits` | backend/internal/middleware/auth.go:84-91 | access iff level(userRole) ≥ level(minRole) |
| `AuthMiddleware.RequireMinRole` | backend/internal/middleware/auth.go:83-95 | denied with "Insufficient permissions" exactly when access is not permitted |
| `AuthMiddleware.RoleHierarchy` | backend/internal/middleware/auth.go:75-91 | admin passes every minimum; viewer passes viewer but not admin |
| `AuthMiddleware.PermitsMonotone` | backend/internal/middleware/auth.go:89-91 | a higher-level role passes whatever a lower-level one passes |
| `AuthMiddleware.UnknownMinimumAdmitsAll` | backend/internal/middleware/auth.go:84-91 | a minimum role missing from the table admits every role, unknown or empty ones included |
| `AuthMiddleware.UnknownRoleRefused` | backend/internal/middleware/auth.go:89-91 | an unknown or empty user role fails every known minimum |
| `UploadHandler.MaxUploadSizeIsTenMebibytes` | backend/internal/handlers/upload.go:16 | the limit is 10 << 20 = 10,485,760 bytes |
| `UploadHandler.TypeAllowed` | backend/internal/handlers/upload.go:18-23 | accepted iff the type is application/pdf, image/jpeg, image/jpg or image/png |
| `UploadHandler.StripTrailingSlashes` | backend/internal/handlers/upload.go:116 | the longest prefix not ending in a slash; only slashes are removed |
| `UploadHandler.AfterLastSlash` | backend/internal/handlers/upload.go:116 | the suffix after the last slash, which holds no slash |
| `UploadHandler.Base` | backend/internal/handlers/upload.go:116 | `filepath.Base`: "." for the empty path, otherwise a non-empty result that is "/" or holds no slash |
| `UploadHandler.BaseSlashIff` | backend/internal/handlers/upload.go:116 | the base is "/" exactly when the path is non-empty and made of slashes only |
| `UploadHandler.BaseIsLastElement` | backend/internal/handlers/upload.go:116 | for any other non-empty path, stripping trailing slashes leaves a non-empty path and the base is its text after the last slash |
| `UploadHandler.BaseIgnoresTrailingSlash` | backend/internal/handlers/upload.go:116 | a trailing slash does not change the base of a non-empty path |
| `UploadHandler.BaseOfPlainName` | backend/internal/handlers/upload.go:116 | a non-empty name without slashes is its own base |
| `UploadHandler.BaseIdempotent` | backend/internal/handlers/upload.go:116 | applying Base twice equals applying it once |
| `UploadHandler.SanitizeFilename` | backend/internal/handlers/upload.go:114-120 | the output is the base name with each space turned into `_`, position by position: same length, no space, not empty, no slash unless it is "/", and "." for the empty name |
| `UploadHandler.SanitizeIdempotent` | backend/internal/handlers/upload.go:114-120 | sanitising twice equals sanitising once |
| `UploadHandler.Category` | backend/internal/handlers/upload.go:79-82 | an empty category becomes `general`; any other is kept |
| `UploadHandler.StoredName` | backend/internal/handlers/upload.go:85-86 | `timestamp_name`: the digits, `_`, then the safe name; no slash in it unless the safe name is "/" |
| `UploadHandler.StoragePath` | backend/internal/handlers/upload.go:79-86 | `category/timestamp_name`: the category (or `general`), a slash at its end, then the stored name |
| `UploadHandler.StoragePathNamesFile` | backend/internal/handlers/upload.go:79-86 | the last element of `category/timestamp_name` is `timestamp_name` whenever the uploaded name is not made of slashes only |
| `UploadHandler.SanitizedSlashIff` | backend/internal/handlers/upload.go:114-120 | a name sanitises to "/" exactly when it is non-empty and made of slashes only |
| `UploadHandler.BaseOfJoin` | backend/internal/handlers/upload.go:116 | the base of `dir/file` is `file` for a slash-free, non-empty file |
| `UploadHandler.AfterLastSlashOfJoin` | backend/internal/handlers/upload.go:116 | after a slash, a slash-free suffix is what follows the last slash |
| `UploadHandler.Upload` | backend/internal/handlers/upload.go:39-86 | any multipart parse failure, an oversized body or a malformed one, → 400 "File too large"; a missing file part → 400; a disallowed sniffed type → 400 naming the type; stored iff the body parses, the file part is present and its type is allowed, under the storage path |

## Left out

- Database access: pgx queries, the pool, transaction begin, commit and rollback, and the 500 replies on database errors. Each statement is a function of in-memory rows and each transaction is one atomic method. Database failures other than the unique-email violation are parameters (`Register`) or omitted.
- `CURRENT_DATE`, `NOW()` and `time.Now()` are parameters (`today`, `timestamp`). The `updated_at`, `last_updated` and `created_at` columns are not modelled.
- Interval arithmetic: `CURRENT_DATE + INTERVAL '30 days'` is read as `today + 30` on day numbers. Calendar details (time zones, the timestamp type of the interval sum) are not modelled.
- bcrypt hashing and comparison, JWT signing, and JWT parsing with HMAC check and expiry: these are parameters (`hash`, `matches`, `token`, `verify`).
- Text-to-date conversion: expiry dates are day numbers in rows. `DocumentHandler.ScanExpiry` works on the text, and the conversion between the two is not modelled. A malformed date in a request, which PostgreSQL rejects, is not modelled.
- `EmployeeHandler.PlanList` binds OFFSET to the corrected `Offset`; the source binds the 64-bit wrapped product `OffsetAsWritten`, which differs only for the page numbers of the finding below.
- The employee list's SELECT:
  - `EmployeeHandler.PlanList` describes its parameters and placeholders.
  - The SQL text is not executed.
  - `e.name ILIKE` search patterns are not interpreted; `%` and `_` in the search text act as wildcards in the source.
  - The joined company name is not modelled.
  - Rows are not ordered by the chosen column: `Sorting.SortBy` is used only for the alerts and the company summary.
- Ties in ORDER BY: `Sorting.SortBy` fixes one order among equal keys. The ensures state only what SQL promises (sorted, and a permutation).
- `TotalPages` uses `math.Ceil` on floats in the source. The model uses integer ceiling division; the two agree while the total stays below 2^53.
- Expiry alerts: the joined employee name and company name are left out. The inner joins are assumed to keep every document, as foreign keys guarantee.
- Company summary: the company currency field is not selected by the query and is not modelled.
- JSON decoding of request bodies and the "Invalid JSON body" replies. Requests are decoded values, and an absent optional member is `None`.
- An empty `{id}` path parameter is modelled as `None` for documents. For employees it is modelled as the empty string.
- `GetByID`, `ListByEmployee`, `Create`, `Delete`, `Export`'s row loop, and `GetMe`: these are single statements with no rule beyond the modelled guards.
- Audit logging, notification, activity and user-management handlers, configuration, storage back ends, `ServeFile` and MIME sniffing (`http.DetectContentType`): the sniffed type is a field of `UploadForm`.
- `UploadHandler.Upload`: reading the file part and rewinding it ("Could not read file.", "Failed to process file.") and storage `Save` failures are not modelled; the sniffed type is an input.
- `UploadHandler.Upload`: the size limit is enforced by `http.MaxBytesReader` on the whole multipart body. The model compares a single body size with the limit, and multipart overhead is not modelled.
- `EmployeeHandler.ApplyEmployeeUpdate`: its own ensures state only the kept id and the empty request. The column-by-column result is the lemma `UpdatedColumn`, because as a postcondition of the function it is too costly for the solver.
- `UploadHandler.Base`: its own ensures do not say when the result is "/" or which element it is. The lemmas `BaseSlashIff` and `BaseIsLastElement` state both; as postconditions they make every caller's proof too costly.

## Findings

| source | as written | input that shows it | evidently intended | confidence | as-written member | corrected member |
|---|---|---|---|---|---|---|
| backend/internal/handlers/employee.go:131-139 | `offset := (page - 1) * limit` in 64-bit `int`, with `page` only bounded below | `page=500000000000000001&limit=20`: `strconv.Atoi` accepts it, and `(page-1)*20 = 10^19` wraps to a negative offset, which PostgreSQL rejects with an error (HTTP 500); likewise `page=99999999999999999999x`, which `strconv.Atoi` clamps to 2^63 − 1 and which wraps to offset −40 | the offset of the page's first row, never negative (page bounded, or the product checked) | not executed | `EmployeeHandler.OffsetAsWritten` (`EmployeeHandler.OffsetWrapsNegative`, `EmployeeHandler.JunkAfterHugePageWrapsNegative`) | `EmployeeHandler.Offset` (used by `EmployeeHandler.PlanList`) |
