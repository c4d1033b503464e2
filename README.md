# greenlight input handling, modelled in Dafny

This project models the input-handling core of the greenlight movie API (a Go
JSON service) and proves properties of it:

- the JSON codec of a movie's running time (`RuntimeJson`, runtime.dfy). The model writes `"<n> mins"`, the form the reader accepts, and reads back exactly that shape. The Go writer prints the runtime's address instead (see the first Findings row), and `EncodeAsWritten` models that;
- the listing filters: validation of page, page size and sort parameters, the SQL sort column and direction, the LIMIT/OFFSET window, and the page metadata sent with a listing (`Pagination`, pagination.dfy);
- the record validators for movies and users, which record one error per failing field in a validator (`Movies`, movies.dfy; `Users`, users.dfy; the validator itself in `Validation`, validation.dfy);
- the request readers: the `id` route parameter, and string, comma-separated and integer query parameters with defaults (`Helpers`, helpers.dfy).

The parts of Go's `strconv` and `strings` that this code relies on are modelled in `Text` (text.dfy):
- `%d` formatting;
- base-10 and base-0 `ParseInt`;
- `Quote`/`Unquote` on escape-free literals;
- `Split`/`Join`;
- `TrimPrefix`;
- the UTF-8 byte length that Go's `len` gives for a string.

`Wrappers` (wrappers.dfy) holds `Option` and `Result`.

The validator package is not part of this model. It is modelled as a map from field key to message.
- A failed check records its message unless the key already holds one, so the first failure per key is kept.
- Every validator method is stated in two parts:
  - the new entries it adds, as a pure function such as `MovieErrors`;
  - `old(errors)`, whose entries win.
- The lemmas about which keys receive an error do not depend on the first-wins choice.

Where Go panics, the model makes the panic an outcome:
- `SortColumn` returns `Err` with the panic message.
- `ValidateUser` returns `Panicked(reason)` after recording its errors.

## Model

| member | source | states |
|---|---|---|
| Text.FormatInt | internal/data/runtime.go:15 | `%d` text of an integer: non-empty, a leading '-' exactly for negatives, decimal digits otherwise |
| Text.Quote | internal/data/runtime.go:17 | quoting text that needs no escape puts it between two double quotes, unchanged |
| Text.ParseInt | internal/data/runtime.go:34-37 | a parsed value lies in the requested bit range and its text is only digits after an optional sign |
| Text.ParseFormat | internal/data/runtime.go:34-37 | base-10 parsing of the `%d` text gives the value back for every value in range, and fails for every value out of range |
| Text.Atoi | cmd/api/helpers.go:122 | a value Atoi reads is a 64-bit integer, read from non-empty text of digits after an optional sign |
| Text.Unquote | internal/data/runtime.go:23-26 | an accepted literal is the body between two double quotes, and that body holds no quote, newline or backslash |
| Text.UnquoteQuote | internal/data/runtime.go:17 | unquoting undoes quoting for text that needs no escape |
| Text.Split | internal/data/runtime.go:28 | splitting on one character gives at least one part; the parts joined back give the input; no part holds the separator |
| Text.SplitJoin | cmd/api/helpers.go:112 | splitting undoes joining separator-free parts, so Split's result is determined by its ensures |
| Text.TrimPrefix | internal/data/filters.go:36 | the prefix plus the result is the input when the input starts with the prefix; otherwise the input is unchanged |
| Text.HasPrefix | internal/data/filters.go:45 | true exactly when the prefix is no longer than the text and matches it character by character |
| Text.Utf8Length | internal/data/movies.go:21 | Go's byte length of a string lies between its character count and four times that, and is zero only for the empty string |
| Text.ParseIntBase0 | cmd/api/helpers.go:20 | a value read with base prefix detection is a 64-bit integer, and a negative one comes from text starting with '-' |
| Text.ParseBase0Format | cmd/api/helpers.go:20 | base-0 parsing reads decimal `%d` text back as the same value for every 64-bit value, and refuses all others |
| Validation.TwoChecksNewKey | internal/data/filters.go:26-27 | two checks on one fresh key add the message of the first failing one, if any, and keep every older entry |
| Validation.ThreeChecksNewKey | internal/data/movies.go:23-25 | three checks on one fresh key add the message of the first failing one, if any, and keep every older entry |
| Validation.Validator.Check | internal/data/filters.go:26 | a passing check leaves the errors alone; a failing one adds its message unless the key already has one |
| Validation.Validator.AddError | cmd/api/helpers.go:124 | the message is recorded under the key unless the key already has a message |
| Validation.Unique | internal/data/movies.go:29 | true exactly when equal values sit at the same index, that is no value occurs twice |
| Validation.PermittedValue | internal/data/filters.go:32 | true exactly when some entry of the permitted list equals the value |
| RuntimeJson.Runtime.MarshalJSON | internal/data/runtime.go:14-20 | the JSON is a double quote, the decimal runtime, ` mins` and a double quote; no error is ever returned |
| RuntimeJson.Encode | internal/data/runtime.go:15-17 | the intended JSON unquotes to the `%d` text of the runtime followed by ` mins` |
| RuntimeJson.EncodeAsWritten | internal/data/runtime.go:15-17 | the JSON as written unquotes to the `%d` text of the address followed by ` mins` |
| RuntimeJson.Decode | internal/data/runtime.go:22-42 | a decoded runtime is always a 32-bit integer |
| RuntimeJson.Runtime.UnmarshalJSON | internal/data/runtime.go:22-42 | succeeds exactly when Decode does and then stores the decoded value; every failure is ErrInvalidRuntimeFormat and leaves the receiver unchanged |
| RuntimeJson.DecodeAccepts | internal/data/runtime.go:23-37 | accepts exactly a quote, text ParseInt reads as a 32-bit integer, one space and `mins"` |
| RuntimeJson.DecodeEncode | internal/data/runtime.go:14-41 | the encoding of n decodes to n for every 32-bit n; larger or smaller runtimes encode but are refused when read |
| RuntimeJson.DecodeNegativeExample | internal/data/runtime.go:34-37 | the parser takes a sign: `"-5 mins"` decodes to -5 |
| RuntimeJson.DecodeRefusesNumberText | internal/data/runtime.go:34-37 | when the number part is not an optionally signed 32-bit decimal, decoding fails |
| RuntimeJson.DecodeSpacingExamples | internal/data/runtime.go:28-32 | a leading, doubled or trailing space makes decoding fail |
| RuntimeJson.EncodeAsWrittenLosesRuntime | internal/data/runtime.go:15 | printing the pointer decodes to the runtime only when the address equals it, and never for an address above 2^31 - 1 |
| Pagination.ValidateFilters | internal/data/filters.go:25-33 | adds FilterErrors (the first failing message for page, page_size and sort) and keeps every older entry |
| Pagination.FilterErrorKeys | internal/data/filters.go:25-33 | page, page_size and sort each get an error exactly when their bound or the safelist fails; no other key; no error exactly when 0 < page < 10,000,000, 0 < page size < 100 and sort is in the safelist |
| Pagination.SortColumn | internal/data/filters.go:35-42 | succeeds exactly when the sort value without one leading '-' is in the safelist, and then returns that column; otherwise fails with "unsafe sort param" followed by the sort value |
| Pagination.SortDirection | internal/data/filters.go:44-50 | "DESC" exactly when the sort value starts with '-', "ASC" otherwise |
| Pagination.SortColumnDirection | internal/data/filters.go:35-50 | the direction's '-' and the column together rebuild the sort value |
| Pagination.ValidatedSortColumn | internal/data/filters.go:32-42 | a validated ascending sort is its own column; a validated `-c` still panics unless `c` is in the safelist |
| Pagination.Limit | internal/data/filters.go:52-54 | the limit is in 1 to 99 exactly when the page size passes validation |
| Pagination.Offset | internal/data/filters.go:56-58 | offset plus limit is page times page size; the offset is never negative for a positive page and a non-negative page size |
| Pagination.ValidatedWindow | internal/data/filters.go:52-58 | for validated filters the limit is 1 to 99, the offset is non-negative, and offset plus limit is page times page size |
| Pagination.MetadataOfTotal | internal/data/filters.go:60-72 | no records give all-zero metadata; otherwise the page, page size and total are copied, the first page is 1, and the last page covers every record, overshooting by one for each of total and total + 1 that the page size divides |
| Pagination.CalculateMetadata | internal/data/filters.go:60-72 | all-zero metadata for no records; otherwise page, page size and total are copied, the first page is 1, and the last page is at least 1 |
| Pagination.LastPageFormula | internal/data/filters.go:69 | the LastPage expression equals the true page count plus one for each of total and total + 1 that the page size divides |
| Pagination.LastPageBound | internal/data/filters.go:69 | LastPage is never below the true page count and at most two above it, or one above when pages hold two or more records |
| Pagination.LastPageOvershootExample | internal/data/filters.go:69 | 10 records at 5 per page give LastPage 3 where 2 pages hold them |
| Pagination.IntendedLastPageExact | internal/data/filters.go:69 | the ceiling division puts the last record on the last page: earlier pages do not hold every record, the last page does |
| Pagination.CalculateMetadataIntended | internal/data/filters.go:60-72 | the same metadata with LastPage the true page count, the ceiling of total over page size |
| Movies.TitleError | internal/data/movies.go:20-21 | a title error exactly for an empty title or one over 500 bytes |
| Movies.YearError | internal/data/movies.go:23-25 | a year error exactly for year 0, a year before 1888 or one not before the current year |
| Movies.GenresError | internal/data/movies.go:27-29 | a genres error exactly for no genres, more than five or a duplicate |
| Movies.RuntimeError | internal/data/movies.go:31-32 | a runtime error exactly for a runtime that is not strictly positive |
| Movies.ReportTitleAdds | internal/data/movies.go:20-21 | the two title checks add TitleError and keep older entries |
| Movies.ReportYearAdds | internal/data/movies.go:23-25 | the three year checks add YearError and keep older entries |
| Movies.ReportGenresAdds | internal/data/movies.go:27-29 | the three genres checks add GenresError and keep older entries |
| Movies.ReportRuntimeAdds | internal/data/movies.go:31-32 | the two runtime checks add RuntimeError and keep older entries |
| Movies.ReportMovieAddsMovieErrors | internal/data/movies.go:19-33 | the ten checks in order add MovieErrors and keep older entries |
| Movies.ValidateMovie | internal/data/movies.go:19-33 | the validator ends with MovieErrors added to its old entries, which win |
| Movies.MovieErrorKeys | internal/data/movies.go:20-32 | title, year, genres and runtime each get an error exactly under their failing conditions, and no other key does |
| Movies.MovieValidExactly | internal/data/movies.go:19-33 | no error exactly when the title has 1 to 500 bytes, 1888 <= year < current year, there are 1 to 5 distinct genres and the runtime is positive |
| Movies.AcceptsMovie | cmd/api/movies.go:25-32 | a fresh validator run through ValidateMovie is Valid exactly when all four field conditions hold |
| Movies.MovieErrorsIgnoreBookkeeping | internal/data/movies.go:19-33 | ID, version and creation time never affect the errors |
| Users.NameError | internal/data/users.go:53-54 | a name error exactly for an empty name or one over 500 bytes |
| Users.PasswordError | internal/data/users.go:59-64 | a password error exactly when a plaintext is present and is not 8 to 72 bytes long |
| Users.ReportNameAdds | internal/data/users.go:53-54 | the two name checks add NameError and keep older entries |
| Users.ReportEmailAdds | internal/data/users.go:56-57 | the missing-email check adds its error under `emal` and the format check adds its error under `email`; older entries are kept |
| Users.ReportPasswordAdds | internal/data/users.go:59-64 | the password checks run only for a present plaintext, add PasswordError and keep older entries |
| Users.ReportUserAddsUserErrors | internal/data/users.go:52-64 | all the checks in order add UserErrors and keep older entries |
| Users.ValidateUser | internal/data/users.go:52-69 | the validator ends with UserErrors added to its old entries; the call panics with "missing hash for user password" exactly when the hash is nil, whatever the checks found |
| Users.UserErrorKeys | internal/data/users.go:53-64 | name, `emal` (empty email), `email` (format) and password each get an error exactly under their failing conditions, and no other key does |
| Users.UserValidExactly | internal/data/users.go:52-64 | no error exactly when the name has 1 to 500 bytes, the email is non-empty and matches, and any plaintext has 8 to 72 bytes |
| Users.MissingEmailKey | internal/data/users.go:56-57 | an empty email is reported as "must be provided" under the misspelt key `emal`; `email` then reports only what the pattern says about "" |
| Users.NoPlaintextNoPasswordError | internal/data/users.go:59 | without a plaintext no password error can be recorded |
| Users.PasswordLengthMessages | internal/data/users.go:60-62 | an empty plaintext gets "must be provided", a short one "must not be less than 8 bytes", a long one "must not be more than 72 bytes" |
| Users.UserErrorsIgnoreBookkeeping | internal/data/users.go:52-64 | ID, creation time, activation, version and hash never affect the errors |
| Helpers.ReadIdParam | cmd/api/helpers.go:17-27 | succeeds exactly when base-0 parsing reads a value of at least 1, and returns that value, which is at most 2^63 - 1; otherwise returns 0 and "Invalid id param" |
| Helpers.Get | cmd/api/helpers.go:96 | the key's first value when it has one, and "" when the key is absent or has no values |
| Helpers.ReadIdParamFormat | cmd/api/helpers.go:20-26 | every positive 64-bit id written in decimal is read back; every other integer's decimal text is refused |
| Helpers.ReadIdParamAcceptedExamples | cmd/api/helpers.go:20 | `0x1F` reads as 31 and `017` as 15 (octal); `+7` reads as 7 |
| Helpers.ReadIdParamRefusedExamples | cmd/api/helpers.go:20-24 | `0`, `-3`, the empty text and `08` are refused |
| Helpers.ReadString | cmd/api/helpers.go:95-103 | the key's first value when there is one and it is not empty, otherwise the default |
| Helpers.ReadStringFirstValue | cmd/api/helpers.go:96 | only the key's first value matters; later values and other keys never do |
| Helpers.ReadCSV | cmd/api/helpers.go:105-113 | the default for an empty or absent value; otherwise a non-empty list of comma-free pieces that, joined with commas, rebuild the value |
| Helpers.ReadCSVSingle | cmd/api/helpers.go:112 | a value without a comma gives a one-element list |
| Helpers.ReadCSVJoin | cmd/api/helpers.go:112 | comma-free fields sent joined with commas are read back as the same list |
| Helpers.ReadIntValue | cmd/api/helpers.go:115-129 | the result is the default for an empty value; it differs from the default only when it is what Atoi read; it stays 64-bit when the default is |
| Helpers.ReadInt | cmd/api/helpers.go:115-129 | returns ReadIntValue; leaves the validator alone for an empty, absent or integer value; for other text adds "must be an integer value" under the key and returns the default |
| Helpers.ReadIntFormat | cmd/api/helpers.go:122-128 | every 64-bit integer written in decimal is read back without an error |

## Left out

- The per-client rate limiter middleware (cmd/api/middleware.go) is left out. It is about concurrency: a mutex-guarded map shared with a background goroutine, driven by the clock. Its token bucket comes from a package that is not part of this model.
- `recoverPanic` and the HTTP handlers (cmd/api/middleware.go, cmd/api/movies.go, cmd/api/healthcheck.go) are left out. They are request and response plumbing.
- `readJson` and `writeJson` (cmd/api/helpers.go:31-93) are left out. They are `encoding/json` decoding and `http.ResponseWriter` I/O.
- `password.Set` and `password.Matches` (internal/data/users.go:28-50) are left out. They are thin wrappers over bcrypt, and bcrypt is not part of this model.
- The SQL methods of `UserModel` are left out. They are database I/O.
- Validation: the validator package is not part of this model.
  - Its map of errors is taken to keep the first message per key.
  - Under a last-message-wins validator, the messages stated by the validator methods would change. The key lemmas would not.
- Users.ValidateUser: the `EmailRX` regular expression is left uninterpreted. It is the parameter `matchesEmail`.
- Movies.ValidateMovie: the wall clock is left out. The current year is the parameter `currentYear`.
- Helpers.ReadIdParam: the route parameter is read from the request context by a router that is not part of this model. The member takes the raw `id` text instead.
- Helpers.ReadIdParam: base-0 `ParseInt` also accepts `_` digit separators, and the model refuses them.
  - Text Go accepts, such as `1_000`, is refused here.
  - All other base-0 forms are modelled: a sign; `0b`, `0o` and `0x` prefixes in either case; a leading `0` for octal; decimal.
- Text.Unquote: escape sequences, back-quoted literals and single-quoted literals are refused. Go's `Unquote` accepts them, so a runtime written with an escape in it is refused by Decode.
- Text.Quote: this member covers only text that needs no escaping. The only text quoted in the core is the `<n> mins` of MarshalJSON, which never needs escaping.
- Pagination.CalculateMetadata: Go's 64-bit `int` wrap-around in `total + pageSize + 1` is not modelled, because integers here are unbounded.
- Pagination.CalculateMetadata: division by zero when pageSize is 0 and total is not is a Go runtime panic. Here it is excluded by a requires.
- Pagination.Offset: the wrap-around of `(page - 1) * pageSize` in 64 bits is not modelled. For validated filters it cannot occur.
- Strings are sequences of characters, not bytes, so byte strings that are not valid UTF-8 cannot be expressed. Go's `len` is modelled by `Utf8Length`.
- JSON payloads are modelled as strings rather than byte slices.
- The timestamps `CreatedAt` are opaque integers.

## Findings

| source | as written | input that shows it | evidently intended | confidence | as-written member | corrected member |
|---|---|---|---|---|---|---|
| internal/data/runtime.go:15 | `%d` is applied to the receiver pointer `r`, so the runtime's address is printed | any runtime stored at an address above 2^31 - 1: the output does not decode, and it never decodes to the runtime unless the address equals it | format the value `*r`, giving `"<n> mins"` | high (not executed) | RuntimeJson.EncodeAsWrittenLosesRuntime | RuntimeJson.DecodeEncode |
| internal/data/filters.go:69 | LastPage is `(total + pageSize + 1) / pageSize` | total 10, page size 5: LastPage is 3, but 2 pages hold every record | the ceiling `(total + pageSize - 1) / pageSize` | high (not executed) | Pagination.LastPageOvershootExample | Pagination.IntendedLastPageExact |
