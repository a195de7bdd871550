# user-subs: the MM-YYYY date codec and the subscription handlers, in Dafny

This project models the two parts of the user-subs service that hold
logic of their own. Everything else in the service is HTTP, SQL or
environment plumbing.

* **The `MM-YYYY` JSON date codec.** `JSONDate.MarshalJSON` writes a
  `time.Time` as `"MM-YYYY"` using Go's layout `"01-2006"`. It writes
  nothing at all for the zero time. `JSONDate.UnmarshalJSON` strips every
  leading and trailing `"` and treats `null` as a no-op. It accepts
  exactly two month digits 01–12, a dash and four year digits, and yields
  midnight UTC on the first of that month. Any other text is an error
  that leaves the value unchanged.

  The repository has three copies of this codec:
  * `internal/utils/json_date.go`: a named type over `time.Time`. This
    is the live one; the handlers convert to and from it.
  * `internal/utils/json_data.go`: a struct-embedding copy in the same
    package. It redeclares `format` and `JSONDate`, so it cannot be
    built together with json_date.go.
  * `models.go`: the legacy root-package copy.

  The model defines the codec once (`JsonDate`, on top of `GoTime` and
  `GoStrings`). It proves that the two struct copies (`JsonData`,
  `Models`) give the same answer on every input. The legacy `Models.Sub`
  record holds only a service name, a price, a user id and a start date:
  it has no id and no end date.

* **The request handlers** (`internal/subs/handlers.go`). Each handler is
  a pure function from an `Env` and a `Request` to an `Exchange`. The
  exchange holds the repository calls the handler made, in order, and its
  single answer: `SendData(payload, 200)` or `SendError(message, status)`.
  The `Env` supplies what the handlers cannot see:
  * the repository's answer to each query, as `Ok(v)` or `Err`;
  * `uuid.Parse`, as a partial function;
  * the JSON decoder's split of a body into fields, with the raw text of
    each date field;
  * whether encoding/json can encode a payload.

  The date fields of a body go through the live codec. The path id goes
  through a model of `strconv.ParseInt(s, 10, 32)` (`Strconv`).

Modules: `Wrappers` (Option/Result), `GoTypes` (int32, UUID, nil and
non-nil slices), `Digits` (decimal spelling and padding, as used by Go's
`appendInt`), `GoStrings` (`strings.Trim` with a one-character cutset),
`GoTime` (the UTC time value, its zero, and Format/Parse with
`"01-2006"`), `JsonDate`, `JsonData`, `Models`, `Strconv`, `Handlers`.

Go's `time.Parse` checks the layout piece by piece, and the model keeps
that order. A bad month field is `BadMonth` and a month outside 01..12 is
`MonthOutOfRange`. A missing dash is `BadSeparator`. Anything other than
four digits for the year is `BadYear`. Trailing text is `ExtraText`.

In these places the model follows the code:
* PUT answers the id the store returns, not the path id.
* POST and PUT store a missing end date as the zero time marked valid
  (`MissingEndDateStoredAsZero`), not as an absent (NULL) end date.
* The `null` check runs on the trimmed text, so both `null` and `"null"`
  are no-ops (`JsonDate.NullIsNoOp`).
* `01-0001` decodes to the zero time, so it is then written as nothing
  (`JsonDate.EncodeDecoded`).

One defect of the code is recorded under Findings. `GetSubs` models the
evidently intended handler, and `GetSubsAsWritten` models the code.

## Model

| member | source | states |
|---|---|---|
| `JsonDate.MarshalJSON` | internal/utils/json_date.go:13-18 | Output is empty exactly for the zero time. Otherwise it is quoted. Inside the quotes are two digits spelling the month, a `-`, and the year as Go's appendInt writes it with width 4 (so `01-10000` or `01--0005` outside 0..9999). For a year in 0..9999 the inside is a well-formed MM-YYYY spelling that year. It never fails. |
| `JsonDate.UnmarshalJSON` | internal/utils/json_date.go:20-33 | The input is trimmed of all leading and trailing `"`. `null` leaves the receiver unchanged with no error. A text that is not MM-YYYY (month 01–12) is an error and leaves the receiver unchanged. A well-formed one gives day 1 of that month at 00:00 UTC. |
| `JsonDate.NullIsNoOp` | internal/utils/json_date.go:21-24 | `null` with any number of surrounding quotes leaves the receiver as it was, without error. |
| `JsonDate.DecodeEncoded` | internal/utils/json_date.go:13-33 | Decoding the encoding of a non-zero time with a year in 0..9999, into any receiver, gives the first of that time's month. |
| `JsonDate.EncodeDecoded` | internal/utils/json_date.go:13-33 | Decode a well-formed MM-YYYY, with any number of surrounding quotes, then encode the result. This writes back the quoted original. The one exception is `01-0001`: it decodes to the zero time and is written as nothing. |
| `JsonDate.ZeroDoesNotRoundTrip` | internal/utils/json_date.go:14-29 | The zero time is written as empty output. Decoding empty output is an error that keeps the receiver. |
| `GoStrings.Trim` | internal/utils/json_date.go:21 | The result neither starts nor ends with the cut character. The input is that result with runs of only the cut character on each side. |
| `GoStrings.TrimPadded` | internal/utils/json_date.go:21 | Surround a text that is already stripped with any runs of the cut character. Trimming gives back exactly that text, so the contract above determines Trim. |
| `GoTime.ParseMonthYear` | internal/utils/json_date.go:26-29 | Layout `01-2006` accepts exactly the well-formed MM-YYYY texts (two digits 01–12, `-`, four digits). It yields the first of that month at midnight UTC. |
| `GoTime.ParsedYearRange` | internal/utils/json_date.go:26 | A successfully parsed year lies in 0..9999. |
| `GoTime.ParseFormat` | internal/utils/json_date.go:17-31 | Parsing what Format wrote succeeds exactly for years 0..9999. It then yields the first of the formatted month. |
| `GoTime.FormatParse` | internal/utils/json_date.go:17-31 | Formatting a parsed MM-YYYY reproduces the text, leading zeros included. |
| `GoTime.FormatSameMonth` | internal/utils/json_date.go:17 | Two times are formatted identically if and only if they share month and year. Day and clock are ignored. |
| `GoTime.FormatMonthYear` | internal/utils/json_date.go:17 | `t.Format("01-2006")` writes two digits spelling the month, a `-`, and the year as Go's appendInt writes it with width 4. For a year in 0..9999 the text is a well-formed MM-YYYY whose year digits spell that year. |
| `GoTime.AppendInt` | internal/utils/json_date.go:17 | Go's appendInt writes a non-negative integer as digits whose value is that integer, zero-padded to at least the width and exactly the width when it fits. Digits that do not fit are written in full, with no leading zero. A negative integer is a `-` followed by its magnitude written the same way, so the padding counts digits only (`-0005` for -5). |
| `GoTime.FormatSpelling` | internal/utils/json_date.go:17 | Given a well-formed MM-YYYY text whose digits spell a time's month and year, that time is written as exactly that text. |
| `GoTime.ZeroSpelling` | internal/utils/json_date.go:14-31 | The zero time formats as `01-0001`, and `01-0001` parses back to the zero time. |
| `GoTime.AppendIntInjective` | internal/utils/json_date.go:17 | Go's padded integer spelling writes distinct integers differently. |
| `JsonData.MarshalJSON` | internal/utils/json_data.go:13-18 | Output is empty exactly when the embedded Time is zero, and otherwise quoted. It equals the named-type codec's output on every value. |
| `JsonData.UnmarshalJSON` | internal/utils/json_data.go:20-33 | `null` is a no-op. Malformed text is an error that leaves the embedded Time unchanged. Well-formed text stores the first of the month. On every input the stored time and the error equal the named-type codec's. |
| `Models.MarshalJSON` | models.go:15-20 | Output is empty exactly for a zero Time, and otherwise quoted MM-YYYY with the same layout. It equals the live codec's output on every value. |
| `Models.UnmarshalJSON` | models.go:22-35 | `null` is a no-op. Malformed text is an error that leaves Time unchanged. Well-formed text stores the first of the month. It agrees with the live codec on every input. |
| `Strconv.ParseInt32` | internal/subs/handlers.go:88 | A path id is accepted exactly when it is an optionally signed base-10 numeral whose value fits in a signed 32-bit integer. The result is that value. |
| `Strconv.ParseItoa` | internal/subs/handlers.go:88 | The decimal spelling of an integer is accepted if and only if the integer fits in 32 bits, and it parses back to that integer. |
| `Strconv.ParsePlusZeros` | internal/subs/handlers.go:161 | A leading `+` and leading zeros are accepted and do not change the value. |
| `Handlers.DecodeBody` | internal/subs/handlers.go:123-127 | Body decoding succeeds exactly when the body splits and both date fields decode. The plain fields are copied. Each date is its field decoded into the zero time, or the zero time when the field is absent. |
| `Handlers.DecodeDate` | internal/subs/handlers.go:123-127 | An absent date field keeps the zero time. A present one succeeds exactly when UnmarshalJSON into the zero time reports no error. |
| `Handlers.MapRows` | internal/subs/handlers.go:61-71 | The rows map to records of the same length and order. Each record copies its row field for field, with the end date taken from `EndedAt.Time` whether or not it is valid. |
| `Handlers.ListReply` | internal/subs/handlers.go:56-76 | A store failure answers the SQL error with 500. A successful listing answers the rows, as a non-nil array of records mirroring them, with 200 when that payload encodes and the encoding error with 500 when it does not. |
| `Handlers.Reply` | internal/subs/handlers.go:73-76 | The payload is sent with 200 exactly when it encodes. Otherwise the answer is the encoding error with 500. |
| `Handlers.ListPayload` | internal/subs/handlers.go:61-71 | The listing payload is a non-nil array of exactly the rows' records, in order, even when the store returned a nil slice. |
| `Handlers.GetSubs` | internal/subs/handlers.go:36-77 | Corrected handler. Without `user_id` it calls list-all. With one it parses it and calls list-by-user with the parsed id. A parse failure answers 500 with no store call. A store failure answers the SQL error with 500 on both branches. A successful listing answers exactly the rows returned, with 200 when the payload encodes and the encoding error with 500 otherwise. |
| `Handlers.GetSubsAsWritten` | internal/subs/handlers.go:43-59 | The code as written. Without `user_id`, and on the user branch whenever the store succeeds, it answers exactly as GetSubs does; a bad `user_id` gets the same 500. When the user listing fails it answers an empty array instead of the store error. Data answers are 200 and errors 500. |
| `Handlers.UserListingFailureSwallowed` | internal/subs/handlers.go:45-56 | When listing a user's rows fails, the code as written answers 200 with `[]`, while the corrected handler answers 500. |
| `Handlers.GetSub` | internal/subs/handlers.go:84-113 | A bad path id answers 500 with no store call. Otherwise it fetches that id. A store failure answers the SQL error with 500. A found row is answered as a record carrying the path id and the row's other fields, with 200 when it encodes and the encoding error with 500 otherwise. |
| `Handlers.AddParams` | internal/subs/handlers.go:129-135 | The insert takes the body's fields, and its end date is always marked valid. |
| `Handlers.PostSub` | internal/subs/handlers.go:121-149 | A decode failure answers 500 with no store call. Otherwise it makes one insert with a valid end date. A store failure answers the SQL error with 500. A successful insert answers the decoded body with its id replaced by the store's id, with 200 when it encodes and the encoding error with 500 otherwise. |
| `Handlers.UpdateParams` | internal/subs/handlers.go:173-181 | The update carries the path id, the body's fields, a valid end date and the clock reading. |
| `Handlers.PutSub` | internal/subs/handlers.go:158-195 | The path id is checked before the body, and either failure answers 500 with no store call. Otherwise there is one update with the path id and a valid end date. A store failure answers the SQL error with 500. A successful update answers the decoded body with the id the store returns, with 200 when it encodes and the encoding error with 500 otherwise. |
| `Handlers.DeleteSub` | internal/subs/handlers.go:202-221 | A bad path id answers 500 with no store call. Otherwise it deletes that id. A store failure answers the SQL error with 500. A successful delete answers the id the store returns, with 200 when it encodes and the encoding error with 500 otherwise. |
| `Handlers.DeleteUserSubs` | internal/subs/handlers.go:228-253 | A missing `user_id` answers 400 before any parsing or store call, and this is its only 400. A bad `user_id` answers 500 with no store call. Otherwise it deletes by user. A store failure answers the SQL error with 500. A successful delete answers the returned ids, with 200 when they encode and the encoding error with 500 otherwise. |
| `Handlers.StatusDiscipline` | internal/subs/handlers.go:47-245 | On every route, both in the corrected service (`Handle`) and as built (`HandleAsWritten`, where GET /api/subs runs the code as written), a data answer is 200. An error is 400 exactly when DELETE /api/subs lacks `user_id`, and 500 otherwise. No handler calls the store more than once. |
| `Handlers.ParseFailureSkipsStore` | internal/subs/handlers.go:44-240 | A failure to parse the path id, the `user_id` or the body, or a missing `user_id` on delete, answers an error with no repository call, in the corrected service and as built. |
| `Handlers.MissingEndDateStoredAsZero` | internal/subs/handlers.go:129-137 | A body whose end date is absent or `null` is inserted with end date = zero time, marked valid. |
| `Handlers.EmptyListingIsEmptyArray` | internal/subs/handlers.go:61-73 | When the store returns a nil slice, the listing answers an empty array, not null. |

## Findings

| source | as written | input that shows it | evidently intended | confidence | as-written member | corrected member |
|---|---|---|---|---|---|---|
| internal/subs/handlers.go:45-56 | In the `user_id` branch, `uuid.Parse` is assigned with `:=`. That declares a second `err` local to the branch. The error from `GetUserSubs` goes into this inner variable, so the check after the branch sees the outer `err`, which is nil. | `GET /api/subs?user_id=<valid UUID>` while the store query fails: the answer is 200 with `[]` | Answer "something went wrong on sql query" with 500, as the list-all branch does | high; not executed | `Handlers.GetSubsAsWritten`, `Handlers.UserListingFailureSwallowed` | `Handlers.GetSubs` |

## Left out

- main.go, internal/main.go, cmd/main.go: environment lookup, database
  connection and the HTTP mux are I/O. The route table at
  internal/main.go:69-73 registers no route for GetSub. The model keeps
  GetSub as a handler (`Handlers.Route` lists it) but does not model routing.
- internal/utils/response.go: modelled only as the abstract outcomes
  `SendData(payload, status)` / `SendError(message, status)`.
  `SendError` encodes the body before it calls `WriteHeader`, so the
  status in the model is the argument passed, not necessarily the one on
  the wire. Headers, the plain-text fallback and logging are not modelled.
- Whether encoding/json accepts a payload is the oracle `Env.encodes`.
  encoding/json rejects an empty result from a `MarshalJSON` method, and
  the codec writes nothing for the zero time. A record whose start date
  is the zero time, for example one created with `01-0001`, would make
  `SendData` fail and produce the encoding error. That behaviour comes
  from the encoder, not from this code, and is left to the oracle.
- The SQL repository (`internal/db`) is not part of this model; it is an
  oracle of `Ok`/`Err` answers without query semantics.
  `GetSubsAsWritten` assumes the usual Go convention that a failed query
  returns a nil slice with its error.
- `uuid.Parse` and the whole-body JSON decoder are foreign library calls,
  passed in as partial functions. The model also does not cover duplicate
  JSON keys, or which date error the decoder reports first.
- `time.Now()` for `UpdatedAt` is the parameter `now` of `PutSub`.
- All `log.Printf` / `log.Println` diagnostics.
- Time zones: a time is modelled by its calendar fields in UTC. That is
  what Parse produces here, and it is where `IsZero` means
  0001-01-01 00:00 UTC. The day is bounded to 1..31 but not checked
  against the month length.
- Text is a sequence of characters rather than UTF-8 bytes. Every text
  the codec or the path parser accepts is ASCII, and `"` never occurs
  inside a multi-byte character, so accepting and trimming come out the
  same either way.
- Strconv.ParseInt32: tells success from failure but does not say which
  error (syntax or range) Go would report. The handlers do not
  distinguish them.
- `Models.Sub`: the misspelt struct tag `josn:"price"` only affects the
  JSON field name on the wire, which is not modelled.
