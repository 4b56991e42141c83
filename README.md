# jwl worklog client — a Dafny model

`jwl` is a command-line client for the worklogs of a Jira-compatible issue
tracker. `view` lists the worklogs an issue has on one UTC day and prints one
line per worklog. `add` creates a worklog on an issue for a given date. Requests
go to a configured domain and are authenticated either by a username with an API
token (HTTP Basic) or by a bearer access token.

This project models the deterministic logic around the two HTTP calls:

- **Civil** (`civil.dfy`): proleptic-Gregorian dates and whole-second UTC instants, as chrono's `Date<Utc>` and
  `DateTime<Utc>` hold them. Epoch seconds are the day number (days from 1970-01-01) times 86400 plus the time of
  day. For every instant from 1970 on, this is proved equal to the "Seconds Since the Epoch" expression of
  section 4.16 of POSIX.1-2017 (Base Definitions).
- **Format** (`format.dfy`): the chrono specifiers the client uses: `%s`, `%F`, `%X`, `%3f` and `%z`. They are built
  from decimal numerals and zero padding, and lemmas read the numerals back.
- **WorklogApi** (`worklog_api.dfy`, for `src/worklog_api.rs`):
  - the DTOs and wire types;
  - the request each operation builds: URL, start-bound query map, headers, JSON body and authentication mechanism;
  - how a transport outcome, then a status code, then a parsed body become a result or an `ApiError`.

  The HTTP exchange is a parameter `send: RequestBuilder -> SendOutcome`. It says whether the request could not be
  built, whether it failed in transport, or which status arrived together with what parsing the body as a
  `PagedWorklogResponse` gave. `worklogs` builds its query by conditional inserts into a map, so it is a method.
  `create_worklog` is a function.
- **Cli** (`cli.dfy`, for `src/main.rs`):
  - the configuration types and `read_config`'s choice of a context;
  - the credential conversion;
  - the `ViewContext`/`AddContext` conversions;
  - the `view` loop that renders one line per worklog, and the `add` flow.

## Model

| member | source | states |
|---|---|---|
| `WorklogApi.Worklogs` | src/worklog_api.rs:37-84 | The request is a GET to the worklog URL with the given credentials. `startedAfter` is in the query iff `from` is present, and `startedBefore` iff `until` is. No other key appears. Each value is the bound's `%s000`. The result is the list classification of whatever `send` returns for exactly that request. |
| `WorklogApi.WorklogUrl` | src/worklog_api.rs:42-46 | The URL is the domain, then `/rest/api/2/issue/`, then the issue, then `/worklog`, piece by piece and with the stated length. |
| `WorklogApi.WorklogUrlRoundTrip` | src/worklog_api.rs:42-46 | The issue can be read back from the URL. Under one domain, two issues with the same worklog URL are the same issue. |
| `WorklogApi.Authorize` | src/worklog_api.rs:253-264 | Exactly one mechanism is appended and every other part of the request is unchanged. ApiToken becomes Basic auth with user `username` and password `Some(api_token)`. AccessToken becomes the header `Authorization: Bearer <token>`. |
| `WorklogApi.MechanismRoundTrip` | src/worklog_api.rs:254-264 | The credentials can be recovered from the mechanism attached, for both variants. So no credential field is lost. |
| `WorklogApi.CheckStatus` | src/worklog_api.rs:70-78 | The shared status mapping, each case as an iff. 2xx is success. 404 is `NotFound{kind: "issue", name: issue}`. 401 or 403 is `Unauthorized`. Every other status is `UnknownError`. |
| `WorklogApi.SharedStatusMapping` | src/worklog_api.rs:102-110 | Once a status has arrived, listing and creating fail on exactly the same statuses and with the same error. The serialization error, which only listing has, is excluded. |
| `WorklogApi.ListInvalidBaseUrlExactly` | src/worklog_api.rs:63-68 | Listing gives `InvalidBaseUrl` exactly when the request could not be built, and the error carries the client's domain. |
| `WorklogApi.ListParsesOnlyAfterSuccess` | src/worklog_api.rs:78-83 | For a non-2xx status, the body has no influence on the result. `SerializationError` arises iff the status is 2xx and the body did not parse. |
| `WorklogApi.ListSuccessExactly` | src/worklog_api.rs:57-83 | `ClassifyList`, the outcome classification of listing, succeeds with `logs` iff a 2xx arrived whose body parsed to a page holding exactly `logs`. So the server's list is returned unchanged and in order. |
| `WorklogApi.CreateErrorKinds` | src/worklog_api.rs:101-110 | In `ClassifyCreate`, the outcome classification of creation, every transport failure is `UnknownError`. Creation never yields `InvalidBaseUrl` or `SerializationError`. It succeeds iff a 2xx status arrived. |
| `WorklogApi.BuilderErrorAsymmetry` | src/worklog_api.rs:63-67 | A builder failure is `InvalidBaseUrl(domain)` when listing and `UnknownError` when creating. Any other transport failure is `UnknownError` for both. |
| `WorklogApi.NotFoundNamesIssue` | src/worklog_api.rs:72-75 | A 404 gives `NotFound{kind: "issue", name: issue}` for both operations, whatever the body. |
| `WorklogApi.UnauthorizedRegardlessOfAuthorization` | src/worklog_api.rs:76 | Suppose the server answers every request with 401. Then creating gives `Unauthorized` for every Authorization, and listing gives it for every request. |
| `WorklogApi.ToAddBody` | src/worklog_api.rs:220-232 | `comment` is copied (None stays None) and so is `timeSpent`. `started` is the `%F` date followed by `T12:00:00.000+0000`. |
| `WorklogApi.CreateRequest` | src/worklog_api.rs:91-99 | The create request is a POST to the same worklog URL as listing, with one header, `Content-Type: application/json`. It has no query. Its body is the converted DTO, and it carries exactly the one authentication mechanism. |
| `WorklogApi.CreateWorklog` | src/worklog_api.rs:86-111 | The result depends only on what `send` returns for the create request. It succeeds iff a 2xx status arrived. Any failure to send is `UnknownError`. A received status is mapped by the shared status check with the DTO's issue, and no body is read. |
| `Format.TimestampMillisValue` | src/worklog_api.rs:50 | `%s000` is a decimal numeral whose value is the instant's epoch seconds times 1000. |
| `Format.TimestampMillisNumeral` | src/worklog_api.rs:53 | `%s000` is, as a string, the numeral of seconds×1000 at every instant except the Epoch itself, where it reads `0000`. |
| `Format.FormatIsoMillisAtNoon` | src/worklog_api.rs:227-228 | The date at 12:00:00 in the format `%FT%X.%3f%z` is the `%F` date followed by `T12:00:00.000+0000`. |
| `Format.FormatDateRoundTrip` | src/worklog_api.rs:228 | For years 0..9999, `%F` is ten characters of the form `YYYY-MM-DD`, and reading the digits back gives the same date. |
| `Format.FormatYearSign` | src/worklog_api.rs:228 | Years outside 0..9999 are printed with an explicit sign and at least four digits, and the digits give the absolute year back. |
| `Format.IntToDecimalRoundTrip` | src/worklog_api.rs:50 | The decimal rendering of an epoch-seconds value reads back as that value, negative values included. |
| `Civil.EpochSeconds` | src/worklog_api.rs:50 | The epoch seconds of an instant lie within the 86400 seconds of its day number. |
| `Civil.PosixAgreement` | src/worklog_api.rs:50 | For years from 1970 on, EpochSeconds equals the POSIX.1-2017 section 4.16 "Seconds Since the Epoch" expression. |
| `Civil.NextDayIsNextNumber` | src/main.rs:213-214 | The day after a date has the next day number, so the day number counts calendar days. |
| `Civil.DaysFromCivilMonotone` | src/main.rs:213-214 | Day numbers are strictly ordered like the dates in the calendar. So distinct dates have distinct windows. |
| `Cli.FindContext` | src/main.rs:180-183 | The result, if any, is a context of the list whose name is `Some(name)`. None is returned iff no context of the list has that name. |
| `Cli.FindContextIsFirst` | src/main.rs:180-182 | The context returned is the first one in list order that carries the name. |
| `Cli.SelectContext` | src/main.rs:175-187 | A single context is returned as it is. Several contexts with no name give `NoContextNameGiven`. With a name, the result is a listed context of that name, or `ContextNotFound(name)`. Which one of several is fixed by `Cli.SelectContextIsFirst`. |
| `Cli.SelectContextIsFirst` | src/main.rs:180-182 | With several contexts and a name, the selection returns the first context in list order that carries the name. |
| `Cli.SingleContextIgnoresName` | src/main.rs:176 | A single-context configuration yields its context, and the result is the same for every name passed or none. |
| `Cli.NoNameWithManyContexts` | src/main.rs:178 | With several contexts and no name, the error is `NoContextNameGiven`, for every list, the empty one included. |
| `Cli.ContextNotFoundExactly` | src/main.rs:183 | `ContextNotFound(reported)` is returned iff `reported` is the requested name and no listed context carries it. |
| `Cli.ToApiAuthorization` | src/main.rs:63-78 | The configured credentials convert to the client's with the same variant and the same field values. |
| `Cli.ToApiAuthorizationInjective` | src/main.rs:63-78 | Distinct configured credentials convert to distinct client credentials. |
| `Cli.ToViewDto` | src/main.rs:209-217 | The issue is unchanged and both bounds are present and fall on the given date. `from` is the day's first second, and `until − from = 86399` seconds. |
| `Cli.ViewWindowIsTheDay` | src/main.rs:212-215 | An instant lies in the window `[from, until]` iff it is on the given date. |
| `Cli.ViewLines` | src/main.rs:223-231 | There is one line per worklog, in the order received. Line i is `> issue <displayName> `timeSpent` comment`, with "`no comment`" when the comment is None. The issue is the requested one, not a field of the response. |
| `Cli.ViewWorklog` | src/main.rs:219-234 | The request goes to the context's domain with the converted credentials. Its query holds exactly `startedAfter`/`startedBefore` with the day's 00:00:00 and 23:59:59 as `%s000`. An error of the client is passed through unchanged. Otherwise the output has one rendered line per worklog returned, in order. |
| `Cli.LogLineEnds` | src/main.rs:224-229 | A printed line starts with `> ` and the requested issue. It ends with the worklog's comment, or with "`no comment`" when there is none. |
| `Cli.LogLineWithoutComment` | src/main.rs:225-229 | A worklog by Jane of `2h` without a comment renders as ``> ISSUE-1 <Jane> `2h` `no comment` ``. |
| `Cli.ToCreateDto` | src/main.rs:266-275 | The issue, comment, time spent and date are copied unchanged. |
| `Cli.AddRequest` | src/main.rs:277-280 | The request `add` sends is a POST to the context's domain and issue, with the converted credentials. The body has the comment and time spent unchanged and `started` = `%F` date + `T12:00:00.000+0000`. |
| `Cli.AddWorklog` | src/main.rs:277-282 | `add` gives the create classification of what the server answers to exactly `AddRequest`, for the context's issue. It succeeds iff that answer is a 2xx status. |

## Left out

- HTTP transport (`reqwest::blocking::Client`, `send`, src/worklog_api.rs:57-62 and 94-101): it is the parameter `send`. The model does not say which URLs reqwest refuses to build; that is part of what `send` returns.
- reqwest's encoding of the query map into the URL, and its own URL parsing: the query is the map itself. The map's order is unspecified in the source, which turns a `HashMap` into a vector.
- Base64 encoding inside reqwest's `basic_auth`: a foreign call, so `BasicAuth` stays an abstract mechanism.
- Serde JSON decoding of the response (`response.json::<PagedWorklogResponse>()`): what it yields is carried in `Received` as an `Option`.
- Serde JSON encoding of `WorklogAddBody`: the field names `comment`/`timeSpent`/`started` and a null comment are not spelled out. A None comment staying None is proved.
- Untagged serde decoding of `Config` and `Authorization`, and `confy::load` (src/main.rs:173) with its error: `SelectContext` starts from a configuration that has already been loaded.
- The `Default` implementations (src/main.rs:21-25 and 55-61): only the configuration loader uses them, for a file that does not exist yet.
- `string_to_date_mapper` (src/main.rs:123-130): it relies on chrono's date parser. `Date` is a subset type that admits only real calendar dates.
- `today()` (a clock read), clap argument parsing, the `main` dispatch, and the `println!` side effect: `view` returns its lines instead of printing them.
- src/config.rs (interactive prompts and file storage) is not part of this model.
- The `Display` messages of `ApiError` and `ReadConfigError`: these are message text only, with no logic.
- Civil.PosixAgreement: stated only for years from 1970 on, the range where the POSIX expression is defined.
- Format.TimestampMillisValue: instants are whole seconds, so the contract says nothing about dropping sub-seconds. `%s` truncates them in chrono, but no instant the client makes has any.
- Civil: chrono's year range, −262144 to 262143, is not modelled, so years are unbounded integers. Instants carry no sub-seconds, because every instant the client makes has none.
