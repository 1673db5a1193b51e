# money-cli: report rendering, account paths and entity selection

A Dafny model of three pieces of logic in the `money-cli` command-line client for a
personal-finance web service. The network calls around them are replaced by plain
inputs.

- **Reports** (`lib/reports.js`). The income-statement and balance-sheet commands
  receive a list of report rows. They drop data rows that are deeper than the
  `--max-depth` option, and are meant to drop zero-valued data rows too (as written
  they do not; see Findings). They then print each remaining row, either as a
  fixed-column line or as a `caption,value` CSV line. The `--from`, `--to` and
  `--as-of` options accept date keywords such as `end-of-previous-month`; these are
  turned into an ISO `YYYY-MM-DD` date.
  - Module `Reports` holds the filter, both renderers, the format dispatch and the
    filter-then-render pipeline. The pipeline is a method with two loops. It uses the
    intended filter, which also drops zero-valued data rows; the filter as written is
    kept beside it.
  - Module `ReportDates` holds `toDate` and the five date helpers, with "today" as a
    parameter. It also holds a reader for the ISO text, which is the partner that the
    keyword results are stated against.
  - Module `JsText` holds the JavaScript string operations these use: `padStart`,
    `padEnd`, `repeat`, `lastIndexOf` and `substring`, with its clamping and swapping.
- **Account paths** (`lib/accounts.js`). `fetchAccountByPath` splits a path such as
  `Assets/Bank/Checking` or `Expenses:Groceries` on `/` or `:`. It looks up each
  segment by name, in order. It fails at the first segment with no match, and
  otherwise returns the first match of the last segment.
  - Module `Accounts` models the remote lookup as a function from a name to the
    accounts with that name. The method returns the names it looked up, in order,
    beside the result.
  - The loop is a `while` loop proved against the recursive specification `Resolve`.
- **Entity selection** (`lib/entities.js`). `fetchEntityId` returns the id of the
  entity with a given name and remembers it in the persistent configuration. Without a
  name, it returns the id remembered earlier.
  - The configuration store is the class `Config.ConfigStore`, with a `map` field
    that `Set` updates.
  - `Entities.FetchEntityId` is proved against the value-level specification
    `Entities.SelectEntity`.

Wording used below:
- **data row**: a row whose style is `"data"`.
- **header and summary rows**: all other rows.
- **the remembered id**: the configuration key `lastUsedEntityId`.
- **today's year** (in the date rows): the clock's year as `new Date` reads a year
  argument, where 0 to 99 mean 1900 to 1999.

Module `Results` defines `Option` and `Result`. A JavaScript `throw` becomes an
`Err` value, with an error datatype whose `Message()` gives the thrown text.

## Model

| member | source | states |
|---|---|---|
| Reports.AcceptReportRow | lib/reports.js:151-157 | Header and summary rows are accepted whatever their depth or value. A data row is accepted exactly when its depth is at most `maxDepth` and its amount is non-zero. This is the intended filter; see Findings. |
| Reports.FilterRows | lib/reports.js:169 | The filtered rows are no more than the input rows. Every kept row occurs in the input and is accepted by the intended filter. |
| Reports.FilterRowsMembership | lib/reports.js:169 | A row is in the output exactly when it is in the input and accepted. |
| Reports.FilterRowsAppend | lib/reports.js:168-169 | Filtering a concatenation equals concatenating the filtered parts, so the filter keeps input order. |
| Reports.FilterRowsKeepsStructure | lib/reports.js:154-156 | The output keeps every header and summary row of the input, in order. |
| Reports.PaddedColumns | lib/reports.js:121-133 | Data rows get indentation `2*(depth+1)` and caption width `54-2*depth`. Other rows get indentation 0 and caption width 54. The three widths always sum to the decimal column: `74-2*depth` for data rows, 76 otherwise. |
| Reports.SplitAtDecimal | lib/reports.js:136-138 | The two parts concatenate back to the currency string. With a `.`, the second part starts at the last `.` and holds no other `.`. Without one (`lastIndexOf` gives -1), the first part is empty and the second is the whole string. |
| Reports.PaddedLine | lib/reports.js:120-145 | The line's length is the indentation, plus the caption padded to at least its width, plus the integer part padded to at least its width, plus the decimal part: nothing is cut. The line is the indentation, the whole caption, a run of spaces only, then the whole currency string. |
| Reports.PaddedLineCaption | lib/reports.js:142-143 | A padded line begins with its indentation followed by the whole caption: padding never truncates. |
| Reports.PaddedLineCurrency | lib/reports.js:139-143 | A padded line ends with the whole currency string. |
| Reports.PaddedLineDecimalPoint | lib/reports.js:126-143 | When the currency has a `.` and the caption and integer part fit their widths, the `.` lands at column `74-2*depth` for data rows and 76 otherwise. |
| Reports.CsvLine | lib/reports.js:147-149 | The line is one character longer than the caption and the amount text together; when the caption has no comma, a reader that splits at the first comma gets back the caption and the amount text. |
| Reports.CsvLineLayout | lib/reports.js:147-149 | For a caption without a comma the line is exactly the caption, one comma, then the amount text, even when the amount text is empty. |
| Reports.SplitAtFirstCommaOf | lib/reports.js:148 | A line `a + "," + b` whose `a` has no comma splits back into `(a, b)`. |
| Reports.CsvCaptionWithComma | lib/reports.js:147-149 | The CSV renderer does not escape commas. For a row whose caption is `a,b` (where `a` has no comma), the rendered line is read back as `a` and `b,<amount>`. |
| Reports.RenderReportRow | lib/reports.js:112-118 | Format `"csv"` gives the CSV line. Every other format, not only `"padded"`, gives the padded line. |
| Reports.RenderRows | lib/reports.js:170 | There is one line per row, and line `i` is the rendering of row `i`. |
| Reports.RenderRowsAppend | lib/reports.js:170 | Rendering a concatenation equals concatenating the renderings. |
| Reports.AcceptedRows | lib/reports.js:168-169 | The loop collects exactly `FilterRows` of the report, with the intended filter. |
| Reports.RenderedLines | lib/reports.js:170 | The loop produces exactly `RenderRows` of its rows. |
| Reports.ReportLines | lib/reports.js:167-170 | The printed lines are the renderings of the accepted rows, in order, with the intended filter. The balance sheet does the same at lib/reports.js:196-199. |
| Reports.ReportOutputShape | lib/reports.js:168-170 | The output has one line per accepted row. Line `i` renders the `i`-th accepted row, which occurs in the report and is accepted. |
| Reports.AcceptReportRowAsWritten | lib/reports.js:151-157 | The filter as written: a data row passes exactly when its depth is at most `maxDepth`, whatever its amount. |
| Reports.ZeroRowPassesFilterAsWritten | lib/reports.js:153 | A zero-valued data row at depth 0 with `maxDepth` 0 passes the filter as written and is rejected by the intended one. |
| ReportDates.DaysInMonth | lib/reports.js:68 | A month has 28 to 31 days. February has 29 exactly in Gregorian leap years and 28 otherwise. April, June, September and November have 30, and the other months 31. |
| ReportDates.NewDate | lib/reports.js:58-78 | `new Date(y, m, d)`: a year argument from 0 to 99 means 1900 to 1999, and the month index rolls over into later years. Day `d >= 1` gives that date in the normalised month. Day 0 gives the day whose next day is the 1st of that month. |
| ReportDates.StartOfThisMonth | lib/reports.js:57-60 | The 1st of today's month. |
| ReportDates.StartOfThisYear | lib/reports.js:62-65 | January 1 of today's year. |
| ReportDates.EndOfThisMonth | lib/reports.js:67-70 | A date in today's month whose next day is the 1st of a month, i.e. the month's last day. |
| ReportDates.EndOfPreviousMonth | lib/reports.js:72-75 | The day before the 1st of today's month. In January this is December 31 of the previous year; otherwise it is in the previous month of the same year. |
| ReportDates.EndOfThisYear | lib/reports.js:77-80 | A date in today's year whose next day is January 1 of the following year. |
| ReportDates.YearText | lib/reports.js:59 | The year field of `toISOString`: four digits for years 0 to 9999, otherwise `-` or `+` followed by six digits. |
| ReportDates.DigitText | lib/reports.js:59 | Exactly `width` characters, all decimal digits. |
| ReportDates.DigitRoundTrip | lib/reports.js:59 | The digits of a number below `10^width` read back as that number. |
| ReportDates.IsoDate | lib/reports.js:59 | For years 0 to 9999, the text has 10 characters with `-` at positions 4 and 7. |
| ReportDates.YearRoundTrip | lib/reports.js:59 | Every year of at most six digits written as `toISOString` does reads back as itself. |
| ReportDates.IsoFields | lib/reports.js:59 | In `year-MM-DD` the year, month and day sit at fixed offsets from the end. |
| ReportDates.IsoDateRoundTrip | lib/reports.js:59 | The ISO text of a valid date reads back as that date. The reader requires `-` at both separators and digits in every field. |
| ReportDates.ParseIsoDateRejectsOtherSeparators | lib/reports.js:59 | The reader refuses `2026/10/01` and a month field that is not all digits. |
| ReportDates.ToDate | lib/reports.js:82-97 | A non-keyword string is returned unchanged. Each keyword returns exactly `IsoDate` of its helper's date. That text reads back as the 1st of this month, the last day of this month, the day before the 1st of this month, January 1, or December 31. |
| Accounts.SplitFrom | lib/accounts.js:27 | A path with `n` delimiters gives `n+1` segments, none holding a delimiter. |
| Accounts.SplitPath | lib/accounts.js:27 | `split(/[\/:]/)` gives one more segment than there are delimiters, so empty pieces are kept. No segment contains `/` or `:`. |
| Accounts.SplitPathJoin | lib/accounts.js:27 | Joining the segments with `/` gives back the path with every `:` written as `/`. |
| Accounts.SplitPathMixedDelimiters | lib/accounts.js:27 | `/` and `:` are interchangeable: a path splits as its all-`/` form does. |
| Accounts.SplitPathKeepsEmptyPieces | lib/accounts.js:27 | `a//b` splits into `a`, `""`, `b`. |
| Accounts.Resolve | lib/accounts.js:29-41 | The loop from a given point on. It makes at most one lookup per segment, and at least one when any segment is left. A success has looked up every segment, in order. |
| Accounts.ResolveSuccess | lib/accounts.js:29-41 | On a non-empty segment list, resolution succeeds exactly when every segment has a match. Then it looks up each segment once, in order, and returns the first match of the last segment. |
| Accounts.ResolveFailure | lib/accounts.js:29-37 | On failure, the looked-up names are a prefix of the segments. Every one but the last had a match and the last had none. The error names that last segment and nothing after it is looked up. |
| Accounts.ResolveAfterFoundPrefix | lib/accounts.js:29-37 | After `k` segments that all have matches, the outcome equals that of resolving the remaining segments from any starting account. Each lookup depends on the name alone. |
| Accounts.PathFallbackUnreachable | lib/accounts.js:38-40 | The "No account found with path" error is never produced. |
| Accounts.EmptyPath | lib/accounts.js:27-33 | The empty path looks up `""` once. With no account named `""`, it fails naming `""`. |
| Accounts.FetchAccountByPath | lib/accounts.js:26-42 | The shifting loop returns the result and names looked up that `Resolve` specifies for the split path. |
| Accounts.FetchAccountId | test/accounts.test.js:97-116 | The id of the resolved account, or the same error, after the same lookups. |
| JsText.Spaces | lib/reports.js:143 | `' '.repeat(n)`: `n` characters, all spaces. |
| JsText.PadEnd | lib/reports.js:142 | `padEnd(width)`: the string itself followed by spaces, with length the larger of its own length and `width`. |
| JsText.PadStart | lib/reports.js:139 | `padStart(width)`: spaces followed by the string itself, with length the larger of its own length and `width`. |
| JsText.LastIndexOf | lib/reports.js:136 | -1 exactly when the character is absent. Otherwise it is an index holding the character, with no later index holding it. |
| JsText.Substring | lib/reports.js:137-138 | For bounds in order within the string, that slice. Both bounds at or below 0 give the empty string. |
| Config.GetOrThrow | test/config.test.js:39-53 | Succeeds exactly when the key is present, returning its stored value. Otherwise the message is `No configuration value for <key>`. |
| Config.ConfigStore.Set | lib/entities.js:27 | The key now holds the value; every other key is unchanged. |
| Entities.FirstNamed | lib/entities.js:23 | The index of the first entity with the name, or -1 exactly when none has it. |
| Entities.FindEntity | lib/entities.js:23 | None exactly when no entity has the name; otherwise the first entity with it. |
| Entities.SelectEntity | lib/entities.js:18-29 | No name: the remembered id, or the missing-key error; nothing is written. A name: succeeds exactly when some entity has it, returning the id of the first such entity and remembering it. An unknown name gives `No entity found with name "<name>"` and leaves the configuration unchanged. No key other than `lastUsedEntityId` ever changes. |
| Entities.NoNameIgnoresEntities | lib/entities.js:19-21 | Without a name, the outcome does not depend on the entity list. |
| Entities.FetchEntityId | lib/entities.js:18-29 | The method's result and the store's new contents are exactly those `SelectEntity` gives for the old contents. |

## Left out

- Network I/O: `fetchIncomeStatement`, `fetchBalanceSheet`, `fetchAccounts` with `accountIndexUrl`, `fetchEntities`, and the HTTP request details. Their results are inputs: a row sequence, a lookup function and an entity list.
- Console output, the spinner and the `.catch` handlers that print errors. A printed line is an element of the returned sequence, and a thrown error is an `Err` value.
- Budget monitors (lib/reports.js:27-55): floating-point gauges drawn with terminal UI libraries.
- `formatCurrency` (`Intl.NumberFormat`) and the text of `${r.value.d}` are uninterpreted functions (`Reports.Formatters`). The properties about padded lines hold for any currency text.
- Reports.FilterRows, Reports.AcceptedRows and Reports.ReportLines use the intended filter. As written, lib/reports.js:153 also prints zero-valued data rows within the depth limit; `Reports.AcceptReportRowAsWritten` models that filter (see Findings).
- Reports.PaddedLine: lengths count Unicode scalar values, while JavaScript `length`, `padEnd` and `padStart` count UTF-16 code units. For a caption or currency text holding a character outside the Basic Multilingual Plane (an emoji, say), the source pads one column less per such character than the model does.
- JsText.PadEnd, JsText.PadStart, JsText.LastIndexOf and JsText.Substring: their positions and widths count Unicode scalar values, not the UTF-16 code units JavaScript counts. They agree with JavaScript on text within the Basic Multilingual Plane.
- Amounts are exact `real` numbers. JavaScript floating point is not modelled.
- ReportDates.ToDate: the dates are built at local midnight and printed by `toISOString` in UTC. East of UTC this can give the previous day; that timezone shift is not modelled. Dates are exact (year, month, day).
- ReportDates.StartOfThisMonth, ReportDates.EndOfThisMonth, ReportDates.EndOfPreviousMonth: the source reads the clock twice, once for `getFullYear()` and once for `getMonth()` (lib/reports.js:58, 68, 73), while the model takes one `today`. A call whose two reads straddle midnight at a year end (year 2026 from the first read, January from the second) gives dates such as 2026-01-01 or 2025-12-31 that no single `today` produces; that case is not modelled.
- ReportDates.ToDate: "today" is a parameter whose year is limited to the range a JavaScript `Date` holds. The clock is not read.
- Accounts.FetchAccountByPath: the entity is part of the lookup function, since lib/accounts.js:26 takes only the path while its tests pass an entity id too.
- Accounts.FetchAccountId: it is tested but not defined in lib/accounts.js. It is modelled as the `.id` of the resolved account.
- Config.GetOrThrow: it is imported from lib/config.js but not defined there. It is modelled on its tested behaviour as a map lookup.
- The `config` subcommand (set, unset and view from the command line, lib/config.js:5-32) is CLI dispatch and not modelled.
- Entities.FetchEntityId uses the key `lastUsedEntityId`, as lib/entities.js:20 and 27 do. The entity tests expect `currentEntityId` (test/entities.test.js:64, 81); the model follows the code.
- lib/authentication.js (credential files), lib/transactions.js (an HTTP post), lib/util.js, lib/about.js and index.js are not part of this model.
- Account grouping by type and qualified-name construction are not part of this model.

## Findings

| source | as written | input that shows it | evidently intended | confidence | as-written member | corrected member |
|---|---|---|---|---|---|---|
| lib/reports.js:153 | `r.value != 0.0` compares the wire value, an object holding the amount in `d` (read at lines 134 and 148), with a number. An object is never loosely equal to `0.0`, so zero-valued data rows are never dropped. | a data row `Gift` with amount `{d: 0}`, depth 0, `maxDepth` 0 | drop data rows whose amount `r.value.d` is zero | medium, not executed | Reports.AcceptReportRowAsWritten, Reports.ZeroRowPassesFilterAsWritten | Reports.AcceptReportRow |
