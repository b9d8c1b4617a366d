# czsnoop core in Dafny

This project models the decision-making core of czsnoop. czsnoop is a command-line tool that looks up a person in the Czech trade register (RŽP) and lists the businesses tied to them. The model covers:

- **Types** (`types.dfy`): the registry identifier (IČO) validator, and the `Result[T]` pair that the per-person tasks send.
- **Calendar** (`calendar.dfy`): proleptic Gregorian dates and Go's `AddDate` normalisation. It also covers the two helpers that turn `--min-age` / `--max-age` into birth-date bounds. These helpers appear word for word in both `cmd/search.go` and `cmd/person.go`, so they are modelled once.
- **TimeFormat** (`timeformat.dfy`): Go's `time.Parse` for the layouts `02.01.2006` and `2006-01-02`, and `Format` for the second layout.
- **Rzp** (`rzp.dfy`): the registry client without its I/O:
  - the query parameters of the subject and person searches;
  - the flattening of a statement's trades, and the mapping of a statement to a `SubjectDetail`;
  - the two-stage `GetSubjectDetails`;
  - the JSON date type.
- **Search** (`search.dfy`):
  - the split of the free-text name into first name and surname;
  - the checks of `rzpPersonSearch` and `rzpAddressToCode`;
  - the per-person task, run sequentially.

Every registry call is a function parameter that returns a `Result`. Each call to `cancel(cause)` shows up as a cause returned beside the result.

Two facts about the code shape the model:

- The per-person task sends its errors and carries on, and the collector at internal/search/search.go:131-133 keeps only the person of each sent pair: an error reaches the output as the person sent with it, and the search itself returns a nil error.
- `strings.Split` at internal/search/search.go:141 splits on single spaces, and all pieces but the last are joined back as the first name, so runs of spaces give empty pieces (`Search.SplitNameKeepsEmptyPieces`).

## Model

| member | source | states |
|---|---|---|
| Types.Utf8Length | internal/types/types.go:11 | the length `len` checks is the UTF-8 byte count: never less than the character count, and equal to it exactly for ASCII text |
| Types.Atoi | internal/types/types.go:14 | `strconv.Atoi` accepts only an optional sign followed by at least one ASCII digit, with a value in the int64 range |
| Types.AtoiShort | internal/types/types.go:14 | on inputs of at most 10 characters, Atoi succeeds exactly when the text is well formed (no overflow is possible) |
| Types.CreateIco | internal/types/types.go:10-18 | error "wrong length" exactly when the byte length is not 8; error "not a number" exactly when the length is 8 and Atoi fails; on success the input comes back unchanged |
| Types.CreateIcoAcceptsExactly | internal/types/types.go:10-18 | an identifier is accepted exactly when it is 8 ASCII digits, or a sign followed by 7 digits |
| Types.CreateIcoRejectsTestInputs | internal/types/types_test.go:13-15 | "1234567" and "123456789" fail on length; "1234567a" fails as not a number |
| Types.SignedIcoAccepted | internal/types/types.go:11-17 | any 8-character text of a sign or digit followed by 7 digits (such as "12345678", "+1234567", "-1234567") is accepted unchanged, because Atoi takes a leading sign |
| Calendar.LeapYearRule | cmd/search.go:85-93 | the 400/100/4 if-chain holds exactly when the year is divisible by 400, or by 4 and not by 100 |
| Calendar.DaysIn | cmd/search.go:74 | months have 28 to 31 days, and 29 exactly for February of a leap year |
| Calendar.NormalizeDay | cmd/search.go:74 | folding an out-of-range day into the neighbouring months always yields a valid date, and leaves an in-range day alone |
| Calendar.Normalize | cmd/person.go:71 | `time.Date` normalisation yields a valid date, and is the identity on valid dates |
| Calendar.AddOneDay | cmd/search.go:82 | `AddDate(0, 0, 1)` is the next calendar day, and the previous day of that is the start again |
| Calendar.SubtractOneDay | cmd/search.go:76 | `AddDate(0, 0, -1)` is the previous calendar day, and the next day of that is the start again |
| Calendar.ShiftYears | cmd/person.go:71 | moving by whole years keeps month and day, except that 29 February in a common year becomes 1 March |
| Calendar.MinAgeToBornBefore | cmd/search.go:73-79 | the result is always a valid date |
| Calendar.MinAgeToBornBeforeCases | cmd/search.go:73-79 | the result is today's month and day in year `today.year - minAge`, except that 1 March of a leap year gives 29 February (also for `minAge` 0), and 29 February into a common year gives 1 March |
| Calendar.MaxAgeToBornAfter | cmd/person.go:78-80 | the result is always a valid date |
| Calendar.MaxAgeToBornAfterCases | cmd/search.go:81-83 | the result is the day after today's month and day in year `today.year - maxAge - 1`; a month end rolls into the next month, or into the next year after 31 December, and 29 February into a common year gives 2 March |
| Calendar.AgeHelperTestCases | cmd/search_test.go:14-16 | 2021-01-01/18 gives 2003-01-01; 2020-02-29/18 gives 2002-03-01; 2022-03-01/18 gives 2004-02-29; the max-age helper maps 2021-01-01/18 to 2002-01-02 (search_test.go:43) |
| Calendar.CorrectedBoundsAgreeAwayFromLeapDay | cmd/person.go:70-80 | except on 29 February and 1 March, both helpers equal the exact age bounds |
| Calendar.BornBeforeForMinAge | cmd/search.go:73-79 | corrected bound: always a valid date |
| Calendar.BornBeforeForMinAgeIsExact | cmd/search.go:73-79 | a birth date is on or before the corrected bound exactly when the person is at least `minAge` years old today |
| Calendar.BornAfterForMaxAge | cmd/search.go:81-83 | corrected bound: always a valid date |
| Calendar.BornAfterForMaxAgeIsExact | cmd/search.go:81-83 | a birth date is on or after the corrected bound exactly when the person is at most `maxAge` years old today |
| Calendar.MinAgeToBornBeforeExcludesMarchBirthday | cmd/search.go:75-77 | someone born 2004-03-01 is 18 on 2022-03-01 but falls after the helper's bound |
| Calendar.MinAgeToBornBeforeIncludesMinor | cmd/search.go:74 | someone born 2002-03-01 is 17 on 2020-02-29 but falls within the helper's bound |
| Calendar.MaxAgeToBornAfterMisjudgesLeapDay | cmd/person.go:78-80 | on 2024-02-29 the max-age-18 bound is 2005-03-02, which leaves out someone born 2005-03-01 who is still 18 |
| TimeFormat.DigitChar | internal/rzp/rzp.go:335 | each digit is written as the ASCII digit of that value |
| TimeFormat.Checked | internal/rzp/rzp.go:311 | a parsed year, month and day are accepted exactly when they form a valid date |
| TimeFormat.IsoDateRoundTrip | internal/rzp/rzp.go:335 | formatting as YYYY-MM-DD and parsing back gives the date for years 0..9999; other years format to text the parser refuses |
| TimeFormat.IsoDateParsesBack | internal/rzp/rzp.go:334-336 | the YYYY-MM-DD text of a valid date in the years 0..9999 parses back to that date |
| TimeFormat.IsoDateOutOfRange | internal/rzp/rzp.go:335 | the YYYY-MM-DD text of a year before 0 or after 9999 does not have the shape the parser accepts |
| TimeFormat.ParseIsoDateCanonical | internal/rzp/rzp.go:311 | YYYY-MM-DD accepts only canonical text: the parsed date is valid, its year is in 0..9999, and it formats back to the input |
| TimeFormat.ParseDottedDateExactly | internal/rzp/rzp.go:247 | DD.MM.YYYY parses to a date exactly when the text is that valid date's dotted form, in the years 0..9999 |
| TimeFormat.ParsedDottedIsCanonical | internal/rzp/rzp.go:254 | whatever DD.MM.YYYY parses is valid, in the years 0..9999, and written back gives the input |
| TimeFormat.DottedFormParses | internal/rzp/rzp.go:198 | the dotted form of any valid date in the years 0..9999 parses back to that date |
| TimeFormat.TwoDigitField | internal/rzp/rzp.go:335 | a value below 100 is written as two digits that read back as the value |
| TimeFormat.FourDigitField | internal/rzp/rzp.go:335 | a value below 10000 is written as four digits that read back as the value |
| TimeFormat.TwoDigitText | internal/rzp/rzp.go:247 | any two digits read as a value below 100 that is written back as the same two digits |
| TimeFormat.TwoDigitValue | internal/rzp/rzp.go:247 | two digits read as ten times the first digit plus the second |
| TimeFormat.FourDigitValue | internal/rzp/rzp.go:254 | four digits read place by place: thousands, hundreds, tens, units |
| TimeFormat.FourPlaces | internal/rzp/rzp.go:335 | division and remainder by 1000, 100 and 10 recover the four places of a value below 10000 |
| TimeFormat.FourDigitText | internal/rzp/rzp.go:247 | any four digits read as a value below 10000 that is written back as the same four digits |
| TimeFormat.LongYearField | internal/rzp/rzp.go:335 | a negative year, or a year of five or more digits, never fits the four-character year field |
| Rzp.Add | internal/rzp/rzp.go:109-123 | `url.Values.Add` appends the value under its key and leaves every other key alone |
| Rzp.SubjectSearchParameters | internal/rzp/rzp.go:108-123 | error exactly for a subject type other than "statutory body" and "enterpreneur"; otherwise the exact keys `s-ico`, `s-presvyber`, `pouzeplatne`, `s-role`, plus `s-obchjm` only for a non-empty name, with their values and role S or P |
| Rzp.PersonSearchParameters | internal/rzp/rzp.go:326-336 | `pouzeplatne=true` always; `o-jmeno` and `o-prijmeni` exactly for non-empty names; `o-datum` exactly for a non-zero birth date, as the single value `Format(time.DateOnly)` writes, which for years 0..9999 parses back to that date |
| Rzp.UnmarshalIso8601Date | internal/rzp/rzp.go:305-317 | succeeds exactly on a JSON string in YYYY-MM-DD form; on error the target is unchanged; on success the date is valid and formats back to the string |
| Rzp.DecodePeopleAllOrNothing | internal/rzp/rzp.go:347-351 | the person list decodes exactly when every date present decodes; then the people keep their order, and each has its own identifier and date |
| Rzp.EntryTrades | internal/rzp/rzp.go:258-263 | one trade per `Drive` value, in order, each with the entry's date and an empty licence validity |
| Rzp.CollectStatementTrades | internal/rzp/rzp.go:252-264 | the nested trade loop computes the left-to-right flattening of the entries, or the error of the first bad date |
| Rzp.StatementTradesKeepsFirstError | internal/rzp/rzp.go:254-257 | once an entry's date fails, the whole statement fails with that error |
| Rzp.StatementTradesFailIffBadDate | internal/rzp/rzp.go:253-257 | the trades fail exactly when some entry's `Vznik` does not parse, even for an entry with no `Drive` values |
| Rzp.StatementTradesConcat | internal/rzp/rzp.go:253-264 | flattening distributes over concatenation: the trades of `a + b` are those of `a` followed by those of `b`, and the first error wins |
| Rzp.StatementTradesOfEntry | internal/rzp/rzp.go:254-263 | a single entry gives its dated `Drive` trades, or the date error |
| Rzp.StatementTradesCount | internal/rzp/rzp.go:258-263 | on success there is exactly one trade per `Drive` value across all entries |
| Rzp.StatementDetailOutcome | internal/rzp/rzp.go:246-277 | a statement yields a detail exactly when its birth date and every `Vznik` parse; the detail carries the parsed birth date (whose dotted form is the input), the flattened trades, and the statement's address, identifier, names, titles before and after the name, and citizenship |
| Rzp.GetSubjectStatement | internal/rzp/rzp.go:246-277 | the statement function is computed; `Zivnost[0]` is read, so a statement whose birth date parses must have a trade entry |
| Rzp.GetSubjectDetails | internal/rzp/rzp.go:196-214 | a bad first-stage `DatumVzniku` fails with a date error, although those trades are discarded; otherwise the result is exactly the second-stage detail, and its failures and fetch failures come back wrapped as "deeper details" errors |
| Search.JoinSplit | internal/search/search.go:141-142 | joining the pieces of `strings.Split(s, " ")` with single spaces gives `s` back |
| Search.SplitPieces | internal/search/search.go:141 | no piece contains a space, and there is one more piece than there are spaces |
| Search.SpacesCountsSpaces | internal/search/search.go:141 | the space count is zero exactly when the text has no space |
| Search.SplitLastPiece | internal/search/search.go:141-143 | the last piece has no space; a text without spaces is its own only piece; otherwise the joined head, a space and the last piece give the text back |
| Search.SplitName | internal/search/search.go:139-146 | the surname has no space; a name without spaces gives an empty first name and the whole name as surname; otherwise first name + " " + surname is the name |
| Search.SplitNameKeepsEmptyPieces | internal/search/search.go:141-143 | "Jan  Novak" gives first name "Jan " and surname "Novak"; "Jan " gives "Jan" and an empty surname |
| Search.LastSpaceSplits | internal/search/search.go:142-143 | the surname is the text after the last space, and the first name the text before it |
| Search.PersonQueryFor | internal/search/search.go:139-146 | an empty query leaves both names empty; otherwise the names are the split name; the birth date is never set |
| Search.RzpPersonSearch | internal/search/search.go:138-160 | it cancels exactly when the search fails, with the same wrapped error it returns; a truncated answer is refused without cancelling; otherwise the people come back unchanged, in order |
| Search.AddressToCode | internal/search/search.go:162-180 | a code only for exactly one matching address, otherwise 0 and an error; a conversion failure does not cancel, a failed address search cancels with the returned error |
| Search.EconomicSubjects | internal/search/search.go:71-78 | one economic subject per found subject, in order, with name, address and identifier copied |
| Search.Names | internal/search/search.go:107-110 | the names of the same-address subjects, in order |
| Search.CollectEconomicSubjects | internal/search/search.go:71-78 | the loop builds exactly the list of economic subjects |
| Search.CollectNames | internal/search/search.go:107-110 | the loop builds exactly the list of same-address names |
| Search.VisitSubject | internal/search/search.go:89-115 | one pass of the subject loop computes its specification step: "F" subjects fetch the detail, resolve the address and search by it; other subjects change nothing |
| Search.PersonTask | internal/search/search.go:63-117 | the task's sends and cancel causes are exactly those of its specification |
| Search.VisitAllSkipsOthers | internal/search/search.go:90 | subjects whose type is not "F" change nothing |
| Search.VisitAllKeepsIdentity | internal/search/search.go:80-88 | the subject loop changes only address, citizenship and same-address names |
| Search.VisitAllSendsErrors | internal/search/search.go:92-95 | inside the loop only errors are sent, and each is also a cancel cause |
| Search.PersonTaskResult | internal/search/search.go:71-88 | the last send is the person with no error: full name, first and last name, titles before and after the name and birth date from the candidate, one economic subject per found subject in order; every earlier send is an error that was also a cancel cause |
| Search.PersonTaskWithoutEntrepreneur | internal/search/search.go:89-115 | with no "F" subject, address, citizenship and same-address names stay empty |
| Search.PersonTaskLastEntrepreneurWins | internal/search/search.go:89-115 | the last "F" subject decides: its own address, the citizenship from its detail (or empty when the detail failed), and the names found by its address code (0 when unresolved), or none when that search failed |
| Search.VisitAllLastEntrepreneur | internal/search/search.go:96-113 | the last "F" subject visited sets address, citizenship and same-address names |
| Search.PersonTaskSendsTwiceOnFailure | internal/search/search.go:67-70 | a failed subject search sends its error and then a second, error-free person with no subjects |
| Search.FirstDetailFailure | internal/search/search.go:91-95 | no detail failure exactly when every "F" subject's detail fetch succeeds |
| Search.PersonOutcome | internal/search/search.go:63-117 | corrected task: it fails exactly when the subject search or some "F" detail fetch fails, with the subject-search error first |
| Search.PersonOutcomeMatchesTask | internal/search/search.go:63-117 | the corrected task succeeds exactly when the task as written sends a single result, and then its person is that result |
| Search.VisitAllSentCount | internal/search/search.go:92-95 | the loop sends nothing exactly when every "F" detail fetch succeeds |

## Left out

- HTTP requests, the session identifier, status-code checks, XML/JSON decoding and the IANA charset reader of internal/rzp/rzp.go. Decoded responses are inputs, and every client call is a function parameter. A `Transport` error stands for any of these failures.
- The concurrency of `Rzp` in internal/search/search.go (lines 41-136): the goroutines, the WaitGroup, the unbuffered channel and the collector. Each per-person task is modelled as a sequential method. The collector is out: it keeps every sent result, errors included, as the person in it, and always returns a nil error.
- The birth-date range of `PersonSearchInput`. The search code never applies it, so no filter is modelled.
- `SearchAddress`, `RzpAddress.ToSearchableString`, the subject `Type` field and the `PersonId`/`AddressCode` query fields: internal/search/search.go uses them but internal/rzp/rzp.go does not define them. They are parameters of `Search.Client`, and the subject seen by the task is `Search.ListedSubject`.
- Clock time, time zones and `time.Now()`. A `time.Time` is reduced to its calendar date, and "today" is a parameter. `IsZero` is modelled as the date 0001-01-01, so a zero date with a non-zero clock time is not distinguished.
- URL encoding of the query (`Values.Encode`). The parameters are a map from key to values, which is what `Encode` sorts and escapes.
- Logging, and the cobra command wiring in cmd/.
- Rzp.GetSubjectDetails: the source builds the first-stage trades and then discards them; the method builds them too (`firstStage`), but its contract states only their date check, because nothing reads them.
- Search.Visit, Search.PersonTask: every registry call is a pure function of its argument, so the model does not capture the shared context. The client keeps the context created at internal/search/search.go:42 and builds every request from it (internal/rzp/rzp.go:102 and :174). After `cancel(err)` at internal/search/search.go:68, :93 or :172, every later `SearchSubject` and `GetSubjectDetails` call fails in Go, also in this task. The model lets such a call give the same result as before the cancel. For example, after a failed detail fetch the later same-address search can still find names, where Go finds none. Cancels from other persons' tasks, which share the same context, are left out with the concurrency.
- Types.Utf8Length: assumes the Go string is valid UTF-8, which is always true of text that came through the JSON decoder.

## Findings

| source | as written | input that shows it | evidently intended | confidence | as-written member | corrected member |
|---|---|---|---|---|---|---|
| cmd/search.go:73-79 (and cmd/person.go:70-76) | the min-age bound moves the year back through `AddDate` and then turns a 1 March of a leap year into 29 February | today 2022-03-01, min age 18: bound 2004-02-29, so someone born 2004-03-01, who turns 18 that day, is excluded; today 2020-02-29: bound 2002-03-01, so someone born 2002-03-01, still 17, is included | the latest birth date of someone at least `minAge` years old, inclusive as in the 2021-01-01 test: the same month and day, clamped to the month's last day | low (the tests pin these values, so another reading of age may be meant); not executed | Calendar.MinAgeToBornBeforeExcludesMarchBirthday | Calendar.BornBeforeForMinAgeIsExact |
| cmd/search.go:81-83 (and cmd/person.go:78-80) | the max-age bound adds one day after moving back `maxAge + 1` years, so 29 February into a common year overflows to 2 March | today 2024-02-29, max age 18: bound 2005-03-02, so someone born 2005-03-01, who is still 18, is excluded | the earliest birth date of someone at most `maxAge` years old: the day after the clamped date `maxAge + 1` years back | medium; not executed | Calendar.MaxAgeToBornAfterMisjudgesLeapDay | Calendar.BornAfterForMaxAgeIsExact |
| internal/search/search.go:67-70, 92-95 | the error paths of the per-person task send the error but neither return nor stop, so the task also sends a person | a subject search that fails: the error and then an error-free person with no subjects are sent, and the collector keeps both as people | the first error ends the task, which sends exactly one outcome | high; not executed | Search.PersonTaskSendsTwiceOnFailure | Search.PersonOutcomeMatchesTask |
