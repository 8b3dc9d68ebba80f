# Option validation of clevertap-data-upload

This project models the configuration layer of a command-line tool. The tool
imports profile or event records into a CleverTap account. The records come
from a CSV file, a Mixpanel export (live, or from event files exported
earlier), or an mParticle export on S3. The layer is `globals/globals.go`.

The project models three parts of that file:

- `Init` (lines 70-128), after the flags have been parsed. It is a chain of
  eleven guards. Each guard logs one message and returns `false`, and the
  first guard that fails stops the chain.
- `time.Parse` with the layout `"2006-01-02"` and `Time.After`. `Init` uses
  them on `-startDate` and `-endDate`.
- The repeatable options `arrayFlags` (`-mixpanelEventsFile`,
  `-filterEvent`), and the filter-event map that `InitFilterEventsSet` builds
  from `-filterEvent`.

Modules:

- `Wrappers` (`wrappers.dfy`): `Option`.
- `Dates` (`dates.dfy`): the date layout, the parser, the zero date and the
  ordering. `Parse` follows Go's steps, in order:
  - `stdLongYear`: four bytes, the first a digit, all four numeric.
  - The literal `-`.
  - `stdZeroMonth`: `getnum` with two fixed digits, then the month range
    check 1-12.
  - The literal `-`.
  - `stdZeroDay`: two fixed digits.
  - No leftover text is allowed, and the day must lie within its month
    (leap years included).

  `Parse`, which runs these steps in order, is proved to accept exactly the
  strings of the layout `HasDateLayout`, stated position by position. `Parse` and `Format` are proved to invert each other.
  `After` (Go's `Time.After` on dates at midnight UTC) is proved to agree with
  comparing day numbers counted from year 0.
- `Validation` (`validation.dfy`): the parsed options as a `Config` record.
  `Rule` has one identifier per message `Init` logs. `Validate` is the guard
  chain, and it returns `Valid` or `Invalid(rule)`. The lemmas state each rule
  in terms of the options themselves.
- `Flags` (`flags.dfy`):
  - `ArrayFlags` is a class whose `Set` appends to its `values` field.
  - `FilterEvents` holds the package variables `FEvents` and
    `FilterEventsSet`.
  - `InitFilterEventsSet` resets the map and fills it in a loop, proved
    against the recursive specification function `FilterSet`.

Where the code and a plain reading of the rules differ, the model follows the
code:

- The source-presence rule (line 70) tests `MPEventsFilePaths == nil`. The
  events-file rule (line 115) tests `!= nil && len > 0`. `Set` only appends,
  so the slice is nil exactly when no value was given, and both tests become
  "the sequence is empty".
- The ordering rule (lines 106-114) applies whatever the data source is. It
  drops the parse errors, so a malformed date reads as the zero date, January
  1 of year 1. Without a Mixpanel event export, nothing checks the format.
  So a malformed start date passes the ordering rule against any end date
  from that day on (`AcceptsUnparseableStartOnCsv`). A malformed end date
  fails the rule against any later start date (`RejectsUnparseableEndOnCsv`),
  and a malformed start date fails it against an end date in year 0
  (`RejectsUnparseableStartAgainstYearZero`).
- The filter events are a map from name to `true`, not a set. It is rebuilt
  from scratch on every call.
- Go reads the date byte by byte, and the model reads it character by
  character. A string that parses is all ASCII, so both accept the same
  strings.

## Model

| member | source | states |
|---|---|---|
| `Dates.Parse` | globals/globals.go:92 | `time.Parse("2006-01-02", s)` succeeds exactly on ten characters: four year digits, `-`, a month 01-12, `-`, a day of that month (leap years counted), nothing after. The date it returns is a calendar date with a year in 0-9999. Formatting that date gives back `s`. |
| `Dates.LayoutParses` | globals/globals.go:100 | Every string in the `yyyy-mm-dd` layout with a real calendar date is accepted by the parser: a corollary of `Parse`'s first postcondition, stated for callers. |
| `Dates.ParseFormat` | globals/globals.go:92 | Parsing the rendering of any calendar date with a year in 0-9999 gives that same date back, with no shift. |
| `Dates.ParseIgnoringError` | globals/globals.go:108-109 | The date read with the error dropped is always a calendar date. It is the zero date (January 1, year 1) when parsing fails, and the parsed date otherwise. |
| `Dates.AfterIsLaterDay` | globals/globals.go:110 | `After(a, b)` on calendar dates holds exactly when `a` is a strictly later day, counted as days since January 1 of year 0. |
| `Dates.AfterIsStrictTotalOrder` | globals/globals.go:110 | `After` is irreflexive, asymmetric, transitive and total on distinct dates. |
| `Validation.Defaults` | globals/globals.go:49-66 | The flag defaults: every string option empty, `-t` is `profile`, `-r` is `eu`, no events files. |
| `Validation.Validate` | globals/globals.go:70-128 | Whenever the chain rejects a configuration, the rule it reports is violated by that configuration. |
| `Validation.ValidateReportsFirstViolation` | globals/globals.go:70-128 | The configuration is accepted if and only if no rule is violated. When it is rejected, the reported rule is violated and every rule checked before it holds. |
| `Validation.RejectsMissingCredentials` | globals/globals.go:70-73 | An empty account id or an empty passcode is rejected by the first rule, whatever the other options say. |
| `Validation.RejectsMissingSource` | globals/globals.go:70-73 | No CSV path, no Mixpanel secret, no events files and no import service: rejected by the first rule. |
| `Validation.RejectsTwoSources` | globals/globals.go:74-77 | A CSV path together with a Mixpanel secret is rejected, by the credentials rule or by the single-source rule. |
| `Validation.AcceptedConfig` | globals/globals.go:70-128 | Every accepted configuration has an account id, a passcode and a data source, and at most one of CSV and Mixpanel secret. Its type is `profile` or `event` and its region `eu` or `in`. An event CSV upload has an event name. Events files come only with type `event`. With both dates given, the start (the zero date if malformed) is not after the end. An mparticle import has all four AWS options. |
| `Validation.RejectsEventCsvWithoutName` | globals/globals.go:82-85 | A CSV upload of type `event` with an empty event name is rejected. |
| `Validation.RejectsEventsFilesWithoutEventType` | globals/globals.go:115-118 | A non-empty events-file list with a type other than `event` is rejected. |
| `Validation.AcceptedMixpanelDates` | globals/globals.go:86-105 | An accepted Mixpanel event export has a start date, and it is in the `yyyy-mm-dd` layout. Its end date, if given, is in the layout too. |
| `Validation.RejectsBadMixpanelDates` | globals/globals.go:86-105 | A Mixpanel event export is rejected if its start date is missing or malformed, or if its end date is given and malformed. |
| `Validation.DateOrderDecides` | globals/globals.go:106-114 | Once every earlier rule holds, the ordering rule rejects exactly when both dates are given and the start date is strictly after the end date. Each date is read as the zero date when it does not parse. |
| `Validation.UnparseableStartIsZeroDate` | globals/globals.go:108-110 | A malformed start date never fails the ordering rule against an end date on or after January 1 of year 1. |
| `Validation.RejectsIncompleteMParticle` | globals/globals.go:123-127 | An mparticle import missing the AWS secret key, the access key id, the S3 bucket or the AWS region is rejected. |
| `Validation.AcceptsMinimalCsvProfile` | globals/globals.go:70-128 | Defaults plus a CSV path, an account id and a passcode is accepted. |
| `Validation.RejectsInvalidMonth` | globals/globals.go:90-97 | A Mixpanel event export with start date `2023-13-01` is rejected by the start-date format rule. |
| `Validation.StartAfterEndDates` | globals/globals.go:108-109 | `2023-02-01` and `2023-01-01` parse to those calendar dates. |
| `Validation.RejectsStartAfterEnd` | globals/globals.go:106-114 | A CSV upload with start `2023-02-01` and end `2023-01-01` is rejected by the ordering rule. |
| `Validation.AcceptsUnparseableStartOnCsv` | globals/globals.go:106-114 | A CSV upload with start `yesterday` and end `2023-01-01` is accepted, because the start reads as the zero date. |
| `Validation.RejectsUnparseableEndOnCsv` | globals/globals.go:106-114 | A CSV upload with start `2023-01-01` and end `tomorrow` is rejected by the ordering rule, because the end reads as the zero date. |
| `Validation.RejectsUnparseableStartAgainstYearZero` | globals/globals.go:106-114 | A CSV upload with start `junk` and end `0000-06-15` is rejected by the ordering rule: the zero date is in year 1, after any year-0 date. |
| `Validation.RejectsMParticleWithOnlyAccessKey` | globals/globals.go:123-127 | An mparticle import with only the access key id is rejected by the AWS credentials rule. |
| `Flags.ArrayFlags.constructor` | globals/globals.go:43-44 | A repeatable option starts with no values. |
| `Flags.ArrayFlags.Set` | globals/globals.go:38-41 | `Set` appends its value at the end and keeps every earlier value, duplicates included. |
| `Flags.FilterSet` | globals/globals.go:152-157 | A name is a key of the filter map exactly when it occurs in the events, and every key maps to `true`. |
| `Flags.FilterSetOfSameNames` | globals/globals.go:152-157 | The filter map depends only on which names occur, not on their order or repetitions. |
| `Flags.FilterSetAppend` | globals/globals.go:154-156 | One more event adds exactly that name to the keys. |
| `Flags.FilterSetOfDuplicates` | globals/globals.go:152-157 | `["e1", "e1", "e2"]` gives exactly the keys `e1` and `e2`, two of them. |
| `Flags.FilterEvents.constructor` | globals/globals.go:150 | `FilterEventsSet` starts as the nil map, which holds no key. |
| `Flags.FilterEvents.InitFilterEventsSet` | globals/globals.go:152-157 | The map is replaced by the filter map of the current `FEvents`. Its keys are exactly the names in `FEvents`, each mapped to `true`, and no earlier key remains. `FEvents` itself is unchanged. |

## Left out

- Registration of the flags with `flag.Var`, `flag.String`, `flag.Float64` and `flag.Bool`, and `flag.Parse` over the process arguments (lines 47-69). These are the Go flag library and the process's argv. The parsed result is the `Config` input instead. Only the defaults are modelled, as `Defaults`.
- The `log.Println` messages. Each message is the `Rule` identifier in `Invalid`.
- `ParseSchema` (lines 133-148). It is only a JSON decoder over an open file: file I/O and a library call.
- `StartTs` and `DryRun`. No check reads them. `SchemaFilePath` is a field of `Config` that no rule reads.
- `arrayFlags.String` (lines 34-36). It renders the slice with `fmt.Sprintf` and has no logic of its own.
- `Flags.ArrayFlags.Set`: returns nothing, because the Go method always returns a nil error.
- `Dates.Parse`: models only success or failure, not which `ParseError` Go builds, since `Init` only tests whether the error is nil. It works on characters, not UTF-8 bytes. A string that parses is all ASCII, so Go and the model accept the same strings.
- The time zones, hours and minutes of `time.Time`. Every date from this layout is midnight UTC, and so is the zero time. `After` is therefore the lexicographic order on (year, month, day).
