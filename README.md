# Garmin2GoogleSpreadsheets, modelled in Dafny

`main.py` is a one-shot sync script. It logs in to Garmin Connect and fetches
the body-composition samples (`dateWeightList`) since 2000-01-01. It turns every
sample that has a bone mass into a seven-column row: date as `dd.mm.yyyy`,
weight in kg, bmi, body fat, body water, bone mass in kg and muscle mass in kg.
It then authorizes to Google Sheets with a cached OAuth token (`token.pickle`)
and overwrites one configured range with the rows.

The model has six modules:

- `Wrappers` (wrappers.dfy): `Option` and `Result`, standing in for `None` and for raised exceptions.
- `CivilDate` (civil_date.dfy): the proleptic Gregorian calendar behind `datetime`. Day ordinals (0001-01-01 is day 1) convert to and from year/month/day.
- `DateFormat` (date_format.dfy): `datetime.fromtimestamp(ms / 1e3).strftime("%d.%m.%Y")`, with the local zone given as an explicit UTC offset in seconds.
- `BodyComposition` (body_composition.dfy): the samples, the rows, the conversion of one sample, and the row-building loop. The loop is a method proved against the specification function `Rows`.
- `SheetCredentials` (sheet_credentials.dfy): the token-cache branch. It decides whether to use the cached credential, refresh it or run the interactive flow, and whether to save.
- `SyncRun` (sync_run.dfy): the whole script as a trace of events and an exit kind. The outcomes of the Garmin and Google calls are inputs.

Two behaviours of main.py worth stating:

- A sample with a bone mass but `weight` None raises `TypeError` at main.py:58, just as a missing `muscleMass` does at main.py:63. Either error ends the run before anything is written (`MissingWeight`, `MissingMuscleMass`).
- A Garmin init or login error calls `quit()` (main.py:31, 34, 44, 47), which ends the process with status 0. The model records this exit as `Quit`.

## Model

| member | source | states |
|---|---|---|
| `CivilDate.FromOrdinal` | main.py:57 | the date computed for a day ordinal is a valid calendar date (month 1..12, day within that month's length, leap years included) whose ordinal is that day |
| `CivilDate.MonthDay` | main.py:57 | the month search returns a valid date of the given year whose day-of-year equals the requested one |
| `CivilDate.YearLength` | main.py:57 | a year has 366 days exactly when it is a leap year, and consecutive year starts lie one year length apart |
| `CivilDate.FromOrdinalInjective` | main.py:57 | two day ordinals give the same date exactly when they are equal |
| `CivilDate.OrdinalInjective` | main.py:57 | two valid dates with the same ordinal are the same date |
| `CivilDate.FromOrdinalOfOrdinal` | main.py:57 | converting a valid date to its ordinal and back gives the same date |
| `DateFormat.LocalDate` | main.py:57 | the local date of a timestamp is a valid date, and its ordinal is the local day (floor of seconds plus offset, over 86400) counted from 1970-01-01 |
| `DateFormat.FormatDate` | main.py:57 | `%d.%m.%Y` gives ten characters: digits everywhere except dots at positions 2 and 5 |
| `DateFormat.ParseDate` | main.py:57 | reading a DD.MM.YYYY string back yields only valid dates with four-digit years |
| `DateFormat.ParseFormat` | main.py:57 | reading back a formatted date gives that date, so formatting loses nothing |
| `DateFormat.DateString` | main.py:57 | the date cell exists exactly when the local year is in 1000..9999; it is then the `%d.%m.%Y` formatting of the timestamp's local date, has the DD.MM.YYYY shape and reads back as that date |
| `DateFormat.DateStringSameDay` | main.py:57 | two timestamps get the same date cell exactly when they fall on the same local day |
| `DateFormat.EveryDateHasATimestamp` | main.py:57 | every date with a four-digit year is the cell of some timestamp: its local midnight |
| `DateFormat.Millennium` | main.py:57 | epoch millisecond 946684800000 in UTC gives "01.01.2000" |
| `BodyComposition.ToRow` | main.py:55-64 | a sample with bone mass gives a row exactly when its date is printable and weight and muscle mass are present. The row's masses times 1000 are the sample's grams, and bmi, body fat and body water are copied unchanged. The row's date is the `%d.%m.%Y` formatting of the sample's local date. Otherwise the error is the first failing field in tuple order: date, weight, muscle mass |
| `BodyComposition.Rows` | main.py:52-65 | the rows built never outnumber the samples |
| `BodyComposition.Kept` | main.py:54-55 | the kept positions are exactly the samples with a bone mass, strictly increasing |
| `BodyComposition.RowsAreKeptSamples` | main.py:54-65 | on success there is exactly one row per sample with bone mass (none for the others). Row k is built from the k-th such sample, so input order is kept |
| `BodyComposition.RowsSucceed` | main.py:55-65 | building succeeds exactly when every sample with a bone mass converts |
| `BodyComposition.RowsFirstError` | main.py:54-65 | a failed build reports the error of the first sample with bone mass that fails to convert; all earlier ones converted |
| `BodyComposition.FailureStops` | main.py:54-65 | once a sample raises, later samples do not change the outcome |
| `BodyComposition.BuildRows` | main.py:52-65 | the loop that appends to `result` computes `Rows`. On success it holds one converted row per sample with bone mass, in order |
| `BodyComposition.ExampleRow` | main.py:56-64 | the worked sample (2000-01-01, 70000 g, bone 3000 g, muscle 32000 g) gives ("01.01.2000", 70.0, 22.1, 15.0, 55.0, 3.0, 32.0) |
| `SheetCredentials.Decide` | main.py:75-84 | a present, valid credential is used as it is and not saved. An invalid, expired one with a non-empty refresh token is refreshed. An absent or other invalid one runs the flow. The token is saved exactly when the cached credential was absent or invalid |
| `SheetCredentials.Resolve` | main.py:67-84 | authorization follows the decision. The credential in use is the cached, refreshed or granted one for the path taken. It is saved exactly when the decision says so, and authorization fails exactly when the refresh or the flow raises |
| `SheetCredentials.CacheHoldsCredentialInUse` | main.py:71-84 | after a successful authorization the token cache holds exactly the credential in use |
| `SheetCredentials.NextRunUsesCache` | main.py:67-84 | if a run ends with a valid credential, the next run uses the cache as it is: no refresh, no flow, no save |
| `SyncRun.Sync` | main.py:67-100 | the destination stage issues one update, as its last event, exactly when authorization succeeds; it carries the configured spreadsheet, range and exactly the rows. The token is saved exactly when authorized and the decision says so |
| `SyncRun.Run` | main.py:23-100 | a Garmin init or login error prints its diagnostic and quits. The run then has no login (after an init error), no fetch, no token save and no sheet update. A fetch happens exactly when init and login succeed. The sheet update happens exactly when init, login, fetch and the row build succeed and authorization succeeds; it is the last event and carries the built rows. The token is saved exactly when, in addition, the cached credential was absent or invalid. The run finishes exactly when every stage succeeds |
| `SyncRun.RepeatedRunIdempotent` | main.py:91-100 | two successful runs over the same fetched data leave the spreadsheet as one run does, whatever the token cache held |

## Left out

- Garmin client construction, `login()` and `get_body_composition` (main.py:24, 37, 49) are network calls. Only their outcome (success or which exception) is modelled, as inputs of `SyncRun.Run`.
- Reading and writing `token.pickle` (main.py:71-73, 83-84) is file I/O and serialisation. Only what is loaded and what is saved are modelled.
- `creds.refresh(...)` and `InstalledAppFlow.run_local_server` (main.py:77, 79-81) are network and interactive OAuth calls. They are inputs: the credential each returns, or that it raised.
- Building the Sheets service and `values().update(...).execute()` (main.py:86-100) is a remote API. The update overwrites the range with the given values; cells of the range beyond those values keep their old content, and the model's spreadsheet state (`SyncRun.Publish`) does not track them. The model keeps only the update request: its spreadsheet id, its range, and values equal to `result`. `majorDimension` and `valueInputOption`, and how Sheets interprets the cells, are not modelled. A failed `execute()` is taken not to change the spreadsheet.
- How the library computes `valid` and `expired` from the token, its expiry and the clock is not modelled. `SheetCredentials.Credential` carries both as flags.
- Python float arithmetic (`/ 1e3`, `/ 1000`) is not modelled. Masses are exact reals divided by 1000, and timestamps are integer milliseconds floored to seconds. This floor is what `fromtimestamp` yields for integer milliseconds.
- `datetime.fromtimestamp` uses the machine's local time zone. The model takes a fixed UTC offset in seconds, so daylight-saving changes within the fetched window are not modelled.
- DateFormat.DateString: a year outside 1000..9999 is reported as `DateOutOfRange`. Python raises only outside 1..9999 and prints years 1..999 with a platform-dependent width, which the model does not capture.
- `Sample.date` is always an integer. A missing or `None` date, and missing dictionary keys (`KeyError` on `dateWeightList` or on a field), are not modelled.
- `logging.basicConfig`, `date.today()` and the `config` module (main.py:17-21) are environment. Today's date, the spreadsheet id and the range are inputs.
- The printed diagnostic goes to standard output. Process exit statuses are not modelled.
