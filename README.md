# Farm price forecasting service: a Dafny model

This project models the request pipeline of the price-prediction service in
`s45/farm-forecast/public/ml/app.py`. The service has two endpoints:

- `/predict` checks that six fields are present, parses `Arrival_Date` as
  `dd-mm-yyyy` and writes it back in canonical form. It then asks the trained
  model for one price and echoes the request with that price.
- `/analysis` checks eight values and parses the date. It selects the
  historical arrival dates for the request's Commodity and Market. It builds
  five feature rows for the five following days, asks the model for five
  prices in one batch, and adds random noise in [-5, 5) to each price. The
  response pairs each price with its date.

Everything in the handlers is straight-line code built from expressions and
comprehensions, so the model is made of datatypes, functions and lemmas:

- `Calendar` (`calendar.dfy`): the proleptic Gregorian calendar as Python's
  `datetime` implements it. It covers years 1 to 9999, leap years, and
  `date + timedelta(days=n)` through the proleptic ordinal (Python's
  `toordinal`), including the overflow past 31-12-9999.
- `DateText` (`date_text.dfy`): `strftime('%d-%m-%Y')` and
  `strftime('%Y-%m-%d')` (the ISO 8601 extended calendar-date form), and
  `strptime(s, '%d-%m-%Y')`. Parsing follows the directive alternatives of
  CPython's `_strptime`. `%d` accepts `01`..`31`, `1`..`9` and ` 1`..` 9`,
  `%m` accepts `01`..`12` and `1`..`9`, and `%Y` accepts exactly four digits.
  The whole text must match, and the numbers must then form a date that
  exists. `Spells` lists every accepted spelling of a date as an independent
  reference, and `ParseExact` proves that `Parse` accepts exactly those.
- `Validation` (`validation.dfy`): request bodies as JSON values,
  `data.get(key)` (an absent key reads as null), Python truthiness, and the
  two required-field checks.
- `Forecast` (`forecast.dfy`): the historical filter, the feature rows, the
  noise, the pairing of dates with prices, and the two handlers `Predict` and
  `Analyze`. Their outcomes are `PredictResponse` and `AnalysisResponse`:
  missing fields, a date error (`/predict` only), not found (`/analysis`
  only), the catch-all `except Exception` handler, and the success payloads.
- `ForecastProperties` (`forecast_properties.dfy`): what the endpoints
  promise, stated and proved as lemmas.

The external pieces are parameters:

- The preprocessor and the trained model together are one function from a
  batch of feature rows to `Prices(values)` or `Raised`. The model does not
  assume that the predictor returns one price per row. A different count is
  handled the way the code handles it: `/predict` on no price raises
  IndexError, and `/analysis` on a count other than five fails building
  `future_df`. Both reach the catch-all handler.
- The historical table is an immutable sequence of rows whose arrival dates
  are already parsed.
- The noise is a sequence of five draws from [-5, 5). The code draws
  `predicted_prices_array.shape[0]` values, one per returned price; five is
  the only count that can reach the response, because any other count already
  fails when `future_df` is built at lines 145-148.

Several behaviours of the code differ from what a reader of the endpoints might expect; the model follows the code:

- The noise interval is half-open [-5, 5), as numpy's `uniform` draws, not
  the closed interval [-5, 5] that `uniform(-5, 5)` might suggest.
- `/analysis` rejects any falsy Min_Price or Max_Price, so a price of 0 is
  rejected too, not only a missing one. The rejection is one fixed message,
  not a list of fields.
- In `/analysis` an unparsable Arrival_Date has no dedicated handler. It
  reaches the catch-all handler (`AnalysisFailure`), not a date-format error.
- A truthy Arrival_Date that is not a string makes `strptime` raise
  TypeError. In `/predict` only ValueError is caught, so this also reaches
  the catch-all handler (`PredictFailure`), not the date error.
- The error text "Use YYYY-MM-DD" is misleading; the model follows the
  `%d-%m-%Y` format the code actually parses.

## Model

| member | source | states |
|---|---|---|
| `Calendar.NextDay` | s45/farm-forecast/public/ml/app.py:121 | the next day is well formed and strictly after `d`, and it is a valid date unless `d` is 31-12-9999 |
| `Calendar.AddDays` | s45/farm-forecast/public/ml/app.py:121 | `d + timedelta(days=n)`: every date it returns is a valid calendar date (None stands for OverflowError) |
| `Calendar.IsLeapYear` | s45/farm-forecast/public/ml/app.py:121 | the Gregorian leap rule of `datetime`, used by `date + timedelta` here and by the date check of line 51: divisible by 4, except centuries not divisible by 400 (no contract of its own; `Calendar.LeapByDivisors`, `DateText.AcceptsFebruary29InLeapYear`, `DateText.RejectsFebruary29InCommonYear`, `ForecastProperties.FutureDatesAcrossLeapDay` and `FutureDatesInCommonYear` state its consequences) |
| `Calendar.DaysInMonth` | s45/farm-forecast/public/ml/app.py:121 | the month lengths behind the day rollover here and the date check of line 51: every month has 28 to 31 days (the February 29 rule is stated by `DateText.AcceptsFebruary29InLeapYear`, `DateText.RejectsFebruary29InCommonYear` and `ForecastProperties.FutureDatesAcrossLeapDay`; the rollover by `Calendar.NextDayOrdinal`) |
| `Calendar.Valid` | s45/farm-forecast/public/ml/app.py:51-53 | the date-field check `datetime` applies after the `strptime` match, whose failure is the ValueError reported at lines 52-53 (no contract of its own; `Calendar.OrdinalRange`, `DateText.ParseExact` and the `DateText.Rejects...` lemmas state its properties) |
| `Calendar.Ordinal` | s45/farm-forecast/public/ml/app.py:121 | the proleptic day number of `toordinal`, behind `date + timedelta` (no contract of its own; `Calendar.OrdinalRange`, `NextDayOrdinal`, `BeforeIsOrdinalOrder`, `OrdinalInjective` and `AddDaysOrdinal` state its properties) |
| `Calendar.LeapByDivisors` | s45/farm-forecast/public/ml/app.py:121 | the Gregorian leap rule is the divisor count +1 for 4, -1 for 100, +1 for 400 that the closed-form day count uses |
| `Calendar.NextDayOrdinal` | s45/farm-forecast/public/ml/app.py:121 | the day after, including month and year rollover, has the next proleptic ordinal |
| `Calendar.YearsOrdered` | s45/farm-forecast/public/ml/app.py:121 | every day of a year has a smaller ordinal than every day of any later year |
| `Calendar.BeforeIsOrdinalOrder` | s45/farm-forecast/public/ml/app.py:121 | chronological order of valid dates, compared as (year, month, day), coincides with ordinal order, in both directions |
| `Calendar.SuccessorOrdinal` | s45/farm-forecast/public/ml/app.py:121 | a valid date whose ordinal is one more than another's is exactly the calendar day after it |
| `Calendar.OrdinalInjective` | s45/farm-forecast/public/ml/app.py:121 | two valid dates with the same ordinal are the same date |
| `Calendar.OrdinalRange` | s45/farm-forecast/public/ml/app.py:121 | valid dates have ordinals 1 .. 3652059, and only 31-12-9999 has the largest |
| `Calendar.AddDaysOrdinal` | s45/farm-forecast/public/ml/app.py:121 | adding n days succeeds exactly when ordinal + n stays within 3652059, and then lands on the date whose ordinal is larger by n |
| `Calendar.AddDaysSucc` | s45/farm-forecast/public/ml/app.py:121 | the date n + 1 days later is the calendar day after the date n days later |
| `Calendar.AddDaysAscending` | s45/farm-forecast/public/ml/app.py:121 | a larger day offset gives a strictly later date |
| `DateText.Pad2` | s45/farm-forecast/public/ml/app.py:62 | `%d`/`%m` print two decimal digits whose value is the number |
| `DateText.Pad4` | s45/farm-forecast/public/ml/app.py:62 | `%Y` prints four decimal digits whose value is the year |
| `DateText.FormatDMY` | s45/farm-forecast/public/ml/app.py:62 | `%d-%m-%Y` text is ten characters with dashes at positions 2 and 5 |
| `DateText.FormatISO` | s45/farm-forecast/public/ml/app.py:128 | `%Y-%m-%d` text is ten characters with dashes at positions 4 and 7 |
| `DateText.DayToken` | s45/farm-forecast/public/ml/app.py:51 | a `%d` match at the start of the text reads a day 1..31 from one or two characters |
| `DateText.MonthToken` | s45/farm-forecast/public/ml/app.py:51 | a `%m` match at the start of the text reads a month 1..12 from one or two characters |
| `DateText.Parse` | s45/farm-forecast/public/ml/app.py:51-53 | `strptime(s, '%d-%m-%Y')` only ever returns a date that exists (no month 13, no 30-02, no 29-02 in a common year, no year 0) |
| `DateText.Normalize` | s45/farm-forecast/public/ml/app.py:51-62 | parse-then-format succeeds exactly when parsing does, and yields canonical ten-character `dd-mm-yyyy` text |
| `DateText.ParseSpells` | s45/farm-forecast/public/ml/app.py:51 | every text `Parse` accepts is one of the spellings of the date it returns |
| `DateText.SpellingParses` | s45/farm-forecast/public/ml/app.py:51 | every spelling of an existing date, by any choice of directive alternatives, parses back to that date |
| `DateText.ParseExact` | s45/farm-forecast/public/ml/app.py:51 | `Parse(s) == Some(d)` if and only if `s` spells the existing date `d` |
| `DateText.ParseFormatRoundTrip` | s45/farm-forecast/public/ml/app.py:51-62 | formatting a valid date as `%d-%m-%Y` and parsing it gives the same date |
| `DateText.FormatDMYInjective` | s45/farm-forecast/public/ml/app.py:62 | distinct dates have distinct `%d-%m-%Y` texts |
| `DateText.NormalizeIdempotent` | s45/farm-forecast/public/ml/app.py:51-62 | normalised text denotes the same date as the input, and normalising it again changes nothing |
| `DateText.NormalizeCanonical` | s45/farm-forecast/public/ml/app.py:80 | canonical text is a fixed point of normalisation |
| `DateText.ISOIsReversedDMY` | s45/farm-forecast/public/ml/app.py:128 | the `%Y-%m-%d` text of a date has the same three fields as its `%d-%m-%Y` text, in reverse order |
| `DateText.FormatISOInjective` | s45/farm-forecast/public/ml/app.py:128 | distinct dates have distinct ISO texts |
| `DateText.RejectsMonth13` | s45/farm-forecast/public/ml/app.py:51-53 | "01-13-2024" is rejected |
| `DateText.RejectsFebruary30` | s45/farm-forecast/public/ml/app.py:51-53 | "30-02-2024" is rejected |
| `DateText.RejectsFebruary29InCommonYear` | s45/farm-forecast/public/ml/app.py:51-53 | "29-02-2023" is rejected |
| `DateText.RejectsYearZero` | s45/farm-forecast/public/ml/app.py:51-53 | "01-01-0000" is rejected |
| `DateText.RejectsDay32` | s45/farm-forecast/public/ml/app.py:51-53 | "32-01-2024" is rejected |
| `DateText.RejectsTwoDigitYear` | s45/farm-forecast/public/ml/app.py:51-53 | "1-1-24" is rejected: `%Y` needs four digits |
| `DateText.AcceptsFebruary29InLeapYear` | s45/farm-forecast/public/ml/app.py:51 | "29-02-2024" is 29 February 2024 |
| `DateText.AcceptsUnpadded` | s45/farm-forecast/public/ml/app.py:51 | "5-3-2024" is 5 March 2024 |
| `DateText.AcceptsSpacePaddedDay` | s45/farm-forecast/public/ml/app.py:51 | " 5-03-2024" is 5 March 2024 |
| `DateText.NormalizePadsWithZeros` | s45/farm-forecast/public/ml/app.py:51-62 | "5-3-2024" is echoed as "05-03-2024" |
| `Validation.Truthy` | s45/farm-forecast/public/ml/app.py:44 | Python truthiness of a decoded JSON value: null, false, 0, "" and empty arrays and objects are falsy (no contract of its own; its consequences are stated by `Validation.MissingFields`, `Validation.NoneMissingIffAllTruthy` and `ForecastProperties.AnalysisRejectsZeroPrice`) |
| `Validation.Get` | s45/farm-forecast/public/ml/app.py:32-39 | `data.get(key)`: an absent key reads as falsy, so the required-field checks report it, and only a member present in the body can read as truthy |
| `Validation.MissingFields` | s45/farm-forecast/public/ml/app.py:42-45 | reports exactly the names whose value is absent or falsy, in the order given, and without duplicates when the names are distinct, as the six required names are (`Validation.RequiredDistinct`) |
| `Validation.AllTruthy` | s45/farm-forecast/public/ml/app.py:107 | `all([...])` over the named values (no contract of its own; `Validation.NoneMissingIffAllTruthy` ties it to the missing-field list, and `ForecastProperties.AnalysisRejectsFalsy` to the `/analysis` rejection) |
| `Validation.NoneMissingIffAllTruthy` | s45/farm-forecast/public/ml/app.py:107 | `all([...])` over named values passes exactly when no name would be reported missing |
| `Validation.AnalysisCheckIsStricter` | s45/farm-forecast/public/ml/app.py:107 | a request passing the eight-value check of `/analysis` passes the six-field check of `/predict` |
| `Validation.ReportsBothMissing` | s45/farm-forecast/public/ml/app.py:42-47 | with Market absent and Commodity empty, both are reported, in that order |
| `Forecast.Matches` | s45/farm-forecast/public/ml/app.py:114 | the row mask `(df['Commodity'] == commodity) & (df['Market'] == market)` under pandas `==` on string cells (no contract of its own; `ForecastProperties.NonStringMatchesNothing` and `SliceIsMaskSelection` state its properties) |
| `Forecast.HistoricalSlice` | s45/farm-forecast/public/ml/app.py:114-118 | a date is in the slice exactly when some table row with that date has Commodity and Market equal to the request's |
| `Forecast.MatchPositions` | s45/farm-forecast/public/ml/app.py:114 | the positions where `(df['Commodity'] == c) & (df['Market'] == m)` holds: all of them, ascending, and no others |
| `Forecast.DaysAfter` | s45/farm-forecast/public/ml/app.py:121 | the list comprehension over a day range: element k is the date `first + k` days on, and it fails only if one of the additions overflows |
| `Forecast.FutureDates` | s45/farm-forecast/public/ml/app.py:121 | `future_dates` holds exactly five valid dates |
| `Forecast.FeatureRows` | s45/farm-forecast/public/ml/app.py:122-131 | one feature row per date, and any two rows agree on every column but Arrival_Date |
| `Forecast.NoiseInRange` | s45/farm-forecast/public/ml/app.py:139 | draws in the half-open support [-5, 5) of `np.random.uniform(-5, 5, size=predicted_prices_array.shape[0])`; the model fixes five, the only count that reaches the response, since any other fails at lines 145-148 (no contract of its own; it is what `Forecast.Perturb` and `ForecastProperties.AnalysisPrices` assume of the noise) |
| `Forecast.Perturb` | s45/farm-forecast/public/ml/app.py:139-141 | with noise in [-5, 5), each perturbed price lies in [raw - 5, raw + 5) |
| `Forecast.Pair` | s45/farm-forecast/public/ml/app.py:145-148 | entry i carries price i and the `%d-%m-%Y` text of date i, which parses back to date i |
| `Forecast.RowFor` | s45/farm-forecast/public/ml/app.py:56-65 | one feature row from the request's `data.get` values and a date text (no contract of its own; `ForecastProperties.FeatureRowsCarryRequest` and `ForecastProperties.PredictEchoes` state what the rows carry) |
| `Forecast.Predict` | s45/farm-forecast/public/ml/app.py:27-86 | the `/predict` handler (no contract of its own; its promises are `ForecastProperties.PredictReportsMissing`, `PredictDateError`, `PredictValidatesFirst`, `PredictEchoes` and `PredictSucceeds`) |
| `Forecast.Analyze` | s45/farm-forecast/public/ml/app.py:89-155 | the `/analysis` handler up to the date parse (no contract of its own; its promises are `ForecastProperties.AnalysisRejectsFalsy`, `AnalysisRejectsZeroPrice`, `AnalysisNotFound`, `AnalysisForecastIs`, `AnalysisDates`, `AnalysisDatesAscending`, `AnalysisPrices`, `AnalysisSucceeds` and `AnalysisNoiseOnlyMovesPrices`) |
| `Forecast.AnalyzeFrom` | s45/farm-forecast/public/ml/app.py:114-131 | `/analysis` after the date parse: the slice, the forecast dates and the feature rows (no contract of its own; `ForecastProperties.AnalyzeFromSucceeds` states when it succeeds) |
| `Forecast.Assemble` | s45/farm-forecast/public/ml/app.py:134-148 | `/analysis` from the batch prediction on: noise and pairing (no contract of its own; `ForecastProperties.AnalysisForecastIs` and `AnalysisPrices` state its result) |
| `ForecastProperties.SliceIsMaskSelection` | s45/farm-forecast/public/ml/app.py:114-118 | the slice is exactly the arrival dates of the matching rows, in table order: the boolean-mask selection |
| `ForecastProperties.NonStringMatchesNothing` | s45/farm-forecast/public/ml/app.py:114 | a Commodity or Market value that is not a string matches no row |
| `ForecastProperties.FutureDatesExist` | s45/farm-forecast/public/ml/app.py:121 | the five dates exist exactly when the fifth day after arrival is on or before 31-12-9999 |
| `ForecastProperties.FutureDatesOffsets` | s45/farm-forecast/public/ml/app.py:121 | date i is exactly i + 1 days (by ordinal) after the arrival date |
| `ForecastProperties.FutureDatesConsecutive` | s45/farm-forecast/public/ml/app.py:121 | the first date is the day after arrival and each further date is the day after the previous one |
| `ForecastProperties.FutureDatesAscending` | s45/farm-forecast/public/ml/app.py:121 | the five dates are strictly ascending |
| `ForecastProperties.DaysAfterSome` | s45/farm-forecast/public/ml/app.py:121 | the comprehension succeeds when each of its additions does |
| `ForecastProperties.FutureDatesAre` | s45/farm-forecast/public/ml/app.py:121 | the five dates are determined by the five single additions |
| `ForecastProperties.FutureDatesFromNewYear` | s45/farm-forecast/public/ml/app.py:121 | 01-01-2024 is followed by 02-01-2024 .. 06-01-2024 |
| `ForecastProperties.FutureDatesAcrossLeapDay` | s45/farm-forecast/public/ml/app.py:121 | 28-02-2024 is followed by 29-02-2024, 01-03-2024 .. 04-03-2024 |
| `ForecastProperties.FutureDatesInCommonYear` | s45/farm-forecast/public/ml/app.py:121 | 28-02-2023 is followed by 01-03-2023 .. 05-03-2023 |
| `ForecastProperties.FutureDatesAcrossYearEnd` | s45/farm-forecast/public/ml/app.py:121 | 30-12-2023 is followed by 31-12-2023, 01-01-2024 .. 04-01-2024 |
| `ForecastProperties.FutureDatesAtEndOfRange` | s45/farm-forecast/public/ml/app.py:121 | from 27-12-9999 the additions overflow; from 26-12-9999 they do not |
| `ForecastProperties.FeatureRowsCarryRequest` | s45/farm-forecast/public/ml/app.py:122-131 | all five rows carry State, District, Market, Commodity, Variety, Min_Price and Max_Price unchanged, and row i has date i written `%Y-%m-%d` |
| `ForecastProperties.FeatureRowDatesDistinct` | s45/farm-forecast/public/ml/app.py:121-128 | no two of the five rows share an Arrival_Date |
| `ForecastProperties.RowDatesMirrorSeriesDates` | s45/farm-forecast/public/ml/app.py:128-146 | row i and output entry i carry the same date, one as `%Y-%m-%d` and the other as `%d-%m-%Y` |
| `ForecastProperties.PredictReportsMissing` | s45/farm-forecast/public/ml/app.py:42-47 | `/predict` reports a missing-field error exactly when one of the six fields is absent or falsy; the error lists all such fields and no others, in their fixed order, without duplicates |
| `ForecastProperties.PredictDateError` | s45/farm-forecast/public/ml/app.py:50-53 | the date error happens exactly when all six fields are present and Arrival_Date is a string that `%d-%m-%Y` rejects |
| `ForecastProperties.PredictValidatesFirst` | s45/farm-forecast/public/ml/app.py:42-53 | missing-field and date errors are reached without consulting the predictor |
| `ForecastProperties.PredictEchoes` | s45/farm-forecast/public/ml/app.py:56-84 | a successful `/predict` echoes State, District, Market, Commodity, Variety, Min_Price and Max_Price unchanged, so a null price stays null. Its Arrival_Date is the normalised form of the input and denotes the same date. Its price is the predictor's first price for the single row built from the request |
| `ForecastProperties.PredictSucceeds` | s45/farm-forecast/public/ml/app.py:42-86 | `/predict` succeeds exactly for a valid request whose single row gets at least one price from the predictor |
| `ForecastProperties.AnalysisRejectsFalsy` | s45/farm-forecast/public/ml/app.py:107-108 | `/analysis` gives its fixed missing-fields error exactly when one of the eight values is absent or falsy |
| `ForecastProperties.AnalysisRejectsZeroPrice` | s45/farm-forecast/public/ml/app.py:107-108 | a Min_Price or Max_Price of 0, null or absent is rejected as missing |
| `ForecastProperties.AnalysisNotFound` | s45/farm-forecast/public/ml/app.py:107-116 | not found happens exactly when the request is valid, its date parses and no table row matches |
| `ForecastProperties.AnalysisNotFoundIgnoresPredictor` | s45/farm-forecast/public/ml/app.py:114-116 | a not-found outcome is the same for every predictor and every noise, so the predictor is never consulted |
| `ForecastProperties.ArrivalDate` | s45/farm-forecast/public/ml/app.py:111 | the parsed arrival date is valid and survives the `%d-%m-%Y` round trip |
| `ForecastProperties.AnalysisForecastIs` | s45/farm-forecast/public/ml/app.py:111-153 | a successful `/analysis` is the slice plus the five dates paired with the perturbed batch prediction for the five rows |
| `ForecastProperties.AnalysisHistory` | s45/farm-forecast/public/ml/app.py:114-118 | the historical part of a successful response is the non-empty slice for the request's Commodity and Market |
| `ForecastProperties.SeriesDates` | s45/farm-forecast/public/ml/app.py:121-147 | entry i of the series is dated `arrival + timedelta(days=i + 1)`, in canonical text, and carries price i |
| `ForecastProperties.SeriesOffsets` | s45/farm-forecast/public/ml/app.py:121-146 | entry i of the series parses back to a date whose ordinal is the arrival ordinal plus i + 1, and its text is canonical |
| `ForecastProperties.AnalysisDates` | s45/farm-forecast/public/ml/app.py:121-146 | a forecast has exactly five entries; entry i is dated, in canonical `dd-mm-yyyy`, exactly i + 1 days (by ordinal) after arrival, and 31-12-9999 is not passed |
| `ForecastProperties.AnalysisDatesAscending` | s45/farm-forecast/public/ml/app.py:121-146 | the forecast's dates are consecutive calendar days in strictly ascending order |
| `ForecastProperties.AnalysisPrices` | s45/farm-forecast/public/ml/app.py:134-147 | the batch of five rows gets five prices, and price i is raw price i plus noise i, within [raw - 5, raw + 5) |
| `ForecastProperties.AnalyzeFromSucceeds` | s45/farm-forecast/public/ml/app.py:114-148 | after the date is parsed, success needs matching history, five existing dates and one price per row |
| `ForecastProperties.AnalysisSucceeds` | s45/farm-forecast/public/ml/app.py:107-153 | `/analysis` succeeds exactly for a valid request with matching history, five representable following days, and five prices from the predictor |
| `ForecastProperties.AnalysisNoiseOnlyMovesPrices` | s45/farm-forecast/public/ml/app.py:139-147 | two runs that differ only in the noise give the same outcome kind, the same slice and the same dates; failures are identical |
| `ForecastProperties.ParsesNewYear` | s45/farm-forecast/public/ml/app.py:111 | "01-01-2024" is 1 January 2024 |
| `ForecastProperties.FormatsEarlyJanuary` | s45/farm-forecast/public/ml/app.py:146 | 2..6 January 2024 print as "02-01-2024" .. "06-01-2024" |
| `ForecastProperties.SeriesFromNewYear` | s45/farm-forecast/public/ml/app.py:121-146 | the series after 01-01-2024 is dated "02-01-2024" .. "06-01-2024" |
| `ForecastProperties.AnalysisFromNewYear` | s45/farm-forecast/public/ml/app.py:111-147 | a successful `/analysis` for "01-01-2024" is dated "02-01-2024" .. "06-01-2024", in that order |

## Left out

- Flask routing, CORS, the `/` route, JSON encoding of responses, HTTP status codes and error-message texts (lines 1-9, 22-24, 158-159). Outcomes are datatype variants instead.
- Loading the model, the preprocessor and the CSV (lines 11-20). The table is given with its dates already parsed. How `jsonify` prints the historical timestamps is not modelled.
- The internals of `preprocessor.transform` and `model.predict`. They are one injected function that may raise.
- Float arithmetic and `round(x, 2)`: prices are reals, and a forecast or predicted price is the value before rounding.
- numpy's random generator: the noise is an injected sequence of five draws from [-5, 5). The code draws `shape[0]` values; the model draws five, because any other count already fails at lines 145-148.
- The catch-all handlers (lines 85-86, 154-155) collapse to `PredictFailure` / `AnalysisFailure`. They carry no exception message.
- The model's input is an already decoded `Json` value. A body that is not JSON, or is malformed, makes `request.get_json()` raise (or return None, in older Flask, so that `data.get` raises AttributeError) inside the `try`. That case reaches the catch-all handler too (lines 85-86, 154-155) and has no counterpart in the model. A decoded body that is not an object is modelled, and it reaches the catch-all handler.
- JSON numbers are reals; the non-standard NaN and Infinity that Python's decoder accepts are not modelled.
- Forecast.HistoricalSlice: a list-valued Commodity or Market is modelled as matching no row. pandas would instead compare it element-wise or raise.
- DateText.Parse: only ASCII digits are modelled. CPython's `\d` also matches other Unicode decimal digits.
- DateText.Pad4: `%Y` is modelled as four zero-padded digits, as CPython documents. Some older CPython builds on glibc print years below 1000 without padding.
- The time of day that `strptime` sets to midnight, and the `datetime` type wrapper, play no part and are not modelled.
- `s45/farm-forecast/public/api/` (auth routes, OTP mail, user schema, server bootstrap) is not part of this model.
