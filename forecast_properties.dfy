/**
 * What the two endpoints promise: which requests each rejects and how, what a
 * successful response echoes, and how the forecast's dates, rows and prices
 * relate to the request.
 */
module ForecastProperties {
  import opened Wrappers
  import opened Calendar
  import opened DateText
  import opened Validation
  import opened Forecast

  // ---------------------------------------------------------------------
  // The historical slice

  /** The arrival dates at the given table positions. */
  function DatesAt(table: seq<HistoricalRow>, positions: seq<nat>): seq<Date>
    requires forall k :: 0 <= k < |positions| ==> positions[k] < |table|
  {
    seq(|positions|, k requires 0 <= k < |positions| => table[positions[k]].arrivalDate)
  }

  lemma DatesAtCons(table: seq<HistoricalRow>, p: nat, rest: seq<nat>)
    requires p < |table| && forall k :: 0 <= k < |rest| ==> rest[k] < |table|
    ensures DatesAt(table, [p] + rest) == [table[p].arrivalDate] + DatesAt(table, rest)
  {
  }

  lemma {:induction false} SliceFrom(table: seq<HistoricalRow>, commodity: Json, market: Json, first: nat)
    requires first <= |table|
    ensures HistoricalSlice(table[first..], commodity, market)
            == DatesAt(table, MatchPositions(table, commodity, market, first))
    decreases |table| - first
  {
    if first < |table| {
      SliceFrom(table, commodity, market, first + 1);
      var suffix := table[first..];
      assert suffix[1..] == table[first + 1..];
      assert suffix[0] == table[first];
      var rest := MatchPositions(table, commodity, market, first + 1);
      if Matches(table[first], commodity, market) {
        DatesAtCons(table, first, rest);
      }
    }
  }

  /**
   * The slice is the boolean-mask selection: exactly the arrival dates of
   * the rows whose Commodity and Market equal the request's, in table order.
   */
  lemma SliceIsMaskSelection(table: seq<HistoricalRow>, commodity: Json, market: Json)
    ensures HistoricalSlice(table, commodity, market) == DatesAt(table, MatchPositions(table, commodity, market, 0))
  {
    SliceFrom(table, commodity, market, 0);
    assert table[0..] == table;
  }

  /** A Commodity or Market that is not a string matches no row. */
  lemma {:induction false} NonStringMatchesNothing(table: seq<HistoricalRow>, commodity: Json, market: Json)
    requires !commodity.JStr? || !market.JStr?
    ensures HistoricalSlice(table, commodity, market) == []
  {
    if table != [] {
      NonStringMatchesNothing(table[1..], commodity, market);
    }
  }

  // ---------------------------------------------------------------------
  // The forecast dates

  /**
   * The five forecast dates exist exactly when the fifth day after the
   * arrival date is on or before 31-12-9999.
   */
  lemma FutureDatesExist(d: Date)
    requires Valid(d)
    ensures FutureDates(d).Some? <==> Ordinal(d) + Horizon <= MaxOrdinal
  {
    if FutureDates(d).None? {
      var k :| 1 <= k <= Horizon && AddDays(d, k).None?;
      AddDaysOrdinal(d, k);
    } else {
      assert AddDays(d, Horizon) == Some(FutureDates(d).value[Horizon - 1]);
      AddDaysOrdinal(d, Horizon);
    }
  }

  /** Forecast date i is the arrival date plus i + 1 days. */
  lemma FutureDateAt(d: Date, i: int)
    requires Valid(d) && FutureDates(d).Some? && 0 <= i < Horizon
    ensures AddDays(d, i + 1) == Some(FutureDates(d).value[i])
  {
    assert AddDays(d, 1 + i) == Some(FutureDates(d).value[i]);
  }

  /** Forecast date i is i + 1 days after the arrival date. */
  lemma FutureDatesOffsets(d: Date)
    requires Valid(d) && FutureDates(d).Some?
    ensures forall i :: 0 <= i < Horizon ==> Ordinal(FutureDates(d).value[i]) == Ordinal(d) + i + 1
  {
    var dates := FutureDates(d).value;
    forall i | 0 <= i < Horizon ensures Ordinal(dates[i]) == Ordinal(d) + i + 1 {
      FutureDateAt(d, i);
      AddDaysOrdinal(d, i + 1);
    }
  }

  /** Each forecast date is the calendar day after the one before it, the first the day after arrival. */
  lemma FutureDatesConsecutive(d: Date)
    requires Valid(d) && FutureDates(d).Some?
    ensures NextDay(d) == FutureDates(d).value[0]
    ensures forall i :: 0 <= i < Horizon - 1 ==> FutureDates(d).value[i + 1] == NextDay(FutureDates(d).value[i])
  {
    var dates := FutureDates(d).value;
    FutureDateAt(d, 0);
    forall i | 0 <= i < Horizon - 1 ensures dates[i + 1] == NextDay(dates[i]) {
      FutureDateAt(d, i);
      FutureDateAt(d, i + 1);
      AddDaysSucc(d, i + 1);
    }
  }

  /** The forecast dates are strictly ascending. */
  lemma FutureDatesAscending(d: Date)
    requires Valid(d) && FutureDates(d).Some?
    ensures forall i, j :: 0 <= i < j < Horizon ==> Before(FutureDates(d).value[i], FutureDates(d).value[j])
  {
    var dates := FutureDates(d).value;
    FutureDatesOffsets(d);
    forall i, j | 0 <= i < j < Horizon ensures Before(dates[i], dates[j]) {
      BeforeIsOrdinalOrder(dates[i], dates[j]);
    }
  }

  lemma {:induction false} DaysAfterSome(d: Date, first: nat, last: nat)
    requires Valid(d) && first <= last + 1
    requires forall k :: first <= k <= last ==> AddDays(d, k).Some?
    ensures DaysAfter(d, first, last).Some?
    decreases last + 1 - first
  {
    if first <= last {
      DaysAfterSome(d, first + 1, last);
    }
  }

  /** The forecast dates are determined by the five single additions. */
  lemma FutureDatesAre(d: Date, expected: seq<Date>)
    requires Valid(d) && |expected| == Horizon
    requires forall i :: 0 <= i < Horizon ==> AddDays(d, i + 1) == Some(expected[i])
    ensures FutureDates(d) == Some(expected)
  {
    forall k | 1 <= k <= Horizon ensures AddDays(d, k).Some? {
      assert AddDays(d, (k - 1) + 1) == Some(expected[k - 1]);
    }
    DaysAfterSome(d, 1, Horizon);
    var dates := FutureDates(d).value;
    assert forall i :: 0 <= i < Horizon ==> AddDays(d, 1 + i) == Some(dates[i]);
    assert dates == expected;
  }

  /** 01-01-2024 is followed by 02-01-2024 .. 06-01-2024. */
  lemma FutureDatesFromNewYear()
    ensures FutureDates(Date(1, 1, 2024))
            == Some([Date(2, 1, 2024), Date(3, 1, 2024), Date(4, 1, 2024), Date(5, 1, 2024), Date(6, 1, 2024)])
  {
    var d := Date(1, 1, 2024);
    assert AddDays(d, 1) == Some(Date(2, 1, 2024));
    assert AddDays(d, 2) == Some(Date(3, 1, 2024));
    assert AddDays(d, 3) == Some(Date(4, 1, 2024));
    assert AddDays(d, 4) == Some(Date(5, 1, 2024));
    assert AddDays(d, 5) == Some(Date(6, 1, 2024));
    FutureDatesAre(d, [Date(2, 1, 2024), Date(3, 1, 2024), Date(4, 1, 2024), Date(5, 1, 2024), Date(6, 1, 2024)]);
  }

  /** 28-02-2024 rolls through the leap day into March. */
  lemma FutureDatesAcrossLeapDay()
    ensures FutureDates(Date(28, 2, 2024))
            == Some([Date(29, 2, 2024), Date(1, 3, 2024), Date(2, 3, 2024), Date(3, 3, 2024), Date(4, 3, 2024)])
  {
    var d := Date(28, 2, 2024);
    assert AddDays(d, 1) == Some(Date(29, 2, 2024));
    assert AddDays(d, 2) == Some(Date(1, 3, 2024));
    assert AddDays(d, 3) == Some(Date(2, 3, 2024));
    assert AddDays(d, 4) == Some(Date(3, 3, 2024));
    assert AddDays(d, 5) == Some(Date(4, 3, 2024));
    FutureDatesAre(d, [Date(29, 2, 2024), Date(1, 3, 2024), Date(2, 3, 2024), Date(3, 3, 2024), Date(4, 3, 2024)]);
  }

  /** 28-02-2023 rolls straight into March: 2023 is a common year. */
  lemma FutureDatesInCommonYear()
    ensures FutureDates(Date(28, 2, 2023))
            == Some([Date(1, 3, 2023), Date(2, 3, 2023), Date(3, 3, 2023), Date(4, 3, 2023), Date(5, 3, 2023)])
  {
    var d := Date(28, 2, 2023);
    assert AddDays(d, 1) == Some(Date(1, 3, 2023));
    assert AddDays(d, 2) == Some(Date(2, 3, 2023));
    assert AddDays(d, 3) == Some(Date(3, 3, 2023));
    assert AddDays(d, 4) == Some(Date(4, 3, 2023));
    assert AddDays(d, 5) == Some(Date(5, 3, 2023));
    FutureDatesAre(d, [Date(1, 3, 2023), Date(2, 3, 2023), Date(3, 3, 2023), Date(4, 3, 2023), Date(5, 3, 2023)]);
  }

  /** 30-12-2023 rolls over into 2024. */
  lemma FutureDatesAcrossYearEnd()
    ensures FutureDates(Date(30, 12, 2023))
            == Some([Date(31, 12, 2023), Date(1, 1, 2024), Date(2, 1, 2024), Date(3, 1, 2024), Date(4, 1, 2024)])
  {
    var d := Date(30, 12, 2023);
    assert AddDays(d, 1) == Some(Date(31, 12, 2023));
    assert AddDays(d, 2) == Some(Date(1, 1, 2024));
    assert AddDays(d, 3) == Some(Date(2, 1, 2024));
    assert AddDays(d, 4) == Some(Date(3, 1, 2024));
    assert AddDays(d, 5) == Some(Date(4, 1, 2024));
    FutureDatesAre(d, [Date(31, 12, 2023), Date(1, 1, 2024), Date(2, 1, 2024), Date(3, 1, 2024), Date(4, 1, 2024)]);
  }

  /** Past 31-12-9999 the addition overflows; 26-12-9999 is the last arrival date that still works. */
  lemma FutureDatesAtEndOfRange()
    ensures FutureDates(Date(27, 12, 9999)) == None
    ensures FutureDates(Date(26, 12, 9999)).Some?
  {
    FutureDatesExist(Date(27, 12, 9999));
    FutureDatesExist(Date(26, 12, 9999));
  }

  // ---------------------------------------------------------------------
  // The feature rows

  /**
   * Every row handed to the predictor carries the request's State, District,
   * Market, Commodity, Variety, Min_Price and Max_Price unchanged; only the
   * date differs, written `%Y-%m-%d`.
   */
  lemma FeatureRowsCarryRequest(data: Fields, d: Date)
    requires Valid(d) && FutureDates(d).Some?
    ensures var dates := FutureDates(d).value;
            var rows := FeatureRows(data, dates);
            && |rows| == Horizon
            && (forall i :: 0 <= i < Horizon ==>
                  && rows[i].state == Get(data, "State") && rows[i].district == Get(data, "District")
                  && rows[i].market == Get(data, "Market") && rows[i].commodity == Get(data, "Commodity")
                  && rows[i].variety == Get(data, "Variety")
                  && rows[i].minPrice == Get(data, "Min_Price") && rows[i].maxPrice == Get(data, "Max_Price")
                  && rows[i].arrivalDate == FormatISO(dates[i]))
  {
  }

  /** No two rows handed to the predictor share a date. */
  lemma FeatureRowDatesDistinct(data: Fields, d: Date)
    requires Valid(d) && FutureDates(d).Some?
    ensures var rows := FeatureRows(data, FutureDates(d).value);
            forall i, j :: 0 <= i < j < Horizon ==> rows[i].arrivalDate != rows[j].arrivalDate
  {
    var dates := FutureDates(d).value;
    var rows := FeatureRows(data, dates);
    FutureDatesAscending(d);
    forall i, j | 0 <= i < j < Horizon ensures rows[i].arrivalDate != rows[j].arrivalDate {
      if rows[i].arrivalDate == rows[j].arrivalDate {
        FormatISOInjective(dates[i], dates[j]);
      }
    }
  }

  /**
   * Row i and forecast entry i carry the same date: the row writes it
   * `%Y-%m-%d`, the entry `%d-%m-%Y`, the same three fields in reverse order.
   */
  lemma RowDatesMirrorSeriesDates(data: Fields, d: Date, prices: seq<real>)
    requires Valid(d) && FutureDates(d).Some? && |prices| == Horizon
    ensures var dates := FutureDates(d).value;
            var rows := FeatureRows(data, dates);
            var f := Pair(dates, prices);
            forall i :: 0 <= i < Horizon ==>
              var dmy := f[i].arrivalDate;
              rows[i].arrivalDate == dmy[6..10] + "-" + dmy[3..5] + "-" + dmy[0..2]
  {
    var dates := FutureDates(d).value;
    forall i | 0 <= i < Horizon
      ensures FormatISO(dates[i]) == FormatDMY(dates[i])[6..10] + "-" + FormatDMY(dates[i])[3..5] + "-" + FormatDMY(dates[i])[0..2]
    {
      ISOIsReversedDMY(dates[i]);
    }
  }

  // ---------------------------------------------------------------------
  // /predict

  /**
   * `/predict` reports exactly the absent, null or empty ones of the six
   * required fields, in their fixed order, before looking at anything else.
   */
  lemma PredictReportsMissing(body: Json, predictor: Predictor)
    requires body.JObj?
    ensures var r := Predict(body, predictor);
            && (r.MissingInput? <==> exists f :: f in PredictRequired && !Truthy(Get(body.members, f)))
            && (r.MissingInput? ==>
                  && r.fields == MissingFields(body.members, PredictRequired)
                  && (forall f :: f in r.fields <==> f in PredictRequired && !Truthy(Get(body.members, f)))
                  && IsSubsequence(r.fields, PredictRequired) && Distinct(r.fields))
  {
    var r := MissingFields(body.members, PredictRequired);
    RequiredDistinct();
    if r != [] {
      assert r[0] in r;
    }
  }

  /** An Arrival_Date that does not parse as `%d-%m-%Y` is the date error, whatever else the request holds. */
  lemma PredictDateError(body: Json, predictor: Predictor)
    ensures Predict(body, predictor) == InvalidDate <==>
              && body.JObj?
              && MissingFields(body.members, PredictRequired) == []
              && Get(body.members, "Arrival_Date").JStr?
              && Parse(Get(body.members, "Arrival_Date").s) == None
  {
  }

  /** Validation never consults the predictor. */
  lemma PredictValidatesFirst(body: Json, p1: Predictor, p2: Predictor)
    requires Predict(body, p1).MissingInput? || Predict(body, p1).InvalidDate?
    ensures Predict(body, p2) == Predict(body, p1)
  {
  }

  /**
   * A successful `/predict` echoes the request's fields unchanged (a null
   * price stays null), gives Arrival_Date in the normalised `%d-%m-%Y` form of
   * the date the input denotes, and reports the predictor's first price for
   * the single row it was given.
   */
  lemma PredictEchoes(body: Json, predictor: Predictor)
    requires Predict(body, predictor).Prediction?
    ensures body.JObj? && Get(body.members, "Arrival_Date").JStr?
    ensures var data := body.members;
            var res := Predict(body, predictor).result;
            var input := Get(data, "Arrival_Date").s;
            && res.state == Get(data, "State") && res.district == Get(data, "District")
            && res.market == Get(data, "Market") && res.commodity == Get(data, "Commodity")
            && res.variety == Get(data, "Variety")
            && res.minPrice == Get(data, "Min_Price") && res.maxPrice == Get(data, "Max_Price")
            && Some(res.arrivalDate) == Normalize(input)
            && Parse(res.arrivalDate) == Parse(input)
            && predictor([RowFor(data, res.arrivalDate)]).Prices?
            && |predictor([RowFor(data, res.arrivalDate)]).values| > 0
            && res.predictedPrice == predictor([RowFor(data, res.arrivalDate)]).values[0]
  {
    NormalizeIdempotent(Get(body.members, "Arrival_Date").s);
  }

  /** When `/predict` succeeds: a valid request and a predictor that returns at least one price. */
  lemma PredictSucceeds(body: Json, predictor: Predictor)
    ensures Predict(body, predictor).Prediction? <==>
              && body.JObj?
              && MissingFields(body.members, PredictRequired) == []
              && Get(body.members, "Arrival_Date").JStr?
              && Parse(Get(body.members, "Arrival_Date").s).Some?
              && var row := RowFor(body.members, FormatDMY(Parse(Get(body.members, "Arrival_Date").s).value));
                 predictor([row]).Prices? && |predictor([row]).values| > 0
  {
  }

  // ---------------------------------------------------------------------
  // /analysis

  /**
   * `/analysis` rejects, with its one fixed message, every request in which
   * any of the eight values is falsy: exactly those for which some of the
   * eight names would be reported missing.
   */
  lemma AnalysisRejectsFalsy(body: Json, table: seq<HistoricalRow>, predictor: Predictor, noise: seq<real>)
    requires NoiseInRange(noise) && body.JObj?
    ensures Analyze(body, table, predictor, noise) == MissingRequired <==>
              MissingFields(body.members, AnalysisRequired) != []
  {
    NoneMissingIffAllTruthy(body.members, AnalysisRequired);
  }

  /** So a price of 0, or a null or absent price, is rejected as missing. */
  lemma AnalysisRejectsZeroPrice(body: Json, table: seq<HistoricalRow>, predictor: Predictor, noise: seq<real>)
    requires NoiseInRange(noise) && body.JObj?
    requires Get(body.members, "Min_Price") in {JNum(0.0), JNull} || Get(body.members, "Max_Price") in {JNum(0.0), JNull}
    ensures Analyze(body, table, predictor, noise) == MissingRequired
  {
    assert AnalysisRequired[6] == "Min_Price" && AnalysisRequired[7] == "Max_Price";
  }

  /**
   * No matching historical row is the not-found outcome, decided before the
   * predictor and the noise are used.
   */
  lemma AnalysisNotFound(body: Json, table: seq<HistoricalRow>, predictor: Predictor, noise: seq<real>)
    requires NoiseInRange(noise)
    ensures Analyze(body, table, predictor, noise) == NoHistoricalData <==>
              && body.JObj?
              && AllTruthy(body.members, AnalysisRequired)
              && Get(body.members, "Arrival_Date").JStr?
              && Parse(Get(body.members, "Arrival_Date").s).Some?
              && HistoricalSlice(table, Get(body.members, "Commodity"), Get(body.members, "Market")) == []
  {
  }

  lemma AnalysisNotFoundIgnoresPredictor(body: Json, table: seq<HistoricalRow>,
                                         p1: Predictor, n1: seq<real>, p2: Predictor, n2: seq<real>)
    requires NoiseInRange(n1) && NoiseInRange(n2)
    requires Analyze(body, table, p1, n1) == NoHistoricalData
    ensures Analyze(body, table, p2, n2) == NoHistoricalData
  {
  }

  /** The date a successful `/analysis` request carries. */
  function ArrivalDate(body: Json): (d: Date)
    requires body.JObj? && Get(body.members, "Arrival_Date").JStr?
    requires Parse(Get(body.members, "Arrival_Date").s).Some?
    ensures Valid(d) && Parse(FormatDMY(d)) == Some(d)
  {
    var d := Parse(Get(body.members, "Arrival_Date").s).value;
    ParseFormatRoundTrip(d);
    d
  }

  /** A successful `/analysis` is the slice paired with the perturbed batch prediction. */
  lemma AnalysisForecastIs(body: Json, table: seq<HistoricalRow>, predictor: Predictor, noise: seq<real>)
    requires NoiseInRange(noise) && Analyze(body, table, predictor, noise).ForecastSeries?
    ensures body.JObj? && Get(body.members, "Arrival_Date").JStr? && Parse(Get(body.members, "Arrival_Date").s).Some?
    ensures FutureDates(ArrivalDate(body)).Some?
    ensures var dates := FutureDates(ArrivalDate(body)).value;
            var out := predictor(FeatureRows(body.members, dates));
            && out.Prices? && |out.values| == Horizon
            && Analyze(body, table, predictor, noise)
               == ForecastSeries(HistoricalSlice(table, Get(body.members, "Commodity"), Get(body.members, "Market")),
                           Pair(dates, Perturb(out.values, noise)))
  {
  }

  /** The historical part of a forecast is the non-empty slice for the request's Commodity and Market. */
  lemma AnalysisHistory(body: Json, table: seq<HistoricalRow>, predictor: Predictor, noise: seq<real>)
    requires NoiseInRange(noise) && Analyze(body, table, predictor, noise).ForecastSeries?
    ensures var h := Analyze(body, table, predictor, noise).historical;
            && h != []
            && h == HistoricalSlice(table, Get(body.members, "Commodity"), Get(body.members, "Market"))
  {
  }

  /** The series pairs date i + 1 days after `d`, in canonical text, with price i. */
  lemma SeriesDates(d: Date, prices: seq<real>)
    requires Valid(d) && FutureDates(d).Some? && |prices| == Horizon
    ensures var f := Pair(FutureDates(d).value, prices);
            && |f| == Horizon
            && (forall i :: 0 <= i < Horizon ==>
                  && AddDays(d, i + 1).Some?
                  && Parse(f[i].arrivalDate) == AddDays(d, i + 1)
                  && f[i].arrivalDate == FormatDMY(AddDays(d, i + 1).value)
                  && f[i].predictedPrice == prices[i])
  {
    forall i | 0 <= i < Horizon ensures AddDays(d, i + 1) == Some(FutureDates(d).value[i]) {
      FutureDateAt(d, i);
    }
  }

  /** Entry i of the series is dated, in canonical text, exactly i + 1 days after `d`. */
  lemma SeriesOffsets(d: Date, prices: seq<real>)
    requires Valid(d) && FutureDates(d).Some? && |prices| == Horizon
    ensures var f := Pair(FutureDates(d).value, prices);
            && |f| == Horizon
            && (forall i :: 0 <= i < Horizon ==>
                  && Parse(f[i].arrivalDate).Some?
                  && Ordinal(Parse(f[i].arrivalDate).value) == Ordinal(d) + i + 1
                  && f[i].arrivalDate == FormatDMY(Parse(f[i].arrivalDate).value))
  {
    FutureDatesOffsets(d);
  }

  /**
   * A forecast has exactly five entries; entry i is dated, in canonical
   * `%d-%m-%Y`, i + 1 days after the arrival date.
   */
  lemma AnalysisDates(body: Json, table: seq<HistoricalRow>, predictor: Predictor, noise: seq<real>)
    requires NoiseInRange(noise) && Analyze(body, table, predictor, noise).ForecastSeries?
    ensures body.JObj? && Get(body.members, "Arrival_Date").JStr? && Parse(Get(body.members, "Arrival_Date").s).Some?
    ensures Ordinal(ArrivalDate(body)) + Horizon <= MaxOrdinal
    ensures var f := Analyze(body, table, predictor, noise).future;
            && |f| == Horizon
            && (forall i :: 0 <= i < Horizon ==>
                  && Parse(f[i].arrivalDate).Some?
                  && Ordinal(Parse(f[i].arrivalDate).value) == Ordinal(ArrivalDate(body)) + i + 1
                  && f[i].arrivalDate == FormatDMY(Parse(f[i].arrivalDate).value))
  {
    AnalysisForecastIs(body, table, predictor, noise);
    var d := ArrivalDate(body);
    var dates := FutureDates(d).value;
    var out := predictor(FeatureRows(body.members, dates));
    FutureDatesExist(d);
    SeriesOffsets(d, Perturb(out.values, noise));
  }

  /** The dates of a forecast are consecutive calendar days in strictly ascending order. */
  lemma AnalysisDatesAscending(body: Json, table: seq<HistoricalRow>, predictor: Predictor, noise: seq<real>)
    requires NoiseInRange(noise) && Analyze(body, table, predictor, noise).ForecastSeries?
    ensures var f := Analyze(body, table, predictor, noise).future;
            && |f| == Horizon
            && (forall i :: 0 <= i < Horizon ==> Parse(f[i].arrivalDate).Some?)
            && (forall i :: 0 <= i < Horizon - 1 ==>
                  Parse(f[i + 1].arrivalDate) == Some(NextDay(Parse(f[i].arrivalDate).value)))
            && (forall i, j :: 0 <= i < j < Horizon ==>
                  Before(Parse(f[i].arrivalDate).value, Parse(f[j].arrivalDate).value))
  {
    AnalysisDates(body, table, predictor, noise);
    var f := Analyze(body, table, predictor, noise).future;
    forall i | 0 <= i < Horizon - 1
      ensures Parse(f[i + 1].arrivalDate) == Some(NextDay(Parse(f[i].arrivalDate).value))
    {
      SuccessorOrdinal(Parse(f[i].arrivalDate).value, Parse(f[i + 1].arrivalDate).value);
    }
    forall i, j | 0 <= i < j < Horizon
      ensures Before(Parse(f[i].arrivalDate).value, Parse(f[j].arrivalDate).value)
    {
      BeforeIsOrdinalOrder(Parse(f[i].arrivalDate).value, Parse(f[j].arrivalDate).value);
    }
  }

  /**
   * Price i of a forecast is raw prediction i for the five-row batch plus
   * noise i, so it lies in [raw - 5, raw + 5); it is paired with date i.
   */
  lemma AnalysisPrices(body: Json, table: seq<HistoricalRow>, predictor: Predictor, noise: seq<real>)
    requires NoiseInRange(noise) && Analyze(body, table, predictor, noise).ForecastSeries?
    ensures body.JObj? && Get(body.members, "Arrival_Date").JStr? && Parse(Get(body.members, "Arrival_Date").s).Some?
    ensures FutureDates(ArrivalDate(body)).Some?
    ensures var f := Analyze(body, table, predictor, noise).future;
            var out := predictor(FeatureRows(body.members, FutureDates(ArrivalDate(body)).value));
            && out.Prices? && |out.values| == Horizon == |f|
            && (forall i :: 0 <= i < Horizon ==>
                  && f[i].predictedPrice == out.values[i] + noise[i]
                  && out.values[i] - 5.0 <= f[i].predictedPrice < out.values[i] + 5.0)
  {
    AnalysisForecastIs(body, table, predictor, noise);
  }

  lemma AnalyzeFromSucceeds(data: Fields, d: Date, table: seq<HistoricalRow>, predictor: Predictor, noise: seq<real>)
    requires Valid(d) && NoiseInRange(noise)
    ensures AnalyzeFrom(data, d, table, predictor, noise).ForecastSeries? <==>
              && HistoricalSlice(table, Get(data, "Commodity"), Get(data, "Market")) != []
              && FutureDates(d).Some?
              && var out := predictor(FeatureRows(data, FutureDates(d).value));
                 out.Prices? && |out.values| == Horizon
  {
  }

  /**
   * When `/analysis` succeeds: a valid request with matching history, an
   * arrival date whose five following days exist (`FutureDatesExist`: at
   * least five days before the end of 9999), and a predictor that returns
   * one price per row.
   */
  lemma AnalysisSucceeds(body: Json, table: seq<HistoricalRow>, predictor: Predictor, noise: seq<real>)
    requires NoiseInRange(noise)
    ensures Analyze(body, table, predictor, noise).ForecastSeries? <==>
              && body.JObj?
              && AllTruthy(body.members, AnalysisRequired)
              && Get(body.members, "Arrival_Date").JStr?
              && Parse(Get(body.members, "Arrival_Date").s).Some?
              && HistoricalSlice(table, Get(body.members, "Commodity"), Get(body.members, "Market")) != []
              && FutureDates(ArrivalDate(body)).Some?
              && var out := predictor(FeatureRows(body.members, FutureDates(ArrivalDate(body)).value));
                 out.Prices? && |out.values| == Horizon
  {
    if body.JObj? && AllTruthy(body.members, AnalysisRequired) && Get(body.members, "Arrival_Date").JStr?
       && Parse(Get(body.members, "Arrival_Date").s).Some? {
      var d := ArrivalDate(body);
      assert Analyze(body, table, predictor, noise) == AnalyzeFrom(body.members, d, table, predictor, noise);
      FutureDatesExist(d);
      AnalyzeFromSucceeds(body.members, d, table, predictor, noise);
    }
  }

  /**
   * Two runs on the same request that differ only in the noise drawn give
   * the same kind of outcome, the same historical slice and the same dates.
   */
  lemma AnalysisNoiseOnlyMovesPrices(body: Json, table: seq<HistoricalRow>, predictor: Predictor,
                                     n1: seq<real>, n2: seq<real>)
    requires NoiseInRange(n1) && NoiseInRange(n2)
    ensures Analyze(body, table, predictor, n1).ForecastSeries? == Analyze(body, table, predictor, n2).ForecastSeries?
    ensures !Analyze(body, table, predictor, n1).ForecastSeries? ==>
              Analyze(body, table, predictor, n1) == Analyze(body, table, predictor, n2)
    ensures Analyze(body, table, predictor, n1).ForecastSeries? ==>
              var r1, r2 := Analyze(body, table, predictor, n1), Analyze(body, table, predictor, n2);
              && r1.historical == r2.historical
              && |r1.future| == |r2.future|
              && forall i :: 0 <= i < |r1.future| ==> r1.future[i].arrivalDate == r2.future[i].arrivalDate
  {
  }

  lemma ParsesNewYear()
    ensures Parse("01-01-2024") == Some(Date(1, 1, 2024))
  {
    var s := "01-01-2024";
    assert DayToken(s) == Some((1, 2));
    assert s[3..] == "01-2024";
    assert MonthToken("01-2024") == Some((1, 2));
    assert "01-2024"[3..] == "2024";
    Pad4Of2024();
    ParseOf(s, 2, 2, Date(1, 1, 2024));
  }

  lemma FormatsEarlyJanuary()
    ensures FormatDMY(Date(2, 1, 2024)) == "02-01-2024"
    ensures FormatDMY(Date(3, 1, 2024)) == "03-01-2024"
    ensures FormatDMY(Date(4, 1, 2024)) == "04-01-2024"
    ensures FormatDMY(Date(5, 1, 2024)) == "05-01-2024"
    ensures FormatDMY(Date(6, 1, 2024)) == "06-01-2024"
  {
    FormatsJanuary2024(2);
    FormatsJanuary2024(3);
    FormatsJanuary2024(4);
    FormatsJanuary2024(5);
    FormatsJanuary2024(6);
  }

  /** The forecast for arrival date "01-01-2024" is dated "02-01-2024" .. "06-01-2024", in that order. */
  lemma AnalysisFromNewYear(body: Json, table: seq<HistoricalRow>, predictor: Predictor, noise: seq<real>)
    requires NoiseInRange(noise) && Analyze(body, table, predictor, noise).ForecastSeries?
    requires Get(body.members, "Arrival_Date") == JStr("01-01-2024")
    ensures var f := Analyze(body, table, predictor, noise).future;
            |f| == 5 && [f[0].arrivalDate, f[1].arrivalDate, f[2].arrivalDate, f[3].arrivalDate, f[4].arrivalDate]
                        == ["02-01-2024", "03-01-2024", "04-01-2024", "05-01-2024", "06-01-2024"]
  {
    ParsesNewYear();
    AnalysisForecastIs(body, table, predictor, noise);
    var d := ArrivalDate(body);
    assert d == Date(1, 1, 2024);
    var out := predictor(FeatureRows(body.members, FutureDates(d).value));
    SeriesFromNewYear(Perturb(out.values, noise));
  }

  lemma SeriesFromNewYear(prices: seq<real>)
    requires |prices| == Horizon
    ensures FutureDates(Date(1, 1, 2024)).Some?
    ensures var f := Pair(FutureDates(Date(1, 1, 2024)).value, prices);
            |f| == 5 && [f[0].arrivalDate, f[1].arrivalDate, f[2].arrivalDate, f[3].arrivalDate, f[4].arrivalDate]
                        == ["02-01-2024", "03-01-2024", "04-01-2024", "05-01-2024", "06-01-2024"]
  {
    FutureDatesFromNewYear();
    FormatsEarlyJanuary();
  }
}
