/**
 * The request pipelines of the price service: `/predict` (one prediction
 * for one request) and `/analysis` (the historical arrival dates of a
 * commodity in a market, and a five-day forecast).
 *
 * The trained preprocessor and model are one injected function from a batch
 * of feature rows to either a batch of prices or a failure; the historical
 * table is an injected immutable sequence; the random noise is an injected
 * sequence of draws from the half-open interval [-5, 5).
 */
module Forecast {
  import opened Wrappers
  import opened Calendar
  import opened DateText
  import opened Validation

  /** Days forecast by `/analysis`: offsets 1 .. Horizon. */
  const Horizon := 5
  /** numpy's `uniform(-5, 5)` draws from [NoiseLow, NoiseHigh). */
  const NoiseLow := -5.0
  const NoiseHigh := 5.0

  /** The columns of a historical table row that the service reads. */
  datatype HistoricalRow = HistoricalRow(commodity: string, market: string, arrivalDate: Date)

  /** One row of the frame handed to the preprocessor. */
  datatype FeatureRow = FeatureRow(
    state: Json, district: Json, market: Json, commodity: Json, variety: Json,
    arrivalDate: string, minPrice: Json, maxPrice: Json)

  /** What preprocessing plus prediction does with a batch: prices, or an exception. */
  datatype PredictorOutput = Prices(values: seq<real>) | Raised

  type Predictor = seq<FeatureRow> -> PredictorOutput

  /** The body of a successful `/predict` response. */
  datatype PredictionResult = PredictionResult(
    state: Json, district: Json, market: Json, commodity: Json, variety: Json,
    arrivalDate: string, minPrice: Json, maxPrice: Json, predictedPrice: real)

  /** One entry of `future_predictions`. */
  datatype ForecastPoint = ForecastPoint(arrivalDate: string, predictedPrice: real)

  /** The outcomes of `/predict`; `PredictFailure` is the catch-all handler. */
  datatype PredictResponse =
    | MissingInput(fields: seq<string>)
    | InvalidDate
    | PredictFailure
    | Prediction(result: PredictionResult)

  /** The outcomes of `/analysis`; `AnalysisFailure` is the catch-all handler. */
  datatype AnalysisResponse =
    | MissingRequired
    | NoHistoricalData
    | AnalysisFailure
    | ForecastSeries(historical: seq<Date>, future: seq<ForecastPoint>)

  predicate NoiseInRange(noise: seq<real>) {
    |noise| == Horizon && forall i :: 0 <= i < |noise| ==> NoiseLow <= noise[i] < NoiseHigh
  }

  // ---------------------------------------------------------------------
  // Historical slice

  /** The row mask `(df['Commodity'] == commodity) & (df['Market'] == market)`. */
  predicate Matches(row: HistoricalRow, commodity: Json, market: Json) {
    commodity == JStr(row.commodity) && market == JStr(row.market)
  }

  /**
   * `df[mask][['Arrival_Date']]`: the arrival dates of the matching rows,
   * in table order.
   */
  function HistoricalSlice(table: seq<HistoricalRow>, commodity: Json, market: Json): (r: seq<Date>)
    ensures |r| <= |table|
    ensures forall d :: d in r <==>
              exists i :: 0 <= i < |table| && Matches(table[i], commodity, market) && table[i].arrivalDate == d
  {
    if table == [] then []
    else
      var rest := HistoricalSlice(table[1..], commodity, market);
      assert forall i :: 0 < i < |table| ==> table[i] == table[1..][i - 1];
      if Matches(table[0], commodity, market) then [table[0].arrivalDate] + rest else rest
  }

  /** The positions at or after `from` where the mask is true, ascending. */
  function MatchPositions(table: seq<HistoricalRow>, commodity: Json, market: Json, from: nat): (r: seq<nat>)
    requires from <= |table|
    ensures forall k :: 0 <= k < |r| ==> from <= r[k] < |table| && Matches(table[r[k]], commodity, market)
    ensures forall k, l :: 0 <= k < l < |r| ==> r[k] < r[l]
    ensures forall i :: from <= i < |table| && Matches(table[i], commodity, market) ==> i in r
    decreases |table| - from
  {
    if from == |table| then []
    else
      var rest := MatchPositions(table, commodity, market, from + 1);
      if Matches(table[from], commodity, market) then [from] + rest else rest
  }

  // ---------------------------------------------------------------------
  // Feature rows and the forecast series

  /** A feature row carrying the request's fields and the given date text. */
  function RowFor(data: Fields, arrivalDate: string): FeatureRow {
    FeatureRow(Get(data, "State"), Get(data, "District"), Get(data, "Market"), Get(data, "Commodity"),
               Get(data, "Variety"), arrivalDate, Get(data, "Min_Price"), Get(data, "Max_Price"))
  }

  /** The two rows agree on every column but Arrival_Date. */
  predicate SameExceptDate(a: FeatureRow, b: FeatureRow) {
    a.(arrivalDate := b.arrivalDate) == b
  }

  /**
   * `[d + timedelta(days=i) for i in range(first, last + 1)]`: None where one
   * of the additions overflows.
   */
  function DaysAfter(d: Date, first: nat, last: nat): (r: Option<seq<Date>>)
    requires Valid(d) && first <= last + 1
    ensures r.Some? ==> |r.value| == last + 1 - first
    ensures r.Some? ==> forall k :: 0 <= k < |r.value| ==> AddDays(d, first + k) == Some(r.value[k])
    ensures r.None? ==> exists k :: first <= k <= last && AddDays(d, k).None?
    decreases last + 1 - first
  {
    if first > last then Some([])
    else
      match AddDays(d, first)
      case None => None
      case Some(e) =>
        match DaysAfter(d, first + 1, last)
        case None => None
        case Some(rest) => Some([e] + rest)
  }

  /** `future_dates`: the Horizon days after the arrival date. */
  function FutureDates(d: Date): (r: Option<seq<Date>>)
    requires Valid(d)
    ensures r.Some? ==> |r.value| == Horizon && forall i :: 0 <= i < Horizon ==> Valid(r.value[i])
  {
    DaysAfter(d, 1, Horizon)
  }

  /** `prediction_data`: one row per date, the date written `%Y-%m-%d`. */
  function FeatureRows(data: Fields, dates: seq<Date>): (rows: seq<FeatureRow>)
    requires forall i :: 0 <= i < |dates| ==> Valid(dates[i])
    ensures |rows| == |dates|
    ensures forall i, j :: 0 <= i < |rows| && 0 <= j < |rows| ==> SameExceptDate(rows[i], rows[j])
  {
    seq(|dates|, i requires 0 <= i < |dates| => RowFor(data, FormatISO(dates[i])))
  }

  /** `predicted_prices_array + noise`. */
  function Perturb(raw: seq<real>, noise: seq<real>): (r: seq<real>)
    requires |raw| == |noise|
    ensures |r| == |raw|
    ensures forall i :: 0 <= i < |r| && NoiseLow <= noise[i] < NoiseHigh ==>
              raw[i] + NoiseLow <= r[i] < raw[i] + NoiseHigh
  {
    seq(|raw|, i requires 0 <= i < |raw| => raw[i] + noise[i])
  }

  /** `future_df`: date i, written `%d-%m-%Y`, with price i. */
  function Pair(dates: seq<Date>, prices: seq<real>): (r: seq<ForecastPoint>)
    requires |dates| == |prices| && forall i :: 0 <= i < |dates| ==> Valid(dates[i])
    ensures |r| == |dates|
    ensures forall i :: 0 <= i < |r| ==>
              Parse(r[i].arrivalDate) == Some(dates[i]) && r[i].predictedPrice == prices[i]
    ensures forall i :: 0 <= i < |r| ==> r[i].arrivalDate == FormatDMY(dates[i])
  {
    var r := seq(|dates|, i requires 0 <= i < |dates| => ForecastPoint(FormatDMY(dates[i]), prices[i]));
    assert forall i :: 0 <= i < |dates| ==> Parse(r[i].arrivalDate) == Some(dates[i]) by {
      forall i | 0 <= i < |dates| ensures Parse(r[i].arrivalDate) == Some(dates[i]) {
        ParseFormatRoundTrip(dates[i]);
      }
    }
    r
  }

  // ---------------------------------------------------------------------
  // The two endpoints

  /** The `/predict` handler. */
  function Predict(body: Json, predictor: Predictor): PredictResponse {
    if !body.JObj? then PredictFailure
    else
      var data := body.members;
      var missing := MissingFields(data, PredictRequired);
      if missing != [] then MissingInput(missing)
      else if !Get(data, "Arrival_Date").JStr? then PredictFailure
      else
        match Normalize(Get(data, "Arrival_Date").s)
        case None => InvalidDate
        case Some(text) =>
          match predictor([RowFor(data, text)])
          case Raised => PredictFailure
          case Prices(ps) =>
            if |ps| == 0 then PredictFailure
            else
              Prediction(PredictionResult(
                Get(data, "State"), Get(data, "District"), Get(data, "Market"), Get(data, "Commodity"),
                Get(data, "Variety"), text, Get(data, "Min_Price"), Get(data, "Max_Price"), ps[0]))
  }

  /** The `/analysis` handler. */
  function Analyze(body: Json, table: seq<HistoricalRow>, predictor: Predictor, noise: seq<real>): AnalysisResponse
    requires NoiseInRange(noise)
  {
    if !body.JObj? then AnalysisFailure
    else if !AllTruthy(body.members, AnalysisRequired) then MissingRequired
    else if !Get(body.members, "Arrival_Date").JStr? then AnalysisFailure
    else
      match Parse(Get(body.members, "Arrival_Date").s)
      case None => AnalysisFailure
      case Some(d) => AnalyzeFrom(body.members, d, table, predictor, noise)
  }

  /** `/analysis` once the arrival date is parsed: the slice, the dates and the batch. */
  function AnalyzeFrom(data: Fields, d: Date, table: seq<HistoricalRow>, predictor: Predictor, noise: seq<real>)
    : AnalysisResponse
    requires Valid(d) && NoiseInRange(noise)
  {
    var historical := HistoricalSlice(table, Get(data, "Commodity"), Get(data, "Market"));
    if historical == [] then NoHistoricalData
    else
      match FutureDates(d)
      case None => AnalysisFailure
      case Some(dates) => Assemble(historical, dates, predictor(FeatureRows(data, dates)), noise)
  }

  /** The response built from the predictor's answer for the batch. */
  function Assemble(historical: seq<Date>, dates: seq<Date>, out: PredictorOutput, noise: seq<real>)
    : AnalysisResponse
    requires |dates| == Horizon && (forall i :: 0 <= i < |dates| ==> Valid(dates[i])) && NoiseInRange(noise)
  {
    match out
    case Raised => AnalysisFailure
    case Prices(raw) =>
      if |raw| != |dates| then AnalysisFailure
      else ForecastSeries(historical, Pair(dates, Perturb(raw, noise)))
  }
}
