/** The open-meteo historical adapter: the archive query, the split of the
    response into table and metadata, the hourly GLM conversion and the
    metadata taken out for the GLM export. */
module HistoricalAdapter {
  import opened Values
  import opened Text
  import opened Tables
  import opened Requests
  import opened Met
  import opened Glm

  /** hourly_historical_glm_default */
  const HourlyDefault: seq<string> := [
    "shortwave_radiation",
    "cloudcover",
    "temperature_2m",
    "relativehumidity_2m",
    "windspeed_10m",
    "precipitation"
  ]

  /** daily_historical_glm_default */
  const DailyDefault: seq<string> := [
    "shortwave_radiation_sum",
    "temperature_2m_mean",
    "temperature_2m_max",
    "temperature_2m_min",
    "windspeed_10m_max",
    "precipitation_sum",
    "et0_fao_evapotranspiration"
  ]

  /** The adapter's state: location is (longitude, latitude), dateRange is
      (start, end) as ISO dates; metData and glmMetData stay None until a
      fetch and a conversion fill them. */
  datatype Historical = Historical(
    location: (real, real),
    dateRange: (string, string),
    metData: Option<MetData>,
    glmMetData: Option<Table>,
    variables: Option<seq<string>>,
    timezone: string,
    hourly: bool)

  /** The constructor: the timezone defaults to "auto" and the mode to
      hourly. */
  function New(location: (real, real), dateRange: (string, string), metData: Option<MetData>,
               glmMetData: Option<Table>, variables: Option<seq<string>>,
               timezone: string := "auto", hourly: bool := true): (h: Historical)
    ensures h.location == location && h.dateRange == dateRange
    ensures h.metData == metData && h.glmMetData == glmMetData && h.variables == variables
    ensures h.timezone == timezone && h.hourly == hourly
  {
    Historical(location, dateRange, metData, glmMetData, variables, timezone, hourly)
  }

  /** The response member and query key the mode asks for. */
  function Granularity(h: Historical): string
  {
    if h.hourly then "hourly" else "daily"
  }

  /** The variables a fetch uses: the caller's list, or the mode's default. */
  function Variables(h: Historical): seq<string>
  {
    if h.variables.Some? then h.variables.value
    else if h.hourly then HourlyDefault else DailyDefault
  }

  /** The keys of the payload, in the order the source writes them. */
  function PayloadKeys(h: Historical): (keys: seq<string>)
    ensures Distinct(keys)
  {
    ["longitude", "latitude", "start_date", "end_date", Granularity(h), "timezone", "windspeed_unit"]
  }

  /** The payload values, key by key. */
  function PayloadValues(h: Historical): (vals: seq<Value>)
    ensures |vals| == |PayloadKeys(h)|
  {
    [
      Num(h.location.0),
      Num(h.location.1),
      Str(h.dateRange.0),
      Str(h.dateRange.1),
      Str(Join(Variables(h), ",")),
      Str(h.timezone),
      Str("ms")
    ]
  }

  /** The query get_variables sends to the archive endpoint. */
  function Request(h: Historical, settings: Option<Params>): (q: Query)
    ensures q.endpoint == OpenMeteoArchive
    ensures forall k :: k in q.params <==> k in PayloadKeys(h) || k in Overrides(settings)
    ensures Sends(q.params, settings, Granularity(h), Str(Join(Variables(h), ",")))
    ensures Sends(q.params, settings, "longitude", Num(h.location.0))
    ensures Sends(q.params, settings, "latitude", Num(h.location.1))
    ensures Sends(q.params, settings, "start_date", Str(h.dateRange.0))
    ensures Sends(q.params, settings, "end_date", Str(h.dateRange.1))
    ensures Sends(q.params, settings, "timezone", Str(h.timezone))
    ensures Sends(q.params, settings, "windspeed_unit", Str("ms"))
  {
    var keys := PayloadKeys(h);
    var vals := PayloadValues(h);
    DisplaySends(keys, vals, settings, 0);
    DisplaySends(keys, vals, settings, 1);
    DisplaySends(keys, vals, settings, 2);
    DisplaySends(keys, vals, settings, 3);
    DisplaySends(keys, vals, settings, 4);
    DisplaySends(keys, vals, settings, 5);
    DisplaySends(keys, vals, settings, 6);
    Query(OpenMeteoArchive, Merge(Display(keys, vals), settings))
  }

  /** An adapter built with the defaults asks for the default hourly
      variables in the "auto" timezone. */
  lemma DefaultRequest(location: (real, real), dateRange: (string, string))
    ensures var q := Request(New(location, dateRange, None, None, None), None);
      && q.params["hourly"] == Str(Join(HourlyDefault, ","))
      && q.params["timezone"] == Str("auto")
  {
    var h := New(location, dateRange, None, None, None);
    assert Granularity(h) == "hourly" && Variables(h) == HourlyDefault;
    var q := Request(h, None);
    assert Sends(q.params, None, "hourly", Str(Join(HourlyDefault, ",")));
    assert Sends(q.params, None, "timezone", Str("auto"));
  }

  /** The comma-joined variable string the query carries splits back into
      the variable list, when no variable name holds a comma and the caller
      did not override the key. */
  lemma RequestedVariablesRoundTrip(h: Historical, settings: Option<Params>)
    requires Granularity(h) !in Overrides(settings)
    requires |Variables(h)| >= 1
    requires forall i :: 0 <= i < |Variables(h)| ==> ',' !in Variables(h)[i]
    ensures Request(h, settings).params[Granularity(h)].Str?
    ensures Split(Request(h, settings).params[Granularity(h)].s, ",") == Variables(h)
  {
    SplitJoin(Variables(h), ',');
  }

  /** No default variable name holds a comma. */
  lemma DefaultsCommaFree()
    ensures forall i :: 0 <= i < |HourlyDefault| ==> ',' !in HourlyDefault[i]
    ensures forall i :: 0 <= i < |DailyDefault| ==> ',' !in DailyDefault[i]
  {
  }

  /** Without a variable list, the query names exactly the mode's default
      variables. */
  lemma DefaultVariablesRequested(h: Historical, settings: Option<Params>)
    requires h.variables.None?
    requires Granularity(h) !in Overrides(settings)
    ensures Request(h, settings).params[Granularity(h)].Str?
    ensures Split(Request(h, settings).params[Granularity(h)].s, ",")
         == (if h.hourly then HourlyDefault else DailyDefault)
  {
    DefaultsCommaFree();
    RequestedVariablesRoundTrip(h, settings);
  }

  /** get_variables, given the parsed response: the variable list is fixed
      (the default when none was given), the mode's member of the response
      becomes the table and the rest becomes the metadata. */
  function GetVariables(h: Historical, response: seq<Item>): (r: Historical)
    requires HasColumns(response, Granularity(h))
    ensures r.variables == Some(if h.variables.Some? then h.variables.value
                                else if h.hourly then HourlyDefault else DailyDefault)
    ensures r.metData.Some?
    ensures Keys(r.metData.value.metadata) == Keys(response) - {Granularity(h)}
    ensures forall k :: k != Granularity(h) ==> Get(r.metData.value.metadata, k) == Get(response, k)
    ensures r.metData.value.data == FromDict(Get(response, Granularity(h)).value.items)
    ensures r.location == h.location && r.dateRange == h.dateRange && r.timezone == h.timezone
    ensures r.hourly == h.hourly && r.glmMetData == h.glmMetData
  {
    h.(variables := Some(Variables(h)), metData := Some(PopMember(response, Granularity(h))))
  }

  /** A fetch keeps the mode, so the query a second fetch would send uses
      the same member key, and the list the first fetch fixed. */
  lemma FetchKeepsRequest(h: Historical, response: seq<Item>, settings: Option<Params>)
    requires HasColumns(response, Granularity(h))
    ensures Request(GetVariables(h, response), settings) == Request(h, settings)
  {
  }

  /** `time.str.replace("T", " ") + ":00"`: an ISO 8601 hour such as
      2020-01-01T05:00 written the way GLM reads it. */
  function HourlyStamp(t: string): (r: string)
    ensures |r| == |t| + 3 && r[|t|..] == ":00"
    ensures 'T' !in r[..|t|]
    ensures forall i :: 0 <= i < |t| && t[i] == 'T' ==> r[i] == ' '
    ensures forall i :: 0 <= i < |t| && t[i] != 'T' ==> r[i] == t[i]
  {
    ReplaceChar(t, 'T', ' ') + ":00"
  }

  /** The provider's form of a GLM stamp: drop the seconds and put the T
      back. */
  function ProviderTime(s: string): string
    requires |s| >= 3
  {
    ReplaceChar(s[..|s| - 3], ' ', 'T')
  }

  /** Rewriting a timestamp loses nothing when it holds no space. */
  lemma HourlyStampRoundTrip(t: string)
    requires ' ' !in t
    ensures ProviderTime(HourlyStamp(t)) == t
  {
    assert HourlyStamp(t)[..|t|] == ReplaceChar(t, 'T', ' ');
    ReplaceCharBack(t, 'T', ' ');
  }

  lemma HourlyStampExample()
    ensures HourlyStamp("2020-01-01T05:00") == "2020-01-01 05:00:00"
  {
    assert ReplaceChar("2020-01-01T05:00", 'T', ' ') == "2020-01-01 05:00";
  }

  /** The raw hourly columns the conversion reads, with the names open-meteo
      gives them: hourly_historical_glm_default plus time. */
  ghost predicate HourlyReady(raw: Table)
  {
    && Wf(raw)
    && "time" in raw.cols && Textual(raw.cols["time"])
    && NumericColumn(raw, "shortwave_radiation") && NumericColumn(raw, "cloudcover")
    && NumericColumn(raw, "temperature_2m") && NumericColumn(raw, "relativehumidity_2m")
    && NumericColumn(raw, "windspeed_10m") && NumericColumn(raw, "precipitation")
  }

  /** Every variable of the hourly default is a column the conversion reads. */
  lemma HourlyDefaultConverted(raw: Table)
    requires HourlyReady(raw)
    ensures forall c :: c in HourlyDefault ==> NumericColumn(raw, c)
  {
  }

  /** The time column rewritten stamp by stamp. */
  function HourlyTimes(cells: seq<Cell>): (r: seq<Cell>)
    requires Textual(cells)
    ensures |r| == |cells| && Textual(r)
    ensures forall i :: 0 <= i < |cells| ==> r[i] == Text(HourlyStamp(cells[i].s))
  {
    seq(|cells|, i requires 0 <= i < |cells| => Text(HourlyStamp(cells[i].s)))
  }

  /** The GLM table of one hourly raw table. */
  function ConvertHourly(raw: Table): (g: Table)
    requires HourlyReady(raw)
    ensures IsGlmTable(g) && g.index == raw.index && Height(g) == Height(raw)
    ensures g.cols["time"] == HourlyTimes(raw.cols["time"])
    ensures g.cols["ShortWave"] == raw.cols["shortwave_radiation"]
    ensures g.cols["Cloud"] == CloudFraction(raw.cols["cloudcover"])
    ensures g.cols["AirTemp"] == raw.cols["temperature_2m"]
    ensures g.cols["RelHum"] == raw.cols["relativehumidity_2m"]
    ensures g.cols["WindSpeed"] == raw.cols["windspeed_10m"]
    ensures g.cols["Rain"] == HourlyRain(raw.cols["precipitation"])
  {
    var precipitation := raw.cols["precipitation"];
    var time := HourlyTimes(raw.cols["time"]);
    var shortWave := raw.cols["shortwave_radiation"];
    var cloud := CloudFraction(raw.cols["cloudcover"]);
    var airTemp := raw.cols["temperature_2m"];
    var relHum := raw.cols["relativehumidity_2m"];
    var windSpeed := raw.cols["windspeed_10m"];
    var rain := HourlyRain(precipitation);
    Assemble(raw.index, time, shortWave, cloud, airTemp, relHum, windSpeed, rain)
  }

  /** Row by row, the GLM table holds the rewritten timestamp, cloud cover
      divided by 100, precipitation times 24 / 1000, and the other four
      values as fetched; missing values stay missing. */
  lemma ConvertHourlyRows(raw: Table, i: nat)
    requires HourlyReady(raw) && i < Height(raw)
    ensures ConvertHourly(raw).cols["time"][i] == Text(HourlyStamp(raw.cols["time"][i].s))
    ensures ScaledBy(ConvertHourly(raw).cols["Cloud"][i], raw.cols["cloudcover"][i], 1.0 / 100.0)
    ensures ScaledBy(ConvertHourly(raw).cols["Rain"][i], raw.cols["precipitation"][i], 24.0 / 1000.0)
    ensures ConvertHourly(raw).cols["ShortWave"][i] == raw.cols["shortwave_radiation"][i]
    ensures ConvertHourly(raw).cols["AirTemp"][i] == raw.cols["temperature_2m"][i]
    ensures ConvertHourly(raw).cols["RelHum"][i] == raw.cols["relativehumidity_2m"][i]
    ensures ConvertHourly(raw).cols["WindSpeed"][i] == raw.cols["windspeed_10m"][i]
  {
  }

  /** What convert_to_glm needs: in hourly mode, fetched data with the
      hourly columns. */
  ghost predicate CanConvert(h: Historical)
  {
    h.hourly ==> h.metData.Some? && HourlyReady(h.metData.value.data)
  }

  /** convert_to_glm: hourly data becomes the GLM table; in daily mode
      nothing happens. */
  function ConvertToGlm(h: Historical): (r: Historical)
    requires CanConvert(h)
    ensures !h.hourly ==> r == h
    ensures h.hourly ==> r.glmMetData.Some? && IsGlmTable(r.glmMetData.value)
    ensures h.hourly ==> Height(r.glmMetData.value) == Height(h.metData.value.data)
    ensures h.hourly ==> r.glmMetData == Some(ConvertHourly(h.metData.value.data))
    ensures r.metData == h.metData && r.variables == h.variables && r.hourly == h.hourly
    ensures r.location == h.location && r.dateRange == h.dateRange && r.timezone == h.timezone
  {
    if h.hourly then h.(glmMetData := Some(ConvertHourly(h.metData.value.data))) else h
  }

  /** Cloud cover fetched in percent lands in [0, 1] in the GLM table. */
  lemma ConvertedCloudIsFraction(h: Historical)
    requires CanConvert(h) && h.hourly
    requires InRange(h.metData.value.data.cols["cloudcover"], 0.0, 100.0)
    ensures InRange(ConvertToGlm(h).glmMetData.value.cols["Cloud"], 0.0, 1.0)
  {
    CloudFractionBounded(h.metData.value.data.cols["cloudcover"]);
  }

  /** What write_glm_met needs in hourly mode: hourly_units in the
      metadata (else pop raises KeyError) and a converted table. */
  ghost predicate CanWriteGlm(h: Historical)
  {
    h.hourly ==>
      && h.metData.Some?
      && "hourly_units" in Keys(h.metData.value.metadata)
      && h.glmMetData.Some?
  }

  /** write_glm_met: in hourly mode the units are popped from the metadata
      and exported with the table, bundled into met_glm.zip or as the table
      alone under fname; in daily mode nothing happens. */
  function WriteGlmMet(h: Historical, zipF: bool, fname: string): (r: (Historical, Option<Export>))
    requires CanWriteGlm(h)
    ensures !h.hourly ==> r.0 == h && r.1.None?
    ensures h.hourly ==>
      var md := h.metData.value.metadata;
      var units := Get(md, "hourly_units").value;
      && r.0.metData.Some?
      && r.0.metData.value.data == h.metData.value.data
      && Keys(r.0.metData.value.metadata) == Keys(md) - {"hourly_units"}
      && (forall k :: k != "hourly_units" ==> Get(r.0.metData.value.metadata, k) == Get(md, k))
      && r.1 == Some(if zipF then
                       Archive("met_glm.zip", [
                         File("met.csv", WriteCsv(h.glmMetData.value)),
                         File("met_glm_metadata.json", Json(units))])
                     else Single(File(fname, WriteCsv(h.glmMetData.value))))
    ensures r.0.glmMetData == h.glmMetData && r.0.variables == h.variables && r.0.hourly == h.hourly
    ensures r.0.location == h.location && r.0.dateRange == h.dateRange && r.0.timezone == h.timezone
  {
    if !h.hourly then (h, None)
    else
      var md := h.metData.value;
      var units := Get(md.metadata, "hourly_units").value;
      var glm := h.glmMetData.value;
      var written := if zipF then
          Archive("met_glm.zip", [File("met.csv", WriteCsv(glm)), File("met_glm_metadata.json", Json(units))])
        else Single(File(fname, WriteCsv(glm)));
      (h.(metData := Some(md.(metadata := Remove(md.metadata, "hourly_units")))), Some(written))
  }

  /** The pop is destructive: after one hourly write the units are gone
      from the metadata, so a second write would raise KeyError. */
  lemma SecondWriteFails(h: Historical, zipF: bool, fname: string)
    requires CanWriteGlm(h) && h.hourly
    ensures !CanWriteGlm(WriteGlmMet(h, zipF, fname).0)
  {
  }
}
