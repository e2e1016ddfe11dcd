/** The NASA POWER hourly adapter: the point query with compact dates, the
    parameter table keyed by YYYYMMDDHH hours, and its GLM conversion. */
module PowerAdapter {
  import opened Values
  import opened Text
  import opened Tables
  import opened Requests
  import opened Met
  import opened Glm

  /** hourly_glm_default */
  const PowerDefault: seq<string> := ["ALLSKY_SFC_SW_DWN", "CLOUD_AMT", "T2M", "RH2M", "WS2M", "PRECTOTCORR"]

  /** r_format: the adapter always asks for JSON. */
  const ResponseFormat: string := "JSON"

  /** The response keys kept as metadata. */
  const MetadataKeys: set<string> := {"header", "parameters"}

  /** The adapter's state; timezone is LST or UTC, community SB or AG. */
  datatype Power = Power(
    location: (real, real),
    dateRange: (string, string),
    metData: Option<MetData>,
    glmMetData: Option<Table>,
    parameters: Option<seq<string>>,
    timezone: string,
    community: string)

  /** The constructor: the timezone defaults to LST and the community to
      SB. */
  function New(location: (real, real), dateRange: (string, string), metData: Option<MetData>,
               glmMetData: Option<Table>, parameters: Option<seq<string>>,
               timezone: string := "LST", community: string := "SB"): (p: Power)
    ensures p.location == location && p.dateRange == dateRange
    ensures p.metData == metData && p.glmMetData == glmMetData && p.parameters == parameters
    ensures p.timezone == timezone && p.community == community
  {
    Power(location, dateRange, metData, glmMetData, parameters, timezone, community)
  }

  /** The parameters a fetch uses: the caller's list, or the default. */
  function Parameters(p: Power): seq<string>
  {
    if p.parameters.Some? then p.parameters.value else PowerDefault
  }

  /** `date.replace("-", "")`: the compact YYYYMMDD form the API expects. */
  function CompactDate(d: string): (r: string)
    ensures '-' !in r && |r| <= |d|
  {
    DeleteChar(d, '-')
  }

  /** Compacting twice is compacting once, so compact dates pass through. */
  lemma CompactDateIdempotent(d: string)
    ensures CompactDate(CompactDate(d)) == CompactDate(d)
  {
    DeleteCharIdempotent(d, '-');
  }

  /** Deleting the dashes of s-t deletes the middle one and those of s and t. */
  lemma CompactAroundDash(s: string, t: string)
    ensures CompactDate(s + "-" + t) == CompactDate(s) + CompactDate(t)
  {
    assert DeleteChar("-", '-') == "" + DeleteChar("", '-');
    DeleteCharAppend(s, "-", '-');
    assert DeleteChar(s + "-", '-') == DeleteChar(s, '-');
    DeleteCharAppend(s + "-", t, '-');
  }

  /** An ISO date y-m-d compacts to y + m + d. */
  lemma CompactIsoDate(y: string, m: string, d: string)
    requires '-' !in y && '-' !in m && '-' !in d
    ensures CompactDate(y + "-" + m + "-" + d) == y + m + d
  {
    CompactAroundDash(y + "-" + m, d);
    CompactAroundDash(y, m);
    DeleteAbsentChar(y, '-');
    DeleteAbsentChar(m, '-');
    DeleteAbsentChar(d, '-');
  }

  lemma CompactDateExamples()
    ensures CompactDate("2022-01-01") == "20220101"
    ensures CompactDate("20220101") == "20220101"
  {
    var y, m, d := "2022", "01", "01";
    assert '-' !in y && '-' !in m && '-' !in d;
    CompactIsoDate(y, m, d);
    assert y + "-" + m + "-" + d == "2022-01-01";
    assert y + m + d == "20220101";
    DeleteAbsentChar("20220101", '-');
  }

  /** The keys of the payload, in the order the source writes them. */
  function PayloadKeys(): (keys: seq<string>)
    ensures Distinct(keys)
  {
    ["longitude", "latitude", "start", "end", "parameters", "timezone", "community", "format"]
  }

  /** The payload values, key by key. */
  function PayloadValues(p: Power): (vals: seq<Value>)
    ensures |vals| == |PayloadKeys()|
  {
    [
      Num(p.location.0),
      Num(p.location.1),
      Str(CompactDate(p.dateRange.0)),
      Str(CompactDate(p.dateRange.1)),
      Str(Join(Parameters(p), ",")),
      Str(p.timezone),
      Str(p.community),
      Str(ResponseFormat)
    ]
  }

  /** The query get_variables sends. */
  function Request(p: Power, settings: Option<Params>): (q: Query)
    ensures q.endpoint == PowerHourlyPoint
    ensures forall k :: k in q.params <==> k in PayloadKeys() || k in Overrides(settings)
    ensures Sends(q.params, settings, "start", Str(CompactDate(p.dateRange.0)))
    ensures Sends(q.params, settings, "end", Str(CompactDate(p.dateRange.1)))
    ensures Sends(q.params, settings, "parameters", Str(Join(Parameters(p), ",")))
    ensures Sends(q.params, settings, "longitude", Num(p.location.0))
    ensures Sends(q.params, settings, "latitude", Num(p.location.1))
    ensures Sends(q.params, settings, "timezone", Str(p.timezone))
    ensures Sends(q.params, settings, "community", Str(p.community))
    ensures Sends(q.params, settings, "format", Str(ResponseFormat))
  {
    var keys := PayloadKeys();
    var vals := PayloadValues(p);
    DisplaySends(keys, vals, settings, 0);
    DisplaySends(keys, vals, settings, 1);
    DisplaySends(keys, vals, settings, 2);
    DisplaySends(keys, vals, settings, 3);
    DisplaySends(keys, vals, settings, 4);
    DisplaySends(keys, vals, settings, 5);
    DisplaySends(keys, vals, settings, 6);
    DisplaySends(keys, vals, settings, 7);
    Query(PowerHourlyPoint, Merge(Display(keys, vals), settings))
  }

  /** An adapter built with the defaults asks for the default parameters in
      local solar time for the sustainable-buildings community. */
  lemma DefaultRequest(location: (real, real), dateRange: (string, string))
    ensures var q := Request(New(location, dateRange, None, None, None), None);
      && q.params["parameters"] == Str(Join(PowerDefault, ","))
      && q.params["timezone"] == Str("LST")
      && q.params["community"] == Str("SB")
  {
    var p := New(location, dateRange, None, None, None);
    assert Sends(Request(p, None).params, None, "parameters", Str(Join(PowerDefault, ",")));
  }

  /** Dates given with or without dashes make the same query. */
  lemma RequestIgnoresDashes(p: Power, settings: Option<Params>)
    ensures Request(p.(dateRange := (CompactDate(p.dateRange.0), CompactDate(p.dateRange.1))), settings)
         == Request(p, settings)
  {
    CompactDateIdempotent(p.dateRange.0);
    CompactDateIdempotent(p.dateRange.1);
  }

  /** No default parameter name holds a comma. */
  lemma DefaultsCommaFree()
    ensures forall i :: 0 <= i < |PowerDefault| ==> ',' !in PowerDefault[i]
  {
  }

  /** Without a parameter list, the query names exactly the default
      parameters, which split back out of the joined string. */
  lemma DefaultParametersRequested(p: Power, settings: Option<Params>)
    requires p.parameters.None? && "parameters" !in Overrides(settings)
    ensures Request(p, settings).params["parameters"].Str?
    ensures Split(Request(p, settings).params["parameters"].s, ",") == PowerDefault
  {
    DefaultsCommaFree();
    SplitJoin(PowerDefault, ',');
  }

  /** A response carrying properties.parameter as aligned dicts keyed by
      hour, the shape `pd.DataFrame(r_json["properties"]["parameter"])`
      reads without raising. */
  ghost predicate PowerResponse(response: seq<Item>)
  {
    && IsDict(response)
    && Get(response, "properties").Some?
    && Get(response, "properties").value.Dict?
    && Get(Get(response, "properties").value.items, "parameter").Some?
    && Get(Get(response, "properties").value.items, "parameter").value.Dict?
    && IsAlignedDict(Get(Get(response, "properties").value.items, "parameter").value.items)
  }

  /** r_json["properties"]["parameter"] */
  function ParameterMember(response: seq<Item>): seq<Item>
    requires PowerResponse(response)
  {
    Get(Get(response, "properties").value.items, "parameter").value.items
  }

  /** get_variables, given the parsed response: the parameter dicts become
      the table, indexed by hour, and the metadata keeps only header and
      parameters, whichever of them the response has. */
  function GetVariables(p: Power, response: seq<Item>): (r: Power)
    requires PowerResponse(response)
    ensures r.parameters == Some(if p.parameters.Some? then p.parameters.value else PowerDefault)
    ensures r.metData.Some?
    ensures IsDict(r.metData.value.metadata)
    ensures Keys(r.metData.value.metadata) == Keys(response) * MetadataKeys
    ensures forall k :: k in MetadataKeys ==> Get(r.metData.value.metadata, k) == Get(response, k)
    ensures r.metData.value.data == FromNested(ParameterMember(response))
    ensures r.metData.value.data.index == Labels(FirstLabels(ParameterMember(response)))
    ensures r.location == p.location && r.dateRange == p.dateRange && r.glmMetData == p.glmMetData
    ensures r.timezone == p.timezone && r.community == p.community
  {
    var metadata := Restrict(response, MetadataKeys);
    p.(parameters := Some(Parameters(p)), metData := Some(MetData(metadata, FromNested(ParameterMember(response)))))
  }

  /** write_met leaves the index out of met_raw.csv, and the index is where
      the fetched hours are: the raw archive of a NASA POWER fetch keeps the
      parameter columns and the metadata but no hour labels. */
  lemma RawExportDropsHours(p: Power, response: seq<Item>)
    requires PowerResponse(response)
    ensures var md := GetVariables(p, response).metData.value;
      && ReadMet(WriteMet(md)) == Some(MetData(md.metadata, Unindexed(md.data)))
      && ReadMet(WriteMet(md)).value.data.index == Positions(|FirstLabels(ParameterMember(response))|)
      && ReadMet(WriteMet(md)).value.data.index != md.data.index
  {
    var md := GetVariables(p, response).metData.value;
    RawExportRoundTrip(md);
  }

  /** A digit character. */
  predicate IsDigit(c: char)
  {
    '0' <= c <= '9'
  }

  /** The number two digits spell. */
  function TwoDigits(a: char, b: char): int
  {
    10 * (a as int - '0' as int) + (b as int - '0' as int)
  }

  /** The first and last whole hours a pandas Timestamp can hold, as
      YYYYMMDDHH numbers: the nanosecond range runs from
      1677-09-21 00:12:43 to 2262-04-11 23:47:16. */
  const EarliestHour: int := 1677092101
  const LatestHour: int := 2262041123

  /** YYYYMMDDHH read as a number; with the fields in range, later hours
      give larger numbers. */
  function HourNumber(k: string): int
    requires |k| == 10
  {
    Year(k) * 1000000 + TwoDigits(k[4], k[5]) * 10000 + TwoDigits(k[6], k[7]) * 100 + TwoDigits(k[8], k[9])
  }

  /** The number the first four digits spell. */
  function Year(k: string): int
    requires |k| >= 4
  {
    100 * TwoDigits(k[0], k[1]) + TwoDigits(k[2], k[3])
  }

  /** A row key as POWER writes hours: YYYYMMDDHH, with a month from 1 to
      12, a day from 1 to 31 and an hour from 0 to 23, inside the range of
      a pandas Timestamp (what `pd.to_datetime` with the format %Y%m%d%H
      accepts, short of the length of each month). */
  predicate IsHourKey(k: string)
  {
    && |k| == 10
    && (forall i :: 0 <= i < 10 ==> IsDigit(k[i]))
    && 1 <= TwoDigits(k[4], k[5]) <= 12
    && 1 <= TwoDigits(k[6], k[7]) <= 31
    && 0 <= TwoDigits(k[8], k[9]) <= 23
    && EarliestHour <= HourNumber(k) <= LatestHour
  }

  /** Years outside the Timestamp range are refused, and so are the hours of
      its first and last days that fall outside it. */
  lemma HourKeyRange()
    ensures !IsHourKey("0000010100") && !IsHourKey("1676123123")
    ensures !IsHourKey("1677092100") && IsHourKey("1677092101")
    ensures IsHourKey("2262041123") && !IsHourKey("2262041200")
  {
  }

  /** `pd.to_datetime(key, format="%Y%m%d%H").astype(str)`: the hour as
      YYYY-MM-DD HH:00:00. */
  function ExpandStamp(k: string): (s: string)
    requires IsHourKey(k)
    ensures |s| == 19
  {
    k[..4] + "-" + k[4..6] + "-" + k[6..8] + " " + k[8..10] + ":00:00"
  }

  /** A GLM timestamp of a whole hour: YYYY-MM-DD HH:00:00. */
  predicate IsGlmStamp(s: string)
  {
    && |s| == 19
    && s[4] == '-' && s[7] == '-' && s[10] == ' '
    && s[13..] == ":00:00"
    && IsHourKey(s[..4] + s[5..7] + s[8..10] + s[11..13])
  }

  /** The POWER key of a GLM timestamp. */
  function CompactStamp(s: string): string
    requires |s| == 19
  {
    s[..4] + s[5..7] + s[8..10] + s[11..13]
  }

  /** Expanding a key gives a GLM timestamp, and compacting it gives the key
      back. */
  lemma ExpandStampRoundTrip(k: string)
    requires IsHourKey(k)
    ensures IsGlmStamp(ExpandStamp(k))
    ensures CompactStamp(ExpandStamp(k)) == k
  {
    var s := ExpandStamp(k);
    assert s[..4] == k[..4] && s[5..7] == k[4..6] && s[8..10] == k[6..8] && s[11..13] == k[8..10];
    assert k == k[..4] + k[4..6] + k[6..8] + k[8..10];
  }

  /** Every GLM timestamp of a whole hour is the expansion of its key. */
  lemma CompactStampRoundTrip(s: string)
    requires IsGlmStamp(s)
    ensures ExpandStamp(CompactStamp(s)) == s
  {
    var k := CompactStamp(s);
    assert k[..4] == s[..4] && k[4..6] == s[5..7] && k[6..8] == s[8..10] && k[8..10] == s[11..13];
    assert s == s[..4] + "-" + s[5..7] + "-" + s[8..10] + " " + s[11..13] + s[13..];
  }

  lemma ExpandStampExample()
    ensures IsHourKey("2022010105")
    ensures ExpandStamp("2022010105") == "2022-01-01 05:00:00"
  {
  }

  /** The raw table the conversion reads: hour keys as row labels and the
      six default parameters as numeric columns. */
  ghost predicate PowerReady(raw: Table)
  {
    && Wf(raw)
    && raw.index.Labels?
    && (forall i :: 0 <= i < |raw.index.labels| ==> IsHourKey(raw.index.labels[i]))
    && NumericColumn(raw, "ALLSKY_SFC_SW_DWN") && NumericColumn(raw, "CLOUD_AMT")
    && NumericColumn(raw, "T2M") && NumericColumn(raw, "RH2M")
    && NumericColumn(raw, "WS2M") && NumericColumn(raw, "PRECTOTCORR")
  }

  /** Every default parameter is a column the conversion reads. */
  lemma PowerDefaultConverted(raw: Table)
    requires PowerReady(raw)
    ensures forall c :: c in PowerDefault ==> NumericColumn(raw, c)
  {
  }

  /** The row labels as GLM timestamps. */
  function HourTimes(labels: seq<string>): (r: seq<Cell>)
    requires forall i :: 0 <= i < |labels| ==> IsHourKey(labels[i])
    ensures |r| == |labels| && Textual(r)
    ensures forall i :: 0 <= i < |labels| ==> r[i] == Text(ExpandStamp(labels[i]))
  {
    seq(|labels|, i requires 0 <= i < |labels| => Text(ExpandStamp(labels[i])))
  }

  /** The GLM table of the raw parameter table, with the hour labels moved
      into the time column and a fresh positional index. */
  function ConvertTable(raw: Table): (g: Table)
    requires PowerReady(raw)
    ensures IsGlmTable(g) && g.index == Positions(Height(raw)) && Height(g) == Height(raw)
    ensures g.cols["time"] == HourTimes(raw.index.labels)
    ensures g.cols["ShortWave"] == raw.cols["ALLSKY_SFC_SW_DWN"]
    ensures g.cols["Cloud"] == CloudFraction(raw.cols["CLOUD_AMT"])
    ensures g.cols["AirTemp"] == raw.cols["T2M"]
    ensures g.cols["RelHum"] == raw.cols["RH2M"]
    ensures g.cols["WindSpeed"] == raw.cols["WS2M"]
    ensures g.cols["Rain"] == HourlyRain(raw.cols["PRECTOTCORR"])
  {
    Assemble(Positions(Height(raw)),
      HourTimes(raw.index.labels),
      raw.cols["ALLSKY_SFC_SW_DWN"],
      CloudFraction(raw.cols["CLOUD_AMT"]),
      raw.cols["T2M"],
      raw.cols["RH2M"],
      raw.cols["WS2M"],
      HourlyRain(raw.cols["PRECTOTCORR"]))
  }

  /** Row by row: row i's time is the expansion of the i-th hour label,
      cloud cover is divided by 100, precipitation is multiplied by
      24 / 1000, and the other four values are copied. */
  lemma ConvertTableRows(raw: Table, i: nat)
    requires PowerReady(raw) && i < Height(raw)
    ensures ConvertTable(raw).cols["time"][i] == Text(ExpandStamp(raw.index.labels[i]))
    ensures ScaledBy(ConvertTable(raw).cols["Cloud"][i], raw.cols["CLOUD_AMT"][i], 1.0 / 100.0)
    ensures ScaledBy(ConvertTable(raw).cols["Rain"][i], raw.cols["PRECTOTCORR"][i], 24.0 / 1000.0)
    ensures ConvertTable(raw).cols["ShortWave"][i] == raw.cols["ALLSKY_SFC_SW_DWN"][i]
    ensures ConvertTable(raw).cols["AirTemp"][i] == raw.cols["T2M"][i]
    ensures ConvertTable(raw).cols["RelHum"][i] == raw.cols["RH2M"][i]
    ensures ConvertTable(raw).cols["WindSpeed"][i] == raw.cols["WS2M"][i]
  {
  }

  /** Every time the conversion writes is a whole-hour GLM timestamp whose
      key is the row label it came from. */
  lemma ConvertedTimesRecoverLabels(raw: Table, i: nat)
    requires PowerReady(raw) && i < Height(raw)
    ensures ConvertTable(raw).cols["time"][i].Text?
    ensures IsGlmStamp(ConvertTable(raw).cols["time"][i].s)
    ensures CompactStamp(ConvertTable(raw).cols["time"][i].s) == raw.index.labels[i]
  {
    ExpandStampRoundTrip(raw.index.labels[i]);
  }

  /** convert_to_glm */
  function ConvertToGlm(p: Power): (r: Power)
    requires p.metData.Some? && PowerReady(p.metData.value.data)
    ensures r.glmMetData.Some? && IsGlmTable(r.glmMetData.value)
    ensures Height(r.glmMetData.value) == Height(p.metData.value.data)
    ensures r.glmMetData == Some(ConvertTable(p.metData.value.data))
    ensures r.metData == p.metData && r.parameters == p.parameters
    ensures r.location == p.location && r.dateRange == p.dateRange
    ensures r.timezone == p.timezone && r.community == p.community
  {
    p.(glmMetData := Some(ConvertTable(p.metData.value.data)))
  }

  /** write_glm_met: the GLM table with the whole metadata, bundled into
      met_glm.zip, or the table alone under fname. The adapter itself is
      left as it was, so writing can be repeated. */
  function WriteGlmMet(p: Power, zipF: bool, fname: string): (e: Export)
    requires p.metData.Some? && p.glmMetData.Some?
    ensures zipF ==> e.Archive? && e.name == "met_glm.zip" && |e.files| == 2
    ensures zipF ==> Lookup(e.files, "met.csv") == Some(WriteCsv(p.glmMetData.value))
    ensures zipF ==> Lookup(e.files, "met_glm_metadata.json") == Some(Json(Dict(p.metData.value.metadata)))
    ensures !zipF ==> e == Single(File(fname, WriteCsv(p.glmMetData.value)))
  {
    if zipF then
      var files := [
        File("met.csv", WriteCsv(p.glmMetData.value)),
        File("met_glm_metadata.json", Json(Dict(p.metData.value.metadata)))
      ];
      assert files[1..][0].name == "met_glm_metadata.json";
      Archive("met_glm.zip", files)
    else Single(File(fname, WriteCsv(p.glmMetData.value)))
  }
}
