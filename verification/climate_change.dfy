/** The open-meteo climate adapter: daily values of several climate models
    in one response, converted into one GLM table per model. */
module ClimateAdapter {
  import opened Values
  import opened Tables
  import opened Requests
  import opened Met
  import opened Glm

  /** climate_models: the seven models the climate API serves. */
  const ClimateModels: seq<string> := [
    "CMCC_CM2_VHR4",
    "FGOALS_f3_H",
    "HiRAM_SIT_HR",
    "MRI_AGCM3_2_S",
    "EC_Earth3P_HR",
    "MPI_ESM1_2_XR",
    "NICAM16_8S"
  ]

  /** climate_glm_default */
  const ClimateDefault: seq<string> := [
    "shortwave_radiation_sum",
    "cloudcover_mean",
    "temperature_2m_mean",
    "temperature_2m_max",
    "temperature_2m_min",
    "relative_humidity_2m_mean",
    "windspeed_10m_mean",
    "precipitation_sum",
    "et0_fao_evapotranspiration_sum"
  ]

  /** The adapter's state. glmMetData maps each model to its GLM table. */
  datatype ClimateChange = ClimateChange(
    location: (real, real),
    dateRange: (string, string),
    metData: Option<MetData>,
    glmMetData: Option<map<string, Table>>,
    models: seq<string>,
    variables: seq<string>)

  /** The constructor: the models default to all seven and the variables
      to the GLM default list. */
  function New(location: (real, real), dateRange: (string, string), metData: Option<MetData>,
               glmMetData: Option<map<string, Table>>,
               models: seq<string> := ClimateModels, variables: seq<string> := ClimateDefault): (c: ClimateChange)
    ensures c.location == location && c.dateRange == dateRange
    ensures c.metData == metData && c.glmMetData == glmMetData
    ensures c.models == models && c.variables == variables
  {
    ClimateChange(location, dateRange, metData, glmMetData, models, variables)
  }

  /** A list of strings as a query value. */
  function StrList(ss: seq<string>): (r: Value)
    ensures r.List? && |r.elements| == |ss|
    ensures forall i :: 0 <= i < |ss| ==> r.elements[i] == Str(ss[i])
  {
    List(seq(|ss|, i requires 0 <= i < |ss| => Str(ss[i])))
  }

  /** The keys of the payload, in the order the source writes them. */
  function PayloadKeys(): (keys: seq<string>)
    ensures Distinct(keys)
  {
    ["longitude", "latitude", "start_date", "end_date", "daily", "models", "windspeed_unit"]
  }

  /** The payload values, key by key. */
  function PayloadValues(c: ClimateChange): (vals: seq<Value>)
    ensures |vals| == |PayloadKeys()|
  {
    [
      Num(c.location.0),
      Num(c.location.1),
      Str(c.dateRange.0),
      Str(c.dateRange.1),
      StrList(c.variables),
      StrList(c.models),
      Str("ms")
    ]
  }

  /** The query get_variables sends: variables and models go out as lists,
      not joined into one string. */
  function Request(c: ClimateChange, settings: Option<Params>): (q: Query)
    ensures q.endpoint == OpenMeteoClimate
    ensures forall k :: k in q.params <==> k in PayloadKeys() || k in Overrides(settings)
    ensures Sends(q.params, settings, "daily", StrList(c.variables))
    ensures Sends(q.params, settings, "models", StrList(c.models))
    ensures Sends(q.params, settings, "longitude", Num(c.location.0))
    ensures Sends(q.params, settings, "latitude", Num(c.location.1))
    ensures Sends(q.params, settings, "start_date", Str(c.dateRange.0))
    ensures Sends(q.params, settings, "end_date", Str(c.dateRange.1))
    ensures Sends(q.params, settings, "windspeed_unit", Str("ms"))
  {
    var keys := PayloadKeys();
    var vals := PayloadValues(c);
    DisplaySends(keys, vals, settings, 0);
    DisplaySends(keys, vals, settings, 1);
    DisplaySends(keys, vals, settings, 2);
    DisplaySends(keys, vals, settings, 3);
    DisplaySends(keys, vals, settings, 4);
    DisplaySends(keys, vals, settings, 5);
    DisplaySends(keys, vals, settings, 6);
    Query(OpenMeteoClimate, Merge(Display(keys, vals), settings))
  }

  /** The list values of the query name each variable and model in order,
      so nothing is lost by sending lists. */
  lemma RequestListsRoundTrip(c: ClimateChange, settings: Option<Params>)
    requires "daily" !in Overrides(settings) && "models" !in Overrides(settings)
    ensures var p := Request(c, settings).params;
      && p["daily"].List? && |p["daily"].elements| == |c.variables|
      && p["models"].List? && |p["models"].elements| == |c.models|
      && (forall i :: 0 <= i < |c.variables| ==> p["daily"].elements[i].Str? && p["daily"].elements[i].s == c.variables[i])
      && (forall i :: 0 <= i < |c.models| ==> p["models"].elements[i].Str? && p["models"].elements[i].s == c.models[i])
  {
    var p := Request(c, settings).params;
    assert p["daily"] == StrList(c.variables);
    assert p["models"] == StrList(c.models);
  }

  /** An adapter built with the defaults asks every model for the default
      variables. */
  lemma DefaultRequest(location: (real, real), dateRange: (string, string))
    ensures var q := Request(New(location, dateRange, None, None), None);
      && q.params["models"] == StrList(ClimateModels)
      && q.params["daily"] == StrList(ClimateDefault)
  {
    var c := New(location, dateRange, None, None);
    assert Sends(Request(c, None).params, None, "models", StrList(ClimateModels));
  }

  /** get_variables, given the parsed response: the daily member becomes the
      table and the rest of the response the metadata. */
  function GetVariables(c: ClimateChange, response: seq<Item>): (r: ClimateChange)
    requires HasColumns(response, "daily")
    ensures r.metData.Some?
    ensures Keys(r.metData.value.metadata) == Keys(response) - {"daily"}
    ensures forall k :: k != "daily" ==> Get(r.metData.value.metadata, k) == Get(response, k)
    ensures r.metData.value.data == FromDict(Get(response, "daily").value.items)
    ensures r.location == c.location && r.dateRange == c.dateRange && r.glmMetData == c.glmMetData
    ensures r.models == c.models && r.variables == c.variables
  {
    c.(metData := Some(PopMember(response, "daily")))
  }

  /** The six variables a GLM table is built from, by their base names. */
  const GlmBases: seq<string> := [
    "shortwave_radiation_sum",
    "cloudcover_mean",
    "temperature_2m_mean",
    "relative_humidity_2m_mean",
    "windspeed_10m_mean",
    "precipitation_sum"
  ]

  /** Every base the conversion reads is one of the default variables. */
  lemma BasesAreDefaults()
    ensures forall b :: b in GlmBases ==> b in ClimateDefault
  {
  }

  /** The response column of variable base for model m: `f"{base}_{m}"`. */
  function ModelColumn(base: string, m: string): (name: string)
    ensures |name| == |base| + 1 + |m|
    ensures name[..|base|] == base && name[|base|] == '_' && name[|base| + 1..] == m
  {
    base + "_" + m
  }

  /** The columns of one model are told apart by the model's name: two
      models share a column only if they are the same model. */
  lemma ModelColumnInjective(base: string, m1: string, m2: string)
    requires ModelColumn(base, m1) == ModelColumn(base, m2)
    ensures m1 == m2
  {
    assert m1 == ModelColumn(base, m1)[|base| + 1..];
  }

  /** The raw columns the conversion of model m reads. */
  ghost predicate ModelReady(raw: Table, m: string)
  {
    && Wf(raw)
    && "time" in raw.cols && Textual(raw.cols["time"])
    && NumericColumn(raw, ModelColumn("shortwave_radiation_sum", m))
    && NumericColumn(raw, ModelColumn("cloudcover_mean", m))
    && NumericColumn(raw, ModelColumn("temperature_2m_mean", m))
    && NumericColumn(raw, ModelColumn("relative_humidity_2m_mean", m))
    && NumericColumn(raw, ModelColumn("windspeed_10m_mean", m))
    && NumericColumn(raw, ModelColumn("precipitation_sum", m))
  }

  /** The GLM table of model m: daily dates as they came, cloud cover as a
      fraction and precipitation in m, with no hourly factor. */
  function ConvertModel(raw: Table, m: string): (g: Table)
    requires ModelReady(raw, m)
    ensures IsGlmTable(g) && g.index == raw.index && Height(g) == Height(raw)
    ensures g.cols["time"] == raw.cols["time"]
    ensures g.cols["ShortWave"] == raw.cols[ModelColumn("shortwave_radiation_sum", m)]
    ensures g.cols["Cloud"] == CloudFraction(raw.cols[ModelColumn("cloudcover_mean", m)])
    ensures g.cols["AirTemp"] == raw.cols[ModelColumn("temperature_2m_mean", m)]
    ensures g.cols["RelHum"] == raw.cols[ModelColumn("relative_humidity_2m_mean", m)]
    ensures g.cols["WindSpeed"] == raw.cols[ModelColumn("windspeed_10m_mean", m)]
    ensures g.cols["Rain"] == DailyRain(raw.cols[ModelColumn("precipitation_sum", m)])
  {
    Assemble(raw.index,
      raw.cols["time"],
      raw.cols[ModelColumn("shortwave_radiation_sum", m)],
      CloudFraction(raw.cols[ModelColumn("cloudcover_mean", m)]),
      raw.cols[ModelColumn("temperature_2m_mean", m)],
      raw.cols[ModelColumn("relative_humidity_2m_mean", m)],
      raw.cols[ModelColumn("windspeed_10m_mean", m)],
      DailyRain(raw.cols[ModelColumn("precipitation_sum", m)]))
  }

  /** Row by row, model m's table holds cloud cover divided by 100,
      precipitation divided by 1000, and the other values as fetched; a
      missing value stays missing in the same row and column. */
  lemma ConvertModelRows(raw: Table, m: string, i: nat)
    requires ModelReady(raw, m) && i < Height(raw)
    ensures ConvertModel(raw, m).cols["time"][i] == raw.cols["time"][i]
    ensures ScaledBy(ConvertModel(raw, m).cols["Cloud"][i], raw.cols[ModelColumn("cloudcover_mean", m)][i], 1.0 / 100.0)
    ensures ScaledBy(ConvertModel(raw, m).cols["Rain"][i], raw.cols[ModelColumn("precipitation_sum", m)][i], 1.0 / 1000.0)
    ensures ConvertModel(raw, m).cols["ShortWave"][i] == raw.cols[ModelColumn("shortwave_radiation_sum", m)][i]
    ensures ConvertModel(raw, m).cols["AirTemp"][i] == raw.cols[ModelColumn("temperature_2m_mean", m)][i]
    ensures ConvertModel(raw, m).cols["RelHum"][i] == raw.cols[ModelColumn("relative_humidity_2m_mean", m)][i]
    ensures ConvertModel(raw, m).cols["WindSpeed"][i] == raw.cols[ModelColumn("windspeed_10m_mean", m)][i]
  {
  }

  /** Two raw tables that agree on the index, the time column and model m's
      six columns give model m the same GLM table: no other column, and no
      other model's values, is read. */
  lemma ModelTableReadsOnlyItsColumns(raw1: Table, raw2: Table, m: string)
    requires ModelReady(raw1, m) && ModelReady(raw2, m)
    requires raw1.index == raw2.index && raw1.cols["time"] == raw2.cols["time"]
    requires forall b :: b in GlmBases ==> raw1.cols[ModelColumn(b, m)] == raw2.cols[ModelColumn(b, m)]
    ensures ConvertModel(raw1, m) == ConvertModel(raw2, m)
  {
    assert "shortwave_radiation_sum" in GlmBases && "cloudcover_mean" in GlmBases;
    assert "temperature_2m_mean" in GlmBases && "relative_humidity_2m_mean" in GlmBases;
    assert "windspeed_10m_mean" in GlmBases && "precipitation_sum" in GlmBases;
  }

  /** The loop over self.models: one GLM table per model, keyed by the
      model's name. A repeated model is converted again to the same table,
      so the last write and the first agree. */
  function ModelTables(raw: Table, models: seq<string>): (r: map<string, Table>)
    requires forall i :: 0 <= i < |models| ==> ModelReady(raw, models[i])
    ensures forall m :: m in r <==> m in models
    ensures forall m :: m in r ==> ModelReady(raw, m) && r[m] == ConvertModel(raw, m)
  {
    map m | m in models :: ConvertModel(raw, m)
  }

  /** What convert_to_glm needs: fetched data holding every model's
      columns. */
  ghost predicate CanConvert(c: ClimateChange)
  {
    && c.metData.Some?
    && forall i :: 0 <= i < |c.models| ==> ModelReady(c.metData.value.data, c.models[i])
  }

  /** convert_to_glm: the mapping has exactly the configured models as keys;
      every table is a GLM table sharing the raw time column and row count. */
  function ConvertToGlm(c: ClimateChange): (r: ClimateChange)
    requires CanConvert(c)
    ensures r.glmMetData.Some?
    ensures forall m :: m in r.glmMetData.value <==> m in c.models
    ensures forall m :: m in r.glmMetData.value ==>
      && IsGlmTable(r.glmMetData.value[m])
      && Height(r.glmMetData.value[m]) == Height(c.metData.value.data)
      && r.glmMetData.value[m].cols["time"] == c.metData.value.data.cols["time"]
      && r.glmMetData.value[m] == ConvertModel(c.metData.value.data, m)
    ensures r.metData == c.metData && r.models == c.models && r.variables == c.variables
    ensures r.location == c.location && r.dateRange == c.dateRange
  {
    c.(glmMetData := Some(ModelTables(c.metData.value.data, c.models)))
  }

  /** The archive member for model m: `f"met_{m}.csv"`. */
  function MemberName(m: string): (name: string)
    ensures |name| == |m| + 8
    ensures name[..4] == "met_" && name[4..|name| - 4] == m && name[|name| - 4..] == ".csv"
  {
    "met_" + m + ".csv"
  }

  /** The model a member was written for. */
  function ModelOfMember(name: string): string
    requires |name| >= 8
  {
    name[4..|name| - 4]
  }

  lemma MemberNameRoundTrip(m: string)
    ensures ModelOfMember(MemberName(m)) == m
  {
    assert MemberName(m)[4..|m| + 4] == m;
  }

  /** What write_glm_met needs: a converted table for every model. */
  ghost predicate CanWriteGlm(c: ClimateChange)
  {
    && c.glmMetData.Some?
    && forall i :: 0 <= i < |c.models| ==> c.models[i] in c.glmMetData.value
  }

  /** write_glm_met: met_glm.zip with one CSV member per model, in model
      order. There is no metadata member. */
  function WriteGlmMet(c: ClimateChange): (e: Export)
    requires CanWriteGlm(c)
    ensures e.Archive? && e.name == "met_glm.zip" && |e.files| == |c.models|
    ensures forall i :: 0 <= i < |c.models| ==>
      e.files[i].name == MemberName(c.models[i]) && e.files[i].content == WriteCsv(c.glmMetData.value[c.models[i]])
  {
    var glm := c.glmMetData.value;
    Archive("met_glm.zip",
      seq(|c.models|, i requires 0 <= i < |c.models| => File(MemberName(c.models[i]), WriteCsv(glm[c.models[i]]))))
  }

  /** Reading member met_{m}.csv back out of the archive gives model m's
      table, for every configured model. */
  lemma ArchiveHoldsEveryModel(c: ClimateChange, m: string)
    requires CanWriteGlm(c) && m in c.models
    ensures Lookup(WriteGlmMet(c).files, MemberName(m)) == Some(WriteCsv(c.glmMetData.value[m]))
  {
    var files := WriteGlmMet(c).files;
    var k :| 0 <= k < |c.models| && c.models[k] == m;
    assert files[k].name == MemberName(m);
    forall i | 0 <= i < |files| && files[i].name == MemberName(m)
      ensures files[i].content == WriteCsv(c.glmMetData.value[m])
    {
      MemberNameRoundTrip(m);
      MemberNameRoundTrip(c.models[i]);
    }
    LookupFinds(files, MemberName(m), WriteCsv(c.glmMetData.value[m]));
  }

  /** Every member name of the archive leads back to the model written
      into it, position by position. */
  lemma ArchiveMembersNameModels(c: ClimateChange)
    requires CanWriteGlm(c)
    ensures forall i :: 0 <= i < |c.models| ==>
      |WriteGlmMet(c).files[i].name| >= 8 && ModelOfMember(WriteGlmMet(c).files[i].name) == c.models[i]
  {
    var files := WriteGlmMet(c).files;
    forall i | 0 <= i < |c.models|
      ensures |files[i].name| >= 8 && ModelOfMember(files[i].name) == c.models[i]
    {
      MemberNameRoundTrip(c.models[i]);
    }
  }
}
