/** The General Lake Model (GLM) meteorological table every conversion
    produces, and the unit conversions the adapters apply on the way:
    cloud cover from percent to a fraction, precipitation from mm to m
    (per day, so times 24 for hourly rates). */
module Glm {
  import opened Values
  import opened Tables

  /** The GLM column names, in the order GLM reads them. */
  const GlmColumns: seq<string> := ["time", "ShortWave", "Cloud", "AirTemp", "RelHum", "WindSpeed", "Rain"]

  /** No text cell: a column pandas can do arithmetic on. */
  predicate Numeric(cells: seq<Cell>)
  {
    forall i :: 0 <= i < |cells| ==> !cells[i].Text?
  }

  /** Only text cells: a column of timestamps. */
  predicate Textual(cells: seq<Cell>)
  {
    forall i :: 0 <= i < |cells| ==> cells[i].Text?
  }

  /** out is c scaled by k: a number is multiplied by k, and a missing value
      stays missing. */
  predicate ScaledBy(out: Cell, c: Cell, k: real)
  {
    (c.Missing? && out.Missing?) || (c.Number? && out == Number(c.x * k))
  }

  /** series / d */
  function Divide(cells: seq<Cell>, d: real): (r: seq<Cell>)
    requires d != 0.0 && Numeric(cells)
    ensures |r| == |cells| && Numeric(r)
    ensures forall i :: 0 <= i < |cells| ==> ScaledBy(r[i], cells[i], 1.0 / d)
  {
    seq(|cells|, i requires 0 <= i < |cells| => if cells[i].Number? then Number(cells[i].x / d) else Missing)
  }

  /** series * k */
  function Multiply(cells: seq<Cell>, k: real): (r: seq<Cell>)
    requires Numeric(cells)
    ensures |r| == |cells| && Numeric(r)
    ensures forall i :: 0 <= i < |cells| ==> ScaledBy(r[i], cells[i], k)
  {
    seq(|cells|, i requires 0 <= i < |cells| => if cells[i].Number? then Number(cells[i].x * k) else Missing)
  }

  /** Dividing by d and then multiplying by k scales each value by k / d,
      missing values staying missing. */
  lemma ScaleTwice(cells: seq<Cell>, d: real, k: real)
    requires d != 0.0 && Numeric(cells)
    ensures forall i :: 0 <= i < |cells| ==> ScaledBy(Multiply(Divide(cells, d), k)[i], cells[i], k / d)
  {
    var q := Divide(cells, d);
    forall i | 0 <= i < |cells| ensures ScaledBy(Multiply(q, k)[i], cells[i], k / d) {
      assert ScaledBy(q[i], cells[i], 1.0 / d);
      assert ScaledBy(Multiply(q, k)[i], q[i], k);
    }
  }

  /** Cloud cover in percent as a fraction: series / 100. */
  function CloudFraction(cells: seq<Cell>): (r: seq<Cell>)
    requires Numeric(cells)
    ensures |r| == |cells| && Numeric(r)
    ensures forall i :: 0 <= i < |cells| ==> ScaledBy(r[i], cells[i], 1.0 / 100.0)
  {
    Divide(cells, 100.0)
  }

  /** Daily precipitation in mm as m per day: series / 1000. */
  function DailyRain(cells: seq<Cell>): (r: seq<Cell>)
    requires Numeric(cells)
    ensures |r| == |cells| && Numeric(r)
    ensures forall i :: 0 <= i < |cells| ==> ScaledBy(r[i], cells[i], 1.0 / 1000.0)
  {
    Divide(cells, 1000.0)
  }

  /** Hourly precipitation in mm as a daily-equivalent rate in m:
      (series / 1000) * 24, that is each value times 24 / 1000. */
  function HourlyRain(cells: seq<Cell>): (r: seq<Cell>)
    requires Numeric(cells)
    ensures |r| == |cells| && Numeric(r)
    ensures forall i :: 0 <= i < |cells| ==> ScaledBy(r[i], cells[i], 24.0 / 1000.0)
  {
    ScaleTwice(cells, 1000.0, 24.0);
    Multiply(Divide(cells, 1000.0), 24.0)
  }

  /** Every number in cells lies in [lo, hi]. */
  ghost predicate InRange(cells: seq<Cell>, lo: real, hi: real)
  {
    forall i :: 0 <= i < |cells| && cells[i].Number? ==> lo <= cells[i].x <= hi
  }

  /** Cloud cover given in [0, 100] percent becomes a fraction in [0, 1]. */
  lemma CloudFractionBounded(cells: seq<Cell>)
    requires Numeric(cells) && InRange(cells, 0.0, 100.0)
    ensures InRange(CloudFraction(cells), 0.0, 1.0)
  {
    var r := CloudFraction(cells);
    forall i | 0 <= i < |r| && r[i].Number? ensures 0.0 <= r[i].x <= 1.0 {
      assert ScaledBy(r[i], cells[i], 1.0 / 100.0);
    }
  }

  /** The fraction times 100 gives back the percentage, missing values
      included. */
  lemma CloudFractionRoundTrip(cells: seq<Cell>)
    requires Numeric(cells)
    ensures Multiply(CloudFraction(cells), 100.0) == cells
  {
    var r := Multiply(CloudFraction(cells), 100.0);
    forall i | 0 <= i < |cells| ensures r[i] == cells[i] {
      assert ScaledBy(CloudFraction(cells)[i], cells[i], 1.0 / 100.0);
    }
  }

  const GlmColumnSet: set<string> := {"time", "ShortWave", "Cloud", "AirTemp", "RelHum", "WindSpeed", "Rain"}

  /** No two GLM column names are equal. */
  lemma GlmNamesDiffer()
    ensures "time" != "ShortWave" && "time" != "Cloud" && "time" != "AirTemp"
    ensures "time" != "RelHum" && "time" != "WindSpeed" && "time" != "Rain"
    ensures "ShortWave" != "Cloud" && "ShortWave" != "AirTemp" && "ShortWave" != "RelHum"
    ensures "ShortWave" != "WindSpeed" && "ShortWave" != "Rain"
    ensures "Cloud" != "AirTemp" && "Cloud" != "RelHum" && "Cloud" != "WindSpeed" && "Cloud" != "Rain"
    ensures "AirTemp" != "RelHum" && "AirTemp" != "WindSpeed" && "AirTemp" != "Rain"
    ensures "RelHum" != "WindSpeed" && "RelHum" != "Rain"
    ensures "WindSpeed" != "Rain"
  {
  }

  /** The GLM columns are seven distinct names. */
  lemma GlmColumnsNamed()
    ensures Distinct(GlmColumns)
    ensures forall c :: c in GlmColumns <==> c in GlmColumnSet
  {
  }

  /** t has a column called c with no text in it. */
  ghost predicate NumericColumn(t: Table, c: string)
  {
    c in t.cols && Numeric(t.cols[c])
  }

  /** The shape every GLM table has: the seven GLM columns in order, one
      cell per row in each, timestamps as text and numbers elsewhere. */
  ghost predicate IsGlmTable(t: Table)
  {
    && Wf(t)
    && t.order == GlmColumns
    && t.cols.Keys == GlmColumnSet
    && Textual(t.cols["time"])
    && Numeric(t.cols["ShortWave"]) && Numeric(t.cols["Cloud"]) && Numeric(t.cols["AirTemp"])
    && Numeric(t.cols["RelHum"]) && Numeric(t.cols["WindSpeed"]) && Numeric(t.cols["Rain"])
  }

  /** The data= dict of a GLM frame: each GLM column name to its cells. */
  function GlmCols(time: seq<Cell>, shortWave: seq<Cell>, cloud: seq<Cell>, airTemp: seq<Cell>,
                   relHum: seq<Cell>, windSpeed: seq<Cell>, rain: seq<Cell>): (cols: map<string, seq<Cell>>)
    ensures cols.Keys == GlmColumnSet
    ensures cols["time"] == time && cols["ShortWave"] == shortWave && cols["Cloud"] == cloud
    ensures cols["AirTemp"] == airTemp && cols["RelHum"] == relHum
    ensures cols["WindSpeed"] == windSpeed && cols["Rain"] == rain
  {
    GlmNamesDiffer();
    map[
      "time" := time,
      "ShortWave" := shortWave,
      "Cloud" := cloud,
      "AirTemp" := airTemp,
      "RelHum" := relHum,
      "WindSpeed" := windSpeed,
      "Rain" := rain
    ]
  }

  /** A table with the GLM columns in order, each one cell per row, is well
      formed. */
  lemma GlmTableWf(t: Table)
    requires t.order == GlmColumns && t.cols.Keys == GlmColumnSet
    requires forall c :: c in GlmColumnSet ==> |t.cols[c]| == Height(t)
    ensures Wf(t)
  {
    GlmColumnsNamed();
    assert Distinct(t.order);
    assert forall c :: c in t.cols <==> c in t.order;
  }

  /** pd.DataFrame(data={"time": ..., "ShortWave": ..., ...}) over columns
      of one length: the GLM table with those columns. */
  function Assemble(index: Index, time: seq<Cell>, shortWave: seq<Cell>, cloud: seq<Cell>,
                    airTemp: seq<Cell>, relHum: seq<Cell>, windSpeed: seq<Cell>, rain: seq<Cell>): (t: Table)
    requires Textual(time)
    requires Numeric(shortWave) && Numeric(cloud) && Numeric(airTemp)
    requires Numeric(relHum) && Numeric(windSpeed) && Numeric(rain)
    requires |time| == |shortWave| == |cloud| == |airTemp| == |relHum| == |windSpeed| == |rain| == Size(index)
    ensures IsGlmTable(t) && t.index == index
    ensures t.cols["time"] == time && t.cols["ShortWave"] == shortWave && t.cols["Cloud"] == cloud
    ensures t.cols["AirTemp"] == airTemp && t.cols["RelHum"] == relHum
    ensures t.cols["WindSpeed"] == windSpeed && t.cols["Rain"] == rain
  {
    var cols := GlmCols(time, shortWave, cloud, airTemp, relHum, windSpeed, rain);
    var t := Table(index, GlmColumns, cols);
    GlmTableWf(t);
    t
  }
}
