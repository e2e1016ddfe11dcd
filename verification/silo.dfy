/** The SILO adapter: two addressing modes (a grid point by coordinates, a
    station by number), the query each sends, and the metadata parsed out
    of the free-text lines SILO embeds in its CSV response. SILO data has
    no GLM conversion. */
module SiloAdapter {
  import opened Values
  import opened Text
  import opened Tables
  import opened Requests
  import opened Met

  /** A grid point (longitude, latitude) or a station number; the Python
      code tells them apart by type (tuple or int). */
  datatype Location = Grid(lon: real, lat: real) | Station(number: int)

  /** The adapter's state. api is "data_drill" or "patch_point"; comment
      holds SILO's variable codes, such as "rxel". */
  datatype Silo = Silo(
    location: Location,
    dateRange: (string, string),
    metData: Option<MetData>,
    format: string,
    comment: Option<string>,
    username: string,
    api: string)

  /** The fixed password SILO's API expects from registered users. */
  const Password: string := "apirequest"

  /** The constructor: the format is always csv, whatever the caller
      wants. */
  function New(location: Location, dateRange: (string, string), metData: Option<MetData>,
               comment: Option<string>, username: string, api: string): (s: Silo)
    ensures s.format == "csv"
    ensures s.location == location && s.dateRange == dateRange && s.metData == metData
    ensures s.comment == comment && s.username == username && s.api == api
  {
    Silo(location, dateRange, metData, "csv", comment, username, api)
  }

  /** The api names the mode the location is written for. Anything else
      makes get_variables do nothing. */
  predicate AddressingMatches(s: Silo)
  {
    || (s.api == "data_drill" && s.location.Grid?)
    || (s.api == "patch_point" && s.location.Station?)
  }

  /** Whether the comment goes into the query: only for json and csv. */
  predicate SendsComment(s: Silo)
  {
    s.format == "json" || s.format == "csv"
  }

  /** comment as a query value: None is sent as null. */
  function CommentValue(s: Silo): Value
  {
    if s.comment.Some? then Str(s.comment.value) else Null
  }

  /** The keys that say where: lon and lat, or station. */
  function AddressKeys(loc: Location): set<string>
  {
    if loc.Grid? then {"lon", "lat"} else {"station"}
  }

  /** The keys of the built-in payload. */
  function PayloadKeys(s: Silo): set<string>
  {
    AddressKeys(s.location) + {"start", "finish", "format", "username", "password"}
      + (if SendsComment(s) then {"comment"} else {})
  }

  /** The part of the payload that says where: lon and lat for a grid
      point, the station number for a station. */
  function AddressParams(loc: Location): (p: Params)
    ensures p.Keys == AddressKeys(loc)
    ensures loc.Grid? ==> p["lon"] == Num(loc.lon) && p["lat"] == Num(loc.lat)
    ensures loc.Station? ==> p["station"] == Int(loc.number)
  {
    match loc
    case Grid(lon, lat) => map["lon" := Num(lon), "lat" := Num(lat)]
    case Station(n) => map["station" := Int(n)]
  }

  /** The comment entry, present only for json and csv. */
  function CommentParams(s: Silo): (p: Params)
    ensures p.Keys == (if SendsComment(s) then {"comment"} else {})
    ensures SendsComment(s) ==> p["comment"] == CommentValue(s)
  {
    if SendsComment(s) then map["comment" := CommentValue(s)] else map[]
  }

  /** The part of the payload every request has: dates, format and
      credentials. */
  function CommonParams(s: Silo): (p: Params)
    ensures p.Keys == {"start", "finish", "format", "username", "password"}
    ensures p["start"] == Str(s.dateRange.0) && p["finish"] == Str(s.dateRange.1)
    ensures p["format"] == Str(s.format) && p["username"] == Str(s.username)
    ensures p["password"] == Str(Password)
  {
    map[
      "start" := Str(s.dateRange.0),
      "finish" := Str(s.dateRange.1),
      "format" := Str(s.format),
      "username" := Str(s.username),
      "password" := Str(Password)
    ]
  }

  /** The built-in payload, before the caller's settings. */
  function Payload(s: Silo): (p: Params)
    ensures p.Keys == PayloadKeys(s)
    ensures s.location.Grid? ==> p["lon"] == Num(s.location.lon) && p["lat"] == Num(s.location.lat)
    ensures s.location.Station? ==> p["station"] == Int(s.location.number)
    ensures p["start"] == Str(s.dateRange.0) && p["finish"] == Str(s.dateRange.1)
    ensures p["format"] == Str(s.format) && p["username"] == Str(s.username)
    ensures p["password"] == Str(Password)
    ensures SendsComment(s) ==> p["comment"] == CommentValue(s)
  {
    AddressParams(s.location) + CommonParams(s) + CommentParams(s)
  }

  /** The query get_variables sends, or None when the mode and the location
      do not match (then nothing is fetched). */
  function Request(s: Silo, settings: Option<Params>): (q: Option<Query>)
    ensures q.Some? <==> AddressingMatches(s)
    ensures q.Some? ==> q.value.endpoint == (if s.location.Grid? then SiloDataDrill else SiloPatchPoint)
    ensures q.Some? ==> q.value.params.Keys == Overrides(settings).Keys + PayloadKeys(s)
    ensures q.Some? && s.location.Grid? ==>
      Sends(q.value.params, settings, "lon", Num(s.location.lon)) && Sends(q.value.params, settings, "lat", Num(s.location.lat))
    ensures q.Some? && s.location.Station? ==> Sends(q.value.params, settings, "station", Int(s.location.number))
    ensures q.Some? ==> Sends(q.value.params, settings, "start", Str(s.dateRange.0))
    ensures q.Some? ==> Sends(q.value.params, settings, "finish", Str(s.dateRange.1))
    ensures q.Some? ==> Sends(q.value.params, settings, "format", Str(s.format))
    ensures q.Some? ==> Sends(q.value.params, settings, "username", Str(s.username))
    ensures q.Some? ==> Sends(q.value.params, settings, "password", Str(Password))
    ensures q.Some? && SendsComment(s) ==> Sends(q.value.params, settings, "comment", CommentValue(s))
  {
    if !AddressingMatches(s) then None
    else
      PayloadSent(s, settings);
      Some(Query(if s.location.Grid? then SiloDataDrill else SiloPatchPoint, Merge(Payload(s), settings)))
  }

  /** Every key of the built-in payload goes out, with its payload value
      unless the caller overrides it. */
  lemma PayloadSent(s: Silo, settings: Option<Params>)
    ensures var params := Merge(Payload(s), settings);
      && params.Keys == Overrides(settings).Keys + PayloadKeys(s)
      && (s.location.Grid? ==>
            Sends(params, settings, "lon", Num(s.location.lon)) && Sends(params, settings, "lat", Num(s.location.lat)))
      && (s.location.Station? ==> Sends(params, settings, "station", Int(s.location.number)))
      && Sends(params, settings, "start", Str(s.dateRange.0))
      && Sends(params, settings, "finish", Str(s.dateRange.1))
      && Sends(params, settings, "format", Str(s.format))
      && Sends(params, settings, "username", Str(s.username))
      && Sends(params, settings, "password", Str(Password))
      && (SendsComment(s) ==> Sends(params, settings, "comment", CommentValue(s)))
  {
    var payload := Payload(s);
    if s.location.Grid? {
      MergeSends(payload, settings, "lon");
      MergeSends(payload, settings, "lat");
    } else {
      MergeSends(payload, settings, "station");
    }
    MergeSends(payload, settings, "start");
    MergeSends(payload, settings, "finish");
    MergeSends(payload, settings, "format");
    MergeSends(payload, settings, "username");
    MergeSends(payload, settings, "password");
    if SendsComment(s) {
      MergeSends(payload, settings, "comment");
    }
  }

  /** Since the constructor fixes the format to csv, the comment is always
      in the query of a constructed adapter; the comment-less payloads are
      never built. */
  lemma ConstructedSendsComment(location: Location, dateRange: (string, string), metData: Option<MetData>,
                                comment: Option<string>, username: string, api: string, settings: Option<Params>)
    requires AddressingMatches(New(location, dateRange, metData, comment, username, api))
    requires "comment" !in Overrides(settings)
    ensures var q := Request(New(location, dateRange, metData, comment, username, api), settings);
      q.Some? && "comment" in q.value.params
      && q.value.params["comment"] == (if comment.Some? then Str(comment.value) else Null)
  {
  }

  /** `line.split("= ")[1]`: the text after the first "= ", up to any
      further "= ". */
  function AfterEquals(line: string): string
    requires |Split(line, "= ")| >= 2
  {
    Split(line, "= ")[1]
  }

  /** `line.split("= ")[1].split(" m")[0]`: the elevation figure, between
      the first "= " and the following " m". */
  function ElevationOf(line: string): string
    requires |Split(line, "= ")| >= 2
  {
    Split(AfterEquals(line), " m")[0]
  }

  /** `line.split("=")[1]`: the station name. */
  function NameOf(line: string): string
    requires |Split(line, "=")| >= 2
  {
    Split(line, "=")[1]
  }

  /** A line head = value + post, with no '=' but the one after the
      head, gives back value after "= ". */
  lemma AfterEqualsOfLine(head: string, value: string)
    requires '=' !in head && '=' !in value
    ensures |Split(head + "= " + value, "= ")| >= 2
    ensures AfterEquals(head + "= " + value) == value
  {
    PiecesAround(head, "= ", value);
  }

  /** A line head = elev m post, with no '=' but the one after the head
      and no space inside the figure, gives back the figure. */
  lemma ElevationOfLine(head: string, elev: string, post: string)
    requires '=' !in head && '=' !in elev && '=' !in post
    requires ' ' !in elev
    ensures |Split(head + "= " + elev + " m" + post, "= ")| >= 2
    ensures ElevationOf(head + "= " + elev + " m" + post) == elev
  {
    var rest := elev + " m" + post;
    assert head + "= " + elev + " m" + post == head + "= " + rest;
    assert '=' !in rest;
    AfterEqualsOfLine(head, rest);
    forall j | 0 <= j < |elev| ensures !OccursAt(elev + " m", " m", j) {
      assert (elev + " m")[j..j + 2][0] == elev[j] != ' ';
    }
    FirstPiece(elev, " m", post);
  }

  /** The station name is split on "=" alone, so unlike the coordinates it
      keeps the space that follows the "=". */
  lemma NameKeepsLeadingSpace(head: string, name: string)
    requires '=' !in head && '=' !in name
    ensures |Split(head + "= " + name, "=")| >= 2
    ensures NameOf(head + "= " + name) == " " + name
  {
    assert head + "= " + name == head + "=" + (" " + name);
    PiecesAround(head, "=", " " + name);
  }

  /** The i-th line of the embedded metadata column is text that splits at
      sep. */
  ghost predicate LineSplits(t: Table, i: nat, sep: string)
    requires |sep| > 0
  {
    && "metadata" in t.cols && i < |t.cols["metadata"]|
    && t.cols["metadata"][i].Text?
    && |Split(t.cols["metadata"][i].s, sep)| >= 2
  }

  /** The i-th metadata line. */
  function Line(t: Table, i: nat): string
    requires "metadata" in t.cols && i < |t.cols["metadata"]| && t.cols["metadata"][i].Text?
  {
    t.cols["metadata"][i].s
  }

  /** What a response must hold for get_variables not to raise: a metadata
      column with the lines the mode reads. */
  ghost predicate Readable(s: Silo, response: Table)
  {
    && Wf(response)
    && "metadata" in response.cols
    && (s.location.Grid? ==> LineSplits(response, 0, "= "))
    && (s.location.Station? ==>
          LineSplits(response, 0, "=") && LineSplits(response, 1, "= ")
          && LineSplits(response, 2, "= ") && LineSplits(response, 3, "= "))
  }

  const GridMetadataKeys: seq<string> :=
    ["longitude", "latitude", "start", "finish", "api", "format", "comment", "elevation"]

  const StationMetadataKeys: seq<string> :=
    ["station", "station_name", "longitude", "latitude", "start", "finish", "api", "format", "comment", "elevation"]

  lemma MetadataKeysDistinct()
    ensures Distinct(GridMetadataKeys) && Distinct(StationMetadataKeys)
  {
  }

  /** The metadata dict of a grid fetch: the request echoed, plus the
      elevation from line 0. */
  function GridMetadata(s: Silo, response: Table): (md: seq<Item>)
    requires s.location.Grid? && Readable(s, response)
    ensures IsDict(md) && KeyList(md) == GridMetadataKeys
    ensures Get(md, "longitude") == Some(Num(s.location.lon)) && Get(md, "latitude") == Some(Num(s.location.lat))
    ensures Get(md, "start") == Some(Str(s.dateRange.0)) && Get(md, "finish") == Some(Str(s.dateRange.1))
    ensures Get(md, "api") == Some(Str(s.api)) && Get(md, "format") == Some(Str(s.format))
    ensures Get(md, "comment") == Some(CommentValue(s))
    ensures Get(md, "elevation") == Some(Str(ElevationOf(Line(response, 0))))
  {
    var md := Zip(GridMetadataKeys, [
      Num(s.location.lon),
      Num(s.location.lat),
      Str(s.dateRange.0),
      Str(s.dateRange.1),
      Str(s.api),
      Str(s.format),
      CommentValue(s),
      Str(ElevationOf(Line(response, 0)))
    ]);
    MetadataKeysDistinct();
    DistinctKeysIsDict(md);
    GetAt(md, 0); GetAt(md, 1); GetAt(md, 2); GetAt(md, 3);
    GetAt(md, 4); GetAt(md, 5); GetAt(md, 6); GetAt(md, 7);
    md
  }

  /** The i-th station key finds the i-th value. */
  lemma StationKeyAt(vals: seq<Value>, i: nat)
    requires |vals| == |StationMetadataKeys| && i < |vals|
    ensures Get(Zip(StationMetadataKeys, vals), StationMetadataKeys[i]) == Some(vals[i])
  {
    MetadataKeysDistinct();
    ZipGet(StationMetadataKeys, vals, i);
  }

  /** Every station key finds its value. */
  lemma StationKeysFound(vals: seq<Value>)
    requires |vals| == |StationMetadataKeys|
    ensures var md := Zip(StationMetadataKeys, vals);
      && Get(md, "station") == Some(vals[0]) && Get(md, "station_name") == Some(vals[1])
      && Get(md, "longitude") == Some(vals[2]) && Get(md, "latitude") == Some(vals[3])
      && Get(md, "start") == Some(vals[4]) && Get(md, "finish") == Some(vals[5])
      && Get(md, "api") == Some(vals[6]) && Get(md, "format") == Some(vals[7])
      && Get(md, "comment") == Some(vals[8]) && Get(md, "elevation") == Some(vals[9])
  {
    StationKeyAt(vals, 0); StationKeyAt(vals, 1); StationKeyAt(vals, 2); StationKeyAt(vals, 3);
    StationKeyAt(vals, 4); StationKeyAt(vals, 5); StationKeyAt(vals, 6); StationKeyAt(vals, 7);
    StationKeyAt(vals, 8); StationKeyAt(vals, 9);
  }

  /** The metadata dict of a station fetch, given the texts read from its
      lines: the station, name and coordinates, the request echoed, and the
      elevation. */
  function StationDict(s: Silo, name: string, lat: string, lon: string, elevation: string): (md: seq<Item>)
    requires s.location.Station?
    ensures IsDict(md) && KeyList(md) == StationMetadataKeys
    ensures Get(md, "station") == Some(Int(s.location.number))
    ensures Get(md, "station_name") == Some(Str(name))
    ensures Get(md, "latitude") == Some(Str(lat))
    ensures Get(md, "longitude") == Some(Str(lon))
    ensures Get(md, "start") == Some(Str(s.dateRange.0)) && Get(md, "finish") == Some(Str(s.dateRange.1))
    ensures Get(md, "api") == Some(Str(s.api)) && Get(md, "format") == Some(Str(s.format))
    ensures Get(md, "comment") == Some(CommentValue(s))
    ensures Get(md, "elevation") == Some(Str(elevation))
  {
    var vals := [
      Int(s.location.number), Str(name), Str(lon), Str(lat),
      Str(s.dateRange.0), Str(s.dateRange.1), Str(s.api), Str(s.format),
      CommentValue(s), Str(elevation)
    ];
    StationKeysFound(vals);
    MetadataKeysDistinct();
    DistinctKeysIsDict(Zip(StationMetadataKeys, vals));
    Zip(StationMetadataKeys, vals)
  }

  /** The metadata dict of a station fetch: the name from line 0 (split at
      "=" alone), the latitude from line 1, the longitude from line 2 and
      the elevation from line 3. */
  function StationMetadata(s: Silo, response: Table): (md: seq<Item>)
    requires s.location.Station? && Readable(s, response)
    ensures IsDict(md) && KeyList(md) == StationMetadataKeys
    ensures Get(md, "station") == Some(Int(s.location.number))
    ensures Get(md, "station_name") == Some(Str(NameOf(Line(response, 0))))
    ensures Get(md, "latitude") == Some(Str(AfterEquals(Line(response, 1))))
    ensures Get(md, "longitude") == Some(Str(AfterEquals(Line(response, 2))))
    ensures Get(md, "elevation") == Some(Str(ElevationOf(Line(response, 3))))
  {
    StationDict(s, NameOf(Line(response, 0)), AfterEquals(Line(response, 1)),
                AfterEquals(Line(response, 2)), ElevationOf(Line(response, 3)))
  }

  /** The station metadata echoes the request: dates, api, format and
      comment as the adapter holds them. */
  lemma StationMetadataEchoes(s: Silo, response: Table)
    requires s.location.Station? && Readable(s, response)
    ensures var md := StationMetadata(s, response);
      && Get(md, "start") == Some(Str(s.dateRange.0)) && Get(md, "finish") == Some(Str(s.dateRange.1))
      && Get(md, "api") == Some(Str(s.api)) && Get(md, "format") == Some(Str(s.format))
      && Get(md, "comment") == Some(CommentValue(s))
  {
  }

  /** get_variables, given the parsed CSV response: with a matching mode,
      the metadata is parsed from the embedded lines and the metadata
      column is dropped from the table; otherwise nothing changes. */
  function GetVariables(s: Silo, response: Table): (r: Silo)
    requires AddressingMatches(s) ==> Readable(s, response)
    ensures !AddressingMatches(s) ==> r == s
    ensures AddressingMatches(s) ==>
      && r.metData.Some?
      && r.metData.value.metadata == (if s.location.Grid? then GridMetadata(s, response) else StationMetadata(s, response))
      && r.metData.value.data == Drop(response, "metadata")
    ensures r.location == s.location && r.dateRange == s.dateRange && r.format == s.format
    ensures r.comment == s.comment && r.username == s.username && r.api == s.api
  {
    if !AddressingMatches(s) then s
    else
      var metadata := if s.location.Grid? then GridMetadata(s, response) else StationMetadata(s, response);
      s.(metData := Some(MetData(metadata, Drop(response, "metadata"))))
  }

  /** A fetch changes the adapter exactly when a query is sent. */
  lemma FetchIffQuery(s: Silo, response: Table, settings: Option<Params>)
    requires AddressingMatches(s) ==> Readable(s, response)
    requires s.metData.None?
    ensures GetVariables(s, response).metData.Some? <==> Request(s, settings).Some?
  {
  }

  /** convert_to_glm does nothing for SILO data. */
  function ConvertToGlm(s: Silo): (r: Silo)
    ensures r == s
  {
    s
  }

  /** write_glm_met writes nothing for SILO data. */
  function WriteGlmMet(s: Silo): (e: Option<Export>)
    ensures e.None?
  {
    None
  }
}
