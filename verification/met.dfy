/** The raw container every adapter fills on a fetch, and the export of it
    that every adapter's write_met produces. */
module Met {
  import opened Values
  import opened Tables

  /** Provenance metadata and the table of values, as fetched. */
  datatype MetData = MetData(metadata: seq<Item>, data: Table)

  /** What a file holds: a table written as CSV, or a value written as JSON.
      A CSV file holds the columns in order with their cells; read back, its
      rows are numbered from 0. */
  datatype Content = Csv(table: Table) | Json(doc: Value)

  datatype File = File(name: string, content: Content)

  /** Files bundled into a zip archive, or one file written on its own. */
  datatype Export = Archive(name: string, files: seq<File>) | Single(file: File)

  /** The content of the first file called name. */
  function Lookup(files: seq<File>, name: string): Option<Content>
    decreases |files|
  {
    if |files| == 0 then None
    else if files[0].name == name then Some(files[0].content)
    else Lookup(files[1..], name)
  }

  /** When every file called name holds c, and there is one, looking name up
      finds c. */
  lemma {:induction false} LookupFinds(files: seq<File>, name: string, c: Content)
    requires exists i :: 0 <= i < |files| && files[i].name == name
    requires forall i :: 0 <= i < |files| && files[i].name == name ==> files[i].content == c
    ensures Lookup(files, name) == Some(c)
    decreases |files|
  {
    if files[0].name != name {
      var i :| 0 <= i < |files| && files[i].name == name;
      assert files[1..][i - 1].name == name;
      forall j | 0 <= j < |files[1..]| && files[1..][j].name == name
        ensures files[1..][j].content == c
      {
        assert files[j + 1] == files[1..][j];
      }
      LookupFinds(files[1..], name, c);
    }
  }

  /** The table a CSV file written without its index holds: the same
      columns in the same order, the rows numbered afresh. */
  function Unindexed(t: Table): (u: Table)
    ensures u.order == t.order && u.cols == t.cols
    ensures Height(u) == Height(t) && u.index.Positions?
    ensures Wf(t) ==> Wf(u)
  {
    t.(index := Positions(Height(t)))
  }

  /** A table whose rows are already numbered loses nothing when its index is
      left out. */
  lemma UnindexedPositional(t: Table)
    requires t.index.Positions?
    ensures Unindexed(t) == t
  {
  }

  /** `df.to_csv(path, index=False)`: every adapter writes its tables
      without the index. */
  function WriteCsv(t: Table): (c: Content)
    ensures c.Csv? && c.table == Unindexed(t)
  {
    Csv(Unindexed(t))
  }

  /** A response whose member under key is a dict of equally long lists:
      what `pd.DataFrame(r_json.pop(key))` accepts. */
  ghost predicate HasColumns(response: seq<Item>, key: string)
  {
    && IsDict(response)
    && Get(response, key).Some?
    && Get(response, key).value.Dict?
    && IsColumnDict(Get(response, key).value.items)
  }

  /** `df = pd.DataFrame(r_json.pop(key)); metadata = r_json`: the member
      becomes the table and the metadata is the response with exactly that
      key removed. */
  function PopMember(response: seq<Item>, key: string): (md: MetData)
    requires HasColumns(response, key)
    ensures IsDict(md.metadata)
    ensures Keys(md.metadata) == Keys(response) - {key}
    ensures forall k :: k != key ==> Get(md.metadata, k) == Get(response, k)
    ensures md.data.order == KeyList(Get(response, key).value.items)
    ensures md.data == FromDict(Get(response, key).value.items)
  {
    MetData(Remove(response, key), FromDict(Get(response, key).value.items))
  }

  /** write_met: the table as met_raw.csv and the metadata as
      met_raw_metadata.json, bundled into met_raw.zip. */
  function WriteMet(md: MetData): (e: Export)
    ensures e.Archive? && e.name == "met_raw.zip"
    ensures |e.files| == 2
    ensures e.files[0].name == "met_raw.csv" && e.files[1].name == "met_raw_metadata.json"
  {
    Archive("met_raw.zip", [
      File("met_raw.csv", WriteCsv(md.data)),
      File("met_raw_metadata.json", Json(Dict(md.metadata)))
    ])
  }

  /** Reading a raw archive back: the table from met_raw.csv and the
      metadata dict from met_raw_metadata.json. */
  function ReadMet(e: Export): Option<MetData>
  {
    if !e.Archive? then None
    else
      match (Lookup(e.files, "met_raw.csv"), Lookup(e.files, "met_raw_metadata.json"))
      case (Some(Csv(t)), Some(Json(Dict(items)))) => Some(MetData(items, t))
      case _ => None
  }

  /** The raw archive holds the fetched metadata unchanged and every column
      of the fetched table in order, cell for cell; the table's index is not
      written, so the rows come back numbered from 0. */
  lemma RawExportRoundTrip(md: MetData)
    ensures ReadMet(WriteMet(md)) == Some(MetData(md.metadata, Unindexed(md.data)))
  {
    var files := WriteMet(md).files;
    assert Lookup(files, "met_raw.csv") == Some(Csv(Unindexed(md.data)));
    assert files[1..][0].name == "met_raw_metadata.json";
    assert Lookup(files, "met_raw_metadata.json") == Some(Json(Dict(md.metadata)));
  }

  /** A popped response member is a table with numbered rows, so its raw
      archive gives back exactly what was fetched. */
  lemma PoppedExportRoundTrip(response: seq<Item>, key: string)
    requires HasColumns(response, key)
    ensures ReadMet(WriteMet(PopMember(response, key))) == Some(PopMember(response, key))
  {
    var md := PopMember(response, key);
    RawExportRoundTrip(md);
    UnindexedPositional(md.data);
  }
}
