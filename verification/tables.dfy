/** Data frames as the adapters use them: an index, an ordered list of
    column names and the cells of each column. Cells are numbers (JSON
    integers and floats alike), text, or missing (NaN/None). */
module Tables {
  import opened Values

  datatype Cell = Missing | Number(x: real) | Text(s: string)

  /** A RangeIndex 0..n-1, or an index of string labels. */
  datatype Index = Positions(n: nat) | Labels(labels: seq<string>)

  datatype Table = Table(index: Index, order: seq<string>, cols: map<string, seq<Cell>>)

  function Size(ix: Index): nat
  {
    match ix
    case Positions(n) => n
    case Labels(ls) => |ls|
  }

  /** The number of rows. */
  function Height(t: Table): nat
  {
    Size(t.index)
  }

  /** Every named column exists, no name is repeated, and every column has
      one cell per row. */
  ghost predicate Wf(t: Table)
  {
    && Distinct(t.order)
    && (forall c :: c in t.cols <==> c in t.order)
    && (forall c :: c in t.cols ==> |t.cols[c]| == Height(t))
  }

  /** Values a data frame cell can be built from. */
  predicate IsScalar(v: Value)
  {
    v.Null? || v.Int? || v.Num? || v.Str?
  }

  /** The cell pandas stores for a scalar: ints and floats both become
      numbers, None becomes missing. */
  function CellOf(v: Value): (c: Cell)
    requires IsScalar(v)
  {
    match v
    case Null => Missing
    case Int(i) => Number(i as real)
    case Num(x) => Number(x)
    case Str(s) => Text(s)
  }

  ghost predicate AllScalar(vs: seq<Value>)
  {
    forall j :: 0 <= j < |vs| ==> IsScalar(vs[j])
  }

  function CellsOf(vs: seq<Value>): (cs: seq<Cell>)
    requires AllScalar(vs)
    ensures |cs| == |vs|
  {
    seq(|vs|, j requires 0 <= j < |vs| => CellOf(vs[j]))
  }

  /** The row count of a dict of lists: the length of its first list. */
  function ListLength(d: seq<Item>): nat
  {
    if |d| > 0 && d[0].value.List? then |d[0].value.elements| else 0
  }

  /** A dict of equally long lists of scalars: the shape pandas accepts in
      pd.DataFrame(d) without raising. */
  ghost predicate IsColumnDict(d: seq<Item>)
  {
    && IsDict(d)
    && forall i :: 0 <= i < |d| ==>
         d[i].value.List? && |d[i].value.elements| == ListLength(d) && AllScalar(d[i].value.elements)
  }

  /** The key list of a dict names each key once and only its keys. */
  lemma KeyListOrder(d: seq<Item>)
    requires IsDict(d)
    ensures Distinct(KeyList(d))
    ensures forall c :: c in KeyList(d) <==> exists i :: 0 <= i < |d| && d[i].key == c
  {
    var ks := KeyList(d);
    forall c | c in ks ensures exists i :: 0 <= i < |d| && d[i].key == c {
      var i :| 0 <= i < |ks| && ks[i] == c;
      assert d[i].key == c;
    }
    forall c | exists i :: 0 <= i < |d| && d[i].key == c ensures c in ks {
      var i :| 0 <= i < |d| && d[i].key == c;
      assert ks[i] == c;
    }
  }

  /** Items whose keys are listed without repeats form a dict. */
  lemma DistinctKeysIsDict(d: seq<Item>)
    requires Distinct(KeyList(d))
    ensures IsDict(d)
  {
    forall i, j | 0 <= i < j < |d| ensures d[i].key != d[j].key {
      assert KeyList(d)[i] == d[i].key && KeyList(d)[j] == d[j].key;
    }
  }

  /** In a dict built from distinct keys, the i-th key finds the i-th value. */
  lemma ZipGet(keys: seq<string>, vals: seq<Value>, i: nat)
    requires |keys| == |vals| && Distinct(keys) && i < |keys|
    ensures IsDict(Zip(keys, vals))
    ensures Get(Zip(keys, vals), keys[i]) == Some(vals[i])
  {
    DistinctKeysIsDict(Zip(keys, vals));
    GetAt(Zip(keys, vals), i);
  }

  /** The columns named by names, the i-th holding cells[i]. */
  function ColumnMap(names: seq<string>, cells: seq<seq<Cell>>): (m: map<string, seq<Cell>>)
    requires |names| == |cells| && Distinct(names)
    ensures forall c :: c in m <==> c in names
    ensures forall i :: 0 <= i < |names| ==> m[names[i]] == cells[i]
  {
    map i | 0 <= i < |names| :: names[i] := cells[i]
  }

  /** Distinct names over columns of one height make a well-formed table. */
  lemma ColumnTable(ix: Index, names: seq<string>, cells: seq<seq<Cell>>)
    requires |names| == |cells| && Distinct(names)
    requires forall i :: 0 <= i < |cells| ==> |cells[i]| == Size(ix)
    ensures Wf(Table(ix, names, ColumnMap(names, cells)))
  {
    var m := ColumnMap(names, cells);
    forall c | c in m ensures |m[c]| == Size(ix) {
      var i :| 0 <= i < |names| && names[i] == c;
    }
  }

  /** pd.DataFrame(d) for a dict of lists: one column per key in key order,
      and a positional index. */
  function FromDict(d: seq<Item>): (t: Table)
    requires IsColumnDict(d)
    ensures Wf(t)
    ensures t.index == Positions(ListLength(d))
    ensures t.order == KeyList(d)
    ensures forall i :: 0 <= i < |d| ==> d[i].key in t.cols && t.cols[d[i].key] == CellsOf(d[i].value.elements)
  {
    var cells := seq(|d|, i requires 0 <= i < |d| => CellsOf(d[i].value.elements));
    KeyListOrder(d);
    ColumnTable(Positions(ListLength(d)), KeyList(d), cells);
    Table(Positions(ListLength(d)), KeyList(d), ColumnMap(KeyList(d), cells))
  }

  /** The labels of the first inner dict of a dict of dicts. */
  function FirstLabels(d: seq<Item>): seq<string>
  {
    if |d| > 0 && d[0].value.Dict? then KeyList(d[0].value.items) else []
  }

  /** The values of a dict, in key order. */
  function ValueList(d: seq<Item>): (vs: seq<Value>)
    ensures |vs| == |d|
  {
    seq(|d|, i requires 0 <= i < |d| => d[i].value)
  }

  /** A dict of dicts of scalars in which every inner dict has the same keys
      in the same order. */
  ghost predicate IsAlignedDict(d: seq<Item>)
  {
    && IsDict(d)
    && forall i :: 0 <= i < |d| ==>
         && d[i].value.Dict?
         && KeyList(d[i].value.items) == FirstLabels(d)
         && AllScalar(ValueList(d[i].value.items))
  }

  /** pd.DataFrame(d) for a dict of aligned dicts: one column per outer key
      in key order, the inner keys as index labels. */
  function FromNested(d: seq<Item>): (t: Table)
    requires IsAlignedDict(d)
    ensures Wf(t)
    ensures t.index == Labels(FirstLabels(d))
    ensures t.order == KeyList(d)
    ensures forall i :: 0 <= i < |d| ==> d[i].key in t.cols && t.cols[d[i].key] == CellsOf(ValueList(d[i].value.items))
  {
    var cells := seq(|d|, i requires 0 <= i < |d| => CellsOf(ValueList(d[i].value.items)));
    KeyListOrder(d);
    ColumnTable(Labels(FirstLabels(d)), KeyList(d), cells);
    Table(Labels(FirstLabels(d)), KeyList(d), ColumnMap(KeyList(d), cells))
  }

  /** s with every occurrence of x removed, the rest kept in order. */
  function Without(s: seq<string>, x: string): (r: seq<string>)
    ensures forall y :: y in r <==> y in s && y != x
    ensures Distinct(s) ==> Distinct(r)
    decreases |s|
  {
    if |s| == 0 then []
    else if s[0] == x then Without(s[1..], x)
    else
      var rest := Without(s[1..], x);
      assert Distinct(s) ==> Distinct([s[0]] + rest) by {
        if Distinct(s) {
          assert s[0] !in s[1..];
        }
      }
      [s[0]] + rest
  }

  /** Removing the one occurrence of x from a ++ [x] ++ b gives a ++ b. */
  lemma {:induction false} WithoutSplice(a: seq<string>, x: string, b: seq<string>)
    requires x !in a && x !in b
    ensures Without(a + [x] + b, x) == a + b
    decreases |a|
  {
    if |a| == 0 {
      assert a + [x] + b == [x] + b;
      assert ([x] + b)[1..] == b;
      WithoutAbsent(b, x);
    } else {
      assert (a + [x] + b)[1..] == a[1..] + [x] + b;
      WithoutSplice(a[1..], x, b);
      assert a + b == [a[0]] + (a[1..] + b);
    }
  }

  lemma {:induction false} WithoutAbsent(s: seq<string>, x: string)
    requires x !in s
    ensures Without(s, x) == s
    decreases |s|
  {
    if |s| > 0 {
      WithoutAbsent(s[1..], x);
      assert s == [s[0]] + s[1..];
    }
  }

  /** In a sequence without repeats, s[i] occurs neither before nor after
      position i. */
  lemma DistinctAround(s: seq<string>, i: nat)
    requires Distinct(s) && i < |s|
    ensures s == s[..i] + [s[i]] + s[i + 1..]
    ensures s[i] !in s[..i] && s[i] !in s[i + 1..]
  {
    assert s[i] !in s[..i] by {
      forall j | 0 <= j < i ensures s[..i][j] != s[i] { }
    }
    var tail := s[i + 1..];
    assert s[i] !in tail by {
      forall x | x in tail ensures x != s[i] {
        var k :| 0 <= k < |tail| && tail[k] == x;
        assert s[i + 1 + k] == x;
      }
    }
  }

  lemma DroppedOrder(order: seq<string>, name: string)
    requires Distinct(order) && name in order
    ensures exists i :: 0 <= i < |order| && order[i] == name && Without(order, name) == order[..i] + order[i + 1..]
  {
    var i :| 0 <= i < |order| && order[i] == name;
    DistinctAround(order, i);
    WithoutSplice(order[..i], name, order[i + 1..]);
  }

  lemma DroppedWf(t: Table, name: string)
    requires Wf(t)
    ensures Wf(Table(t.index, Without(t.order, name), t.cols - {name}))
  {
  }

  /** df.drop(columns=[name]): the named column is gone, every other column
      is kept unchanged and in its place, and the rows are the same. */
  function Drop(t: Table, name: string): (r: Table)
    requires Wf(t) && name in t.cols
    ensures Wf(r)
    ensures r.index == t.index
    ensures r.cols.Keys == t.cols.Keys - {name}
    ensures forall c :: c in r.cols ==> r.cols[c] == t.cols[c]
    ensures exists i :: 0 <= i < |t.order| && t.order[i] == name && r.order == t.order[..i] + t.order[i + 1..]
  {
    DroppedOrder(t.order, name);
    DroppedWf(t, name);
    Table(t.index, Without(t.order, name), t.cols - {name})
  }
}
