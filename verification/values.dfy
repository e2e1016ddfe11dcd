/** Python values as the adapters see them: parsed JSON responses, query
    payload values and metadata dicts. A dict is the sequence of its items
    in insertion order, as Python 3.7+ keeps it. */
module Values {

  datatype Option<+T> = None | Some(value: T)

  datatype Value =
    | Null
    | Bool(b: bool)
    | Int(i: int)
    | Num(x: real)
    | Str(s: string)
    | List(elements: seq<Value>)
    | Dict(items: seq<Item>)

  /** No element is listed twice. */
  predicate Distinct<T(==)>(s: seq<T>)
  {
    forall i, j :: 0 <= i < j < |s| ==> s[i] != s[j]
  }

  /** One key/value pair of a dict. */
  datatype Item = Item(key: string, value: Value)

  /** The keys of a dict, in insertion order. */
  function KeyList(d: seq<Item>): seq<string>
  {
    seq(|d|, i requires 0 <= i < |d| => d[i].key)
  }

  function Keys(d: seq<Item>): set<string>
  {
    set i | 0 <= i < |d| :: d[i].key
  }

  /** No key occurs twice: true of every Python dict. */
  predicate IsDict(d: seq<Item>)
  {
    forall i, j :: 0 <= i < j < |d| ==> d[i].key != d[j].key
  }

  lemma KeysOfTail(d: seq<Item>)
    requires |d| > 0
    ensures Keys(d) == {d[0].key} + Keys(d[1..])
  {
    forall k | k in Keys(d) ensures k in {d[0].key} + Keys(d[1..]) {
      var i :| 0 <= i < |d| && d[i].key == k;
      if i > 0 {
        assert d[1..][i - 1].key == k;
      }
    }
    forall k | k in Keys(d[1..]) ensures k in Keys(d) {
      var i :| 0 <= i < |d[1..]| && d[1..][i].key == k;
      assert d[i + 1].key == k;
    }
  }

  /** d[k] when k is a key of d; None where Python raises KeyError. */
  function Get(d: seq<Item>, k: string): (r: Option<Value>)
    ensures r.Some? <==> k in Keys(d)
    ensures r.Some? ==> exists i :: 0 <= i < |d| && d[i] == Item(k, r.value)
    ensures IsDict(d) ==> forall i :: 0 <= i < |d| && d[i].key == k ==> r == Some(d[i].value)
    decreases |d|
  {
    if |d| == 0 then None
    else
      KeysOfTail(d);
      if d[0].key == k then Some(d[0].value)
      else
        var r := Get(d[1..], k);
        assert IsDict(d) ==> IsDict(d[1..]);
        assert r.Some? ==> exists i :: 0 <= i < |d| && d[i] == Item(k, r.value) by {
          if r.Some? {
            var i :| 0 <= i < |d[1..]| && d[1..][i] == Item(k, r.value);
            assert d[i + 1] == Item(k, r.value);
          }
        }
        r
  }

  /** Looking up a key in a dict with one more item in front. */
  lemma GetCons(x: Item, rest: seq<Item>, k: string)
    ensures Get([x] + rest, k) == if x.key == k then Some(x.value) else Get(rest, k)
  {
    assert ([x] + rest)[1..] == rest;
  }

  /** The dict built from a key list and a value list of the same length,
      as a dict display writes it. */
  function Zip(keys: seq<string>, vals: seq<Value>): (d: seq<Item>)
    requires |keys| == |vals|
    ensures KeyList(d) == keys
    ensures forall i :: 0 <= i < |d| ==> d[i] == Item(keys[i], vals[i])
  {
    seq(|keys|, i requires 0 <= i < |keys| => Item(keys[i], vals[i]))
  }

  /** In a dict, looking up the key of an item finds that item's value. */
  lemma GetAt(d: seq<Item>, i: nat)
    requires IsDict(d) && i < |d|
    ensures Get(d, d[i].key) == Some(d[i].value)
  {
  }

  /** Keeping the first item of a dict in front of items drawn from the rest
      of it gives a dict again. */
  lemma ConsIsDict(d: seq<Item>, rest: seq<Item>)
    requires IsDict(d) && |d| > 0 && IsDict(rest)
    requires forall i :: 0 <= i < |rest| ==> rest[i] in d[1..]
    ensures IsDict([d[0]] + rest)
  {
    var r := [d[0]] + rest;
    forall i, j | 0 <= i < j < |r| ensures r[i].key != r[j].key {
      if i == 0 {
        assert r[j] == rest[j - 1];
        var m :| 0 <= m < |d[1..]| && d[1..][m] == r[j];
        assert d[m + 1] == r[j];
      }
    }
  }

  /** The dict left behind by d.pop(k): the item for k removed, the others
      kept in their order. */
  function Remove(d: seq<Item>, k: string): (r: seq<Item>)
    ensures Keys(r) == Keys(d) - {k}
    ensures forall j :: j != k ==> Get(r, j) == Get(d, j)
    ensures IsDict(d) ==> IsDict(r)
    ensures forall i :: 0 <= i < |r| ==> r[i] in d
    decreases |d|
  {
    if |d| == 0 then []
    else
      KeysOfTail(d);
      var rest := Remove(d[1..], k);
      if d[0].key == k then rest
      else
        var r := [d[0]] + rest;
        assert r[1..] == rest;
        KeysOfTail(r);
        assert IsDict(d) ==> IsDict(r) by {
          if IsDict(d) {
            ConsIsDict(d, rest);
          }
        }
        r
  }

  /** Cutting item i out of d, seen from d's tail. */
  lemma CutShift(d: seq<Item>, i: nat)
    requires i + 1 < |d|
    ensures [d[0]] + (d[1..][..i] + d[1..][i + 1..]) == d[..i + 1] + d[i + 2..]
  {
    assert d[..i + 1] == [d[0]] + d[1..][..i];
    assert d[i + 2..] == d[1..][i + 1..];
  }

  /** Popping a key that no item has changes nothing. */
  lemma {:induction false} RemoveAbsent(d: seq<Item>, k: string)
    requires forall i :: 0 <= i < |d| ==> d[i].key != k
    ensures Remove(d, k) == d
    decreases |d|
  {
    if |d| > 0 {
      RemoveAbsent(d[1..], k);
    }
  }

  /** pop keeps the order of the other items: in a dict, popping the key of
      item i cuts exactly that item out. */
  lemma {:induction false} RemoveAt(d: seq<Item>, k: string, i: nat)
    requires IsDict(d) && i < |d| && d[i].key == k
    ensures Remove(d, k) == d[..i] + d[i + 1..]
    decreases i
  {
    KeysOfTail(d);
    if i == 0 {
      assert forall j :: 0 <= j < |d[1..]| ==> d[1..][j].key != k;
      RemoveAbsent(d[1..], k);
    } else {
      assert d[0].key != k;
      assert d[1..][i - 1] == d[i];
      RemoveAt(d[1..], k, i - 1);
      CutShift(d, i - 1);
    }
  }

  /** In a dict, the first key occurs nowhere in the rest. */
  lemma HeadKeyFresh(d: seq<Item>)
    requires IsDict(d) && |d| > 0
    ensures d[0].key !in Keys(d[1..])
  {
    forall k | k in Keys(d[1..]) ensures k != d[0].key {
      var i :| 0 <= i < |d[1..]| && d[1..][i].key == k;
      assert d[i + 1].key == k;
    }
  }

  /** A dict with an item of a fresh key in front is a dict. */
  lemma FreshKeyIsDict(x: Item, rest: seq<Item>)
    requires IsDict(rest) && x.key !in Keys(rest)
    ensures IsDict([x] + rest)
  {
    var r := [x] + rest;
    forall i, j | 0 <= i < j < |r| ensures r[i].key != r[j].key {
      assert r[j] == rest[j - 1];
      if i > 0 {
        assert r[i] == rest[i - 1];
      }
    }
  }

  /** Set algebra for one step of Restrict. */
  lemma KeysStep(k: string, tail: set<string>, ks: set<string>)
    ensures k !in ks ==> ({k} + tail) * ks == tail * ks
    ensures k in ks ==> ({k} + tail) * ks == {k} + tail * ks
  {
  }

  /** The items of d whose key is in ks, in their order in d. */
  function Restrict(d: seq<Item>, ks: set<string>): (r: seq<Item>)
    ensures Keys(r) == Keys(d) * ks
    ensures forall j :: j in ks ==> Get(r, j) == Get(d, j)
    ensures IsDict(d) ==> IsDict(r)
    decreases |d|
  {
    if |d| == 0 then []
    else
      KeysOfTail(d);
      var rest := Restrict(d[1..], ks);
      KeysStep(d[0].key, Keys(d[1..]), ks);
      if d[0].key !in ks then rest
      else
        var r := [d[0]] + rest;
        assert r[1..] == rest;
        KeysOfTail(r);
        assert forall j :: Get(r, j) == if d[0].key == j then Some(d[0].value) else Get(rest, j) by {
          forall j { GetCons(d[0], rest, j); }
        }
        assert IsDict(d) ==> IsDict(r) by {
          if IsDict(d) {
            HeadKeyFresh(d);
            FreshKeyIsDict(d[0], rest);
          }
        }
        r
  }
}
