/** The Python string operations the adapters use: `sep.join`, `str.split`,
    `str.find` and single-character `str.replace`. */
module Text {
  import opened Values

  /** The total length of the parts. */
  function TotalLength(parts: seq<string>): nat
    decreases |parts|
  {
    if |parts| == 0 then 0 else |parts[0]| + TotalLength(parts[1..])
  }

  /** sep.join(parts): the parts in order with sep between each two, so the
      first part begins the result. */
  function Join(parts: seq<string>, sep: string): (r: string)
    ensures |parts| == 0 ==> r == ""
    ensures |parts| > 0 ==> |r| == TotalLength(parts) + (|parts| - 1) * |sep|
    ensures |parts| > 0 ==> |parts[0]| <= |r| && r[..|parts[0]|] == parts[0]
    decreases |parts|
  {
    if |parts| == 0 then ""
    else if |parts| == 1 then parts[0]
    else
      assert (|parts| - 1) * |sep| == (|parts| - 2) * |sep| + |sep|;
      parts[0] + sep + Join(parts[1..], sep)
  }

  /** Whether pat occurs in s starting at position i. */
  predicate OccursAt(s: string, pat: string, i: int)
  {
    0 <= i && i + |pat| <= |s| && s[i..i + |pat|] == pat
  }

  /** pat in s */
  predicate Contains(s: string, pat: string)
  {
    exists i :: 0 <= i <= |s| - |pat| && OccursAt(s, pat, i)
  }

  /** s.find(pat, from): the first occurrence of pat at or after from;
      None where Python returns -1. */
  function FindFrom(s: string, pat: string, from: nat): (r: Option<nat>)
    ensures r.Some? ==> from <= r.value && OccursAt(s, pat, r.value)
    ensures r.Some? ==> forall j :: from <= j < r.value ==> !OccursAt(s, pat, j)
    ensures r.None? ==> forall j :: from <= j ==> !OccursAt(s, pat, j)
    decreases |s| - from
  {
    if from + |pat| > |s| then None
    else if OccursAt(s, pat, from) then Some(from)
    else FindFrom(s, pat, from + 1)
  }

  /** s.find(pat) */
  function Find(s: string, pat: string): (r: Option<nat>)
    ensures r.Some? ==> OccursAt(s, pat, r.value)
    ensures r.Some? ==> forall j :: 0 <= j < r.value ==> !OccursAt(s, pat, j)
    ensures r.None? ==> forall j :: 0 <= j ==> !OccursAt(s, pat, j)
  {
    FindFrom(s, pat, 0)
  }

  /** If pat occurs at position p of s and nowhere before it, s.find(pat) is p. */
  lemma FindFirst(s: string, pat: string, p: nat)
    requires OccursAt(s, pat, p)
    requires forall j :: 0 <= j < p ==> !OccursAt(s, pat, j)
    ensures Find(s, pat) == Some(p)
  {
    var r := Find(s, pat);
    assert r.Some?;
    assert !(r.value < p);
    assert !(r.value > p);
  }

  /** s.split(sep): the pieces of s between the non-overlapping occurrences
      of sep, found left to right. */
  function Split(s: string, sep: string): (parts: seq<string>)
    requires |sep| > 0
    ensures |parts| >= 1
    decreases |s|
  {
    match Find(s, sep)
    case None => [s]
    case Some(i) => [s[..i]] + Split(s[i + |sep|..], sep)
  }

  /** No piece of a split contains the separator. */
  lemma {:induction false} SplitPiecesClean(s: string, sep: string)
    requires |sep| > 0
    ensures forall i :: 0 <= i < |Split(s, sep)| ==> !Contains(Split(s, sep)[i], sep)
    decreases |s|
  {
    match Find(s, sep)
    case None =>
      assert Split(s, sep) == [s];
      assert !Contains(s, sep) by {
        forall j | 0 <= j <= |s| - |sep| ensures !OccursAt(s, sep, j) { }
      }
    case Some(i) =>
      var first := s[..i];
      var rest := s[i + |sep|..];
      assert Split(s, sep) == [first] + Split(rest, sep);
      assert !Contains(first, sep) by {
        forall j | 0 <= j <= |first| - |sep| ensures !OccursAt(first, sep, j) {
          assert first[j..j + |sep|] == s[j..j + |sep|];
          assert !OccursAt(s, sep, j);
        }
      }
      SplitPiecesClean(rest, sep);
  }

  lemma JoinCons(first: string, tail: seq<string>, sep: string)
    requires |tail| >= 1
    ensures Join([first] + tail, sep) == first + sep + Join(tail, sep)
  {
    assert ([first] + tail)[1..] == tail;
  }

  /** Joining the pieces of a split with its separator gives back the
      original string. */
  lemma {:induction false} JoinSplit(s: string, sep: string)
    requires |sep| > 0
    ensures Join(Split(s, sep), sep) == s
    decreases |s|
  {
    var f := Find(s, sep);
    if f.None? {
      assert Split(s, sep) == [s];
    } else {
      var i := f.value;
      var rest := s[i + |sep|..];
      SplitStep(s, sep, i);
      JoinSplit(rest, sep);
      JoinCons(s[..i], Split(rest, sep), sep);
    }
  }

  /** One step of a split at the first occurrence i of sep. */
  lemma SplitStep(s: string, sep: string, i: nat)
    requires |sep| > 0 && Find(s, sep) == Some(i)
    ensures i + |sep| <= |s|
    ensures Split(s, sep) == [s[..i]] + Split(s[i + |sep|..], sep)
    ensures s == s[..i] + sep + s[i + |sep|..]
  {
    assert OccursAt(s, sep, i);
    assert s == s[..i] + s[i..i + |sep|] + s[i + |sep|..];
  }

  /** Splitting a c-joined list on c gives back the list, provided no item
      contains c and the list is not empty (",".join([]) splits to [""]). */
  lemma {:induction false} SplitJoin(parts: seq<string>, c: char)
    requires |parts| >= 1
    requires forall i :: 0 <= i < |parts| ==> c !in parts[i]
    ensures Split(Join(parts, [c]), [c]) == parts
    decreases |parts|
  {
    if |parts| == 1 {
      SplitAbsent(parts[0], c);
    } else {
      var p := parts[0];
      assert Join(parts, [c]) == p + [c] + Join(parts[1..], [c]);
      SplitAfterFirst(p, c, Join(parts[1..], [c]));
      SplitJoin(parts[1..], c);
      assert parts == [p] + parts[1..];
    }
  }

  /** A string without c does not split on c. */
  lemma SplitAbsent(s: string, c: char)
    requires c !in s
    ensures Split(s, [c]) == [s]
  {
    forall j | 0 <= j < |s| ensures !OccursAt(s, [c], j) {
      assert s[j..j + 1][0] == s[j] != c;
    }
    assert Find(s, [c]).None?;
  }

  /** If c is not in p, splitting p + c + tail on c gives p and then the
      pieces of tail. */
  lemma SplitAfterFirst(p: string, c: char, tail: string)
    requires c !in p
    ensures Split(p + [c] + tail, [c]) == [p] + Split(tail, [c])
  {
    var s := p + [c] + tail;
    assert OccursAt(s, [c], |p|);
    forall j | 0 <= j < |p| ensures !OccursAt(s, [c], j) {
      assert s[j..j + 1][0] == s[j] == p[j] != c;
    }
    FindFirst(s, [c], |p|);
    assert s[..|p|] == p;
    assert s[|p| + 1..] == tail;
  }

  /** If sep's first character occurs neither in pre nor in v,
      (pre + sep + v).split(sep) is [pre, v]. */
  lemma PiecesAround(pre: string, sep: string, v: string)
    requires |sep| > 0
    requires sep[0] !in pre && sep[0] !in v
    ensures Split(pre + sep + v, sep) == [pre, v]
  {
    var s := pre + sep + v;
    assert s[|pre|..|pre| + |sep|] == sep;
    forall j | 0 <= j < |pre| ensures !OccursAt(s, sep, j) {
      assert s[j..j + |sep|][0] == s[j] == pre[j] != sep[0];
    }
    FindFirst(s, sep, |pre|);
    assert s[..|pre|] == pre;
    assert s[|pre| + |sep|..] == v;
    assert Split(s, sep) == [pre] + Split(v, sep);
    forall j | 0 <= j <= |v| - |sep| ensures !OccursAt(v, sep, j) {
      assert v[j..j + |sep|][0] == v[j] != sep[0];
    }
    assert Find(v, sep).None?;
    assert Split(v, sep) == [v];
  }

  /** If a has no occurrence of sep, not even one running into a following
      sep, then a is the first piece of (a + sep + b).split(sep). */
  lemma FirstPiece(a: string, sep: string, b: string)
    requires |sep| > 0
    requires forall j :: 0 <= j < |a| ==> !OccursAt(a + sep, sep, j)
    ensures Split(a + sep + b, sep)[0] == a
  {
    var s := a + sep + b;
    assert s[|a|..|a| + |sep|] == sep;
    forall j | 0 <= j < |a| ensures !OccursAt(s, sep, j) {
      assert !OccursAt(a + sep, sep, j);
      assert j + |sep| <= |a + sep|;
      assert s[j..j + |sep|] == (a + sep)[j..j + |sep|];
    }
    FindFirst(s, sep, |a|);
    assert s[..|a|] == a;
  }

  /** s.replace(a, b) for single characters a and b. */
  function ReplaceChar(s: string, a: char, b: char): (r: string)
    ensures |r| == |s|
    ensures forall i :: 0 <= i < |s| ==> r[i] == (if s[i] == a then b else s[i])
  {
    seq(|s|, i requires 0 <= i < |s| => if s[i] == a then b else s[i])
  }

  /** Replacing a by b and then b by a restores s when b did not occur in it. */
  lemma ReplaceCharBack(s: string, a: char, b: char)
    requires b !in s
    ensures ReplaceChar(ReplaceChar(s, a, b), b, a) == s
  {
    var t := ReplaceChar(ReplaceChar(s, a, b), b, a);
    forall i | 0 <= i < |s| ensures t[i] == s[i] {
      assert s[i] != b;
    }
  }

  /** s.replace(c, ""): s with every c deleted, the other characters kept
      in order. */
  function DeleteChar(s: string, c: char): (r: string)
    ensures c !in r
    ensures |r| <= |s|
    decreases |s|
  {
    if |s| == 0 then ""
    else (if s[0] == c then "" else [s[0]]) + DeleteChar(s[1..], c)
  }

  /** Deleting c keeps every other character as often as it occurs, and
      removes every c. */
  lemma {:induction false} DeleteCharCounts(s: string, c: char)
    ensures multiset(DeleteChar(s, c)) == multiset(s)[c := 0]
    decreases |s|
  {
    if |s| > 0 {
      DeleteCharCounts(s[1..], c);
      assert s == [s[0]] + s[1..];
    }
  }

  /** Deleting a character that does not occur changes nothing. */
  lemma {:induction false} DeleteAbsentChar(s: string, c: char)
    requires c !in s
    ensures DeleteChar(s, c) == s
    decreases |s|
  {
    if |s| > 0 {
      DeleteAbsentChar(s[1..], c);
      assert s == [s[0]] + s[1..];
    }
  }

  /** Deleting distributes over concatenation. */
  lemma {:induction false} DeleteCharAppend(s: string, t: string, c: char)
    ensures DeleteChar(s + t, c) == DeleteChar(s, c) + DeleteChar(t, c)
    decreases |s|
  {
    if |s| == 0 {
      assert s + t == t;
    } else {
      var h: string := if s[0] == c then "" else [s[0]];
      assert (s + t)[0] == s[0] && (s + t)[1..] == s[1..] + t;
      assert DeleteChar(s + t, c) == h + DeleteChar(s[1..] + t, c);
      assert DeleteChar(s, c) == h + DeleteChar(s[1..], c);
      DeleteCharAppend(s[1..], t, c);
      assert h + (DeleteChar(s[1..], c) + DeleteChar(t, c)) == (h + DeleteChar(s[1..], c)) + DeleteChar(t, c);
    }
  }

  /** Deleting a character is idempotent. */
  lemma DeleteCharIdempotent(s: string, c: char)
    ensures DeleteChar(DeleteChar(s, c), c) == DeleteChar(s, c)
  {
    DeleteAbsentChar(DeleteChar(s, c), c);
  }
}
