/**
 * File names as `pathlib` reads them, the `RM_*.xlsx` pattern, the river
 * mile embedded in a name, sorted name lists, and symbolic output paths.
 */
module Paths {
  import opened Errors
  import opened Strings
  import PyFloat

  /** `Path(name).suffix`: from the last dot, unless that dot starts or ends the name. */
  function Suffix(name: string): (r: string)
    ensures r == [] || (r[0] == '.' && |r| >= 2)
  {
    var i := RFind(name, '.');
    if 0 < i < |name| - 1 then name[i..] else ""
  }

  /** `Path(name).stem`: the name without its suffix. */
  function Stem(name: string): (r: string)
    ensures |r| <= |name| && r == name[..|r|]
  {
    var i := RFind(name, '.');
    if 0 < i < |name| - 1 then name[..i] else name
  }

  lemma StemThenSuffix(name: string)
    ensures Stem(name) + Suffix(name) == name
  {
  }

  /** A dot inside the suffix is always its first character. */
  lemma SuffixHasOneDot(name: string)
    ensures forall k :: 0 < k < |Suffix(name)| ==> Suffix(name)[k] != '.'
  {
  }

  /**
   * `Path(path).name`: what follows the last `/`. A trailing `/` is not
   * stripped first, so `"a/b/"` gives `""` where Python gives `"b"`; the
   * names this is applied to come from a glob and never end in `/`.
   */
  function FileName(path: string): (r: string)
    ensures '/' !in r
    ensures '/' !in path ==> r == path
    ensures |r| <= |path| && r == path[|path| - |r|..]
  {
    var i := RFind(path, '/');
    path[i + 1..]
  }

  /** `fnmatch(name, "RM_*.xlsx")`, case-sensitively. */
  predicate MatchesRmXlsx(name: string)
  {
    |name| >= 8 && StartsWith(name, "RM_") && EndsWith(name, ".xlsx")
  }

  /** The text after the first `_` and before the second, if there is a first. */
  function SecondToken(s: string): (r: Option<string>)
    ensures r.Some? <==> '_' in s
    ensures r.Some? ==> '_' !in r.value
  {
    var parts := Split(s, '_');
    SplitPiecesLackSep(s, '_');
    if |parts| < 2 then None
    else
      assert parts[1] in parts;
      Some(parts[1])
  }

  /** `float(s.split('_')[1])`, with `None` for both of its failures. */
  function MileOf(s: string): (r: Option<real>)
    ensures r.Some? ==> SecondToken(s).Some? && PyFloat.ParseFloat(SecondToken(s).value) == r
  {
    match SecondToken(s)
    case None => None
    case Some(t) => PyFloat.ParseFloat(t)
  }

  /**
   * `_extract_river_mile`: the number after the first `_` of the file
   * stem; an `IndexError` or a failed parse becomes this `ValueError`.
   */
  function ExtractRiverMile(name: string): (r: Result<real>)
    ensures r.Ok? <==> MileOf(Stem(name)).Some?
    ensures r.Ok? ==> Some(r.value) == MileOf(Stem(name))
    ensures r.Err? ==> r.error == Failure(ValueError, Plain("Invalid river mile file name: " + name))
  {
    match MileOf(Stem(name))
    case Some(rm) => Ok(rm)
    case None => Err(Failure(ValueError, Plain("Invalid river mile file name: " + name)))
  }

  /** A name with a single `_` gives its second part to the parser. */
  lemma MileOfSingleUnderscore(a: string, b: string)
    requires '_' !in a && '_' !in b
    ensures MileOf(a + "_" + b) == PyFloat.ParseFloat(b)
  {
    assert a + "_" + b == a + ['_'] + b;
    SplitOnce(a, '_', b);
    assert Split(a + "_" + b, '_')[1] == b;
  }

  /** `RM_<n>.xlsx` names the river mile `n`. */
  lemma ExtractFromRmName(n: nat)
    ensures MatchesRmXlsx("RM_" + NatToString(n) + ".xlsx")
    ensures ExtractRiverMile("RM_" + NatToString(n) + ".xlsx") == Ok(n as real)
  {
    var d := NatToString(n);
    var head := "RM_" + d;
    var name := head + ".xlsx";
    assert forall i :: 0 <= i < |d| ==> d[i] != '.' && d[i] != '_' by {
      forall i | 0 <= i < |d| ensures d[i] != '.' && d[i] != '_' { assert IsDigit(d[i]); }
    }
    assert name[|head|] == '.';
    var k := RFind(name, '.');
    assert k == |head|;
    assert Stem(name) == head;
    assert head[0] == 'R' && head[1] == 'M' && head[2] == '_';
    assert head[1..][1..] == head[2..];
    assert IndexOf(head[2..], '_') == 0;
    assert IndexOf(head[1..], '_') == 1;
    assert IndexOf(head, '_') == 2;
    assert head[..2] == "RM";
    assert head[3..] == d;
    assert IndexOf(d, '_') == |d|;
    assert Split(d, '_') == [d];
    assert Split(head, '_') == ["RM", d];
    PyFloat.ParseNatToString(n);
    assert name[..3] == "RM_";
    assert name[|name| - 5..] == ".xlsx";
  }

  /** The names sorted ascending, as `sorted` orders strings. */
  function SortNames(names: seq<string>): (r: seq<string>)
    ensures multiset(r) == multiset(names)
    ensures NamesSorted(r)
  {
    if names == [] then []
    else
      assert names == [names[0]] + names[1..];
      InsertName(names[0], SortNames(names[1..]))
  }

  predicate NamesSorted(s: seq<string>)
  {
    forall i, j :: 0 <= i < j < |s| ==> LessEq(s[i], s[j])
  }

  function InsertName(x: string, s: seq<string>): (r: seq<string>)
    requires NamesSorted(s)
    ensures multiset(r) == multiset(s) + multiset{x}
    ensures NamesSorted(r)
  {
    if s == [] then [x]
    else if LessEq(x, s[0]) then
      PrependLeastName(x, s);
      [x] + s
    else
      LessEqTotal(x, s[0]);
      var t := InsertName(x, s[1..]);
      assert s == [s[0]] + s[1..];
      HeadBelowInsertName(x, s, t);
      PrependLeastName(s[0], t);
      [s[0]] + t
  }

  /** Putting a name no greater than every name in front keeps the list sorted. */
  lemma PrependLeastName(x: string, s: seq<string>)
    requires NamesSorted(s)
    requires s != [] ==> LessEq(x, s[0]) || forall y :: y in s ==> LessEq(x, y)
    ensures NamesSorted([x] + s)
  {
    var r := [x] + s;
    forall i, j | 0 <= i < j < |r| ensures LessEq(r[i], r[j]) {
      if i == 0 {
        assert r[j] == s[j - 1] && s[j - 1] in s;
        if j > 1 && !(forall y :: y in s ==> LessEq(x, y)) {
          LessEqTransitive(x, s[0], s[j - 1]);
        }
      }
    }
  }

  lemma HeadBelowInsertName(x: string, s: seq<string>, t: seq<string>)
    requires s != [] && NamesSorted(s) && LessEq(s[0], x)
    requires multiset(t) == multiset(s[1..]) + multiset{x}
    ensures forall y :: y in t ==> LessEq(s[0], y)
  {
    forall y | y in t ensures LessEq(s[0], y) {
      assert y in multiset(t);
      if y != x {
        assert y in multiset(s[1..]);
        var j :| 0 <= j < |s[1..]| && s[1..][j] == y;
        assert s[j + 1] == y;
      }
    }
  }

  lemma {:induction false} LessEqTotal(a: string, b: string)
    ensures LessEq(a, b) || LessEq(b, a)
    decreases |a|
  {
    if a != [] && b != [] && a[0] == b[0] {
      LessEqTotal(a[1..], b[1..]);
    }
  }

  lemma {:induction false} LessEqTransitive(a: string, b: string, c: string)
    requires LessEq(a, b) && LessEq(b, c)
    ensures LessEq(a, c)
    decreases |a|
  {
    if a != [] && b != [] && c != [] && a[0] == b[0] && b[0] == c[0] {
      LessEqTransitive(a[1..], b[1..], c[1..]);
    }
  }

  /**
   * One piece of an output path. Numbers are kept symbolic: `Repr(v)` is
   * Python's `str(v)` and `Fixed1(v)` is `f"{v:.1f}"`.
   */
  datatype Piece = Lit(s: string) | Repr(v: real) | Fixed1(v: real)

  /** A path as the concatenation of its pieces; `/` is written as a literal. */
  type OutPath = seq<Piece>
}
