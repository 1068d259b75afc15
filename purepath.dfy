/**
 * `pathlib` paths on a POSIX system, as values: whether the path starts at
 * the root, and its names below that. Empty and `.` components are
 * dropped, as `pathlib` drops them when it parses a string.
 */
module PurePath {
  import opened Strings
  import opened Frames
  import Paths

  datatype Path = Path(absolute: bool, names: seq<string>)

  /** A component `pathlib` keeps. */
  predicate IsName(s: string)
  {
    s != "" && s != "."
  }

  /** What `pathlib` can hold: proper names without a separator. */
  predicate WellFormed(p: Path)
  {
    forall n :: n in p.names ==> IsName(n) && '/' !in n
  }

  /** `Path(s)` */
  function Parse(s: string): (p: Path)
    ensures WellFormed(p)
    ensures p.absolute <==> StartsWith(s, "/")
    ensures forall n :: n in p.names <==> n in Split(s, '/') && IsName(n)
  {
    SplitPiecesLackSep(s, '/');
    Path(StartsWith(s, "/"), Filter(Split(s, '/'), IsName))
  }

  /** `p.name`: the last name, or `""` for the root and for `.`. */
  function Name(p: Path): (r: string)
    ensures p.names != [] ==> r == p.names[|p.names| - 1]
    ensures p.names == [] ==> r == ""
  {
    if p.names == [] then "" else p.names[|p.names| - 1]
  }

  /** `p.parent`: one name fewer; the root and `.` are their own parents. */
  function Parent(p: Path): (r: Path)
    ensures r.absolute == p.absolute
    ensures p.names != [] ==> r.names + [Name(p)] == p.names
    ensures p.names == [] ==> r == p
    ensures WellFormed(p) ==> WellFormed(r)
  {
    if p.names == [] then p else Path(p.absolute, p.names[..|p.names| - 1])
  }

  /** `p / rel`: an absolute `rel` replaces `p`, a relative one is appended. */
  function Div(p: Path, rel: string): (r: Path)
    ensures StartsWith(rel, "/") ==> r == Parse(rel)
    ensures !StartsWith(rel, "/") ==> r.absolute == p.absolute && p.names <= r.names
    ensures WellFormed(p) ==> WellFormed(r)
  {
    if StartsWith(rel, "/") then Parse(rel)
    else Path(p.absolute, p.names + Parse(rel).names)
  }

  /** `p / n` for a single name `n`, as `DivName` shows. */
  function Child(p: Path, n: string): (r: Path)
    ensures Parent(r) == p && Name(r) == n
  {
    assert (p.names + [n])[..|p.names|] == p.names;
    Path(p.absolute, p.names + [n])
  }

  /** `str(p)` */
  function Str(p: Path): (s: string)
    ensures WellFormed(p) ==> s != [] && (StartsWith(s, "/") <==> p.absolute)
  {
    if p.absolute then "/" + Join("/", p.names)
    else if p.names == [] then
      assert "."[..1][0] == '.';
      "."
    else
      var j := Join("/", p.names);
      assert WellFormed(p) ==> j != [] && j[0] != '/' by {
        if WellFormed(p) {
          assert p.names[0] in p.names;
          JoinHead(p.names);
          assert j[0] == p.names[0][0];
          assert p.names[0][0] in p.names[0];
        }
      }
      j
  }

  /** `p.suffix` */
  function Suffix(p: Path): string
  {
    Paths.Suffix(Name(p))
  }

  /** `p.stem` */
  function Stem(p: Path): string
  {
    Paths.Stem(Name(p))
  }

  /** A single name parses as the relative path of that name. */
  lemma ParseName(n: string)
    requires IsName(n) && '/' !in n
    ensures Parse(n) == Path(false, [n])
  {
    assert IndexOf(n, '/') == |n|;
    assert Split(n, '/') == [n];
    FilterAll([n], IsName);
    assert n[0] in n;
  }

  /** Joining a single name gives a path whose name it is and whose parent is the original. */
  lemma DivName(p: Path, n: string)
    requires IsName(n) && '/' !in n
    ensures Div(p, n) == Child(p, n)
  {
    ParseName(n);
    assert n[0] in n;
  }

  /** `p / "x/y"` is `p / "x" / "y"`. */
  lemma DivTwo(p: Path, x: string, y: string)
    requires IsName(x) && '/' !in x && IsName(y) && '/' !in y
    ensures Div(p, x + "/" + y) == Child(Child(p, x), y)
  {
    var s := x + "/" + y;
    assert s == x + ['/'] + y;
    SplitOnce(x, '/', y);
    assert s[0] == x[0] && x[0] in x;
    FilterAll([x, y], IsName);
    assert p.names + [x, y] == p.names + [x] + [y];
  }

  /** The first piece of a join is its first part. */
  lemma JoinHead(parts: seq<string>)
    requires parts != []
    ensures |parts[0]| <= |Join("/", parts)| && Join("/", parts)[..|parts[0]|] == parts[0]
  {
    if |parts| > 1 {
      assert Join("/", parts) == parts[0] + ("/" + Join("/", parts[1..]));
    }
  }

  /** Joining names without separators and splitting again gives them back. */
  lemma {:induction false} SplitJoin(parts: seq<string>)
    requires parts != [] && forall n :: n in parts ==> '/' !in n
    ensures Split(Join("/", parts), '/') == parts
  {
    assert parts[0] in parts;
    if |parts| == 1 {
      assert IndexOf(parts[0], '/') == |parts[0]|;
    } else {
      var rest := parts[1..];
      assert forall n :: n in rest ==> n in parts;
      SplitJoin(rest);
      var j := Join("/", rest);
      assert Join("/", parts) == parts[0] + ['/'] + j;
      IndexOfAfter(parts[0], '/', j);
      var s := parts[0] + ['/'] + j;
      assert s[..|parts[0]|] == parts[0] && s[|parts[0]| + 1..] == j;
      assert parts == [parts[0]] + rest;
    }
  }

  /** Printing a path and parsing the text gives the same path back. */
  lemma ParseStr(p: Path)
    requires WellFormed(p)
    ensures Parse(Str(p)) == p
  {
    if p.absolute && p.names == [] {
      ParseStrRoot(p);
    } else if p.absolute {
      ParseStrAbsolute(p);
    } else if p.names == [] {
      ParseStrDot(p);
    } else {
      SplitJoin(p.names);
      FilterAll(p.names, IsName);
    }
  }

  lemma ParseStrRoot(p: Path)
    requires p.absolute && p.names == []
    ensures Parse(Str(p)) == p
  {
    var s := Str(p);
    assert s == ['/'] + [] + [];
    assert Split(s, '/') == [[], []] by {
      assert IndexOf(s, '/') == 0;
      assert s[1..] == [];
    }
    assert Filter(Split(s, '/'), IsName) == [] by {
      FilterNone(Split(s, '/'), IsName);
    }
  }

  lemma ParseStrAbsolute(p: Path)
    requires WellFormed(p) && p.absolute && p.names != []
    ensures Parse(Str(p)) == p
  {
    var s := Str(p);
    var j := Join("/", p.names);
    SplitJoin(p.names);
    assert s == [] + ['/'] + j;
    IndexOfAfter([], '/', j);
    assert s[1..] == j;
    assert Split(s, '/') == [[]] + p.names;
    FilterCons([], p.names, IsName);
    FilterAll(p.names, IsName);
  }

  lemma ParseStrDot(p: Path)
    requires !p.absolute && p.names == []
    ensures Parse(Str(p)) == p
  {
    assert Split(".", '/') == ["."] by {
      assert IndexOf(".", '/') == 1;
    }
    FilterNone(["."], IsName);
  }
}
