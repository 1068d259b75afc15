/**
 * In-memory tables in the shape pandas gives them after `read_excel`:
 * a column list and a sequence of rows, each row a map from column name to
 * cell. A row that lacks a column reads as a missing value.
 */
module Frames {
  import opened Errors
  import PyFloat
  import Strings
  import Paths

  /** One spreadsheet cell: empty (NaN), a finite number, an infinity or text. */
  datatype Cell = Missing | Num(v: real) | PosInf | NegInf | Text(s: string)

  type Row = map<string, Cell>

  datatype Frame = Frame(columns: seq<string>, rows: seq<Row>)

  const TimeSeconds := "Time (Seconds)"
  const TimeMinutes := "Time (Minutes)"
  const YearCol := "Year"
  const HydroCol := "Hydrograph (Lagged)"

  function Get(r: Row, c: string): Cell
  {
    if c in r then r[c] else Missing
  }

  function Column(rows: seq<Row>, c: string): (col: seq<Cell>)
    ensures |col| == |rows|
    ensures forall i :: 0 <= i < |rows| ==> col[i] == Get(rows[i], c)
  {
    if rows == [] then [] else [Get(rows[0], c)] + Column(rows[1..], c)
  }

  /** `pd.to_numeric(x, errors='coerce')` on one cell. */
  function ToNumeric(c: Cell): (r: Cell)
    ensures !r.Text?
    ensures !c.Text? ==> r == c
  {
    match c
    case Text(s) => (if PyFloat.ParseFloat(s).Some? then Num(PyFloat.ParseFloat(s).value) else Missing)
    case _ => c
  }

  /** One row with its `col` entry coerced to a number. */
  function CoercedRow(x: Row, col: string): Row
  {
    x[col := ToNumeric(Get(x, col))]
  }

  /** `df[col] = pd.to_numeric(df[col], errors='coerce')` */
  function Coerced(rows: seq<Row>, col: string): (r: seq<Row>)
    ensures |r| == |rows|
    ensures forall i :: 0 <= i < |rows| ==> r[i] == CoercedRow(rows[i], col)
    ensures forall z :: z in r <==> exists y :: y in rows && z == CoercedRow(y, col)
  {
    var r := seq(|rows|, i requires 0 <= i < |rows| => CoercedRow(rows[i], col));
    assert forall z :: z in r <==> exists y :: y in rows && z == CoercedRow(y, col) by {
      forall z ensures z in r <==> exists y :: y in rows && z == CoercedRow(y, col) {
        if z in r {
          var i :| 0 <= i < |r| && r[i] == z;
          assert rows[i] in rows;
        }
        if exists y :: y in rows && z == CoercedRow(y, col) {
          var y :| y in rows && z == CoercedRow(y, col);
          var i :| 0 <= i < |rows| && rows[i] == y;
          assert r[i] == z;
        }
      }
    }
    r
  }

  /** `x > 0` and finite: what every numeric filter of the pipeline keeps. */
  predicate PositiveFinite(c: Cell)
  {
    c.Num? && c.v > 0.0
  }

  /** `notna() & (x != 0)` */
  predicate NonNullNonZero(c: Cell)
  {
    !c.Missing? && c != Num(0.0)
  }

  /** pandas `==` between a column entry and a value: NaN equals nothing. */
  predicate CellEquals(a: Cell, b: Cell)
  {
    !a.Missing? && a == b
  }

  /** No row holds text in `col`. */
  predicate NoText(rows: seq<Row>, col: string)
  {
    forall x :: x in rows ==> !Get(x, col).Text?
  }

  lemma NoTextColumn(rows: seq<Row>, col: string)
    ensures NoText(rows, col) <==> !AnyText(Column(rows, col))
  {
    if !NoText(rows, col) {
      var x :| x in rows && Get(x, col).Text?;
      var i :| 0 <= i < |rows| && rows[i] == x;
      assert Column(rows, col)[i].Text?;
    }
  }

  /** `t / d` on one cell: infinities keep their sign and NaN stays NaN. */
  function Divided(t: Cell, d: real): (r: Cell)
    requires !t.Text? && d > 0.0
    ensures t.Num? ==> r == Num(t.v / d)
    ensures !t.Num? ==> r == t
  {
    if t.Num? then Num(t.v / d) else t
  }

  predicate AnyText(col: seq<Cell>)
  {
    exists i :: 0 <= i < |col| && col[i].Text?
  }

  function Filter<T(!new)>(s: seq<T>, p: T -> bool): (r: seq<T>)
    ensures |r| <= |s|
    ensures forall x :: x in r <==> x in s && p(x)
  {
    if s == [] then []
    else
      assert s == [s[0]] + s[1..];
      (if p(s[0]) then [s[0]] else []) + Filter(s[1..], p)
  }

  function Count<T>(s: seq<T>, p: T -> bool): (n: nat)
    ensures n <= |s|
  {
    if s == [] then 0 else (if p(s[0]) then 1 else 0) + Count(s[1..], p)
  }

  lemma {:induction false} FilterCount<T(!new)>(s: seq<T>, p: T -> bool)
    ensures |Filter(s, p)| == Count(s, p)
  {
    if s != [] {
      FilterCount(s[1..], p);
    }
  }

  lemma {:induction false} CountSplit<T>(s: seq<T>, p: T -> bool, q: T -> bool)
    requires forall x :: x in s ==> !(p(x) && q(x))
    ensures Count(s, p) + Count(s, q) + Count(s, x => !p(x) && !q(x)) == |s|
  {
    if s != [] {
      CountSplit(s[1..], p, q);
    }
  }

  lemma {:induction false} CountSame<T>(s: seq<T>, p: T -> bool, q: T -> bool)
    requires forall x :: x in s ==> p(x) == q(x)
    ensures Count(s, p) == Count(s, q)
  {
    if s != [] {
      assert s[0] in s;
      CountSame(s[1..], p, q);
    }
  }

  /** A count is positive once one element satisfies the predicate. */
  lemma {:induction false} CountPositive<T>(xs: seq<T>, p: T -> bool, x: T)
    requires x in xs && p(x)
    ensures Count(xs, p) > 0
  {
    if xs[0] != x {
      CountPositive(xs[1..], p, x);
    }
  }

  /** A count is zero when no element satisfies the predicate. */
  lemma {:induction false} CountNone<T>(xs: seq<T>, p: T -> bool)
    requires forall x :: x in xs ==> !p(x)
    ensures Count(xs, p) == 0
  {
    if xs != [] {
      assert xs[0] in xs;
      assert forall x :: x in xs[1..] ==> x in xs;
      CountNone(xs[1..], p);
    }
  }

  lemma {:induction false} CountConcat<T>(s: seq<T>, t: seq<T>, p: T -> bool)
    ensures Count(s + t, p) == Count(s, p) + Count(t, p)
  {
    if s == [] {
      assert s + t == t;
    } else {
      assert (s + t)[0] == s[0];
      assert (s + t)[1..] == s[1..] + t;
      CountConcat(s[1..], t, p);
    }
  }

  /** Reordering a sequence does not change how many of its elements satisfy `p`. */
  lemma {:induction false} CountPermutation<T>(a: seq<T>, b: seq<T>, p: T -> bool)
    requires multiset(a) == multiset(b)
    ensures Count(a, p) == Count(b, p)
    decreases |a|
  {
    if a == [] {
      assert |multiset(b)| == 0;
    } else {
      var x := a[0];
      assert x in multiset(b);
      var k :| 0 <= k < |b| && b[k] == x;
      var rest := b[..k] + b[k + 1..];
      assert b == b[..k] + [x] + b[k + 1..];
      assert a == [x] + a[1..];
      calc {
        multiset(rest);
        multiset(b[..k]) + multiset(b[k + 1..]);
        multiset(b) - multiset{x};
        multiset(a) - multiset{x};
        multiset(a[1..]);
      }
      CountPermutation(a[1..], rest, p);
      CountConcat(b[..k] + [x], b[k + 1..], p);
      CountConcat(b[..k], [x], p);
      CountConcat(b[..k], b[k + 1..], p);
    }
  }

  /** `a` is obtained from `b` by deleting elements. */
  predicate SubsequenceOf<T(==)>(a: seq<T>, b: seq<T>)
    decreases |b|
  {
    a == [] || (b != [] && ((a[0] == b[0] && SubsequenceOf(a[1..], b[1..])) || SubsequenceOf(a, b[1..])))
  }

  lemma {:induction false} FilterSubsequence<T(!new)>(s: seq<T>, p: T -> bool)
    ensures SubsequenceOf(Filter(s, p), s)
  {
    if s != [] {
      FilterSubsequence(s[1..], p);
      var r, t := Filter(s, p), Filter(s[1..], p);
      if p(s[0]) {
        assert r == [s[0]] + t;
        assert r[0] == s[0] && r[1..] == t;
      } else {
        assert r == t;
      }
    }
  }

  lemma {:induction false} FilterIdempotent<T(!new)>(s: seq<T>, p: T -> bool)
    ensures Filter(Filter(s, p), p) == Filter(s, p)
  {
    if s != [] {
      var t := Filter(s[1..], p);
      FilterIdempotent(s[1..], p);
      if p(s[0]) {
        assert Filter(s, p) == [s[0]] + t;
        assert ([s[0]] + t)[1..] == t;
        assert Filter([s[0]] + t, p) == [s[0]] + Filter(t, p);
      } else {
        assert Filter(s, p) == t;
      }
    }
  }

  lemma FilterCons<T(!new)>(x: T, s: seq<T>, p: T -> bool)
    ensures Filter([x] + s, p) == (if p(x) then [x] else []) + Filter(s, p)
  {
    assert ([x] + s)[1..] == s;
  }

  lemma {:induction false} FilterConcat<T(!new)>(a: seq<T>, b: seq<T>, p: T -> bool)
    ensures Filter(a + b, p) == Filter(a, p) + Filter(b, p)
  {
    if a == [] {
      assert a + b == b;
    } else {
      assert (a + b)[0] == a[0] && (a + b)[1..] == a[1..] + b;
      FilterConcat(a[1..], b, p);
    }
  }

  /** Each value passing the test is kept as often as it occurs; the others are gone. */
  lemma {:induction false} FilterMultiplicity<T(!new)>(s: seq<T>, p: T -> bool, x: T)
    ensures multiset(Filter(s, p))[x] == if p(x) then multiset(s)[x] else 0
  {
    if s != [] {
      FilterMultiplicity(s[1..], p, x);
      assert s == [s[0]] + s[1..];
      assert multiset(s) == multiset([s[0]]) + multiset(s[1..]);
    }
  }

  lemma FilterPrefixStep<T(!new)>(s: seq<T>, i: nat, p: T -> bool)
    requires i < |s|
    ensures Filter(s[..i + 1], p) == Filter(s[..i], p) + (if p(s[i]) then [s[i]] else [])
  {
    assert s[..i + 1] == s[..i] + [s[i]];
    FilterConcat(s[..i], [s[i]], p);
    assert [s[i]][1..] == [];
  }

  lemma {:induction false} FilterNone<T(!new)>(s: seq<T>, p: T -> bool)
    requires forall i :: 0 <= i < |s| ==> !p(s[i])
    ensures Filter(s, p) == []
  {
    if s != [] {
      FilterNone(s[1..], p);
    }
  }

  /** Filtering a run of passing elements followed by a run of failing ones keeps the first run. */
  lemma {:induction false} FilterKeepsPrefix<T(!new)>(a: seq<T>, b: seq<T>, p: T -> bool)
    requires forall i :: 0 <= i < |a| ==> p(a[i])
    requires forall i :: 0 <= i < |b| ==> !p(b[i])
    ensures Filter(a + b, p) == a
  {
    if a == [] {
      assert a + b == b;
      FilterNone(b, p);
    } else {
      assert (a + b)[1..] == a[1..] + b;
      FilterKeepsPrefix(a[1..], b, p);
    }
  }

  lemma {:induction false} FilterAll<T(!new)>(s: seq<T>, p: T -> bool)
    requires forall x :: x in s ==> p(x)
    ensures Filter(s, p) == s
  {
    if s != [] {
      FilterAll(s[1..], p);
    }
  }

  /**
   * The order `sort_values` puts keys in: numbers and infinities by value,
   * text by Python's string order, NaN last. A key column never holds both
   * text and numbers once sorted (see `Sortable`), so where text sits
   * among the numbers does not matter.
   */
  function Rank(c: Cell): nat
  {
    match c
    case NegInf => 0
    case Num(_) => 1
    case PosInf => 2
    case Text(_) => 3
    case Missing => 4
  }

  predicate KeyLe(a: Cell, b: Cell)
  {
    Rank(a) < Rank(b) ||
    (Rank(a) == Rank(b) && (a.Num? ==> a.v <= b.v) && (a.Text? ==> Strings.LessEq(a.s, b.s)))
  }

  lemma KeyLeTotal(a: Cell, b: Cell)
    ensures KeyLe(a, b) || KeyLe(b, a)
  {
    if a.Text? && b.Text? {
      Paths.LessEqTotal(a.s, b.s);
    }
  }

  lemma KeyLeTransitive(a: Cell, b: Cell, c: Cell)
    requires KeyLe(a, b) && KeyLe(b, c)
    ensures KeyLe(a, c)
  {
    if a.Text? && b.Text? && c.Text? {
      Paths.LessEqTransitive(a.s, b.s, c.s);
    }
  }

  lemma KeyLeAntisymmetric(a: Cell, b: Cell)
    requires KeyLe(a, b) && KeyLe(b, a)
    ensures a == b
  {
    if a.Text? && b.Text? {
      LessEqAntisymmetric(a.s, b.s);
    }
  }

  lemma InAppendLeft<T>(a: seq<T>, b: seq<T>, i: int)
    requires 0 <= i < |a|
    ensures a[i] in a + b
  {
    assert (a + b)[i] == a[i];
  }

  lemma InAppendRight<T>(a: seq<T>, b: seq<T>, x: T)
    requires x in b
    ensures x in a + b
  {
    var j :| 0 <= j < |b| && b[j] == x;
    assert (a + b)[|a| + j] == x;
  }

  predicate SortedBy(rows: seq<Row>, key: string)
  {
    forall i, j :: 0 <= i < j < |rows| ==> KeyLe(Get(rows[i], key), Get(rows[j], key))
  }

  function InsertBy(x: Row, rows: seq<Row>, key: string): (r: seq<Row>)
    requires SortedBy(rows, key)
    ensures multiset(r) == multiset(rows) + multiset{x}
    ensures SortedBy(r, key)
  {
    if rows == [] then [x]
    else if KeyLe(Get(x, key), Get(rows[0], key)) then
      PrependLeast(x, rows, key);
      [x] + rows
    else
      var tail := InsertBy(x, rows[1..], key);
      assert rows == [rows[0]] + rows[1..];
      KeyLeTotal(Get(x, key), Get(rows[0], key));
      HeadBelowInsert(x, rows, tail, key);
      PrependLeast(rows[0], tail, key);
      [rows[0]] + tail
  }

  /** Putting a row no greater than every row in front keeps a sorted sequence sorted. */
  lemma PrependLeast(x: Row, rows: seq<Row>, key: string)
    requires SortedBy(rows, key)
    requires rows != [] ==> KeyLe(Get(x, key), Get(rows[0], key)) || forall y :: y in rows ==> KeyLe(Get(x, key), Get(y, key))
    ensures SortedBy([x] + rows, key)
  {
    var r := [x] + rows;
    forall i, j | 0 <= i < j < |r| ensures KeyLe(Get(r[i], key), Get(r[j], key)) {
      if i == 0 {
        assert r[j] == rows[j - 1] && rows[j - 1] in rows;
        if j > 1 && !(forall y :: y in rows ==> KeyLe(Get(x, key), Get(y, key))) {
          KeyLeTransitive(Get(x, key), Get(rows[0], key), Get(rows[j - 1], key));
        }
      }
    }
  }

  lemma HeadBelowInsert(x: Row, rows: seq<Row>, tail: seq<Row>, key: string)
    requires rows != [] && SortedBy(rows, key)
    requires KeyLe(Get(rows[0], key), Get(x, key))
    requires multiset(tail) == multiset(rows[1..]) + multiset{x}
    ensures forall y :: y in tail ==> KeyLe(Get(rows[0], key), Get(y, key))
  {
    forall y | y in tail ensures KeyLe(Get(rows[0], key), Get(y, key)) {
      assert y in multiset(tail);
      if y != x {
        assert y in multiset(rows[1..]);
        var j :| 0 <= j < |rows[1..]| && rows[1..][j] == y;
        assert rows[j + 1] == y;
      }
    }
  }

  /** `sort_values(key)`: the rows, reordered so the key never decreases. */
  function SortBy(rows: seq<Row>, key: string): (r: seq<Row>)
    ensures multiset(r) == multiset(rows)
    ensures SortedBy(r, key)
  {
    if rows == [] then []
    else
      assert rows == [rows[0]] + rows[1..];
      InsertBy(rows[0], SortBy(rows[1..], key), key)
  }

  /** First occurrences, in order of appearance (`Series.unique()`). */
  function Distinct<T(==,!new)>(s: seq<T>): (r: seq<T>)
    ensures forall x :: x in r <==> x in s
    ensures forall i, j :: 0 <= i < j < |r| ==> r[i] != r[j]
  {
    if s == [] then []
    else
      var d := Distinct(s[..|s| - 1]);
      assert s == s[..|s| - 1] + [s[|s| - 1]];
      if s[|s| - 1] in d then d else d + [s[|s| - 1]]
  }

  predicate StrictlyIncreasing(s: seq<real>)
  {
    forall i, j :: 0 <= i < j < |s| ==> s[i] < s[j]
  }

  function InsertReal(x: real, s: seq<real>): (r: seq<real>)
    requires StrictlyIncreasing(s)
    ensures forall y :: y in r <==> y == x || y in s
    ensures StrictlyIncreasing(r)
  {
    if s == [] then [x]
    else if x == s[0] then s
    else if x < s[0] then
      PrependBelow(x, s);
      [x] + s
    else
      var t := InsertReal(x, s[1..]);
      assert s == [s[0]] + s[1..];
      TailAbove(x, s, t);
      PrependBelow(s[0], t);
      [s[0]] + t
  }

  /** A number below the head of an increasing sequence can go in front. */
  lemma PrependBelow(x: real, s: seq<real>)
    requires StrictlyIncreasing(s) && (s != [] ==> x < s[0])
    ensures StrictlyIncreasing([x] + s)
  {
    var r := [x] + s;
    forall i, j | 0 <= i < j < |r| ensures r[i] < r[j] {
      if i == 0 && j > 1 {
        assert s[0] < s[j - 1];
      }
    }
  }

  lemma TailAbove(x: real, s: seq<real>, t: seq<real>)
    requires s != [] && StrictlyIncreasing(s) && s[0] < x
    requires forall y :: y in t <==> y == x || y in s[1..]
    ensures t != [] ==> s[0] < t[0]
  {
    if t != [] {
      assert t[0] in t;
      if t[0] != x {
        var j :| 0 <= j < |s[1..]| && s[1..][j] == t[0];
        assert s[j + 1] == t[0];
      }
    }
  }

  /** `sorted(set(s))` for numbers. */
  function SortedDistinct(s: seq<real>): (r: seq<real>)
    ensures forall y :: y in r <==> y in s
    ensures StrictlyIncreasing(r)
  {
    if s == [] then [] else InsertReal(s[0], SortedDistinct(s[1..]))
  }

  /** The finite numbers among `col`. */
  function Numbers(col: seq<Cell>): (r: seq<real>)
    ensures forall y :: y in r <==> Num(y) in col
  {
    if col == [] then []
    else (if col[0].Num? then [col[0].v] else []) + Numbers(col[1..])
  }

  // ----- Python's ordering of column values ----------------------------------

  /** Every entry of the column is text. */
  predicate AllText(col: seq<Cell>)
  {
    forall i :: 0 <= i < |col| ==> col[i].Text?
  }

  /** A float other than NaN: a number or an infinity. */
  predicate IsFloat(c: Cell)
  {
    c.Num? || c.PosInf? || c.NegInf?
  }

  /**
   * `sorted`, `min` and `max` over a column's values: text compares only
   * with text, and NaN is a float, so the values can be ordered exactly
   * when the column holds no text or nothing but text.
   */
  predicate Orderable(col: seq<Cell>)
  {
    !AnyText(col) || AllText(col)
  }

  /**
   * `sort_values` sets NaN aside before it compares, so only text next to
   * a number or an infinity makes it raise.
   */
  predicate Sortable(col: seq<Cell>)
  {
    !AnyText(col) || forall i :: 0 <= i < |col| ==> !IsFloat(col[i])
  }

  /** Strictly ascending in Python's string order. */
  predicate TextsIncreasing(s: seq<string>)
  {
    forall i, j :: 0 <= i < j < |s| ==> Strings.LessEq(s[i], s[j]) && s[i] != s[j]
  }

  lemma {:induction false} LessEqAntisymmetric(a: string, b: string)
    requires Strings.LessEq(a, b) && Strings.LessEq(b, a)
    ensures a == b
    decreases |a|
  {
    if a != [] && b != [] {
      LessEqAntisymmetric(a[1..], b[1..]);
      assert a == [a[0]] + a[1..] && b == [b[0]] + b[1..];
    }
  }

  function InsertText(x: string, s: seq<string>): (r: seq<string>)
    requires TextsIncreasing(s)
    ensures forall t :: t in r <==> t == x || t in s
    ensures TextsIncreasing(r)
  {
    if s == [] then [x]
    else if x == s[0] then s
    else if Strings.LessEq(x, s[0]) then
      PrependText(x, s);
      [x] + s
    else
      Paths.LessEqTotal(x, s[0]);
      var t := InsertText(x, s[1..]);
      assert s == [s[0]] + s[1..];
      TextTailAbove(x, s, t);
      PrependText(s[0], t);
      [s[0]] + t
  }

  /** A string strictly below the head of an ascending list can go in front. */
  lemma PrependText(x: string, s: seq<string>)
    requires TextsIncreasing(s) && (s != [] ==> Strings.LessEq(x, s[0]) && x != s[0])
    ensures TextsIncreasing([x] + s)
  {
    var r := [x] + s;
    forall i, j | 0 <= i < j < |r| ensures Strings.LessEq(r[i], r[j]) && r[i] != r[j] {
      if i == 0 && j > 1 {
        Paths.LessEqTransitive(x, s[0], s[j - 1]);
        if x == s[j - 1] {
          LessEqAntisymmetric(x, s[0]);
        }
      }
    }
  }

  lemma TextTailAbove(x: string, s: seq<string>, t: seq<string>)
    requires s != [] && TextsIncreasing(s) && Strings.LessEq(s[0], x) && x != s[0]
    requires forall y :: y in t <==> y == x || y in s[1..]
    ensures t != [] ==> Strings.LessEq(s[0], t[0]) && s[0] != t[0]
  {
    if t != [] {
      assert t[0] in t;
      if t[0] != x {
        var j :| 0 <= j < |s[1..]| && s[1..][j] == t[0];
        assert s[j + 1] == t[0];
      }
    }
  }

  /** `sorted(set(s))` for strings. */
  function SortedTexts(s: seq<string>): (r: seq<string>)
    ensures forall t :: t in r <==> t in s
    ensures TextsIncreasing(r)
  {
    if s == [] then [] else InsertText(s[0], SortedTexts(s[1..]))
  }

  /** The strings among `col`. */
  function Texts(col: seq<Cell>): (r: seq<string>)
    ensures forall t :: t in r <==> Text(t) in col
  {
    if col == [] then []
    else (if col[0].Text? then [col[0].s] else []) + Texts(col[1..])
  }

  /** One year of a loop comes before another: numbers by value, text in string order. */
  predicate YearBefore(a: Cell, b: Cell)
  {
    (a.Num? && b.Num? && a.v < b.v) || (a.Text? && b.Text? && Strings.LessEq(a.s, b.s) && a.s != b.s)
  }

  predicate YearsIncreasing(ys: seq<Cell>)
  {
    forall i, j :: 0 <= i < j < |ys| ==> YearBefore(ys[i], ys[j])
  }

  /**
   * The years `for year in sorted(df['Year'].unique())` visits: the
   * distinct finite numbers ascending, or, for a column read as text, its
   * distinct strings in string order; `None` when text meets a number or
   * NaN and `sorted` raises a `TypeError`.
   */
  function LoopYears(rows: seq<Row>): (ys: Option<seq<Cell>>)
    ensures ys.Some? <==> Orderable(Column(rows, YearCol))
    ensures ys.Some? ==> YearsIncreasing(ys.value)
    ensures ys.Some? ==> forall y :: y in ys.value <==> y in Column(rows, YearCol) && (y.Num? || y.Text?)
  {
    var col := Column(rows, YearCol);
    if !AnyText(col) then
      var ns := SortedDistinct(Numbers(col));
      var ys := seq(|ns|, i requires 0 <= i < |ns| => Num(ns[i]));
      assert forall y :: y in ys <==> y.Num? && y.v in ns by {
        forall y ensures y in ys <==> y.Num? && y.v in ns {
          if y.Num? && y.v in ns {
            var i :| 0 <= i < |ns| && ns[i] == y.v;
            assert ys[i] == y;
          }
        }
      }
      Some(ys)
    else if AllText(col) then
      var ts := SortedTexts(Texts(col));
      var ys := seq(|ts|, i requires 0 <= i < |ts| => Text(ts[i]));
      assert forall y :: y in ys <==> y.Text? && y.s in ts by {
        forall y ensures y in ys <==> y.Text? && y.s in ts {
          if y.Text? && y.s in ts {
            var i :| 0 <= i < |ts| && ts[i] == y.s;
            assert ys[i] == y;
          }
        }
      }
      Some(ys)
    else None
  }

  /** A year the loop visits is one of the column's cells, and never NaN. */
  lemma LoopYearIn(rows: seq<Row>, y: Cell)
    requires LoopYears(rows).Some? && y in LoopYears(rows).value
    ensures !y.Missing? && exists i :: 0 <= i < |rows| && Get(rows[i], YearCol) == y
  {
    var col := Column(rows, YearCol);
    var i :| 0 <= i < |col| && col[i] == y;
  }

  /**
   * `f"{year}"`: a year read as text is written as it is; a number is
   * written as its `str`, which is kept symbolic.
   */
  function YearPiece(y: Cell): Paths.Piece
  {
    match y
    case Text(s) => Paths.Lit(s)
    case Num(v) => Paths.Repr(v)
    case PosInf => Paths.Lit("inf")
    case NegInf => Paths.Lit("-inf")
    case Missing => Paths.Lit("nan")
  }

  /** `df[df[col] == v]` */
  function RowsWhere(rows: seq<Row>, col: string, v: Cell): (r: seq<Row>)
    ensures forall x :: x in r <==> x in rows && CellEquals(Get(x, col), v)
  {
    Filter(rows, (x: Row) => CellEquals(Get(x, col), v))
  }

  /** `data[data['Year'] == year]`, keeping the columns. */
  function YearFrame(f: Frame, year: Cell): (r: Frame)
    ensures r.columns == f.columns
    ensures forall x :: x in r.rows <==> x in f.rows && CellEquals(Get(x, YearCol), year)
    ensures !year.Missing? ==> forall x :: x in r.rows <==> x in f.rows && Get(x, YearCol) == year
  {
    Frame(f.columns, RowsWhere(f.rows, YearCol, year))
  }
}
