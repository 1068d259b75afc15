/**
 * The few Python string operations the pipeline uses, on `seq<char>`.
 * Case mapping covers the ASCII letters only.
 */
module Strings {

  predicate StartsWith(s: string, prefix: string)
  {
    |prefix| <= |s| && s[..|prefix|] == prefix
  }

  predicate EndsWith(s: string, suffix: string)
  {
    |suffix| <= |s| && s[|s| - |suffix|..] == suffix
  }

  /** `sub in s` */
  predicate Contains(s: string, sub: string)
    decreases |s|
  {
    StartsWith(s, sub) || (s != [] && Contains(s[1..], sub))
  }

  predicate IsUpper(c: char) { 'A' <= c <= 'Z' }
  predicate IsLower(c: char) { 'a' <= c <= 'z' }
  predicate IsCased(c: char) { IsUpper(c) || IsLower(c) }
  predicate IsDigit(c: char) { '0' <= c <= '9' }

  function ToLowerChar(c: char): char
  {
    if IsUpper(c) then (c as int + 32) as char else c
  }

  function ToUpperChar(c: char): char
  {
    if IsLower(c) then (c as int - 32) as char else c
  }

  /** `s.lower()` */
  function Lower(s: string): (r: string)
    ensures |r| == |s|
    ensures forall i :: 0 <= i < |s| ==> r[i] == ToLowerChar(s[i])
  {
    if s == [] then [] else [ToLowerChar(s[0])] + Lower(s[1..])
  }

  /**
   * `s.title()`: a cased character becomes upper case when the character
   * before it is not cased, and lower case otherwise. `afterCased` says
   * whether the character before `s` was cased.
   */
  function TitleFrom(s: string, afterCased: bool): (r: string)
    ensures |r| == |s|
  {
    if s == [] then []
    else
      var c := if afterCased then ToLowerChar(s[0]) else ToUpperChar(s[0]);
      [c] + TitleFrom(s[1..], IsCased(s[0]))
  }

  function Title(s: string): string
  {
    TitleFrom(s, false)
  }

  lemma {:induction false} TitleFromIdempotent(s: string, afterCased: bool)
    ensures TitleFrom(TitleFrom(s, afterCased), afterCased) == TitleFrom(s, afterCased)
  {
    if s != [] {
      var t := TitleFrom(s, afterCased);
      assert t[1..] == TitleFrom(s[1..], IsCased(s[0]));
      assert IsCased(t[0]) == IsCased(s[0]);
      TitleFromIdempotent(s[1..], IsCased(s[0]));
    }
  }

  /** Title-casing twice is title-casing once. */
  lemma TitleIdempotent(s: string)
    ensures Title(Title(s)) == Title(s)
  {
    TitleFromIdempotent(s, false);
  }

  /** `s.replace(a, b)` for one-character `a` and `b`. */
  function ReplaceChar(s: string, a: char, b: char): (r: string)
    ensures |r| == |s|
  {
    if s == [] then [] else [if s[0] == a then b else s[0]] + ReplaceChar(s[1..], a, b)
  }

  /** Each character of the result is the replacement of the character at the same place. */
  lemma {:induction false} ReplaceCharAt(s: string, a: char, b: char)
    ensures forall i :: 0 <= i < |s| ==> ReplaceChar(s, a, b)[i] == (if s[i] == a then b else s[i])
  {
    if s != [] {
      ReplaceCharAt(s[1..], a, b);
      var r := ReplaceChar(s, a, b);
      forall i | 0 < i < |s| ensures r[i] == (if s[i] == a then b else s[i]) {
        assert r[i] == ReplaceChar(s[1..], a, b)[i - 1] && s[i] == s[1..][i - 1];
      }
    }
  }

  /** After replacing `a` by a different `b`, no `a` is left. */
  lemma ReplaceRemoves(s: string, a: char, b: char)
    requires a != b
    ensures a !in ReplaceChar(s, a, b)
  {
    var r := ReplaceChar(s, a, b);
    ReplaceCharAt(s, a, b);
    forall i | 0 <= i < |r| ensures r[i] != a { }
  }

  /** Title-casing leaves every non-letter where it was. */
  lemma {:induction false} TitleFromKeepsUncased(s: string, afterCased: bool, i: nat)
    requires i < |s| && !IsCased(s[i])
    ensures TitleFrom(s, afterCased)[i] == s[i]
  {
    if i > 0 {
      TitleFromKeepsUncased(s[1..], IsCased(s[0]), i - 1);
    }
  }

  /** Index of the first `c` in `s`, or `|s|` when there is none. */
  function IndexOf(s: string, c: char): (k: nat)
    ensures k <= |s|
    ensures k < |s| ==> s[k] == c
    ensures forall i :: 0 <= i < k ==> s[i] != c
  {
    if s == [] then 0 else if s[0] == c then 0 else 1 + IndexOf(s[1..], c)
  }

  /** Index of the last `c` in `s`, or -1 when there is none (`s.rfind(c)`). */
  function RFind(s: string, c: char): (k: int)
    ensures -1 <= k < |s|
    ensures k >= 0 ==> s[k] == c
    ensures forall i :: k < i < |s| ==> s[i] != c
  {
    if s == [] then -1
    else if s[|s| - 1] == c then |s| - 1
    else RFind(s[..|s| - 1], c)
  }

  /** `s.split(sep)` for a one-character separator. */
  function Split(s: string, sep: char): (parts: seq<string>)
    ensures |parts| > 0
    decreases |s|
  {
    var k := IndexOf(s, sep);
    if k == |s| then [s] else [s[..k]] + Split(s[k + 1..], sep)
  }

  /** No piece of a split holds the separator. */
  lemma {:induction false} SplitPiecesLackSep(s: string, sep: char)
    ensures forall p :: p in Split(s, sep) ==> sep !in p
    decreases |s|
  {
    var k := IndexOf(s, sep);
    if k < |s| {
      SplitAtFirst(s, sep);
      SplitPiecesLackSep(s[k + 1..], sep);
    }
  }

  /** `sep.join(parts)` */
  function Join(sep: string, parts: seq<string>): string
  {
    if parts == [] then []
    else if |parts| == 1 then parts[0]
    else parts[0] + sep + Join(sep, parts[1..])
  }

  lemma JoinPrepend(sep: string, x: string, rest: seq<string>)
    requires rest != []
    ensures Join(sep, [x] + rest) == x + sep + Join(sep, rest)
  {
    var p := [x] + rest;
    assert p[0] == x && p[1..] == rest;
  }

  lemma SplitAtFirst(s: string, sep: char)
    requires IndexOf(s, sep) < |s|
    ensures Split(s, sep) == [s[..IndexOf(s, sep)]] + Split(s[IndexOf(s, sep) + 1..], sep)
  {
  }

  /** The first separator of `a + [sep] + b` is the one after `a`. */
  lemma {:induction false} IndexOfAfter(a: string, sep: char, b: string)
    requires sep !in a
    ensures IndexOf(a + [sep] + b, sep) == |a|
  {
    if a != [] {
      assert (a + [sep] + b)[1..] == a[1..] + [sep] + b;
      IndexOfAfter(a[1..], sep, b);
    }
  }

  /** A string with one separator splits into the text before it and after it. */
  lemma SplitOnce(a: string, sep: char, b: string)
    requires sep !in a && sep !in b
    ensures Split(a + [sep] + b, sep) == [a, b]
  {
    var s := a + [sep] + b;
    IndexOfAfter(a, sep, b);
    assert s[..|a|] == a && s[|a| + 1..] == b;
    assert IndexOf(b, sep) == |b|;
  }

  /** Splitting on a character and joining with the same character gives back the string. */
  lemma {:induction false} JoinSplit(s: string, sep: char)
    ensures Join([sep], Split(s, sep)) == s
    decreases |s|
  {
    var k := IndexOf(s, sep);
    if k < |s| {
      var rest := Split(s[k + 1..], sep);
      SplitAtFirst(s, sep);
      JoinPrepend([sep], s[..k], rest);
      JoinSplit(s[k + 1..], sep);
      assert s == s[..k] + [sep] + s[k + 1..];
    }
  }

  /** Joining the pieces of `s` split on `a` with `b` replaces each `a` by `b`. */
  lemma {:induction false} JoinSplitIsReplace(s: string, a: char, b: char)
    ensures Join([b], Split(s, a)) == ReplaceChar(s, a, b)
    decreases |s|
  {
    var k := IndexOf(s, a);
    if k == |s| {
      ReplaceAbsent(s, a, b);
    } else {
      var x, y := s[..k], s[k + 1..];
      var rest := Split(y, a);
      SplitAtFirst(s, a);
      JoinPrepend([b], x, rest);
      assert Join([b], Split(s, a)) == x + [b] + Join([b], rest);
      JoinSplitIsReplace(y, a, b);
      ReplaceAtFirst(s, a, b);
      assert ReplaceChar(s, a, b) == x + [b] + ReplaceChar(y, a, b);
    }
  }

  lemma ReplaceAtFirst(s: string, a: char, b: char)
    requires IndexOf(s, a) < |s|
    ensures ReplaceChar(s, a, b) == s[..IndexOf(s, a)] + [b] + ReplaceChar(s[IndexOf(s, a) + 1..], a, b)
  {
    var k := IndexOf(s, a);
    var x, y := s[..k], s[k + 1..];
    Around(s, k);
    BeforeFirstLacks(s, a);
    ReplaceConcat(x, [a] + y, a, b);
    ReplaceConcat([a], y, a, b);
    ReplaceOne(a, b);
    ReplaceAbsent(x, a, b);
    Assoc(x, [b], ReplaceChar(y, a, b));
  }

  lemma BeforeFirstLacks(s: string, c: char)
    ensures c !in s[..IndexOf(s, c)]
  {
    var x := s[..IndexOf(s, c)];
    forall i | 0 <= i < |x| ensures x[i] != c { assert x[i] == s[i]; }
  }

  lemma ReplaceOne(a: char, b: char)
    ensures ReplaceChar([a], a, b) == [b]
  {
    assert [a][1..] == [];
  }

  lemma Around<T>(s: seq<T>, k: nat)
    requires k < |s|
    ensures s == s[..k] + ([s[k]] + s[k + 1..])
  {
  }

  lemma Assoc<T>(p: seq<T>, q: seq<T>, r: seq<T>)
    ensures p + (q + r) == p + q + r
  {
  }

  lemma {:induction false} ReplaceConcat(x: string, y: string, a: char, b: char)
    ensures ReplaceChar(x + y, a, b) == ReplaceChar(x, a, b) + ReplaceChar(y, a, b)
  {
    if x != [] {
      assert (x + y)[0] == x[0] && (x + y)[1..] == x[1..] + y;
      ReplaceConcat(x[1..], y, a, b);
    } else {
      assert x + y == y;
    }
  }

  lemma ReplaceAbsent(x: string, a: char, b: char)
    requires a !in x
    ensures ReplaceChar(x, a, b) == x
  {
    var r := ReplaceChar(x, a, b);
    ReplaceCharAt(x, a, b);
    assert forall i :: 0 <= i < |x| ==> r[i] == x[i];
  }

  predicate IsSpace(c: char)
  {
    c == ' ' || c == '\t' || c == '\n' || c == '\r' || c == '\U{B}' || c == '\U{C}'
  }

  /** `s.strip()` */
  function Strip(s: string): (r: string)
    ensures |r| <= |s|
    ensures r != [] ==> !IsSpace(r[0]) && !IsSpace(r[|r| - 1])
  {
    if s == [] then []
    else if IsSpace(s[0]) then Strip(s[1..])
    else if IsSpace(s[|s| - 1]) then Strip(s[..|s| - 1])
    else s
  }

  /** Splits off the leading maximal run of non-space characters. */
  function WordAt(s: string): (k: nat)
    ensures k <= |s|
  {
    if s == [] || IsSpace(s[0]) then 0 else 1 + WordAt(s[1..])
  }

  /** `s.split()`: the maximal runs of non-space characters. */
  function SplitWhitespace(s: string): (words: seq<string>)
    ensures forall w :: w in words ==> w != [] && forall i :: 0 <= i < |w| ==> !IsSpace(w[i])
    decreases |s|
  {
    if s == [] then []
    else if IsSpace(s[0]) then SplitWhitespace(s[1..])
    else
      var k := WordAt(s);
      WordHasNoSpace(s);
      [s[..k]] + SplitWhitespace(s[k..])
  }

  lemma {:induction false} WordHasNoSpace(s: string)
    requires s != [] && !IsSpace(s[0])
    ensures WordAt(s) > 0
    ensures forall i :: 0 <= i < WordAt(s) ==> !IsSpace(s[i])
  {
    if |s| > 1 && !IsSpace(s[1]) {
      WordHasNoSpace(s[1..]);
    }
  }

  function DigitChar(d: nat): char
    requires d < 10
  {
    ('0' as int + d) as char
  }

  /** `str(n)` for a natural number. */
  function NatToString(n: nat): (r: string)
    ensures |r| > 0
    ensures forall i :: 0 <= i < |r| ==> IsDigit(r[i])
    decreases n
  {
    if n < 10 then [DigitChar(n)] else NatToString(n / 10) + [DigitChar(n % 10)]
  }

  /** `str(i)` for an integer. */
  function IntToString(i: int): string
  {
    if i < 0 then "-" + NatToString(-i) else NatToString(i)
  }

  /** `f"{n:02d}"`: at least two digits, zero-padded on the left. */
  function Pad2(n: nat): (r: string)
    ensures |r| >= 2
    ensures n < 100 ==> |r| == 2
  {
    var d := NatToString(n);
    assert 10 <= n < 100 ==> d == NatToString(n / 10) + [DigitChar(n % 10)];
    if |d| < 2 then "0" + d else d
  }

  /** Lexicographic order on code points, as Python compares strings. */
  predicate LessEq(a: string, b: string)
    decreases |a|
  {
    a == [] || (b != [] && (a[0] < b[0] || (a[0] == b[0] && LessEq(a[1..], b[1..]))))
  }
}
