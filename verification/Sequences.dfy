/** Facts about sequences that several modules share.

    Filtering and concatenation, prefixes, and text joined with a separator: joining loses nothing as long as no part
    holds the separator. */
module Sequences {

  datatype Option<+T> = None | Some(value: T)

  function Filter<T(!new)>(p: T -> bool, s: seq<T>): (r: seq<T>)
    ensures |r| <= |s|
    ensures forall x :: x in r <==> x in s && p(x)
  {
    if s == [] then []
    else if p(s[0]) then [s[0]] + Filter(p, s[1..])
    else Filter(p, s[1..])
  }

  lemma {:induction false} FilterAppend<T(!new)>(p: T -> bool, a: seq<T>, b: seq<T>)
    ensures Filter(p, a + b) == Filter(p, a) + Filter(p, b)
  {
    if a == [] {
      assert a + b == b;
    } else {
      assert (a + b)[1..] == a[1..] + b;
      FilterAppend(p, a[1..], b);
    }
  }

  lemma {:induction false} FilterSame<T(!new)>(p: T -> bool, q: T -> bool, s: seq<T>)
    requires forall x <- s :: p(x) == q(x)
    ensures Filter(p, s) == Filter(q, s)
  {
    if s != [] {
      FilterSame(p, q, s[1..]);
    }
  }

  /** Filtering by the narrower of two conditions does not care whether the wider was applied first. */
  lemma {:induction false} FilterTwice<T(!new)>(wide: T -> bool, narrow: T -> bool, s: seq<T>)
    requires forall x <- s :: narrow(x) ==> wide(x)
    ensures Filter(narrow, Filter(wide, s)) == Filter(narrow, s)
  {
    if s != [] {
      FilterTwice(wide, narrow, s[1..]);
      if wide(s[0]) {
        assert Filter(wide, s)[1..] == Filter(wide, s[1..]);
      }
    }
  }

  lemma {:induction false} FilterNone<T(!new)>(p: T -> bool, s: seq<T>)
    requires forall x <- s :: !p(x)
    ensures Filter(p, s) == []
  {
    if s != [] {
      FilterNone(p, s[1..]);
    }
  }

  function Concat<T>(ss: seq<seq<T>>): seq<T> {
    if ss == [] then [] else ss[0] + Concat(ss[1..])
  }

  lemma {:induction false} ConcatAppend<T>(a: seq<seq<T>>, b: seq<seq<T>>)
    ensures Concat(a + b) == Concat(a) + Concat(b)
  {
    if a == [] {
      assert a + b == b;
    } else {
      assert (a + b)[1..] == a[1..] + b;
      ConcatAppend(a[1..], b);
    }
  }

  lemma ConcatOne<T>(s: seq<T>)
    ensures Concat([s]) == s
  {
    assert [s][1..] == [];
    assert s + [] == s;
  }

  lemma Regroup<T>(a: seq<T>, b: seq<T>, c: seq<T>)
    ensures a + b + c == a + (b + c)
  {
  }

  lemma Regroup4<T>(a: seq<T>, b: seq<T>, c: seq<T>, d: seq<T>)
    ensures a + b + c + d == a + (b + (c + d))
  {
  }

  function Take<T>(n: nat, s: seq<T>): (r: seq<T>)
    ensures r <= s && (forall x <- r :: x in s)
  {
    if |s| <= n then s else s[..n]
  }

  /** No element occurs twice. */
  predicate Distinct<T(==)>(s: seq<T>) {
    forall i, j :: 0 <= i < j < |s| ==> s[i] != s[j]
  }

  // ---------------------------------------------------------------------------------------------
  // Text joined with a separator
  // ---------------------------------------------------------------------------------------------

  function Join(parts: seq<string>, sep: char): string {
    if parts == [] then ""
    else if |parts| == 1 then parts[0]
    else parts[0] + [sep] + Join(parts[1..], sep)
  }

  predicate Free(s: string, c: char) {
    c !in s
  }

  predicate AllFree(parts: seq<string>, c: char) {
    forall p <- parts :: Free(p, c)
  }

  /** The first separator in joined text is where the first part ends. */
  lemma JoinStarts(parts: seq<string>, sep: char)
    requires parts != [] && AllFree(parts, sep)
    ensures parts[0] <= Join(parts, sep) && sep !in parts[0]
    ensures |parts| == 1 <==> sep !in Join(parts, sep)
    ensures |parts| > 1 ==>
      |parts[0]| < |Join(parts, sep)| && Join(parts, sep)[|parts[0]|] == sep && Join(parts, sep)[|parts[0]| + 1..] == Join(parts[1..], sep)
  {
    assert parts[0] in parts;
    if |parts| > 1 {
      assert Join(parts, sep)[|parts[0]|] in Join(parts, sep);
    }
  }

  /** Joining loses nothing when no part holds the separator. */
  lemma {:induction false} JoinInjective(a: seq<string>, b: seq<string>, sep: char)
    requires a != [] && b != []
    requires AllFree(a, sep) && AllFree(b, sep)
    requires Join(a, sep) == Join(b, sep)
    ensures a == b
  {
    JoinStarts(a, sep);
    JoinStarts(b, sep);
    if |a| == 1 {
      assert a == [a[0]] && b == [b[0]];
    } else {
      var j := Join(a, sep);
      assert a[0] == j[..|a[0]|] && b[0] == j[..|b[0]|];
      assert |a[0]| == |b[0]|;
      JoinInjective(a[1..], b[1..], sep);
      assert a == [a[0]] + a[1..] && b == [b[0]] + b[1..];
    }
  }

  /** How often a character occurs. */
  function Times(s: string, c: char): nat {
    if s == "" then 0 else (if s[0] == c then 1 else 0) + Times(s[1..], c)
  }

  lemma {:induction false} TimesJoined(a: string, b: string, c: char)
    ensures Times(a + b, c) == Times(a, c) + Times(b, c)
  {
    if a == "" {
      assert a + b == b;
    } else {
      assert (a + b)[1..] == a[1..] + b;
      TimesJoined(a[1..], b, c);
    }
  }

  lemma {:induction false} NeverIffFree(s: string, c: char)
    ensures Times(s, c) == 0 <==> Free(s, c)
  {
    if s != "" {
      NeverIffFree(s[1..], c);
      assert s == [s[0]] + s[1..];
    }
  }

  /** Joined text has at least the separators between its parts, and just those exactly when no part has one. */
  lemma {:induction false} JoinTimes(parts: seq<string>, sep: char)
    requires parts != []
    ensures Times(Join(parts, sep), sep) >= |parts| - 1
    ensures Times(Join(parts, sep), sep) == |parts| - 1 <==> AllFree(parts, sep)
  {
    NeverIffFree(parts[0], sep);
    assert parts == [parts[0]] + parts[1..];
    if |parts| > 1 {
      JoinTimes(parts[1..], sep);
      TimesJoined(parts[0], [sep], sep);
      TimesJoined(parts[0] + [sep], Join(parts[1..], sep), sep);
      assert Times([sep], sep) == 1;
    }
  }

  /** Joining as many parts loses nothing when no part on one side holds the separator. */
  lemma JoinTells(a: seq<string>, b: seq<string>, sep: char)
    requires |a| == |b| > 0 && AllFree(a, sep) && Join(a, sep) == Join(b, sep)
    ensures a == b
  {
    JoinTimes(a, sep);
    JoinTimes(b, sep);
    JoinInjective(a, b, sep);
  }
}
