/**
 * Python's ordering of `str` values (lexicographic by code point) and
 * `sorted(set(xs))`: the unique strictly ascending sequence of the distinct
 * elements of `xs`.
 */
module StringOrder {

  /** Python's `a < b` on strings. */
  predicate Below(a: string, b: string) {
    if a == [] then b != []
    else if b == [] then false
    else if a[0] != b[0] then a[0] < b[0]
    else Below(a[1..], b[1..])
  }

  lemma {:induction false} BelowIrreflexive(a: string)
    ensures !Below(a, a)
  {
    if a != [] {
      BelowIrreflexive(a[1..]);
    }
  }

  lemma {:induction false} BelowTransitive(a: string, b: string, c: string)
    requires Below(a, b) && Below(b, c)
    ensures Below(a, c)
  {
    if a != [] && b != [] && c != [] && a[0] == b[0] && b[0] == c[0] {
      BelowTransitive(a[1..], b[1..], c[1..]);
    }
  }

  /** Any two different strings are ordered one way or the other. */
  lemma {:induction false} BelowTotal(a: string, b: string)
    ensures a == b || Below(a, b) || Below(b, a)
  {
    if a != [] && b != [] && a[0] == b[0] {
      BelowTotal(a[1..], b[1..]);
      if a[1..] == b[1..] {
        assert a == [a[0]] + a[1..] && b == [b[0]] + b[1..];
      }
    }
  }

  lemma BelowAsymmetric(a: string, b: string)
    ensures !(Below(a, b) && Below(b, a))
  {
    if Below(a, b) && Below(b, a) {
      BelowTransitive(a, b, a);
      BelowIrreflexive(a);
    }
  }

  /** Strictly ascending: sorted, and therefore free of duplicates. */
  predicate Ascending(s: seq<string>) {
    forall i, j :: 0 <= i < j < |s| ==> Below(s[i], s[j])
  }

  lemma AscendingDistinct(s: seq<string>)
    requires Ascending(s)
    ensures forall i, j :: 0 <= i < |s| && 0 <= j < |s| && i != j ==> s[i] != s[j]
  {
    forall i, j | 0 <= i < |s| && 0 <= j < |s| && i != j
      ensures s[i] != s[j]
    {
      if i < j { BelowIrreflexive(s[i]); } else { BelowIrreflexive(s[j]); }
    }
  }

  /** Adds `x` to an ascending sequence, keeping it ascending; a present `x` is not added twice. */
  function InsertSorted(s: seq<string>, x: string): (r: seq<string>)
    requires Ascending(s)
    ensures Ascending(r)
    ensures forall y :: y in r <==> y in s || y == x
  {
    if s == [] then [x]
    else if x == s[0] then s
    else if Below(x, s[0]) then
      InsertBelowHead(s, x);
      [x] + s
    else
      BelowTotal(x, s[0]);
      var rest := InsertSorted(s[1..], x);
      InsertAboveHead(s, x, rest);
      [s[0]] + rest
  }

  lemma InsertBelowHead(s: seq<string>, x: string)
    requires Ascending(s) && s != [] && Below(x, s[0])
    ensures Ascending([x] + s)
  {
    var r := [x] + s;
    forall i, j | 0 <= i < j < |r|
      ensures Below(r[i], r[j])
    {
      if i == 0 && j > 1 {
        BelowTransitive(x, s[0], s[j - 1]);
      }
    }
  }

  lemma InsertAboveHead(s: seq<string>, x: string, rest: seq<string>)
    requires Ascending(s) && s != [] && Below(s[0], x)
    requires Ascending(rest) && forall y :: y in rest <==> y in s[1..] || y == x
    ensures Ascending([s[0]] + rest)
  {
    forall j | 0 <= j < |rest|
      ensures Below(s[0], rest[j])
    {
      if rest[j] != x {
        assert rest[j] in s[1..];
      }
    }
  }

  /** Python's `sorted(set(xs))`. */
  function SortedSet(xs: seq<string>): (r: seq<string>)
    ensures Ascending(r)
    ensures forall y :: y in r <==> y in xs
  {
    if xs == [] then []
    else InsertSorted(SortedSet(xs[..|xs| - 1]), xs[|xs| - 1])
  }

  /** Two ascending sequences with the same elements are equal: `sorted(set(...))` depends only on the set. */
  lemma {:induction false} AscendingUnique(a: seq<string>, b: seq<string>)
    requires Ascending(a) && Ascending(b)
    requires forall y :: y in a <==> y in b
    ensures a == b
  {
    if a == [] {
      HeadIsElement(b);
    } else {
      assert b != [] by { assert a[0] in b; }
      if a[0] != b[0] {
        assert a[0] in b;
        assert b[0] in a;
        var i :| 0 <= i < |b| && b[i] == a[0];
        var j :| 0 <= j < |a| && a[j] == b[0];
        assert i > 0 && j > 0;
        BelowAsymmetric(a[0], b[0]);
        assert false;
      }
      forall y
        ensures y in a[1..] <==> y in b[1..]
      {
        BelowIrreflexive(y);
        if y in a[1..] {
          var i :| 1 <= i < |a| && a[i] == y;
          assert Below(a[0], a[i]);
          assert y in b && y != b[0];
          var j :| 0 <= j < |b| && b[j] == y;
          assert j != 0;
          assert b[1..][j - 1] == y;
        }
        if y in b[1..] {
          var i :| 1 <= i < |b| && b[i] == y;
          assert Below(b[0], b[i]);
          assert y in a && y != a[0];
          var j :| 0 <= j < |a| && a[j] == y;
          assert j != 0;
          assert a[1..][j - 1] == y;
        }
      }
      AscendingUnique(a[1..], b[1..]);
      assert a == [a[0]] + a[1..] && b == [b[0]] + b[1..];
    }
  }

  /**
   * A non-empty sequence holds its head. Stated as its own lemma so that the
   * empty case of `AscendingUnique` never indexes `b` under facts that rule it out.
   */
  lemma HeadIsElement(b: seq<string>)
    ensures b != [] ==> b[0] in b
  {
  }

  /** `sorted(list(s))` for a set `s`, built by inserting the elements one at a time. */
  method SortSet(s: set<string>) returns (r: seq<string>)
    ensures Ascending(r)
    ensures forall y :: y in r <==> y in s
  {
    r := [];
    var rest := s;
    while rest != {}
      invariant rest <= s
      invariant Ascending(r)
      invariant forall y :: y in r <==> y in s && y !in rest
      decreases |rest|
    {
      var x :| x in rest;
      r := InsertSorted(r, x);
      rest := rest - {x};
    }
  }
}
