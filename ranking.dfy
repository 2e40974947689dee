/**
 * Ordering rows for a recommendation: a descending sort on a two-part key
 * (pandas `sort_values(..., ascending=False)`), and `DataFrame.head(n)`.
 * `TopOf` states what "the first n rows of the sorted candidates" means
 * without depending on how ties are broken.
 */
module Ranking {

  /** A sort key compared lexicographically: `major` first, then `minor`. */
  datatype Rank = Rank(major: int, minor: real)

  /** `a` may come before `b` in a descending sort. */
  predicate Outranks(a: Rank, b: Rank) {
    a.major > b.major || (a.major == b.major && a.minor >= b.minor)
  }

  predicate Descending<T>(s: seq<T>, rank: T -> Rank) {
    forall i, j :: 0 <= i < j < |s| ==> Outranks(rank(s[i]), rank(s[j]))
  }

  /** Puts `x` in front of the first element it outranks. */
  function InsertByRank<T>(x: T, s: seq<T>, rank: T -> Rank): (r: seq<T>)
    requires Descending(s, rank)
    ensures Descending(r, rank)
    ensures multiset(r) == multiset(s) + multiset{x}
  {
    if s == [] || Outranks(rank(x), rank(s[0])) then
      [x] + s
    else
      var rest := InsertByRank(x, s[1..], rank);
      assert s == [s[0]] + s[1..];
      InsertedBelowHead(x, s, rest, rank);
      [s[0]] + rest
  }

  lemma InsertedBelowHead<T>(x: T, s: seq<T>, rest: seq<T>, rank: T -> Rank)
    requires s != [] && Descending(s, rank) && !Outranks(rank(x), rank(s[0]))
    requires Descending(rest, rank) && multiset(rest) == multiset(s[1..]) + multiset{x}
    ensures Descending([s[0]] + rest, rank)
  {
    forall j | 0 <= j < |rest|
      ensures Outranks(rank(s[0]), rank(rest[j]))
    {
      assert rest[j] in multiset(rest);
      if rest[j] != x {
        assert rest[j] in multiset(s[1..]);
        assert rest[j] in s[1..];
      }
    }
  }

  /** Insertion sort, descending by `rank`. */
  function SortByRank<T>(s: seq<T>, rank: T -> Rank): (r: seq<T>)
    ensures Descending(r, rank)
    ensures multiset(r) == multiset(s)
  {
    if s == [] then []
    else
      assert s == [s[0]] + s[1..];
      InsertByRank(s[0], SortByRank(s[1..], rank), rank)
  }

  /** How many rows `head(n)` keeps of `len`: `min(n, len)`, or `max(len + n, 0)` for negative `n`. */
  function HeadCount(len: nat, n: int): nat
  {
    if n >= 0 then (if n <= len then n else len) else (if len + n >= 0 then len + n else 0)
  }

  /** pandas `DataFrame.head(n)`: the first `n` rows, or all but the last `-n` when `n` is negative. */
  function Head<T>(s: seq<T>, n: int): (r: seq<T>)
    ensures |r| == HeadCount(|s|, n)
    ensures r == s[..|r|]
  {
    if n >= 0 then (if n <= |s| then s[..n] else s)
    else if |s| + n >= 0 then s[..|s| + n]
    else []
  }

  /**
   * `r` is a top slice of `pool`: ordered by `rank`, drawn from `pool`, and every
   * row of `pool` left out is outranked by every row kept.
   */
  ghost predicate TopOf<T>(r: seq<T>, pool: seq<T>, rank: T -> Rank) {
    && Descending(r, rank)
    && multiset(r) <= multiset(pool)
    && forall x, y :: x in r && y in multiset(pool) - multiset(r) ==> Outranks(rank(x), rank(y))
  }

  /** The head of the sorted candidates is a top slice of the candidates, whatever `n` is. */
  lemma HeadOfSorted<T>(s: seq<T>, n: int, rank: T -> Rank)
    ensures TopOf(Head(SortByRank(s, rank), n), s, rank)
  {
    var t := SortByRank(s, rank);
    var h := Head(t, n);
    PrefixOfDescending(t, |h|, rank);
  }

  /** A prefix of a descending sequence is a top slice of it. */
  lemma PrefixOfDescending<T>(t: seq<T>, m: nat, rank: T -> Rank)
    requires m <= |t| && Descending(t, rank)
    ensures TopOf(t[..m], t, rank)
  {
    var h, rest := t[..m], t[m..];
    assert t == h + rest;
    assert multiset(t) == multiset(h) + multiset(rest);
    assert multiset(t) - multiset(h) == multiset(rest);
    forall x, y | x in h && y in multiset(t) - multiset(h)
      ensures Outranks(rank(x), rank(y))
    {
      assert y in rest;
      var i :| 0 <= i < m && h[i] == x;
      var j :| 0 <= j < |rest| && rest[j] == y;
      assert t[i] == x && t[m + j] == y;
    }
  }

  /** Ranks that differ only in `minor` order rows by `minor` alone. */
  lemma DescendingMinor<T>(s: seq<T>, rank: T -> Rank)
    requires Descending(s, rank)
    requires forall i :: 0 <= i < |s| ==> rank(s[i]).major == 0
    ensures forall i, j :: 0 <= i < j < |s| ==> rank(s[i]).minor >= rank(s[j]).minor
  {
  }
}
