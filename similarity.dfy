/**
 * The content-based recommender in swiggy_project/src/recommendation.py: a
 * query vector `[rating, 0, cost | city one-hot | cuisine-key one-hot]`,
 * a similarity score per restaurant, a hard filter on city, rating and
 * cost, and the `top_n` best scored rows projected to eight fields.
 * Cosine similarity is the function `similarity(query, i)`: the score of
 * row `i` of the encoded table against the query vector.
 */
module CosineRecommender {
  import opened Wrappers
  import opened Text
  import opened StringOrder
  import opened OneHot
  import opened Ranking
  import opened Restaurants

  // ---------------------------------------------------------------------------
  // The canonical cuisine key (lines 28 and 42)
  // ---------------------------------------------------------------------------

  /** Line 42: `[c.strip() for c in cuisine_text.split(",")]`. */
  function CuisineTerms(text: string): (terms: seq<string>)
    ensures |terms| >= 1
    ensures forall i :: 0 <= i < |terms| ==> IsStripped(terms[i]) && ',' !in terms[i]
  {
    var pieces := Split(text, ',');
    var terms := StripAll(pieces);
    forall i | 0 <= i < |terms|
      ensures ',' !in terms[i]
    {
      assert terms[i] == Strip(pieces[i]);
      assert ',' !in pieces[i];
    }
    terms
  }

  /** Line 28: `", ".join(sorted(set(cuisine_list)))`. */
  function CuisineKey(terms: seq<string>): string
  {
    Join(SortedSet(terms), ", ")
  }

  /** The key depends only on which terms there are: reordering or repeating them gives the same key. */
  lemma CuisineKeySameSet(a: seq<string>, b: seq<string>)
    requires forall t :: t in a <==> t in b
    ensures CuisineKey(a) == CuisineKey(b)
  {
    AscendingUnique(SortedSet(a), SortedSet(b));
  }

  /** Every part after the first preceded by the blank of the `", "` separator. */
  function Spaced(parts: seq<string>): (r: seq<string>)
    requires |parts| >= 1
    ensures |r| == |parts| && r[0] == parts[0]
    ensures forall i :: 1 <= i < |parts| ==> r[i] == " " + parts[i]
  {
    [parts[0]] + seq(|parts| - 1, i requires 0 <= i < |parts| - 1 => " " + parts[i + 1])
  }

  /** Joining with `", "` is joining the spaced parts with `","`. */
  lemma {:induction false} JoinCommaSpace(parts: seq<string>)
    requires |parts| >= 1
    ensures Join(parts, ", ") == Join(Spaced(parts), ",")
  {
    if |parts| > 1 {
      var tail := parts[1..];
      JoinCommaSpace(tail);
      var sp := Spaced(parts);
      assert sp[1..] == [" " + tail[0]] + Spaced(tail)[1..];
      JoinBlankFirst(Spaced(tail));
    }
  }

  /** A blank in front of the first part is a blank in front of the join. */
  lemma {:induction false} JoinBlankFirst(parts: seq<string>)
    requires |parts| >= 1
    ensures Join([" " + parts[0]] + parts[1..], ",") == " " + Join(parts, ",")
  {
    var p := [" " + parts[0]] + parts[1..];
    assert |p| == |parts| && p[0] == " " + parts[0] && p[1..] == parts[1..];
    if |parts| > 1 {
      var rest := Join(parts[1..], ",");
      assert Join(p, ",") == p[0] + "," + rest;
      assert Join(parts, ",") == parts[0] + "," + rest;
      assert p[0] + "," + rest == " " + (parts[0] + "," + rest);
    }
  }

  /** Stripping a blank-prefixed stripped term gives the term back. */
  lemma StripSpaced(t: string)
    requires IsStripped(t)
    ensures Strip(" " + t) == t
  {
    assert (" " + t)[1..] == t;
    assert LStrip(" " + t) == LStrip(t);
    StripStripped(t);
  }

  /**
   * The key holds its terms in strictly ascending order between `", "`
   * separators: splitting it on `,` and stripping the pieces gives back the
   * sorted distinct terms of the query.
   */
  lemma CuisineKeyTerms(text: string)
    ensures StripAll(Split(CuisineKey(CuisineTerms(text)), ',')) == SortedSet(CuisineTerms(text))
    ensures Ascending(SortedSet(CuisineTerms(text)))
  {
    var terms := CuisineTerms(text);
    var sorted := SortedSet(terms);
    assert terms[0] in sorted;
    forall i | 0 <= i < |sorted|
      ensures IsStripped(sorted[i]) && ',' !in sorted[i]
    {
      assert sorted[i] in terms;
    }
    JoinCommaSpace(sorted);
    var sp := Spaced(sorted);
    forall i | 0 <= i < |sp|
      ensures ',' !in sp[i]
    {
    }
    SplitJoin(sp, ',');
    forall i | 0 <= i < |sp|
      ensures Strip(sp[i]) == sorted[i]
    {
      if i == 0 {
        StripStripped(sorted[0]);
      } else {
        StripSpaced(sorted[i]);
      }
    }
  }

  // ---------------------------------------------------------------------------
  // build_user_vector (lines 21-36)
  // ---------------------------------------------------------------------------

  /** Lines 25-35: `[rating, 0, cost]`, the city one-hot, then the one-hot of the cuisine key. */
  function UserVector(cityCategories: seq<string>, cuisineKeys: seq<string>, city: string, terms: seq<string>,
                      rating: real, cost: real): (v: seq<real>)
    ensures |v| == 3 + |cityCategories| + |cuisineKeys|
    ensures v[..3] == [rating, 0.0, cost]
    ensures v[3..3 + |cityCategories|] == Encode(cityCategories, city)
    ensures v[3 + |cityCategories|..] == Encode(cuisineKeys, CuisineKey(terms))
  {
    var v := [rating, 0.0, cost] + Encode(cityCategories, city) + Encode(cuisineKeys, CuisineKey(terms));
    assert v[3..3 + |cityCategories|] == Encode(cityCategories, city);
    assert v[3 + |cityCategories|..] == Encode(cuisineKeys, CuisineKey(terms));
    v
  }

  /** The query vector does not change when the same cuisines are listed in another order or repeated. */
  lemma UserVectorSameSet(cityCategories: seq<string>, cuisineKeys: seq<string>, city: string,
                          a: seq<string>, b: seq<string>, rating: real, cost: real)
    requires forall t :: t in a <==> t in b
    ensures UserVector(cityCategories, cuisineKeys, city, a, rating, cost)
         == UserVector(cityCategories, cuisineKeys, city, b, rating, cost)
  {
    CuisineKeySameSet(a, b);
  }

  // ---------------------------------------------------------------------------
  // recommend (lines 39-67)
  // ---------------------------------------------------------------------------

  /** A restaurant with its similarity column (line 50). */
  datatype Scored = Scored(row: Restaurant, similarity: real)

  /** The eight columns handed back (lines 65-67). */
  datatype Listing = Listing(
    name: string,
    city: string,
    cuisine: Option<string>,
    rating: real,
    ratingCount: real,
    cost: real,
    address: string,
    link: string)

  datatype Query = Query(city: string, cuisineText: string, minRating: real, maxCost: real, topN: int)

  /** What the module loads: the cleaned table and the two fitted encoders' categories. */
  datatype Loaded = Loaded(
    rows: seq<Restaurant>,
    cityCategories: seq<string>,
    cuisineKeys: seq<string>,
    similarity: (seq<real>, nat) -> real)

  /** Line 44: the query vector, with the query's minimum rating and maximum cost as its numbers. */
  function QueryVector(data: Loaded, q: Query): seq<real>
  {
    UserVector(data.cityCategories, data.cuisineKeys, q.city, CuisineTerms(q.cuisineText), q.minRating, q.maxCost)
  }

  /** Lines 47-50: each restaurant next to its score against the query vector. */
  function WithScores(data: Loaded, q: Query): (s: seq<Scored>)
    ensures |s| == |data.rows|
    ensures forall i :: 0 <= i < |s| ==> s[i] == Scored(data.rows[i], data.similarity(QueryVector(data, q), i))
  {
    var v := QueryVector(data, q);
    seq(|data.rows|, i requires 0 <= i < |data.rows| => Scored(data.rows[i], data.similarity(v, i)))
  }

  /** Lines 53-57: exact city, rating at least the minimum, cost at most the maximum. */
  predicate Passes(s: Scored, q: Query) {
    s.row.city == q.city && s.row.rating >= q.minRating && s.row.cost <= q.maxCost
  }

  function Filter(s: seq<Scored>, q: Query): (r: seq<Scored>)
    ensures forall x :: x in r <==> x in s && Passes(x, q)
    ensures multiset(r) <= multiset(s)
    ensures r == [] <==> forall i :: 0 <= i < |s| ==> !Passes(s[i], q)
  {
    if s == [] then []
    else
      assert s == [s[0]] + s[1..];
      var rest := Filter(s[1..], q);
      if Passes(s[0], q) then [s[0]] + rest else rest
  }

  /** Lines 53-57: the scored rows that pass the filters. */
  function Candidates(data: Loaded, q: Query): seq<Scored>
  {
    Filter(WithScores(data, q), q)
  }

  /** Lines 50-57: filtering keeps each row next to its own score, and keeps exactly the rows that pass. */
  lemma CandidatesKeepScores(data: Loaded, q: Query)
    ensures forall x :: x in Candidates(data, q) ==>
      Passes(x, q) && exists i :: 0 <= i < |data.rows| && x == Scored(data.rows[i], data.similarity(QueryVector(data, q), i))
    ensures forall i :: 0 <= i < |data.rows| && Passes(WithScores(data, q)[i], q) ==>
      WithScores(data, q)[i] in Candidates(data, q)
  {
    var s := WithScores(data, q);
    forall x | x in Candidates(data, q)
      ensures exists i :: 0 <= i < |data.rows| && x == Scored(data.rows[i], data.similarity(QueryVector(data, q), i))
    {
      assert x in s;
      var i :| 0 <= i < |s| && s[i] == x;
    }
  }

  function BySimilarity(): Scored -> Rank
  {
    (s: Scored) => Rank(0, s.similarity)
  }

  /** Line 63: the `top_n` candidates of highest similarity. */
  function Ranked(data: Loaded, q: Query): seq<Scored>
  {
    Head(SortByRank(Candidates(data, q), BySimilarity()), q.topN)
  }

  function Project(s: Scored): Listing
  {
    Listing(s.row.name, s.row.city, s.row.cuisine, s.row.rating, s.row.ratingCount, s.row.cost,
            s.row.address, s.row.link)
  }

  /** `recommend(city, cuisine_text, min_rating, max_cost, top_n)`: empty when nothing passes the filters. */
  function Recommend(data: Loaded, q: Query): (res: seq<Listing>)
    ensures Candidates(data, q) == [] ==> res == []
  {
    var filtered := Candidates(data, q);
    if filtered == [] then []
    else
      var top := Ranked(data, q);
      seq(|top|, i requires 0 <= i < |top| => Project(top[i]))
  }

  /**
   * The result lists the best-scored candidates, highest similarity first,
   * as many as `head(top_n)` keeps, each projected to its eight fields.
   */
  lemma RecommendRanked(data: Loaded, q: Query)
    ensures var top := Ranked(data, q);
      && TopOf(top, Candidates(data, q), BySimilarity())
      && (forall i, j :: 0 <= i < j < |top| ==> top[i].similarity >= top[j].similarity)
      && |top| == HeadCount(|Candidates(data, q)|, q.topN)
      && |Recommend(data, q)| == |top|
      && forall i :: 0 <= i < |top| ==> Recommend(data, q)[i] == Project(top[i])
  {
    var top := Ranked(data, q);
    HeadOfSorted(Candidates(data, q), q.topN, BySimilarity());
    DescendingMinor(top, BySimilarity());
    if Candidates(data, q) == [] {
      assert top == [];
    }
  }

  /** Every listing returned is in the requested city, rated at least the minimum and at most the maximum cost. */
  lemma RecommendFiltered(data: Loaded, q: Query)
    ensures forall l :: l in Recommend(data, q) ==> l.city == q.city && l.rating >= q.minRating && l.cost <= q.maxCost
  {
    var top := Ranked(data, q);
    var cands := Candidates(data, q);
    var res := Recommend(data, q);
    if cands != [] {
      HeadOfSorted(cands, q.topN, BySimilarity());
      assert forall s :: s in top ==> Passes(s, q) by {
        forall s | s in top
          ensures Passes(s, q)
        {
          assert s in multiset(top);
          assert s in multiset(cands);
        }
      }
      forall l | l in res
        ensures l.city == q.city && l.rating >= q.minRating && l.cost <= q.maxCost
      {
        var i :| 0 <= i < |res| && res[i] == l;
        assert res[i] == Project(top[i]);
        assert top[i] in top;
      }
    }
  }
}
