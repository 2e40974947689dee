/**
 * The Streamlit application's logic (swiggy_project/src/app.py) without its
 * user interface: the cuisine list and cuisine columns derived at load time,
 * the query vector, and the cluster-aware recommendation with its fallback.
 * The K-Means model is the function `predict` from a query vector to a
 * cluster id, and each row's cluster id is read from the table.
 */
module App {
  import opened Wrappers
  import opened Text
  import opened StringOrder
  import opened OneHot
  import opened Ranking
  import opened Restaurants
  import Preprocess

  // ---------------------------------------------------------------------------
  // load_all_data: the cuisine list (lines 31-37)
  // ---------------------------------------------------------------------------

  /** The terms one cuisine cell adds: each comma-separated piece, stripped and lower-cased; none for a missing cell. */
  function CellTerms(cell: Option<string>): (terms: seq<string>)
    ensures forall j :: 0 <= j < |terms| ==> IsStripped(terms[j]) && Lower(terms[j]) == terms[j]
    ensures cell.None? ==> terms == []
    ensures cell.Some? ==> |terms| == |Split(cell.value, ',')|
    ensures cell.Some? ==> forall j :: 0 <= j < |terms| ==> terms[j] == Lower(Strip(Split(cell.value, ',')[j]))
  {
    match cell
    case None => []
    case Some(text) => PieceTerms(Split(text, ','))
  }

  /** `c.strip().lower()` for each piece `c`. */
  function PieceTerms(pieces: seq<string>): (terms: seq<string>)
    ensures |terms| == |pieces|
    ensures forall j :: 0 <= j < |terms| ==> terms[j] == Lower(Strip(pieces[j]))
    ensures forall j :: 0 <= j < |terms| ==> IsStripped(terms[j]) && Lower(terms[j]) == terms[j]
  {
    var terms := seq(|pieces|, j requires 0 <= j < |pieces| => Lower(Strip(pieces[j])));
    forall j | 0 <= j < |terms|
      ensures IsStripped(terms[j]) && Lower(terms[j]) == terms[j]
    {
      LowerOfStripped(Strip(pieces[j]));
    }
    terms
  }

  /** Lower-casing keeps a stripped string stripped, and lower-casing twice changes nothing more. */
  lemma LowerOfStripped(s: string)
    requires IsStripped(s)
    ensures IsStripped(Lower(s))
    ensures Lower(Lower(s)) == Lower(s)
  {
  }

  function Elements(s: seq<string>): (r: set<string>)
    ensures forall t :: t in r <==> t in s
  {
    set i | 0 <= i < |s| :: s[i]
  }

  /** One more element of `s` adds exactly that element. */
  lemma ElementsOfLonger(s: seq<string>, j: nat)
    requires j < |s|
    ensures Elements(s[..j + 1]) == Elements(s[..j]) + {s[j]}
  {
    assert s[..j + 1] == s[..j] + [s[j]];
  }

  /** `cuisine_set` after the loop has seen `rows`. */
  function TableTerms(rows: seq<Restaurant>): set<string>
  {
    if rows == [] then {}
    else TableTerms(rows[..|rows| - 1]) + Elements(CellTerms(rows[|rows| - 1].cuisine))
  }

  /** A term is collected exactly when some row's cuisine cell yields it. */
  lemma {:induction false} TableTermsAre(rows: seq<Restaurant>, t: string)
    ensures t in TableTerms(rows) <==> exists k :: 0 <= k < |rows| && t in CellTerms(rows[k].cuisine)
  {
    if rows != [] {
      var init := rows[..|rows| - 1];
      TableTermsAre(init, t);
      if t in TableTerms(init) {
        var k :| 0 <= k < |init| && t in CellTerms(init[k].cuisine);
        assert rows[k] == init[k];
      }
      if exists k :: 0 <= k < |rows| && t in CellTerms(rows[k].cuisine) {
        var k :| 0 <= k < |rows| && t in CellTerms(rows[k].cuisine);
        if k < |init| {
          assert rows[k] == init[k];
        }
      }
    }
  }

  /** Lines 33-35 for one cell: add each stripped, lower-cased piece of a text cell; skip a missing one. */
  method AddCellTerms(seen: set<string>, cell: Option<string>) returns (grown: set<string>)
    ensures grown == seen + Elements(CellTerms(cell))
  {
    grown := seen;
    if cell.Some? {
      var pieces := Split(cell.value, ',');
      ghost var terms := PieceTerms(pieces);
      for j := 0 to |pieces|
        invariant grown == seen + Elements(terms[..j])
      {
        grown := grown + {Lower(Strip(pieces[j]))};
        ElementsOfLonger(terms, j);
      }
      assert terms[..|pieces|] == terms;
    }
  }

  /**
   * Lines 31-37: collect every term into a set, then sort it. The result is
   * ascending (so it holds no duplicates), holds exactly the terms of the
   * table's cuisine cells, and each of them is stripped and lower-case.
   */
  method CuisineList(rows: seq<Restaurant>) returns (list: seq<string>)
    ensures Ascending(list)
    ensures forall t :: t in list <==> t in TableTerms(rows)
    ensures forall t :: t in list ==> IsStripped(t) && Lower(t) == t
  {
    var seen: set<string> := {};
    for i := 0 to |rows|
      invariant seen == TableTerms(rows[..i])
    {
      seen := AddCellTerms(seen, rows[i].cuisine);
      assert rows[..i + 1][..i] == rows[..i];
    }
    assert rows[..|rows|] == rows;
    list := SortSet(seen);
    forall t | t in list
      ensures IsStripped(t) && Lower(t) == t
    {
      TableTermsAre(rows, t);
      var k :| 0 <= k < |rows| && t in CellTerms(rows[k].cuisine);
      var q :| 0 <= q < |CellTerms(rows[k].cuisine)| && CellTerms(rows[k].cuisine)[q] == t;
    }
  }

  // ---------------------------------------------------------------------------
  // load_all_data: the cuisine columns (lines 39-42)
  // ---------------------------------------------------------------------------

  /** The city one-hot column names and the three numeric column names. */
  function NonCuisineColumns(cityCategories: seq<string>): (names: set<string>)
    ensures forall c :: c in names <==> c in FeatureNames("city", cityCategories) || c in ["rating", "rating_count", "cost"]
  {
    set c | c in FeatureNames("city", cityCategories) + ["rating", "rating_count", "cost"]
  }

  /** `[c for c in columns if c not in non_cuisine_cols]`. */
  function CuisineColumns(columns: seq<string>, cityCategories: seq<string>): (cols: seq<string>)
    ensures forall c :: c in cols <==> c in columns && c !in NonCuisineColumns(cityCategories)
    ensures |cols| <= |columns|
  {
    if columns == [] then []
    else
      var rest := CuisineColumns(columns[1..], cityCategories);
      assert columns == [columns[0]] + columns[1..];
      if columns[0] in NonCuisineColumns(cityCategories) then rest else [columns[0]] + rest
  }

  /** The filter distributes over concatenation, so it keeps the columns' order. */
  lemma {:induction false} CuisineColumnsConcat(a: seq<string>, b: seq<string>, cityCategories: seq<string>)
    ensures CuisineColumns(a + b, cityCategories) == CuisineColumns(a, cityCategories) + CuisineColumns(b, cityCategories)
  {
    if a != [] {
      assert (a + b)[0] == a[0] && (a + b)[1..] == a[1..] + b;
      CuisineColumnsConcat(a[1..], b, cityCategories);
    } else {
      assert a + b == b;
    }
  }

  lemma {:induction false} CuisineColumnsNone(columns: seq<string>, cityCategories: seq<string>)
    requires forall c :: c in columns ==> c in NonCuisineColumns(cityCategories)
    ensures CuisineColumns(columns, cityCategories) == []
  {
    if columns != [] {
      assert columns[0] in columns;
      CuisineColumnsNone(columns[1..], cityCategories);
    }
  }

  lemma {:induction false} CuisineColumnsAll(columns: seq<string>, cityCategories: seq<string>)
    requires forall c :: c in columns ==> c !in NonCuisineColumns(cityCategories)
    ensures CuisineColumns(columns, cityCategories) == columns
  {
    if columns != [] {
      assert columns[0] in columns;
      CuisineColumnsAll(columns[1..], cityCategories);
      assert columns == [columns[0]] + columns[1..];
    }
  }

  /**
   * On the columns of encoded_data.csv the filter gives back the cuisine
   * vocabulary in its own order, as long as no cuisine term is spelt like a
   * city column or a numeric column.
   */
  lemma CuisineColumnsOfEncoded(cityCategories: seq<string>, vocab: seq<string>)
    requires forall t :: t in vocab ==> t !in NonCuisineColumns(cityCategories)
    ensures CuisineColumns(Preprocess.EncodedColumns(cityCategories, vocab), cityCategories) == vocab
  {
    var cityNames := FeatureNames("city", cityCategories);
    var numeric := ["rating", "rating_count", "cost"];
    assert Preprocess.EncodedColumns(cityCategories, vocab) == cityNames + vocab + numeric;
    CuisineColumnsConcat(cityNames + vocab, numeric, cityCategories);
    CuisineColumnsConcat(cityNames, vocab, cityCategories);
    CuisineColumnsNone(cityNames, cityCategories);
    CuisineColumnsNone(numeric, cityCategories);
    CuisineColumnsAll(vocab, cityCategories);
  }

  // ---------------------------------------------------------------------------
  // build_user_vector (lines 54-79)
  // ---------------------------------------------------------------------------

  function LowerAll(cols: seq<string>): (r: seq<string>)
    ensures |r| == |cols|
    ensures forall i :: 0 <= i < |cols| ==> r[i] == Lower(cols[i])
  {
    seq(|cols|, i requires 0 <= i < |cols| => Lower(cols[i]))
  }

  /**
   * The query vector: the city one-hot, then a 1 at every cuisine column
   * whose lower-cased name is the lower-cased, stripped cuisine asked for,
   * then `[min_rating, 0, max_cost]`.
   */
  function UserVector(cityCategories: seq<string>, cuisineCols: seq<string>, city: string, cuisine: string,
                      minRating: real, maxCost: real): seq<real>
  {
    Encode(cityCategories, city) + Encode(LowerAll(cuisineCols), Strip(Lower(cuisine))) + [minRating, 0.0, maxCost]
  }

  /** The layout of the query vector, entry by entry. */
  lemma UserVectorLayout(cityCategories: seq<string>, cuisineCols: seq<string>, city: string, cuisine: string,
                         minRating: real, maxCost: real)
    ensures var v := UserVector(cityCategories, cuisineCols, city, cuisine, minRating, maxCost);
      && |v| == |cityCategories| + |cuisineCols| + 3
      && v[..|cityCategories|] == Encode(cityCategories, city)
      && (forall i :: 0 <= i < |cuisineCols| ==>
            (v[|cityCategories| + i] == if Strip(Lower(cuisine)) == Lower(cuisineCols[i]) then 1.0 else 0.0))
      && v[|cityCategories| + |cuisineCols|..] == [minRating, 0.0, maxCost]
  {
    var a := Encode(cityCategories, city);
    var b := Encode(LowerAll(cuisineCols), Strip(Lower(cuisine)));
    var v := a + b + [minRating, 0.0, maxCost];
    assert v[..|a|] == a;
    assert v[|a| + |b|..] == [minRating, 0.0, maxCost];
    forall i | 0 <= i < |cuisineCols|
      ensures v[|a| + i] == if Strip(Lower(cuisine)) == Lower(cuisineCols[i]) then 1.0 else 0.0
    {
      assert v[|a| + i] == b[i];
    }
  }

  /** When the cuisine columns are distinct lower-case names, the query marks at most one of them. */
  lemma UserVectorOneCuisine(cuisineCols: seq<string>, cuisine: string)
    requires Ascending(cuisineCols)
    requires forall c :: c in cuisineCols ==> Lower(c) == c
    ensures Sum(Encode(LowerAll(cuisineCols), Strip(Lower(cuisine))))
         == if Strip(Lower(cuisine)) in cuisineCols then 1.0 else 0.0
  {
    assert LowerAll(cuisineCols) == cuisineCols;
    EncodeSum(cuisineCols, Strip(Lower(cuisine)));
  }

  /** Lines 61-79: fill the cuisine part of the vector column by column in a zeroed array. */
  method BuildUserVector(cityCategories: seq<string>, cuisineCols: seq<string>, city: string, cuisine: string,
                         minRating: real, maxCost: real) returns (v: seq<real>)
    ensures v == UserVector(cityCategories, cuisineCols, city, cuisine, minRating, maxCost)
  {
    var hot := new real[|cuisineCols|](_ => 0.0);
    var target := Strip(Lower(cuisine));
    for i := 0 to |cuisineCols|
      invariant forall k :: 0 <= k < i ==> hot[k] == if target == Lower(cuisineCols[k]) then 1.0 else 0.0
      invariant forall k :: i <= k < |cuisineCols| ==> hot[k] == 0.0
    {
      if target == Lower(cuisineCols[i]) {
        hot[i] := 1.0;
      }
    }
    assert hot[..] == Encode(LowerAll(cuisineCols), target);
    v := Encode(cityCategories, city) + hot[..] + [minRating, 0.0, maxCost];
  }

  // ---------------------------------------------------------------------------
  // recommend (lines 86-142)
  // ---------------------------------------------------------------------------

  /** What load_all_data hands to `recommend`, with the K-Means model as `predict`. */
  datatype Loaded = Loaded(
    rows: seq<Restaurant>,
    cityCategories: seq<string>,
    cuisineCols: seq<string>,
    hasCluster: bool,
    predict: seq<real> -> int)

  datatype Query = Query(city: string, cuisine: string, minRating: real, maxCost: real, topN: int)

  /** The rows handed back and whether they come from the fallback. */
  datatype Recommendation = Recommendation(rows: seq<Restaurant>, fallback: bool)

  /**
   * Lines 106-111: same city ignoring case, cuisine text containing the
   * requested cuisine ignoring case (a missing cuisine never matches),
   * rating at least the minimum, cost at most the maximum.
   */
  predicate Matches(r: Restaurant, q: Query) {
    && Lower(r.city) == Lower(q.city)
    && r.cuisine.Some? && Contains(Lower(r.cuisine.value), Lower(q.cuisine))
    && r.rating >= q.minRating
    && r.cost <= q.maxCost
  }

  /** `df[mask]`: the matching rows in table order. */
  function Matching(rows: seq<Restaurant>, q: Query): (r: seq<Restaurant>)
    ensures forall x :: x in r <==> x in rows && Matches(x, q)
    ensures multiset(r) <= multiset(rows)
    ensures r == [] <==> forall i :: 0 <= i < |rows| ==> !Matches(rows[i], q)
  {
    if rows == [] then []
    else
      assert rows == [rows[0]] + rows[1..];
      var rest := Matching(rows[1..], q);
      if Matches(rows[0], q) then [rows[0]] + rest else rest
  }

  /** `df[df["cluster"] == c]`: the rows of cluster `c` in table order. */
  function InCluster(rows: seq<Restaurant>, c: int): (r: seq<Restaurant>)
    ensures forall x :: x in r <==> x in rows && x.cluster == c
    ensures multiset(r) <= multiset(rows)
    ensures r == [] <==> forall i :: 0 <= i < |rows| ==> rows[i].cluster != c
  {
    if rows == [] then []
    else
      assert rows == [rows[0]] + rows[1..];
      var rest := InCluster(rows[1..], c);
      if rows[0].cluster == c then [rows[0]] + rest else rest
  }

  /** Lines 99-100: the user's cluster is the model's prediction for the query vector. */
  function UserCluster(data: Loaded, q: Query): int
  {
    data.predict(UserVector(data.cityCategories, data.cuisineCols, q.city, q.cuisine, q.minRating, q.maxCost))
  }

  /** Lines 118-128: `same_cluster` (1 for the user's cluster, 0 otherwise or without a cluster column) first, then rating. */
  function ClusterRank(userCluster: int, hasCluster: bool): Restaurant -> Rank
  {
    (r: Restaurant) => Rank(if hasCluster && r.cluster == userCluster then 1 else 0, r.rating)
  }

  /** Line 141: rating alone. */
  function ByRating(): Restaurant -> Rank
  {
    (r: Restaurant) => Rank(0, r.rating)
  }

  /** Lines 133-136: the fallback candidates. */
  function FallbackPool(data: Loaded, userCluster: int): (pool: seq<Restaurant>)
    ensures forall x :: x in pool <==> x in data.rows && (data.hasCluster ==> x.cluster == userCluster)
    ensures multiset(pool) <= multiset(data.rows)
  {
    if data.hasCluster then InCluster(data.rows, userCluster) else data.rows
  }

  /** `recommend(city, cuisine, min_rating, max_cost, top_n)`. */
  function Recommend(data: Loaded, q: Query): (res: Recommendation)
    ensures multiset(res.rows) <= multiset(data.rows)
  {
    var c := UserCluster(data, q);
    var filtered := Matching(data.rows, q);
    if filtered != [] then
      var sorted := SortByRank(filtered, ClusterRank(c, data.hasCluster));
      HeadIsPrefix(sorted, q.topN);
      Recommendation(Head(sorted, q.topN), false)
    else
      var pool := FallbackPool(data, c);
      if pool == [] then
        Recommendation(pool, true)
      else
        var sorted := SortByRank(pool, ByRating());
        HeadIsPrefix(sorted, q.topN);
        Recommendation(Head(sorted, q.topN), true)
  }

  /** The rows `head(n)` keeps are, as a multiset, at most the rows it is given. */
  lemma HeadIsPrefix(s: seq<Restaurant>, n: int)
    ensures multiset(Head(s, n)) <= multiset(s)
  {
    var h := Head(s, n);
    assert s == h + s[|h|..];
  }

  /** The fallback flag is raised exactly when no row passes the filters. */
  lemma RecommendFlag(data: Loaded, q: Query)
    ensures Recommend(data, q).fallback <==> forall i :: 0 <= i < |data.rows| ==> !Matches(data.rows[i], q)
  {
  }

  /**
   * Lines 115-130: with matches, every row returned passes the filters, the
   * rows come in `same_cluster`-then-rating order, they are the best of the
   * matches, and there are as many as `head(top_n)` keeps.
   */
  lemma RecommendMatches(data: Loaded, q: Query)
    requires exists i :: 0 <= i < |data.rows| && Matches(data.rows[i], q)
    ensures var res := Recommend(data, q);
      && !res.fallback
      && (forall r :: r in res.rows ==> Matches(r, q))
      && TopOf(res.rows, Matching(data.rows, q), ClusterRank(UserCluster(data, q), data.hasCluster))
      && |res.rows| == HeadCount(|Matching(data.rows, q)|, q.topN)
  {
    var c := UserCluster(data, q);
    var filtered := Matching(data.rows, q);
    var i :| 0 <= i < |data.rows| && Matches(data.rows[i], q);
    assert data.rows[i] in filtered;
    HeadOfSorted(filtered, q.topN, ClusterRank(c, data.hasCluster));
    var res := Recommend(data, q);
    forall r | r in res.rows
      ensures Matches(r, q)
    {
      assert r in multiset(res.rows);
      assert r in multiset(filtered);
    }
  }

  /**
   * Lines 132-142: without matches, the result is flagged as a fallback,
   * drawn from the user's cluster (or from every row when the table has no
   * cluster column), the highest-rated first and best of that pool.
   */
  lemma RecommendFallback(data: Loaded, q: Query)
    requires forall i :: 0 <= i < |data.rows| ==> !Matches(data.rows[i], q)
    ensures var res := Recommend(data, q);
      var pool := FallbackPool(data, UserCluster(data, q));
      && res.fallback
      && TopOf(res.rows, pool, ByRating())
      && (forall i, j :: 0 <= i < j < |res.rows| ==> res.rows[i].rating >= res.rows[j].rating)
      && |res.rows| == HeadCount(|pool|, q.topN)
      && (data.hasCluster ==> forall r :: r in res.rows ==> r.cluster == UserCluster(data, q))
  {
    RecommendFlag(data, q);
    var c := UserCluster(data, q);
    var pool := FallbackPool(data, c);
    var res := Recommend(data, q);
    if pool != [] {
      HeadOfSorted(pool, q.topN, ByRating());
      DescendingMinor(res.rows, ByRating());
      if data.hasCluster {
        forall r | r in res.rows
          ensures r.cluster == c
        {
          assert r in multiset(res.rows);
          assert r in multiset(pool);
        }
      }
    }
  }

  /**
   * Lines 118-128: with matches and a cluster column, the rows of the user's
   * cluster come first, each group by rating descending; and when some match
   * is in the user's cluster and `head` keeps a row, the first row is one of them.
   */
  lemma ClusterFirst(data: Loaded, q: Query)
    requires exists i :: 0 <= i < |data.rows| && Matches(data.rows[i], q)
    requires data.hasCluster
    ensures var res := Recommend(data, q).rows; var c := UserCluster(data, q);
      && (forall i, j :: 0 <= i < j < |res| && res[j].cluster == c ==> res[i].cluster == c)
      && (forall i, j :: 0 <= i < j < |res| && (res[i].cluster == c <==> res[j].cluster == c) ==>
            res[i].rating >= res[j].rating)
      && ((exists y :: y in data.rows && Matches(y, q) && y.cluster == c) && res != [] ==> res[0].cluster == c)
  {
    RecommendMatches(data, q);
    var res := Recommend(data, q).rows;
    var c := UserCluster(data, q);
    var filtered := Matching(data.rows, q);
    assert TopOf(res, filtered, ClusterRank(c, data.hasCluster));
    ClusterTop(res, filtered, c);
  }

  /** A top slice by `ClusterRank` with a cluster column puts the cluster first, each group by rating. */
  lemma ClusterTop(res: seq<Restaurant>, pool: seq<Restaurant>, c: int)
    requires TopOf(res, pool, ClusterRank(c, true))
    ensures forall i, j :: 0 <= i < j < |res| && res[j].cluster == c ==> res[i].cluster == c
    ensures forall i, j :: 0 <= i < j < |res| && (res[i].cluster == c <==> res[j].cluster == c) ==>
      res[i].rating >= res[j].rating
    ensures (exists y :: y in pool && y.cluster == c) && res != [] ==> res[0].cluster == c
  {
    var rank := ClusterRank(c, true);
    forall i, j | 0 <= i < j < |res|
      ensures (res[j].cluster == c ==> res[i].cluster == c)
      ensures (res[i].cluster == c <==> res[j].cluster == c) ==> res[i].rating >= res[j].rating
    {
      ClusterOrder(c, res[i], res[j]);
    }
    if (exists y :: y in pool && y.cluster == c) && res != [] {
      var y :| y in pool && y.cluster == c;
      assert res[0] in res;
      if y in res {
        var j :| 0 <= j < |res| && res[j] == y;
        if j > 0 {
          ClusterOrder(c, res[0], res[j]);
        }
      } else {
        assert y in multiset(pool) - multiset(res);
        ClusterOrder(c, res[0], y);
      }
    }
  }

  /** How a `ClusterRank` comparison with a cluster column orders two rows. */
  lemma ClusterOrder(c: int, a: Restaurant, b: Restaurant)
    requires Outranks(ClusterRank(c, true)(a), ClusterRank(c, true)(b))
    ensures b.cluster == c ==> a.cluster == c
    ensures (a.cluster == c <==> b.cluster == c) ==> a.rating >= b.rating
  {
  }

  /** Lines 138-139: no match and nobody in the user's cluster gives an empty fallback. */
  lemma RecommendNothing(data: Loaded, q: Query)
    requires forall i :: 0 <= i < |data.rows| ==> !Matches(data.rows[i], q)
    requires data.hasCluster
    requires forall i :: 0 <= i < |data.rows| ==> data.rows[i].cluster != UserCluster(data, q)
    ensures Recommend(data, q) == Recommendation([], true)
  {
  }
}
