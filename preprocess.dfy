/**
 * preprocess.py: the script cleans the raw table column by column (`Frame`),
 * builds the cuisine vocabulary, fills a multi-hot cuisine matrix in a nested
 * loop and lays out every encoded row as
 * `[city one-hot | cuisine multi-hot | rating, rating_count, cost]`.
 */
module Preprocess {
  import opened Wrappers
  import opened Text
  import opened StringOrder
  import opened RawData
  import opened OneHot

  /** Line 27: what a missing or unparsable cost becomes. */
  const MissingCost: real := 300.0

  /** A row of the table once lines 19-34 have run. */
  datatype CorpusRow = CorpusRow(
    city: string,
    cuisine: string,
    cuisineList: seq<string>,
    rating: real,
    ratingCount: real,
    cost: real)

  // ---------------------------------------------------------------------------
  // lines 19-34, one cell at a time
  // ---------------------------------------------------------------------------

  /** Line 31: `astype(str).str.lower().str.replace("&", ",")` after `astype(str)`. */
  function NormalizeCuisine(s: string): (r: string)
    ensures |r| == |s|
    ensures '&' !in r
    ensures forall c :: c in r ==> !IsUpper(c)
  {
    ReplaceChar(Lower(s), '&', ',')
  }

  /** Lines 31-34: every term of the list holds no `&`, no `,` and no upper-case letter, and the terms join back with `,`. */
  lemma CuisineListTerms(s: string)
    ensures Join(Split(NormalizeCuisine(s), ','), ",") == NormalizeCuisine(s)
    ensures forall i :: 0 <= i < |Split(NormalizeCuisine(s), ',')| ==>
      var t := Split(NormalizeCuisine(s), ',')[i];
      '&' !in t && ',' !in t && forall c :: c in t ==> !IsUpper(c)
  {
    var n := NormalizeCuisine(s);
    var parts := Split(n, ',');
    forall i | 0 <= i < |parts|
      ensures '&' !in parts[i] && forall c :: c in parts[i] ==> !IsUpper(c)
    {
      forall c | c in parts[i]
        ensures c in n
      {
      }
    }
  }

  class Frame {
    var rows: seq<RawRow>
    var cuisineLists: seq<seq<string>>

    constructor (raw: seq<RawRow>)
      ensures rows == raw && cuisineLists == []
    {
      rows := raw;
      cuisineLists := [];
    }

    /** Lines 19-20: rating becomes a number; missing or unparsable ones take the median. */
    method CoerceRating(parse: string -> Option<real>, median: real)
      modifies this
      ensures cuisineLists == old(cuisineLists) && |rows| == |old(rows)|
      ensures forall i :: 0 <= i < |rows| ==>
        rows[i] == old(rows[i]).(rating := Num(ToNumeric(old(rows[i]).rating, parse).GetOr(median)))
    {
      var t := rows;
      rows := seq(|t|, i requires 0 <= i < |t| => t[i].(rating := Num(ToNumeric(t[i].rating, parse).GetOr(median))));
    }

    /** Line 23: rating_count becomes a number, 0 where missing or unparsable. */
    method CoerceRatingCount(parse: string -> Option<real>)
      modifies this
      ensures cuisineLists == old(cuisineLists) && |rows| == |old(rows)|
      ensures forall i :: 0 <= i < |rows| ==>
        rows[i] == old(rows[i]).(ratingCount := Num(ToNumeric(old(rows[i]).ratingCount, parse).GetOr(0.0)))
    {
      var t := rows;
      rows := seq(|t|, i requires 0 <= i < |t| => t[i].(ratingCount := Num(ToNumeric(t[i].ratingCount, parse).GetOr(0.0))));
    }

    /** Lines 26-27: cost becomes a number, 300 where missing or unparsable. */
    method CoerceCost(parse: string -> Option<real>)
      modifies this
      ensures cuisineLists == old(cuisineLists) && |rows| == |old(rows)|
      ensures forall i :: 0 <= i < |rows| ==>
        rows[i] == old(rows[i]).(cost := Num(ToNumeric(old(rows[i]).cost, parse).GetOr(MissingCost)))
    {
      var t := rows;
      rows := seq(|t|, i requires 0 <= i < |t| => t[i].(cost := Num(ToNumeric(t[i].cost, parse).GetOr(MissingCost))));
    }

    /** Line 30: `astype(str).str.strip()`; the trailing `fillna` never fires, a missing city is "nan". */
    method StandardizeCity()
      modifies this
      ensures cuisineLists == old(cuisineLists) && |rows| == |old(rows)|
      ensures forall i :: 0 <= i < |rows| ==> rows[i] == old(rows[i]).(city := Some(Strip(AsText(old(rows[i]).city))))
    {
      var t := rows;
      rows := seq(|t|, i requires 0 <= i < |t| => t[i].(city := Some(Strip(AsText(t[i].city)))));
    }

    /** Line 31: lower-case the cuisine text and turn `&` into `,`. */
    method NormalizeCuisineColumn()
      modifies this
      ensures cuisineLists == old(cuisineLists) && |rows| == |old(rows)|
      ensures forall i :: 0 <= i < |rows| ==>
        rows[i] == old(rows[i]).(cuisine := Some(NormalizeCuisine(AsText(old(rows[i]).cuisine))))
    {
      var t := rows;
      rows := seq(|t|, i requires 0 <= i < |t| => t[i].(cuisine := Some(NormalizeCuisine(AsText(t[i].cuisine)))));
    }

    /** Line 34: the new column `cuisine_list`, the cuisine text split on `,`. */
    method SplitCuisine()
      requires forall i :: 0 <= i < |rows| ==> rows[i].cuisine.Some?
      modifies this
      ensures rows == old(rows)
      ensures |cuisineLists| == |rows|
      ensures forall i :: 0 <= i < |rows| ==> cuisineLists[i] == Split(rows[i].cuisine.value, ',')
    {
      var t := rows;
      cuisineLists := seq(|t|, i requires 0 <= i < |t| => Split(t[i].cuisine.value, ','));
    }
  }

  /** What lines 19-34 promise of the row `r` made from the raw row `d`. */
  predicate PreparedFrom(r: CorpusRow, d: RawRow, parse: string -> Option<real>, ratingMedian: real)
  {
    && r.rating == ToNumeric(d.rating, parse).GetOr(ratingMedian)
    && r.ratingCount == ToNumeric(d.ratingCount, parse).GetOr(0.0)
    && r.cost == ToNumeric(d.cost, parse).GetOr(MissingCost)
    && r.city == Strip(AsText(d.city))
    && r.cuisine == NormalizeCuisine(AsText(d.cuisine))
    && r.cuisineList == Split(r.cuisine, ',')
  }

  /** Lines 13-34 between reading the raw file and writing cleaned_data.csv. `ratingMedian` is `df["rating"].median()`. */
  method PrepareRows(raw: seq<RawRow>, parse: string -> Option<real>, ratingMedian: real) returns (corpus: seq<CorpusRow>)
    ensures |corpus| == |raw|
    ensures forall i :: 0 <= i < |raw| ==> PreparedFrom(corpus[i], raw[i], parse, ratingMedian)
  {
    var frame := new Frame(raw);
    frame.CoerceRating(parse, ratingMedian);
    frame.CoerceRatingCount(parse);
    frame.CoerceCost(parse);
    frame.StandardizeCity();
    frame.NormalizeCuisineColumn();
    frame.SplitCuisine();
    var t, lists := frame.rows, frame.cuisineLists;
    assert |lists| == |t|;
    assert forall i :: 0 <= i < |t| ==> t[i].rating.Num? && t[i].ratingCount.Num? && t[i].cost.Num?;
    assert forall i :: 0 <= i < |t| ==> t[i].city.Some? && t[i].cuisine.Some?;
    corpus := seq(|t|, i requires 0 <= i < |t| =>
      CorpusRow(t[i].city.value, t[i].cuisine.value, lists[i], t[i].rating.x, t[i].ratingCount.x, t[i].cost.x));
  }

  // ---------------------------------------------------------------------------
  // lines 50-56: the cuisine vocabulary
  // ---------------------------------------------------------------------------

  /** Some term of `list`, once stripped, is `t`. */
  predicate HasTerm(list: seq<string>, t: string) {
    t in StripAll(list)
  }

  /** The non-empty strings of `ts`, in order. */
  function NonEmpty(ts: seq<string>): (r: seq<string>)
    ensures forall t :: t in r <==> t in ts && t != ""
  {
    if ts == [] then []
    else
      assert ts == [ts[0]] + ts[1..];
      (if ts[0] != "" then [ts[0]] else []) + NonEmpty(ts[1..])
  }

  /** The non-empty stripped terms of all rows, in row order. */
  function AllTerms(lists: seq<seq<string>>): (ts: seq<string>)
    ensures forall t :: t in ts <==> t != "" && exists i :: 0 <= i < |lists| && HasTerm(lists[i], t)
  {
    if lists == [] then []
    else
      var rest := AllTerms(lists[1..]);
      AllTermsStep(lists, rest);
      NonEmpty(StripAll(lists[0])) + rest
  }

  lemma AllTermsStep(lists: seq<seq<string>>, rest: seq<string>)
    requires lists != []
    requires forall t :: t in rest <==> t != "" && exists i :: 0 <= i < |lists[1..]| && HasTerm(lists[1..][i], t)
    ensures forall t :: t in NonEmpty(StripAll(lists[0])) + rest <==>
      t != "" && exists i :: 0 <= i < |lists| && HasTerm(lists[i], t)
  {
    forall t | t != "" && exists i :: 0 <= i < |lists| && HasTerm(lists[i], t)
      ensures t in NonEmpty(StripAll(lists[0])) + rest
    {
      var i :| 0 <= i < |lists| && HasTerm(lists[i], t);
      if i > 0 {
        assert lists[1..][i - 1] == lists[i];
      }
    }
    forall t | t in rest
      ensures exists i :: 0 <= i < |lists| && HasTerm(lists[i], t)
    {
      var i :| 0 <= i < |lists[1..]| && HasTerm(lists[1..][i], t);
      assert lists[i + 1] == lists[1..][i];
    }
  }

  /**
   * `all_cuisines`: sorted, no duplicates, no empty string, every entry stripped,
   * and exactly the non-empty stripped terms that occur in some row's list.
   */
  function Vocabulary(lists: seq<seq<string>>): (vocab: seq<string>)
    ensures Ascending(vocab)
    ensures "" !in vocab
    ensures forall t :: t in vocab ==> IsStripped(t)
    ensures forall t :: t in vocab <==> t != "" && exists i :: 0 <= i < |lists| && HasTerm(lists[i], t)
  {
    var vocab := SortedSet(AllTerms(lists));
    assert forall t :: t in vocab ==> IsStripped(t) by {
      forall t | t in vocab
        ensures IsStripped(t)
      {
        var i :| 0 <= i < |lists| && HasTerm(lists[i], t);
        var k :| 0 <= k < |lists[i]| && StripAll(lists[i])[k] == t;
      }
    }
    vocab
  }

  // ---------------------------------------------------------------------------
  // lines 62-69: the multi-hot matrix
  // ---------------------------------------------------------------------------

  /** Position of `x` in `s`, `|s|` when absent (the `c in df_cuisine.columns` lookup). */
  function IndexOf(s: seq<string>, x: string): (k: nat)
    ensures k <= |s|
    ensures k < |s| ==> s[k] == x
    ensures k == |s| ==> x !in s
  {
    if s == [] then 0 else if s[0] == x then 0 else 1 + IndexOf(s[1..], x)
  }

  /** Cell `[i][j]` of the matrix: 1 when vocabulary entry `t` is one of the row's stripped terms. */
  function MultiHotCell(list: seq<string>, t: string): int
  {
    if HasTerm(list, t) then 1 else 0
  }

  /**
   * Lines 63-69: a zero matrix of rows by vocabulary, then a 1 for every stripped term
   * of every row that is a vocabulary column.
   */
  method CuisineMatrix(lists: seq<seq<string>>) returns (vocab: seq<string>, m: array2<int>)
    ensures vocab == Vocabulary(lists)
    ensures m.Length0 == |lists| && m.Length1 == |vocab|
    ensures forall i, j :: 0 <= i < |lists| && 0 <= j < |vocab| ==>
      m[i, j] == (if HasTerm(lists[i], vocab[j]) then 1 else 0)
  {
    vocab := Vocabulary(lists);
    AscendingDistinct(vocab);
    m := new int[|lists|, |vocab|]((_, _) => 0);
    var i := 0;
    while i < |lists|
      invariant 0 <= i <= |lists|
      invariant forall a, b :: 0 <= a < i && 0 <= b < |vocab| ==> m[a, b] == MultiHotCell(lists[a], vocab[b])
      invariant forall a, b :: i <= a < |lists| && 0 <= b < |vocab| ==> m[a, b] == 0
    {
      var row := lists[i];
      var k := 0;
      while k < |row|
        invariant 0 <= k <= |row|
        invariant forall a, b :: 0 <= a < i && 0 <= b < |vocab| ==> m[a, b] == MultiHotCell(lists[a], vocab[b])
        invariant forall a, b :: i < a < |lists| && 0 <= b < |vocab| ==> m[a, b] == 0
        invariant forall b :: 0 <= b < |vocab| ==> m[i, b] == MultiHotCell(row[..k], vocab[b])
      {
        var c := Strip(row[k]);
        var j := IndexOf(vocab, c);
        if j < |vocab| {
          m[i, j] := 1;
        }
        forall b | 0 <= b < |vocab|
          ensures HasTerm(row[..k + 1], vocab[b]) <==> HasTerm(row[..k], vocab[b]) || c == vocab[b]
        {
          TermsOfLonger(row, k, vocab[b]);
        }
        k := k + 1;
      }
      assert row[..|row|] == row;
      i := i + 1;
    }
  }

  lemma TermsOfLonger(row: seq<string>, k: nat, t: string)
    requires k < |row|
    ensures HasTerm(row[..k + 1], t) <==> HasTerm(row[..k], t) || Strip(row[k]) == t
  {
    var a, b := StripAll(row[..k + 1]), StripAll(row[..k]);
    if t in a {
      var q :| 0 <= q < |a| && a[q] == t;
      if q < k {
        assert a[q] == Strip(row[q]) == b[q];
      }
    }
    if t in b {
      var q :| 0 <= q < |b| && b[q] == t;
      assert a[q] == Strip(row[q]) == b[q];
    }
    if Strip(row[k]) == t {
      assert a[k] == t;
    }
  }

  // ---------------------------------------------------------------------------
  // lines 42-46 and 71-80: the encoded table
  // ---------------------------------------------------------------------------

  /** The columns of encoded_data.csv, in order. */
  function EncodedColumns(cityCategories: seq<string>, vocab: seq<string>): (cols: seq<string>)
    ensures |cols| == |cityCategories| + |vocab| + 3
  {
    FeatureNames("city", cityCategories) + vocab + ["rating", "rating_count", "cost"]
  }

  /** One row of encoded_data.csv: city one-hot, then the cuisine multi-hot, then rating, rating_count, cost. */
  function EncodedRow(cityCategories: seq<string>, vocab: seq<string>, r: CorpusRow): (v: seq<real>)
    ensures |v| == |cityCategories| + |vocab| + 3
    ensures v[..|cityCategories|] == Encode(cityCategories, r.city)
    ensures forall j :: 0 <= j < |vocab| ==>
      v[|cityCategories| + j] == (if HasTerm(r.cuisineList, vocab[j]) then 1.0 else 0.0)
    ensures v[|cityCategories| + |vocab|..] == [r.rating, r.ratingCount, r.cost]
  {
    var hot := seq(|vocab|, j requires 0 <= j < |vocab| => MultiHotCell(r.cuisineList, vocab[j]) as real);
    var v := Encode(cityCategories, r.city) + hot + [r.rating, r.ratingCount, r.cost];
    assert v[..|cityCategories|] == Encode(cityCategories, r.city);
    assert v[|cityCategories| + |vocab|..] == [r.rating, r.ratingCount, r.cost];
    v
  }

  /** What the script writes: the fitted city categories, cuisine_list.pkl and encoded_data.csv. */
  datatype Encoded = Encoded(
    cityCategories: seq<string>,
    vocabulary: seq<string>,
    columns: seq<string>,
    table: seq<seq<real>>)

  function Cities(corpus: seq<CorpusRow>): seq<string>
  {
    seq(|corpus|, i requires 0 <= i < |corpus| => corpus[i].city)
  }

  function CuisineLists(corpus: seq<CorpusRow>): seq<seq<string>>
  {
    seq(|corpus|, i requires 0 <= i < |corpus| => corpus[i].cuisineList)
  }

  /** Lines 45-80: fit the city encoder, build the vocabulary and the matrix, and concatenate. */
  method EncodeCorpus(corpus: seq<CorpusRow>) returns (enc: Encoded)
    ensures enc.cityCategories == Fit(Cities(corpus))
    ensures enc.vocabulary == Vocabulary(CuisineLists(corpus))
    ensures enc.columns == EncodedColumns(enc.cityCategories, enc.vocabulary)
    ensures |enc.table| == |corpus|
    ensures forall i :: 0 <= i < |corpus| ==> enc.table[i] == EncodedRow(enc.cityCategories, enc.vocabulary, corpus[i])
  {
    var cats := Fit(Cities(corpus));
    var vocab, m := CuisineMatrix(CuisineLists(corpus));
    var table := seq(|corpus|, i requires 0 <= i < |corpus| reads m =>
      Encode(cats, corpus[i].city)
      + seq(|vocab|, j requires 0 <= j < |vocab| reads m =>
              if i < m.Length0 && j < m.Length1 then m[i, j] as real else 0.0)
      + [corpus[i].rating, corpus[i].ratingCount, corpus[i].cost]);
    forall i | 0 <= i < |corpus|
      ensures table[i] == EncodedRow(cats, vocab, corpus[i])
    {
      var e := EncodedRow(cats, vocab, corpus[i]);
      assert CuisineLists(corpus)[i] == corpus[i].cuisineList;
      assert table[i][..|cats|] == e[..|cats|];
      assert table[i][|cats| + |vocab|..] == e[|cats| + |vocab|..];
      forall q | |cats| <= q < |cats| + |vocab|
        ensures table[i][q] == e[q]
      {
        assert e[|cats| + (q - |cats|)] == e[q];
      }
      assert forall q :: 0 <= q < |e| ==> table[i][q] == e[q];
    }
    enc := Encoded(cats, vocab, EncodedColumns(cats, vocab), table);
  }

  /** The whole script: lines 13-80 without the file reads and writes. */
  method RunPreprocess(raw: seq<RawRow>, parse: string -> Option<real>, ratingMedian: real)
    returns (corpus: seq<CorpusRow>, enc: Encoded)
    ensures |corpus| == |raw| && |enc.table| == |raw|
    ensures forall i :: 0 <= i < |raw| ==> PreparedFrom(corpus[i], raw[i], parse, ratingMedian)
    ensures Ascending(enc.vocabulary) && Ascending(enc.cityCategories)
    ensures forall i :: 0 <= i < |raw| ==>
      |enc.table[i]| == |enc.cityCategories| + |enc.vocabulary| + 3
      && enc.table[i] == EncodedRow(enc.cityCategories, enc.vocabulary, corpus[i])
  {
    corpus := PrepareRows(raw, parse, ratingMedian);
    enc := EncodeCorpus(corpus);
  }
}
