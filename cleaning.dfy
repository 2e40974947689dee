/**
 * `clean_data()` in clean_data.py: the raw table is cleaned in place, one step
 * (one column) at a time. `CleanFrame` holds the table; each method is one
 * pandas statement and says exactly what the table is afterwards.
 * `show` stands for Python's `str` of a float (`astype(str)` on a number),
 * and `parse` for `pd.to_numeric` on one piece of text.
 */
module Cleaning {
  import opened Wrappers
  import opened Text
  import opened RawData

  // ---------------------------------------------------------------------------
  // drop_duplicates(): keep the first occurrence of every row, in order
  // ---------------------------------------------------------------------------

  /** The rows of `s` without repeats, each at the place of its first occurrence. */
  function Dedup(s: seq<RawRow>): (r: seq<RawRow>)
    ensures forall i, j :: 0 <= i < j < |r| ==> r[i] != r[j]
    ensures forall x :: x in r <==> x in s
  {
    if s == [] then []
    else
      var d := Dedup(s[..|s| - 1]);
      assert forall x :: x in s <==> x in s[..|s| - 1] || x == s[|s| - 1] by {
        assert s == s[..|s| - 1] + [s[|s| - 1]];
      }
      if s[|s| - 1] in d then d else d + [s[|s| - 1]]
  }

  /** The index of the first occurrence of `x` in `s`. */
  function FirstIndex<T(==)>(s: seq<T>, x: T): (k: nat)
    requires x in s
    ensures k < |s| && s[k] == x
    ensures forall i :: 0 <= i < k ==> s[i] != x
  {
    if s[0] == x then 0 else 1 + FirstIndex(s[1..], x)
  }

  /** Deduplication keeps rows in the order of their first occurrences. */
  lemma {:induction false} DedupKeepsFirstOrder(s: seq<RawRow>)
    ensures forall i, j :: 0 <= i < j < |Dedup(s)| ==> FirstIndex(s, Dedup(s)[i]) < FirstIndex(s, Dedup(s)[j])
  {
    if s != [] {
      var p, last := s[..|s| - 1], s[|s| - 1];
      DedupKeepsFirstOrder(p);
      var d, r := Dedup(p), Dedup(s);
      assert s == p + [last];
      forall x | x in p
        ensures FirstIndex(s, x) == FirstIndex(p, x)
      {
        FirstIndexOfPrefix(p, last, x);
      }
      if last !in d {
        assert last !in p;
        assert FirstIndex(s, last) == |s| - 1;
        forall i, j | 0 <= i < j < |r|
          ensures FirstIndex(s, r[i]) < FirstIndex(s, r[j])
        {
          assert r[i] == d[i] && r[i] in p;
          if j < |d| {
            assert r[j] == d[j] && r[j] in p;
          }
        }
      } else {
        forall i, j | 0 <= i < j < |r|
          ensures FirstIndex(s, r[i]) < FirstIndex(s, r[j])
        {
          assert r[i] in p && r[j] in p;
        }
      }
    }
  }

  lemma FirstIndexOfPrefix<T>(p: seq<T>, last: T, x: T)
    requires x in p
    ensures FirstIndex(p + [last], x) == FirstIndex(p, x)
  {
    var s := p + [last];
    var k := FirstIndex(p, x);
    assert s[k] == x;
    var m := FirstIndex(s, x);
    assert m <= k;
    assert m < |p| && p[m] == x;
  }

  // ---------------------------------------------------------------------------
  // the cost column, lines 17-26
  // ---------------------------------------------------------------------------

  /** `.str.replace("₹", "").str.replace(",", "").str.strip()`. */
  function CleanCostText(s: string): (r: string)
    ensures '\U{20B9}' !in r && ',' !in r
    ensures IsStripped(r)
    ensures forall c :: c in r ==> c in s
  {
    Strip(RemoveChar(RemoveChar(s, '\U{20B9}'), ','))
  }

  /** Line 20 on one cell: `astype(str)` writes a number with `show` and NaN as "nan". */
  function CostText(c: Cell, show: real -> string): string
  {
    match c
    case Text(s) => s
    case Num(x) => show(x)
    case Missing => "nan"
  }

  /** Lines 18-24 on one cell: every cost becomes text, cleaned of `₹`, `,` and surrounding whitespace. */
  function StripCost(c: Cell, show: real -> string): (r: Cell)
    ensures r.Text? && IsStripped(r.s) && '\U{20B9}' !in r.s && ',' !in r.s
    ensures c.Text? ==> r == Text(CleanCostText(c.s))
    ensures c.Num? ==> r == Text(CleanCostText(show(c.x)))
    ensures c.Missing? ==> r == Text("nan")
  {
    CleanNan();
    Text(CleanCostText(CostText(c, show)))
  }

  /**
   * The number `cost` ends up as (lines 18-26): the parse of its cleaned text,
   * or the median when that text does not parse.
   */
  function CostValue(raw: Cell, parse: string -> Option<real>, show: real -> string, median: real): (v: real)
    ensures raw.Text? ==> v == parse(CleanCostText(raw.s)).GetOr(median)
    ensures raw.Num? ==> v == parse(CleanCostText(show(raw.x))).GetOr(median)
    ensures raw.Missing? ==> v == parse(CleanCostText("nan")).GetOr(median)
  {
    ToNumeric(StripCost(raw, show), parse).GetOr(median)
  }

  /**
   * When `to_numeric` reads "nan" as NaN and reads back every number `str`
   * writes, a numeric cost keeps its value and a missing one takes the median.
   */
  lemma CostValueRoundTrip(raw: Cell, parse: string -> Option<real>, show: real -> string, median: real)
    requires parse("nan") == None
    requires raw.Num? ==> parse(CleanCostText(show(raw.x))) == Some(raw.x)
    ensures raw.Num? ==> CostValue(raw, parse, show, median) == raw.x
    ensures raw.Missing? ==> CostValue(raw, parse, show, median) == median
  {
    CleanNan();
  }

  /** "nan" has nothing to clean. */
  lemma CleanNan()
    ensures CleanCostText("nan") == "nan"
  {
    var nan := "nan";
    assert nan == ['n', 'a', 'n'];
    assert '\U{20B9}' !in nan && ',' !in nan && IsStripped(nan);
    AlreadyClean(nan);
  }

  /** Text without `₹`, without `,` and without surrounding whitespace is already clean. */
  lemma AlreadyClean(s: string)
    requires '\U{20B9}' !in s && ',' !in s && IsStripped(s)
    ensures CleanCostText(s) == s
  {
    RemoveAbsent(s, '\U{20B9}');
    RemoveAbsent(s, ',');
    StripStripped(s);
  }

  /** Line 25 on one cell: a parsed number, or NaN. */
  function NumericCell(c: Cell, parse: string -> Option<real>): (r: Cell)
    ensures r.Num? || r.Missing?
    ensures c.Num? ==> r == c
    ensures c.Missing? ==> r == Missing
    ensures c.Text? ==> (r.Num? <==> parse(c.s).Some?)
    ensures c.Text? && parse(c.s).Some? ==> r == Num(parse(c.s).value)
  {
    match ToNumeric(c, parse)
    case Some(v) => Num(v)
    case None => Missing
  }

  /** `fillna(d)` on one cell. */
  function FillCell(c: Cell, d: real): Cell
  {
    if c.Missing? then Num(d) else c
  }

  /** Lines 35-36 on one cell: `pd.to_numeric(..., errors="coerce").fillna(0)`. */
  function NumberOrZero(c: Cell, parse: string -> Option<real>): (r: Cell)
    ensures r.Num?
    ensures c.Num? ==> r == c
    ensures c.Missing? ==> r == Num(0.0)
    ensures c.Text? && parse(c.s).None? ==> r == Num(0.0)
    ensures c.Text? && parse(c.s).Some? ==> r == Num(parse(c.s).value)
  {
    Num(ToNumeric(c, parse).GetOr(0.0))
  }

  // ---------------------------------------------------------------------------
  // the table, cleaned in place
  // ---------------------------------------------------------------------------

  class CleanFrame {
    var rows: seq<RawRow>

    constructor (raw: seq<RawRow>)
      ensures rows == raw
    {
      rows := raw;
    }

    /** Line 15: `df.drop_duplicates(inplace=True)`. */
    method DropDuplicates()
      modifies this
      ensures rows == Dedup(old(rows))
    {
      var kept: seq<RawRow> := [];
      for i := 0 to |rows|
        invariant kept == Dedup(rows[..i])
      {
        assert rows[..i + 1][..i] == rows[..i];
        if rows[i] !in kept {
          kept := kept + [rows[i]];
        }
      }
      assert rows[..|rows|] == rows;
      rows := kept;
    }

    /** Lines 18-24: clean the cost text. */
    method StripCostText(show: real -> string)
      modifies this
      ensures |rows| == |old(rows)|
      ensures forall i :: 0 <= i < |rows| ==> rows[i] == old(rows[i]).(cost := StripCost(old(rows[i]).cost, show))
    {
      var t := rows;
      rows := seq(|t|, i requires 0 <= i < |t| => t[i].(cost := StripCost(t[i].cost, show)));
    }

    /** Line 25: `df["cost"] = pd.to_numeric(df["cost"], errors="coerce")`. */
    method CostToNumeric(parse: string -> Option<real>)
      modifies this
      ensures |rows| == |old(rows)|
      ensures forall i :: 0 <= i < |rows| ==> rows[i] == old(rows[i]).(cost := NumericCell(old(rows[i]).cost, parse))
    {
      var t := rows;
      rows := seq(|t|, i requires 0 <= i < |t| => t[i].(cost := NumericCell(t[i].cost, parse)));
    }

    /** Line 26: `df["cost"].fillna(median, inplace=True)`; the median is the library's, passed in. */
    method FillCostMedian(median: real)
      modifies this
      ensures |rows| == |old(rows)|
      ensures forall i :: 0 <= i < |rows| ==> rows[i] == old(rows[i]).(cost := FillCell(old(rows[i]).cost, median))
    {
      var t := rows;
      rows := seq(|t|, i requires 0 <= i < |t| => t[i].(cost := FillCell(t[i].cost, median)));
    }

    /** Line 29: `df["cuisine"] = df["cuisine"].fillna("").astype(str)`. */
    method FillCuisine()
      modifies this
      ensures |rows| == |old(rows)|
      ensures forall i :: 0 <= i < |rows| ==> rows[i] == old(rows[i]).(cuisine := Some(old(rows[i]).cuisine.GetOr("")))
    {
      var t := rows;
      rows := seq(|t|, i requires 0 <= i < |t| => t[i].(cuisine := Some(t[i].cuisine.GetOr(""))));
    }

    /** Line 32: `df["city"] = df["city"].fillna("Unknown")`. */
    method FillCity()
      modifies this
      ensures |rows| == |old(rows)|
      ensures forall i :: 0 <= i < |rows| ==> rows[i] == old(rows[i]).(city := Some(old(rows[i]).city.GetOr("Unknown")))
    {
      var t := rows;
      rows := seq(|t|, i requires 0 <= i < |t| => t[i].(city := Some(t[i].city.GetOr("Unknown"))));
    }

    /** Lines 35-36: rating and rating_count become numbers, 0 where missing or unparsable. */
    method CoerceRatings(parse: string -> Option<real>)
      modifies this
      ensures |rows| == |old(rows)|
      ensures forall i :: 0 <= i < |rows| ==>
        rows[i] == old(rows[i]).(rating := NumberOrZero(old(rows[i]).rating, parse),
                                 ratingCount := NumberOrZero(old(rows[i]).ratingCount, parse))
    {
      var t := rows;
      rows := seq(|t|, i requires 0 <= i < |t| =>
        t[i].(rating := NumberOrZero(t[i].rating, parse), ratingCount := NumberOrZero(t[i].ratingCount, parse)));
    }
  }

  /**
   * The whole of `clean_data()` between reading and writing the file. `costMedian`
   * stands for `df["cost"].median()` of the parsed costs.
   */
  method CleanData(raw: seq<RawRow>, parse: string -> Option<real>, show: real -> string, costMedian: real)
    returns (cleaned: seq<RawRow>)
    ensures |cleaned| == |Dedup(raw)|
    ensures forall i :: 0 <= i < |cleaned| ==> CleanedFrom(cleaned[i], Dedup(raw)[i], parse, show, costMedian)
  {
    var frame := new CleanFrame(raw);
    frame.DropDuplicates();
    frame.StripCostText(show);
    frame.CostToNumeric(parse);
    frame.FillCostMedian(costMedian);
    frame.FillCuisine();
    frame.FillCity();
    frame.CoerceRatings(parse);
    cleaned := frame.rows;
  }

  /** What the cleaning promises of each kept row `r` made from the raw row `d`. */
  predicate CleanedFrom(r: RawRow, d: RawRow, parse: string -> Option<real>, show: real -> string, costMedian: real)
  {
    // text columns: filled, never missing
    && r.city == Some(d.city.GetOr("Unknown"))
    && r.cuisine == Some(d.cuisine.GetOr(""))
    // cost: a number, the median where the cleaned text does not parse or the cell was missing
    && r.cost == Num(CostValue(d.cost, parse, show, costMedian))
    // rating and rating_count: numbers, 0 where missing or unparsable
    && r.rating == Num(ToNumeric(d.rating, parse).GetOr(0.0))
    && r.ratingCount == Num(ToNumeric(d.ratingCount, parse).GetOr(0.0))
    // untouched columns
    && r.name == d.name && r.address == d.address && r.link == d.link
  }
}
