/**
 * What a fitted `OneHotEncoder(handle_unknown="ignore")` does with one text
 * column: its categories are the sorted distinct values seen when fitting,
 * a known value becomes a vector with a single 1 at its category, and an
 * unseen value becomes the all-zero vector instead of an error.
 */
module OneHot {
  import opened StringOrder

  /** `fit`: the categories, sorted and without duplicates. */
  function Fit(values: seq<string>): (categories: seq<string>)
    ensures Ascending(categories)
    ensures forall v :: v in categories <==> v in values
  {
    SortedSet(values)
  }

  /** `transform([[v]])[0]`: 1.0 where the category is `v`, 0.0 elsewhere. */
  function Encode(categories: seq<string>, v: string): (vec: seq<real>)
    ensures |vec| == |categories|
    ensures forall i :: 0 <= i < |vec| ==> (vec[i] == 1.0 <==> categories[i] == v)
    ensures forall i :: 0 <= i < |vec| ==> vec[i] == 0.0 || vec[i] == 1.0
    ensures v !in categories ==> forall i :: 0 <= i < |vec| ==> vec[i] == 0.0
  {
    seq(|categories|, i requires 0 <= i < |categories| => if categories[i] == v then 1.0 else 0.0)
  }

  function Sum(vec: seq<real>): real
  {
    if vec == [] then 0.0 else vec[0] + Sum(vec[1..])
  }

  /** With distinct categories the encoding holds exactly one 1 for a known value and none for an unknown one. */
  lemma {:induction false} EncodeSum(categories: seq<string>, v: string)
    requires Ascending(categories)
    ensures Sum(Encode(categories, v)) == if v in categories then 1.0 else 0.0
  {
    if categories != [] {
      var tail := categories[1..];
      assert Ascending(tail);
      EncodeSum(tail, v);
      assert Encode(categories, v)[1..] == Encode(tail, v);
      if categories[0] == v {
        BelowIrreflexive(v);
        assert v !in tail;
      }
      assert v in categories <==> categories[0] == v || v in tail;
    }
  }

  /** `get_feature_names_out([prefix])`: one column name `prefix_category` per category. */
  function FeatureNames(prefix: string, categories: seq<string>): (names: seq<string>)
    ensures |names| == |categories|
    ensures forall i :: 0 <= i < |names| ==> names[i] == prefix + "_" + categories[i]
  {
    seq(|categories|, i requires 0 <= i < |categories| => prefix + "_" + categories[i])
  }
}
