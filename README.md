# Swiggy restaurant recommender: a Dafny model

This project models in Dafny the data path of the Swiggy restaurant recommender. The raw restaurant table is cleaned and encoded into a numeric table. A user's query (city, cuisine, minimum rating, maximum cost, `top_n`) then becomes a ranked list of restaurants. Dafny proves the properties of that model.

The model has these parts:

- **Row cleaning** (`clean_data.py`), module `Cleaning`.
  - `CleanFrame` holds the table and changes it in place, one step per method.
  - Its steps are duplicate removal, cost-text cleanup, `to_numeric` and the missing-value defaults.
- **Corpus encoding** (`preprocess.py`), module `Preprocess`.
  - `Frame` coerces and normalises the columns in place.
  - `Vocabulary` is the sorted cuisine vocabulary.
  - `CuisineMatrix` fills a zeroed `array2` in the script's nested loop.
  - `EncodedRow` lays out `[city one-hot | cuisine multi-hot | rating, rating_count, cost]`.
- **The Streamlit app's logic** (`app.py`), module `App`.
  - `CuisineList` grows a set of cuisine terms in a nested loop and sorts it.
  - `CuisineColumns` is the filter that computes `cuisine_cols`.
  - `BuildUserVector` fills a zeroed array.
  - `Recommend` is the cluster-aware recommendation with its fallback.
- **The cosine-similarity recommender** (`recommendation.py`), module `CosineRecommender`.
  - The canonical cuisine key `", ".join(sorted(set(terms)))`.
  - The vector `[rating, 0, cost | city | cuisine key]`.
  - The city/rating/cost filter, the top-N by similarity and the eight-field projection.
- **Shared modules.**
  - `Text`: Python's `strip` (Python's whitespace set), `lower` (ASCII letters), `split`, `join`, `in` on strings and `replace` on one character.
  - `StringOrder`: Python's `<` on strings and `sorted(set(...))`.
  - `Ranking`: a descending sort on a two-part key, and `DataFrame.head(n)`, including negative `n`.
  - `OneHot`: a fitted `OneHotEncoder(handle_unknown="ignore")`. Its categories are the sorted distinct values. A known value encodes to a single 1. An unknown value encodes to all zeros.
  - `RawData`: raw cells, which are text, a number or NaN.
  - `Restaurants`: the cleaned row that the recommenders read back.

Inputs that the code gets from libraries become parameters:

- `pd.to_numeric` on text is `parse: string -> Option<real>`.
- Python's `str` of a float (what `astype(str)` makes of a numeric cost) is `show: real -> string`.
- Medians are plain `real` parameters.
- The K-Means model is `predict: seq<real> -> int`. Each row's cluster id is a field.
- Cosine similarity is `similarity(query, i)`, the score of encoded row `i`.

Where a sort's tie order would matter, the contracts state `Ranking.TopOf` instead. `TopOf` has three parts:

- The result is in descending order by the sort key.
- It is drawn from the candidates. As a multiset, it is at most the candidates.
- Every candidate left out is outranked by every row kept.

A `Rank(major, minor)` key compares `major` first and then `minor`:

- In `App.ClusterRank`, `major` is `same_cluster`, which is 1 when the row's cluster is the user's cluster. `minor` is the rating.
- In `App.ByRating`, only the rating counts.
- In `CosineRecommender.BySimilarity`, only the similarity counts.

The model follows pandas 2.x. In particular, a chained `df[col].fillna(value, inplace=True)` updates `df` (`clean_data.py:26`, `preprocess.py:20`, `preprocess.py:27`). Under pandas 3's copy-on-write these statements would leave `df` unchanged.

Three facts about the code shape the model:

- Without a `cluster` column, the fallback is every row, sorted by rating (`app.py:133-136`).
- The sorts use pandas' defaults, and the cosine score is taken over the full encoded row.
- Cleaning (`clean_data.py`) is part of the model.

## Model

| member | source | states |
|---|---|---|
| Cleaning.Dedup | swiggy_project/src/clean_data.py:15 | no two kept rows are equal, and a row is kept iff it occurs in the input |
| Cleaning.DedupKeepsFirstOrder | swiggy_project/src/clean_data.py:15 | the kept rows are in the order of their first occurrences in the input |
| Cleaning.CleanFrame.DropDuplicates | swiggy_project/src/clean_data.py:15 | the table becomes the de-duplicated old table; the loop keeps the deduplication of the prefix read so far |
| Cleaning.CleanCostText | swiggy_project/src/clean_data.py:18-24 | the cleaned cost text has no `₹` and no `,`, no leading or trailing whitespace, and only characters of the original |
| Cleaning.StripCost | swiggy_project/src/clean_data.py:18-24 | every cost cell becomes the cleaned text of its own text, of `str` of its number, or `"nan"` for NaN; that text has no `₹`, no `,` and no surrounding whitespace |
| Cleaning.CostValue | swiggy_project/src/clean_data.py:18-26 | the final cost is the parse of the cleaned text of the cell (its own text, `str` of its number, or `"nan"`), or the median when that does not parse |
| Cleaning.CostValueRoundTrip | swiggy_project/src/clean_data.py:18-26 | when `to_numeric` reads `str(x)` back as `x` and `"nan"` as NaN, a numeric cost keeps its value and a missing one takes the median |
| Cleaning.CleanNan | swiggy_project/src/clean_data.py:20-24 | the text `"nan"` that a missing cost becomes passes the cleanup unchanged |
| Cleaning.AlreadyClean | swiggy_project/src/clean_data.py:21-23 | text with no `₹`, no `,` and no surrounding whitespace is left as it is by the cleanup |
| Cleaning.CleanFrame.StripCostText | swiggy_project/src/clean_data.py:18-24 | only the cost column changes, every cell to the text cell `StripCost` makes of it |
| Cleaning.NumericCell | swiggy_project/src/clean_data.py:25 | `to_numeric(errors="coerce")` on one cell: a number stays, NaN stays NaN, text becomes its parsed number when it parses and NaN otherwise |
| Cleaning.CleanFrame.CostToNumeric | swiggy_project/src/clean_data.py:25 | only the cost column changes, to the parsed number or NaN |
| Cleaning.CleanFrame.FillCostMedian | swiggy_project/src/clean_data.py:26 | only the cost column changes, NaN cells to the median |
| Cleaning.CleanFrame.FillCuisine | swiggy_project/src/clean_data.py:29 | only the cuisine column changes, a missing cuisine to `""` |
| Cleaning.CleanFrame.FillCity | swiggy_project/src/clean_data.py:32 | only the city column changes, a missing city to `"Unknown"` |
| Cleaning.NumberOrZero | swiggy_project/src/clean_data.py:35-36 | `to_numeric(errors="coerce").fillna(0)` on one cell: always a number; a number stays, text that parses becomes its parsed number, NaN and unparsable text become 0 |
| Cleaning.CleanFrame.CoerceRatings | swiggy_project/src/clean_data.py:35-36 | only rating and rating_count change, to their parsed number or 0 |
| Cleaning.CleanData | swiggy_project/src/clean_data.py:15-36 | one output row per de-duplicated input row, in order; each has city and cuisine filled, a numeric cost (parsed or the median), numeric rating and rating_count (parsed or 0), and its other fields unchanged |
| Preprocess.Frame.CoerceRating | swiggy_project/src/preprocess.py:19-20 | only rating changes, to its parsed number or the median |
| Preprocess.Frame.CoerceRatingCount | swiggy_project/src/preprocess.py:23 | only rating_count changes, to its parsed number or 0 |
| Preprocess.Frame.CoerceCost | swiggy_project/src/preprocess.py:26-27 | only cost changes, to its parsed number or 300 |
| Preprocess.Frame.StandardizeCity | swiggy_project/src/preprocess.py:30 | only city changes, to the stripped text of the cell ("nan" for a missing one) |
| Preprocess.Frame.NormalizeCuisineColumn | swiggy_project/src/preprocess.py:31 | only cuisine changes, to its lower-cased text with `&` turned into `,` |
| Preprocess.Frame.SplitCuisine | swiggy_project/src/preprocess.py:34 | the rows stay; the new cuisine_list column is each cuisine split on `,` |
| Preprocess.NormalizeCuisine | swiggy_project/src/preprocess.py:31 | the normalised cuisine has the same length, no `&` and no upper-case ASCII letter |
| Preprocess.CuisineListTerms | swiggy_project/src/preprocess.py:31-34 | each term of the cuisine list has no `&`, no `,` and no upper-case letter, and the terms joined with `,` give the normalised cuisine back |
| Preprocess.PrepareRows | swiggy_project/src/preprocess.py:19-34 | one prepared row per raw row, with numeric defaults (median rating, 0 rating_count, 300 cost), the stripped city, the normalised cuisine and its split list |
| Preprocess.NonEmpty | swiggy_project/src/preprocess.py:55 | keeps exactly the non-empty strings |
| Preprocess.AllTerms | swiggy_project/src/preprocess.py:51-56 | holds exactly the non-empty stripped terms of some row's list |
| Preprocess.Vocabulary | swiggy_project/src/preprocess.py:51-56 | strictly ascending, no empty string, every entry stripped, and a string is in it iff it is non-empty and some row's stripped terms contain it |
| Preprocess.IndexOf | swiggy_project/src/preprocess.py:68 | the lookup of a term among the vocabulary columns: its position if present, the length if absent |
| Preprocess.CuisineMatrix | swiggy_project/src/preprocess.py:63-69 | a rows-by-vocabulary matrix whose cell `[i, j]` is 1 iff vocabulary entry `j` is one of row `i`'s stripped terms, 0 otherwise |
| Preprocess.TermsOfLonger | swiggy_project/src/preprocess.py:66-69 | one more piece of a row adds exactly its stripped form to the row's terms |
| Preprocess.EncodedColumns | swiggy_project/src/preprocess.py:73-80 | the encoded table has `n_city + |vocab| + 3` columns |
| Preprocess.EncodedRow | swiggy_project/src/preprocess.py:73-80 | an encoded row is the city one-hot, then 1/0 per vocabulary entry by term membership, then rating, rating_count, cost |
| Preprocess.EncodeCorpus | swiggy_project/src/preprocess.py:45-80 | the city categories are the fitted sorted distinct cities, the vocabulary is `Vocabulary` of the lists, and each table row is the encoded row of its corpus row |
| Preprocess.RunPreprocess | swiggy_project/src/preprocess.py:19-80 | each prepared row follows from its raw row, both category lists are ascending, and every encoded row has the layout and width above |
| OneHot.Fit | swiggy_project/src/preprocess.py:45-46 | the city categories are ascending and are exactly the values seen |
| OneHot.Encode | swiggy_project/src/preprocess.py:45-46 | the encoding has one entry per category, each 0 or 1; an entry is 1 iff its category is the value; an unknown value gives all zeros |
| OneHot.EncodeSum | swiggy_project/src/preprocess.py:45 | over distinct categories the encoding sums to 1 for a known value and 0 for an unknown one |
| OneHot.FeatureNames | swiggy_project/src/app.py:40 | one name per category, in order, each `city_` followed by the category |
| StringOrder.SortedSet | swiggy_project/src/preprocess.py:51 | `sorted({...})` is strictly ascending and holds exactly the given elements |
| StringOrder.AscendingUnique | swiggy_project/src/recommendation.py:28 | two ascending sequences with the same elements are equal, so `sorted(set(...))` depends only on the set |
| StringOrder.SortSet | swiggy_project/src/app.py:37 | `sorted(list(cuisine_set))` is ascending and holds exactly the set's elements |
| Text.Strip | swiggy_project/src/clean_data.py:23 | the stripped string has no whitespace at either end and only characters of the input |
| Text.StripIsRun | swiggy_project/src/clean_data.py:23 | `strip` removes only whitespace, from the ends: the result is the run of the input between the dropped leading and trailing whitespace |
| Text.Split | swiggy_project/src/preprocess.py:34 | `split` gives at least one piece, no piece holds the separator, and the pieces join back to the input |
| Text.SplitJoin | swiggy_project/src/preprocess.py:34 | splitting a join undoes it when no part holds the separator |
| Text.Lower | swiggy_project/src/app.py:67 | same length, each character lower-cased, no upper-case letter left |
| Text.RemoveChar | swiggy_project/src/clean_data.py:21-22 | the character is gone, and as a multiset the result is the input with every copy of that character removed |
| Text.RemoveCharConcat | swiggy_project/src/clean_data.py:21-22 | removal distributes over concatenation, so the other characters keep their order |
| Text.RemoveAbsent | swiggy_project/src/clean_data.py:21-22 | removing a character that does not occur changes nothing |
| Text.ReplaceChar | swiggy_project/src/preprocess.py:31 | same length; each occurrence of the replaced character becomes the replacement, the rest stays |
| App.CellTerms | swiggy_project/src/app.py:33-35 | a missing cell adds nothing; a text cell adds one term per comma-separated piece, the piece stripped and lower-cased, so each term is stripped and lower-case |
| App.TableTermsAre | swiggy_project/src/app.py:31-35 | a term is in `cuisine_set` iff some row's cuisine cell yields it |
| App.AddCellTerms | swiggy_project/src/app.py:33-35 | the inner loop adds exactly the cell's terms to the set |
| App.CuisineList | swiggy_project/src/app.py:31-37 | `cuisine_list` is strictly ascending, holds exactly the terms of the table's cuisine cells, and each is stripped and lower-case |
| App.CuisineColumns | swiggy_project/src/app.py:42 | a column is kept iff it is an encoded column and not a city or numeric one |
| App.CuisineColumnsConcat | swiggy_project/src/app.py:42 | the filter distributes over concatenation, so column order is preserved |
| App.CuisineColumnsOfEncoded | swiggy_project/src/app.py:39-42 | on the encoded table's columns, `cuisine_cols` is exactly the cuisine vocabulary in order, provided no term is spelt like a city or numeric column |
| App.UserVectorLayout | swiggy_project/src/app.py:61-78 | the query vector has `n_city + |cuisine_cols| + 3` entries: the city one-hot, then entry `i` is 1 iff `strip(lower(cuisine)) == lower(cuisine_cols[i])`, else 0, then exactly `[min_rating, 0, max_cost]` |
| App.UserVectorOneCuisine | swiggy_project/src/app.py:66-71 | over distinct lower-case cuisine columns the query marks exactly one cuisine when the cuisine is a column, none otherwise |
| App.BuildUserVector | swiggy_project/src/app.py:54-79 | the array filled in the loop gives exactly the query vector of `UserVectorLayout` |
| App.Matching | swiggy_project/src/app.py:106-113 | a row is kept iff it passes all four filters (city equal ignoring case, cuisine containing the query ignoring case, rating at least, cost at most); the result is empty iff no row passes |
| App.InCluster | swiggy_project/src/app.py:134 | a row is kept iff its cluster is the given one; empty iff no row is in it |
| App.FallbackPool | swiggy_project/src/app.py:133-136 | the fallback pool holds exactly the table rows in the user's cluster, or every row without a cluster column, and no row more often than the table |
| App.Recommend | swiggy_project/src/app.py:86-142 | every recommended row is a row of the table, and no row is returned more often than the table holds it |
| App.RecommendFlag | swiggy_project/src/app.py:115-142 | the fallback flag is true iff no row passes the filters |
| App.RecommendMatches | swiggy_project/src/app.py:115-130 | with matches, the flag is false, every returned row passes all four filters, the rows are ordered by `same_cluster` then rating, descending, they are the top of the matches, and there are `head(top_n)` of them |
| App.RecommendFallback | swiggy_project/src/app.py:132-142 | without matches, the flag is true, the rows are the top of the user's cluster (of every row without a cluster column) by rating, rating descending, `head(top_n)` of them, all in the user's cluster when there is one |
| App.ClusterFirst | swiggy_project/src/app.py:118-128 | with matches and a cluster column, the user's cluster comes first, each group by rating descending, and the first row is in the user's cluster whenever some match is |
| App.ClusterTop | swiggy_project/src/app.py:118-128 | any top slice by `(same_cluster, rating)` has the same-cluster rows first, each group by rating, headed by a same-cluster row when the pool has one |
| App.RecommendNothing | swiggy_project/src/app.py:138-139 | no match and nobody in the user's cluster gives an empty result with flag true |
| Ranking.SortByRank | swiggy_project/src/app.py:125-128 | the sort is descending by the key and a permutation of its input |
| Ranking.Head | swiggy_project/src/app.py:130 | `head(n)` is a prefix, of length `min(n, len)` or `max(len + n, 0)` for negative `n`, never padded |
| Ranking.HeadOfSorted | swiggy_project/src/app.py:125-130 | the head of the sorted candidates is a top slice of them, whatever `n` is |
| Ranking.PrefixOfDescending | swiggy_project/src/app.py:141 | a prefix of a descending sequence is a top slice of it |
| CosineRecommender.CuisineTerms | swiggy_project/src/recommendation.py:42 | the query's cuisine terms are at least one, each stripped and free of `,` |
| CosineRecommender.CuisineKeySameSet | swiggy_project/src/recommendation.py:28 | the key depends only on the set of terms: permutations and repeats give the same key |
| CosineRecommender.JoinCommaSpace | swiggy_project/src/recommendation.py:28 | joining with `", "` is joining with `,` after a blank in front of every part but the first |
| CosineRecommender.CuisineKeyTerms | swiggy_project/src/recommendation.py:28-42 | splitting the key on `,` and stripping gives back the sorted distinct terms, which are strictly ascending |
| CosineRecommender.UserVector | swiggy_project/src/recommendation.py:21-36 | the vector is `[rating, 0, cost]`, then the city encoding, then the encoding of the cuisine key, of width `3 + n_city + n_keys` |
| CosineRecommender.UserVectorSameSet | swiggy_project/src/recommendation.py:28-35 | the query vector is the same for any listing of the same cuisines |
| CosineRecommender.CandidatesKeepScores | swiggy_project/src/recommendation.py:47-57 | every filtered candidate passes the filters and is some table row paired with that row's own similarity; every scored row that passes is a candidate |
| CosineRecommender.Filter | swiggy_project/src/recommendation.py:53-57 | a scored row is kept iff its city equals the query's (case-sensitive), its rating is at least and its cost at most the bounds; empty iff none passes |
| CosineRecommender.Recommend | swiggy_project/src/recommendation.py:59-60 | an empty filter result gives an empty result |
| CosineRecommender.RecommendRanked | swiggy_project/src/recommendation.py:63-67 | the result is the top of the candidates by similarity, similarity descending, `head(top_n)` of them, each projected to its eight fields |
| CosineRecommender.RecommendFiltered | swiggy_project/src/recommendation.py:53-67 | every returned listing has the query's city, rating at least the minimum and cost at most the maximum |

## Left out

- The Streamlit page, widgets and card rendering, and the `@st.cache_resource` caching in `app.py` are user interface, not logic.
- Every CSV and pickle read or write is left out. Each step takes its table and encoders as values.
- `preprocess.py` also writes `cleaned_data.csv`. Which cleaned table the app reads back depends on which script ran last, so that file order is not modelled.
- K-Means training and `kmeans.predict` are floating-point library code. The model is the parameter `predict`, and the rows' clusters are given integers.
- `cosine_similarity` is floating-point library code. It is the parameter `similarity`.
- The internals of `OneHotEncoder` and `get_feature_names_out` are sklearn's. `OneHot` gives them the stated behaviour: sorted distinct categories, `city_<category>` names, zeros for an unknown value.
- `cuisine_encoder.pkl`, which `recommendation.py` loads, is not written by any script in the repository. Its categories are the parameter `cuisineKeys`.
- Whether the two query-vector layouts agree with each other or with `encoded_data.csv` is not stated. The code does not make them agree.
- `pd.to_numeric` on text is the parameter `parse`. The medians are parameters, so a median of an all-NaN column is not modelled.
- `astype(str)` of a number in the city or cuisine column is not modelled. Such cells are text or missing, and a missing one becomes `"nan"`. The cost column's `astype(str)` is modelled through `show`.
- Cleaning.CostValue: what `to_numeric` makes of `str(x)` and of `"nan"` is left to `parse`. `Cleaning.CostValueRoundTrip` states the outcome under the two facts pandas provides: `str(x)` reads back as `x`, and `"nan"` reads as NaN.
- Cleaning.Dedup: a raw row is its eight modelled fields. `drop_duplicates` compares every CSV column, so with another column (an id, say) the code would keep rows that `Dedup` merges.
- CosineRecommender.UserVector: the cuisine encoder is given `OneHot.Encode` semantics, so an unseen cuisine key encodes to zeros, as with `handle_unknown="ignore"`. With sklearn's default the encoder would raise instead.
- CosineRecommender.Recommend: `similarity` is total. `cosine_similarity` raises `ValueError` when the query's width `3 + n_city + |cuisineKeys|` differs from the encoded table's width `n_city + |vocab| + 3`, and the model does not capture that error.
- App.Recommendation: on the match path, `app.py:119` adds a `same_cluster` column to the frame returned at line 130. The model's rows have no such column. The value is `ClusterRank`'s `major` key.
- Floating-point representation of ratings and costs is not modelled. They are `real` and are only compared.
- App.Matches: `str.contains(cuisine, case=False)` is taken as plain substring containment. pandas reads the cuisine as a regular expression, and the model ignores that.
- Text.Lower: `str.lower` is modelled on ASCII letters only. Other Unicode case mappings are not modelled.
- App.RecommendMatches states the order and the top-N property, not which of several equally ranked rows comes first. pandas sorts on the two keys of `app.py:125-128` with a stable lexsort, so the code keeps table order among ties. The model leaves that tie order out by choice.
- App.RecommendFallback and CosineRecommender.RecommendRanked state the order and the top-N property, not the tie order. Their sorts (`app.py:141`, `recommendation.py:63`) are on one key. They use pandas' default quicksort, which is not stable, so the code promises no tie order either.
- `train_kmeans.py` appends the `cluster` column. It is not part of this model. `App.Loaded.hasCluster` stands for whether the column is there.
