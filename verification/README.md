# cast-comparison in Dafny

cast-comparison scores how similar a candidate record is to the records a
`Comparator` was trained on. Each field of a record has its own **Cast**:
- a histogram from observed values to occurrence counts;
- running bounds `minX` / `maxX` over the numeric values;
- a `spread` and a propagation mode (`UP`, `DOWN`, `BETWEEN` or none).

A Cast scores a queried value in one of three ways:
- the raw count of a categorical value;
- `approx(x)`, which adds up the counts of the numeric keys within
  `spreadDistance = |maxX * spread|` of `x`, each scaled by the linear falloff
  `1 - |x - k| / spreadDistance`, or, when `spreadDistance` is 0, the exact
  count stored under `x`;
- a linear-regression prediction over the (key, count) points, when the
  propagation mode applies to the query: UP above `minX`, DOWN below `maxX`,
  and BETWEEN strictly inside the range, where it interpolates.

`maxY` is the heaviest "group": a numeric key's count plus the
falloff-weighted counts of its neighbours. The Comparator's `test` divides
the summed field scores of a candidate by the summed `maxY` of every trained
field.

Two versions are modelled. The first is `src/cast.js` with
`src/comparator.js`. The second is the build `dist/comparator.esm.js`, which
differs in six ways:
- `compare` returns 0 on an empty Cast, and in range it takes the larger of
  the regression and `approx`;
- `maxY` is read off an explicit list of groups;
- `intersect` and `intersection` score a candidate against each field's
  best-matching group;
- training creates a field's Cast but does not shape `''` or `undefined`;
- `test` returns 0 instead of dividing by a zero total;
- `test` passes an array-valued candidate field to `compare` as it is,
  where `src/comparator.js` scores its first element.

Modules, one file each:
- `sums.dfy`, module `Sums`: recursive sums and maxima over sequences, with
  their algebra.
- `ordered_maps.dfy`, modules `Wrappers` and `OrderedMaps`: `Option`, and
  JavaScript objects as insertion-ordered maps (`OMap`). This is the order
  `for … in`, `Object.keys` and `Object.values` visit keys that are not
  integer-like; JavaScript lists integer-like keys first, in ascending
  order (see "Left out").
- `casts.dfy`, module `Casts`: the Cast of `src/cast.js`. Its `approx`,
  `shape`, bounds and getters are the same statements in the build as
  well, so the build reuses them.
- `comparators.dfy`, module `Comparators`: the Comparator of
  `src/comparator.js`.
- `esm_casts.dfy` and `esm_comparators.dfy`, modules `EsmCasts` and
  `EsmComparators`: what the build changes.
- `scenarios.dfy`, module `Scenarios`: worked examples on concrete histograms.

Values are classified once, as `Num(r)` or `Cat(s)`, instead of being
re-tested with `isNaN`. In `src/comparator.js` a field set to `undefined`
is stored under the category `"undefined"`, because an object key is a
string; the build never shapes `undefined`, but its `compare` still looks
such a value up under `"undefined"`. The regression
line is a parameter `predict(points, x)`, and `Casts.Points` states which
points it is given.

`test` in `src/comparator.js` divides by the total `maxY` without a guard,
so `Comparators.Test` requires a positive total. The build's `test` returns
0 instead, and `EsmComparators.Test` models that.

## Model

| member | source | states |
|---|---|---|
| OrderedMaps.Put | src/cast.js:16 | assigning a property keeps an existing key in its place and appends a new key last in insertion order (integer-like keys: see "Left out"); the map is updated at that key only; distinct keys stay distinct |
| Casts.New | src/cast.js:5-12 | a fresh Cast is valid and empty, counts every value 0, and has `minX`, `maxX`, `minY` and `spreadDistance` all 0 |
| Casts.MinX | src/cast.js:77-79 | `minX` is 0 while no number was seen, and on a valid Cast it is at most every numeric key |
| Casts.MaxX | src/cast.js:81-83 | `maxX` is 0 while no number was seen, and on a valid Cast it is at least every numeric key |
| Casts.MinY | src/cast.js:85-87 | on a valid Cast `minY` is 0 before any observation and exactly 1 after one |
| Casts.SpreadDistance | src/cast.js:59-61 | the merge radius is never negative, and it is 0 with zero spread or before any number was observed |
| Casts.UpdateBounds | src/cast.js:89-95 | after a numeric key, `minX <= key <= maxX`, and each bound is either the key or unchanged; bounds only ever widen; a categorical key leaves both bounds alone; `minY` becomes 1 |
| Casts.Shape | src/cast.js:14-19 | the count of the shaped value rises by exactly 1 and every other count is unchanged; a new value is listed last in insertion order (integer-like keys: see "Left out"); a number lies within the bounds afterwards; a category leaves the bounds alone; the Cast invariant is preserved and `minY` is 1 |
| Casts.ShapeKeepsValid | src/cast.js:89-94 | counting a value and then updating the bounds keeps the counts positive and keeps the bounds equal to the least and greatest numeric key |
| Casts.Falloff | src/cast.js:51-53 | a key's contribution to `approx` lies between 0 and its count when it is strictly within the spread distance, and is 0 otherwise; the query's own key contributes its full count |
| Casts.Approx | src/cast.js:43-57 | `approx` is never negative; without a spread distance it is the exact count of the query (0 if unseen); for an observed key it is at least that key's count; otherwise it is at most the summed counts of the keys strictly within the spread distance |
| Casts.FalloffSumBounds | src/cast.js:48-54 | the falloff-weighted sum lies between the query's own count and the summed counts of the near keys |
| Casts.GroupWeight | src/cast.js:68-71 | a numeric key's group weight is at least its own count, and equals it without a spread distance |
| Casts.NeighbourSumBounds | src/cast.js:69-71 | the neighbours add a non-negative amount to a group, and nothing without a spread distance |
| Casts.NeighbourIsFalloff | src/cast.js:68-71 | a neighbour's weight in a group is exactly its falloff term in `approx` at the anchor, the anchor itself excluded |
| Casts.MaxY | src/cast.js:63-75 | `maxY` is non-negative; it is at least every raw count and every numeric group weight; it is 0 on an empty Cast; and it is one of those counts or weights unless it is 0 |
| Casts.ApproxAtKey | dist/comparator.esm.js:62-105 | at an observed numeric key, `approx` equals that key's group weight, with or without a spread distance |
| Casts.MaxYAtLeastApprox | src/cast.js:63-75 | `maxY` is at least `approx(k)` for every observed numeric key k |
| Casts.MaxYWithoutSpread | src/cast.js:74 | without a spread distance, `maxY` is the largest raw count |
| Casts.PointsOf | src/cast.js:26 | the regression is fitted to exactly the numeric keys paired with their counts, each pair once when the keys are distinct |
| Casts.Points | src/cast.js:26 | the model passes the regression one (key, count) point per numeric key of the Cast, each exactly once; the points the source also builds for categorical keys are under "Left out" |
| Casts.NeighbourBounds | src/cast.js:68-70 | a neighbour adds between 0 and its full count to a group, a positive share when it is another number strictly within the spread distance, and nothing when it is the anchor, a category, or there is no spread distance |
| Casts.Compare | src/cast.js:21-41 | a category scores its raw count whatever the propagation; a number scores `approx` with no propagation, with UP at or below `minX`, with DOWN at or above `maxX`, and with BETWEEN outside the open interval between the bounds; in every other case it scores the regression prediction |
| Casts.SingleObservation | src/cast.js:14-41 | a Cast that has seen a single value scores that value 1, whatever its spread and propagation |
| Comparators.New | src/comparator.js:5-8 | a new Comparator keeps its configuration and has no trained field |
| Comparators.CastFor | src/comparator.js:21-23 | an existing Cast is reused; a new one is empty and takes the configured spread and propagation, or spread 0 and no propagation when the field is not configured |
| Comparators.TrainField | src/comparator.js:19-24 | training one field raises the count of its value by 1 and keeps its other counts; an existing Cast keeps its settings and a new one takes the configured ones; every other field is unchanged |
| Comparators.TrainFields | src/comparator.js:19-24 | the loop trains every key still to visit exactly once and leaves every other field unchanged |
| Comparators.TrainSingle | src/comparator.js:18-25 | after `trainSingle(r)` every field of r has a Cast whose count for `r[field]` rose by exactly 1 and whose other counts are unchanged; fields not in r are unchanged; the comparator invariant is preserved |
| Comparators.TrainEach | src/comparator.js:12 | training each record of an array keeps the configuration and the comparator invariant |
| Comparators.Train | src/comparator.js:10-16 | `train` keeps the configuration and the comparator invariant, for a record and for an array alike |
| Comparators.TrainEachSnoc | src/comparator.js:11-12 | training an array trains its last record on top of all the ones before it, so an array is its records trained in order |
| Comparators.TrainOneIsBatchOfOne | src/comparator.js:10-16 | a lone record trains exactly as the one-element array holding it |
| Comparators.TotalMaxY | src/comparator.js:29 | the `test` denominator is never negative |
| Comparators.TotalMaxYPositive | src/comparator.js:29 | once any field is trained the `test` denominator is at least 1 |
| Comparators.TrainedFieldWeighs | src/cast.js:74 | a trained field's `maxY` is at least 1 |
| Comparators.Key | src/cast.js:15-16 | a value is stored under itself, and `undefined` lands on the same key as the string `"undefined"` and no other |
| Comparators.Scalar | src/comparator.js:32 | a scalar field is scored as itself, an array by its first element, and an empty array as `undefined` |
| Comparators.FieldScore | src/comparator.js:33 | a field that is untrained or absent from the candidate scores 0 |
| Comparators.Test | src/comparator.js:27-36 | the score times the summed `maxY` of all trained fields is the summed field scores; an empty candidate scores 0 |
| Comparators.UntrainedFieldIgnored | src/comparator.js:31-34 | adding a field the comparator never trained leaves the score unchanged |
| Comparators.ArrayScoredByHead | src/comparator.js:32 | an array value scores exactly as its first element |
| Comparators.ExactFieldScore | src/comparator.js:33 | without spread or propagation a field scores the raw count of its value, between 0 and its `maxY` |
| Comparators.ExactScoresBelowWeights | src/comparator.js:31-34 | without spread or propagation the summed field scores lie between 0 and the summed `maxY` of the candidate's fields |
| Comparators.CandidateWeightsBelowTotal | src/comparator.js:29 | the summed `maxY` of a candidate's fields is at most that of all trained fields |
| Comparators.ExactScoreBounded | src/comparator.js:27-36 | once trained, with no spread and no propagation anywhere, `test` lies in [0, 1] |
| EsmCasts.Weight | dist/comparator.esm.js:100-108 | a group weighs at least its anchor's count; a categorical group weighs exactly its count, and so does a numeric one without a spread distance |
| EsmCasts.NumericGroups | dist/comparator.esm.js:104-105 | every numeric key has a group anchored at it with its merged weight, and every group listed is such a group |
| EsmCasts.CategoricalGroups | dist/comparator.esm.js:108 | every categorical key has a group anchored at it with its raw count, and every group listed is such a group |
| EsmCasts.PartitionSize | dist/comparator.esm.js:93-108 | every key lands in exactly one of the numeric and categorical partitions |
| EsmCasts.Groups | dist/comparator.esm.js:86-109 | `groups` has one entry per key, each anchored at an observed key with that key's weight; it is empty for an empty Cast; the numeric groups come first |
| EsmCasts.XByMaxY | dist/comparator.esm.js:111-114 | `xByMaxY` is a heaviest group, or `{ x: 0, y: 0 }` when there are no groups |
| EsmCasts.MaxY | dist/comparator.esm.js:82-84 | `maxY` is non-negative, at least every group weight, 0 on an empty Cast, and otherwise the weight of some key |
| EsmCasts.MaxYAtMostSource | dist/comparator.esm.js:111-114 | the heaviest group is no heavier than the `maxY` of `src/cast.js` |
| EsmCasts.SourceAtMostMaxY | src/cast.js:63-75 | the `maxY` of `src/cast.js` is no heavier than the heaviest group of the build |
| EsmCasts.MaxYAgrees | dist/comparator.esm.js:82-84 | both versions compute the same `maxY` on every histogram |
| EsmCasts.Compare | dist/comparator.esm.js:24-47 | an empty Cast scores 0; a category scores its raw count; a number never scores below `approx`, scores exactly `approx` out of range, and scores the larger of prediction and `approx` in range |
| EsmCasts.CompareVersions | dist/comparator.esm.js:34-45 | on a trained Cast the build agrees with `src/cast.js` on categories, and on numbers it takes the larger of the `src` score and `approx` |
| EsmCasts.Intersect | dist/comparator.esm.js:125-127 | for positive arguments the ratio lies in (0, 1] and is 1 exactly when the arguments are equal |
| EsmCasts.IntersectSymmetric | dist/comparator.esm.js:125-127 | the ratio does not depend on the order of its arguments |
| EsmCasts.FindMaxGroup | dist/comparator.esm.js:116-123 | a category gets the heaviest group; a positive number gets a group of highest affinity (ratio to the anchor times weight), or `{ x: 0, y: 0 }` on an empty Cast; the group's weight is between 0 and `maxY` |
| EsmCasts.Intersection | dist/comparator.esm.js:49-60 | an empty Cast scores 0; a category scores its raw count; a number scores exactly the weight of its best group (one of the Cast's groups) scaled by the `intersect` ratio of the query and that group's anchor, which is between 0 and the weight and at least the ratio-scaled weight of every key's group |
| EsmCasts.BestMatch | dist/comparator.esm.js:56-58 | scaling a group's weight by the `intersect` ratio of a positive query and the group's positive anchor gives between 0 and that weight, and the full weight when the query is the anchor |
| EsmCasts.AffinityCases | dist/comparator.esm.js:121 | the sort key of `findMaxGroup` is 0 for a categorical group, the full weight for the group anchored at the query, and between 0 and the weight for positive numbers |
| EsmCasts.BestAffinityBound | dist/comparator.esm.js:121 | the group ranked first by affinity outscores every key's own group |
| EsmComparators.Skipped | dist/comparator.esm.js:171 | `undefined` and the empty string are not shaped; every number, 0 included, and every other string is |
| EsmComparators.TrainField | dist/comparator.esm.js:165-173 | training one field always leaves it with a Cast; the count of its value rises by 1, or by 0 for `''` and `undefined`; other counts and other fields are unchanged; the invariant is preserved |
| EsmComparators.TrainFields | dist/comparator.esm.js:165-174 | the loop trains every key still to visit in this way and leaves every other field unchanged |
| EsmComparators.TrainSingle | dist/comparator.esm.js:164-175 | every field of the record gets a Cast; fields with a real value are shaped once and `''` or `undefined` are not shaped; other fields are unchanged |
| EsmComparators.TrainEach | dist/comparator.esm.js:158 | training each record of an array keeps the configuration and the invariant |
| EsmComparators.Train | dist/comparator.esm.js:156-162 | `train` keeps the configuration and the invariant, for a record and for an array alike |
| EsmComparators.TrainEachSnoc | dist/comparator.esm.js:156-162 | an array is its records trained in order: `train` of an array ending in a record is `train` of the rest followed by `train` of that record |
| EsmComparators.FieldMaxY | dist/comparator.esm.js:178 | a field's share of the total is non-negative and 0 for an untrained field |
| EsmComparators.TotalOutput | dist/comparator.esm.js:177-179 | `totalOutput` is never negative |
| EsmComparators.TotalOutputZero | dist/comparator.esm.js:177-192 | `totalOutput` is 0, the case in which `test` returns 0, exactly when no trained field has a positive `maxY` |
| EsmComparators.MaxOutput | dist/comparator.esm.js:181-183 | `maxOutput` is non-negative, at least every trained field's `maxY`, and one of them unless it is 0 |
| EsmComparators.TotalAtLeastMax | dist/comparator.esm.js:177-183 | `totalOutput >= maxOutput` |
| EsmComparators.FieldScore | dist/comparator.esm.js:189 | a field never scores below 0; an untrained or absent field scores 0 |
| EsmComparators.Test | dist/comparator.esm.js:185-193 | the score is non-negative; it is 0 when the total is 0 or the candidate is empty; otherwise the score times the total is the summed field scores |
| EsmComparators.FieldIntersectionBounded | dist/comparator.esm.js:199-202 | each field's share of the `intersection` numerator lies between 0 and its share of the denominator |
| EsmComparators.FieldIntersection | dist/comparator.esm.js:200 | a field's share of the `intersection` numerator is non-negative, and 0 when the field is untrained or absent from the candidate |
| EsmComparators.FieldBestWeight | dist/comparator.esm.js:201 | a field's share of the denominator is non-negative, at most the field's `maxY`, and 0 when the field is untrained or absent |
| EsmComparators.Quotient | dist/comparator.esm.js:192 | `total ? num / total : 0` is 0 for a zero total, otherwise multiplies back to the numerator, and lies in [0, 1] when the numerator lies between 0 and the total |
| EsmComparators.Intersection | dist/comparator.esm.js:195-205 | `intersection` is 0 when the best-group weights sum to 0; otherwise the score times that sum is the summed best-group scores; on a valid comparator it lies in [0, 1] |
| EsmComparators.IntersectionRatio | dist/comparator.esm.js:196-204 | on a valid comparator the summed numerator lies between 0 and the summed denominator |
| Scenarios.ShapeUnseen | src/cast.js:14-19 | a value seen for the first time is listed last in insertion order with count 1, and a number above every number seen so far becomes `maxX` |
| Scenarios.AgeInterpolation | src/cast.js:43-57 | after the ages 20, 21, 22 and 40 with spread 0.1, `approx(21)` is 0.75 + 1 + 0.75 = 2.5 |
| Scenarios.BetweenObserved | src/cast.js:34-35 | with BETWEEN propagation, a query strictly between two observed numbers is scored by the regression |
| Scenarios.BetweenUsesRegression | src/cast.js:34-35 | after 10, 20 and 30 with BETWEEN propagation, the query 15 goes to the regression |
| Scenarios.StatusScoresOne | src/comparator.js:27-36 | trained on `ok`, `ok`, `fail` without configuration, the total is 2 and the candidate `{ status: "ok" }` scores exactly 1 |

## Left out

- `dist/comparator.umd.js` is not part of this model. Its Cast and
  comparator duplicate `src/`, and the rest is the bundled regression
  library (floating-point Gaussian elimination, logarithms, rounding). The
  regression is the parameter `predict`.
- `flatten` is not modelled. It calls a `dive` method that does not exist
  and never returns its result, so it has no behaviour to state.
- Raw JavaScript values are not parsed. `isNaN` / `parseFloat`
  classification, key stringification (`"21.0"` and `21` share a key) and
  `|| 0` swallowing `NaN` are replaced by the `Num` / `Cat` type. One
  consequence: `src/cast.js` classifies `''` as a number and files it under
  the key `NaN`, while the model keeps it as the category `""`.
- Floating-point rounding, `NaN` and infinities are not modelled: numbers
  are reals. `spread || 0` (src/cast.js:6, and the `|| 0` of
  src/comparator.js:21) turns a `NaN` or other falsy spread into 0, while a
  non-numeric string spread would make `spreadDistance` `NaN`; the model's
  spread is a real.
- Comparators.Test: with a zero total, `src/comparator.js` divides by 0 and
  yields `NaN` or an infinity; the model requires a positive total instead.
- Casts.PointsOf: the source hands the regression one point per key,
  categories included, with `parseFloat(key)` as the abscissa. For most
  categories that is `NaN`, which makes the whole least-squares fit (whose
  sums are in dist/comparator.umd.js) `NaN`. Only the branches of `compare`
  that read the fit see it: a query that `compare` sends to the regression
  (UP above `minX`, DOWN below `maxX`, BETWEEN strictly inside the range, and
  in the build through `Math.max`, which passes `NaN` on) scores 0 through
  `|| 0` in `test`, while every other query, and every field without a
  propagation mode, still scores `approx`; a category that starts with digits, such as
  `"12abc"`, gives the finite point (12, count) instead. The model passes
  only the numeric keys.
- EsmCasts.XByMaxY: the source sorts with an inconsistent comparator, so
  which of several equally heavy groups comes first is not specified; only
  maximality is stated.
- EsmCasts.FindMaxGroup: the same holds for ties in affinity. A numeric
  query is modelled only when it and every key of the field are positive
  numbers, because only then does the `intersect` ratio lie in (0, 1]:
  negative values give ratios above 1 or below 0, and strings or 0/0 give
  `NaN`.
- EsmCasts.Intersection: a numeric query is modelled only when it and
  every key of the Cast are positive numbers, because only then does the
  `intersect` ratio lie in (0, 1]; a Cast holding a category or a number
  of 0 or below, and a query of 0 or below, are excluded by the requires.
- EsmComparators.Intersection: required to meet the same condition for every
  numeric candidate field that is trained, for the same reason.
- The static `UP` / `DOWN` / `BETWEEN` getters only re-export constants from
  a module that is not part of this model; the modes are the `Propagation`
  type.
- A configuration entry is a `[spread, propagation]` pair here. A partial
  or falsy entry, read through `||` in the source, is not modelled beyond
  the default of spread 0 and no propagation for an absent field.
- Object keys inherited from a prototype (`"constructor"` and the like) are
  not modelled: an `OMap` holds exactly the keys assigned to it.
- OrderedMaps.Put: a new key is appended last, which is JavaScript's
  order only for keys that are not integer-like. JavaScript lists
  integer-like keys (`"5"`, `"40"`) first, in ascending numeric order. No
  score depends on the order: sums of reals do not, which group wins a tie
  is left open anyway, and the regression parameter `predict` is assumed
  not to depend on the order of its points, as the source's linear fit
  uses only sums over them.
- Casts.Shape: a new value is listed last, so shaping 40 and then 20 gives
  the keys `[40, 20]`, where `Object.keys(this.xy)` gives `["20", "40"]`;
  the same ordering caveat as for OrderedMaps.Put.
- Scenarios.ShapeUnseen: "listed last" carries the same caveat for numbers
  with an integer value.
- EsmComparators.Test: a candidate field holding an array cannot be
  expressed. The build passes the array itself to `compare`, where
  JavaScript coercion scores `[5]` like 5 and looks `["a", "b"]` up under
  the key `"a,b"`; the model's candidate fields of this build are scalars.
