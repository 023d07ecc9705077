# security-seer popularity scorer — Dafny model

This project models the deterministic part of the early `security-seer`
command-line tool, which lists a project's installed npm dependencies, fetches
popularity figures for each from the npms.io registry API, compares them with a
reference point (express and angular), and prints one readable label per
dependency.

Modelled:

- **Dependency flattening** (`getDependecies`, present in both `bin/index.js`
  and `index.js`): the `dependencies` object of an `npm list -json` result is a
  sequence of `(key, entry)` pairs in enumeration order; the result is one
  `{name, version}` record per key, with the version absent when the entry has
  none. The object itself may be missing (a project without dependencies); then
  `Object.keys` throws a TypeError, modelled as a `Failure`. So the `names`
  binding, though never read, decides whether the function throws; for a
  present object the result depends only on the `for...in` walk.
- **Score banding** (`parseScorePercentage`): the ladder of comparisons as a
  total function from a JavaScript number (NaN or a real) to
  `ERROR | EXCEPTIONAL | HIGH | MEDIUM | LOW | TERRIBLE`.
- **Score assembly** (`calculateSingleScore`, `average`, `calculateAllScores`):
  five `metric * 100 / (reference + 0.1)` components, their average, the 1.1
  penalty for an outdated installed version, banding, and the per-package map
  over the metric list.

Modules: `Wrappers` (Option, Result), `Dependencies` (the object, the record,
the flattening specification and its lemmas), `Scoring` (numbers, labels,
banding, average, components and their lemmas), `BinIndex` (the methods of
`bin/index.js`), `RootIndex` (the `getDependecies` of `index.js`).

Arithmetic is over Dafny `real`, an idealisation of JavaScript's doubles: only
structure, sign and ordering facts are proved. Popularity figures are counts
and are modelled as `nat`, so every denominator `reference + 0.1` is positive.

## Model

| member | source | states |
|---|---|---|
| Dependencies.FlattenAt | bin/index.js:118-129 | the flattened list has one entry per key; entry i has name key i and that key's `version`, absent when missing |
| Dependencies.FlattenNamesDistinct | bin/index.js:122-127 | with unique object keys, the names in the flattened list are pairwise distinct |
| Dependencies.FlattenNames | index.js:46-57 | the names of the result, in order, are exactly `Object.keys(depList)`, so the unused `names` binding and the `for...in` walk agree |
| Dependencies.FlattenEmpty | index.js:49-56 | the list is empty exactly when the object has no keys |
| BinIndex.GetDependencies | bin/index.js:118-129 | a missing object makes `Object.keys` throw a TypeError; a present one yields the key-ordered flattening, built by pushing one record per key |
| RootIndex.GetDependencies | index.js:46-57 | same outcome for index.js: TypeError on a missing object; otherwise exactly the same flattening as bin/index.js, one record per key, entry i is key i with its version, names distinct when keys are |
| Scoring.ParseScorePercentage | bin/index.js:86-116 | total; ERROR exactly for NaN, above 100 or below 0; otherwise each label exactly on its interval: (91, 100], [66.6, 91], [33.3, 66.6), (11, 33.3), [0, 11] |
| Scoring.BandingBoundaries | bin/index.js:89-111 | 100 gives EXCEPTIONAL, 91 gives HIGH, 66.6 gives HIGH, 33.3 gives MEDIUM, 11 gives TERRIBLE, 0 gives TERRIBLE |
| Scoring.BandingMonotone | bin/index.js:93-111 | on [0, 100] no value is ERROR and the label never decreases as the percentage grows, in TERRIBLE < LOW < MEDIUM < HIGH < EXCEPTIONAL |
| Scoring.Div | bin/index.js:78 | NaN stays NaN; dividing a non-negative number by a divisor of at least 1 (such as 1.1) never increases it and keeps it non-negative |
| Scoring.Average | bin/index.js:152 | NaN exactly for an empty array; the average of a non-empty array of non-negative values is non-negative |
| Scoring.SumBounds | bin/index.js:152 | a sum of n values in [lo, hi] lies in [n * lo, n * hi] |
| Scoring.AverageBounds | bin/index.js:152 | the average of a non-empty array lies within any bounds of its elements, so it is non-negative for non-negative elements |
| Scoring.Ratio | bin/index.js:69-73 | a component is non-negative, zero exactly when the metric is zero, and below 100 when the metric does not exceed the reference |
| Scoring.Components | bin/index.js:69-75 | exactly five components are averaged, each non-negative |
| Scoring.ScorePercentage | bin/index.js:75-79 | the percentage is a non-negative number, never above the plain average; equal to it when the versions match, and the average divided by 1.1 when they differ |
| Scoring.SingleScore | bin/index.js:68-84 | the label is ERROR exactly when the (penalised) percentage exceeds 100 |
| Scoring.WithinReferenceNeverError | bin/index.js:68-84 | a package no more popular than the reference point in every metric has a percentage below 100 and never scores ERROR |
| Scoring.PenaltyNeverRaisesLabel | bin/index.js:77-81 | when the plain average is at most 100, the label actually given is not ERROR and ranks no higher than the label of the unpenalised average |
| Scoring.PenaltyLiftsOutOfError | bin/index.js:77-90 | a plain average in (100, 110] bands to ERROR, yet for an outdated package the divided percentage falls back into range and gets a quality label |
| BinIndex.CalculateSingleScore | bin/index.js:68-84 | computes the components, averages them, divides by 1.1 in place for an outdated version and bands; the result is `SingleScore`, ERROR exactly above 100 |
| BinIndex.CalculateAllScores | bin/index.js:53-66 | same length as the input; entry i carries the name of input i and its single score; nothing dropped or reordered |

## Left out

- `main` in both files (bin/index.js:6-22, index.js:6-18): running `npm list -json`, `JSON.parse` and console output are I/O.
- `getMetricsForSingleDependency`, `getMetricsForDependencyList`, `getReferencePointInfo` (bin/index.js:24-51, 132-150) and `getPackageMetrics` (index.js:20-44): network fetches from the npms.io API; their results are taken as `PackageMetrics` and `ReferencePoint` values.
- `function.js` (the `execute` helper) is not part of this model.
- The debug `console.log` calls in `parseScorePercentage` (bin/index.js:87, 113): output only.
- Floating point: IEEE rounding of the ratios, of `+ 0.1` and `/ 1.1`, and the binary values of 66.6, 33.3 and 11.0 are not modelled; infinities are not modelled. NaN is kept only as the result of averaging an empty array.
- Scoring.Ratio: metrics missing from the API response (`undefined`, giving NaN in JavaScript) are not modelled; every figure is a present count.
- Dependencies.FlattenAt: the model takes the object's enumeration order as given; JavaScript's rule that integer-like keys enumerate first in ascending order is not modelled.
- Entries of the `dependencies` object other than their `version` property, and non-object entries, are not modelled.
