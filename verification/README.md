# Asset-check summary of an asset-graph node

A Dafny model of how a node of Dagster's asset graph summarises the checks of
its asset. Each check's latest execution is put into one of six display
categories (`AssetCheckIconType`). The checks are counted per category with
lodash's `countBy`. The fixed priority table `AssetCheckIconsOrdered` is then
filtered down to the categories with a non-zero count. The result is the
left-to-right row of icons, each with its count. The row exists only when the
node's live data holds at least one check.

Modules, one per concept:

- `Wrappers`: `Option`, for GraphQL nulls and `?.` chains.
- `AssetChecks`: the status enum, severity enum, execution, check and live data.
- `CheckIcons`: `AssetCheckIconType` and the order of `AssetCheckIconsOrdered`.
  The icon type is a subset type. It is the union of the statuses without
  FAILED and EXECUTION_FAILED, plus NOT_EVALUATED, WARN and ERROR. A rank
  function gives each category's table position explicitly.
- `Classifier`: the callback given to `countBy`.
- `Aggregator`: `countBy` as a fold over the checks, with lodash's step
  ("increment the key, or create it with 1"). `CountOf` is the reference
  count it is proved against.
- `IconOrder`: the ordered filter and the pairing of each icon with its count.
- `ChecksRow`: the guard in `AssetNode` and the `AssetNodeChecksRow` pipeline.

The status is a closed enum of five values. So the classifier's fall-through
`: status` returns only IN_PROGRESS, SKIPPED or SUCCEEDED. Dafny has to prove
this, because the result must be a member of the icon type. The classifier has
no branch for a status outside the enum; the `: status` at line 304 is its only
fall-through. "No severity"
means the execution has no `evaluation`; the severity of an evaluation that
exists is always present.

## Model

| member | source | states |
|---|---|---|
| `CheckIcons.Rank` | js_modules/dagster-ui/packages/ui-core/src/asset-graph/AssetNode.tsx:162-187 | the explicit rank of a category is its position in the priority table |
| `CheckIcons.IconsOrderedIsRanking` | js_modules/dagster-ui/packages/ui-core/src/asset-graph/AssetNode.tsx:153-187 | the table lists each of the six icon types exactly once, so it is a total order over the category type |
| `Classifier.Classify` | js_modules/dagster-ui/packages/ui-core/src/asset-graph/AssetNode.tsx:293-306 | a category named after a status comes back exactly when the check has a status other than FAILED or EXECUTION_FAILED, and it is that status |
| `Classifier.ClassifyFollowsRules` | js_modules/dagster-ui/packages/ui-core/src/asset-graph/AssetNode.tsx:294-304 | the five classification rules, read as separate facts, give each check exactly one category, and it is the classifier's result |
| `Classifier.NotEvaluatedExactlyWhenNoExecution` | js_modules/dagster-ui/packages/ui-core/src/asset-graph/AssetNode.tsx:294-297 | a check is NOT_EVALUATED if and only if it has no execution for the latest materialization |
| `Classifier.FailedBySeverity` | js_modules/dagster-ui/packages/ui-core/src/asset-graph/AssetNode.tsx:298-301 | a FAILED check is WARN exactly when its severity is WARN, and ERROR otherwise, including when there is no evaluation |
| `Classifier.ExecutionFailedIsError` | js_modules/dagster-ui/packages/ui-core/src/asset-graph/AssetNode.tsx:302-303 | an EXECUTION_FAILED check is ERROR whatever its evaluation |
| `Classifier.WarnAndErrorSources` | js_modules/dagster-ui/packages/ui-core/src/asset-graph/AssetNode.tsx:298-303 | WARN arises only from FAILED with severity WARN; ERROR only from FAILED without it or from EXECUTION_FAILED |
| `Classifier.PassThroughStatuses` | js_modules/dagster-ui/packages/ui-core/src/asset-graph/AssetNode.tsx:304 | IN_PROGRESS, SKIPPED and SUCCEEDED map to the category of the same name |
| `Classifier.ClassifyOnto` | js_modules/dagster-ui/packages/ui-core/src/asset-graph/AssetNode.tsx:153-160 | every one of the six categories is the result for some check |
| `Aggregator.CountBy` | js_modules/dagster-ui/packages/ui-core/src/asset-graph/AssetNode.tsx:293 | folding `Bump` (lodash's step: increment the key, or create it with 1) over the checks, a category has a key exactly when some check counts in it, and the key holds the number of checks classified to it |
| `Aggregator.LookupIsCount` | js_modules/dagster-ui/packages/ui-core/src/asset-graph/AssetNode.tsx:321-324 | reading a category, a missing key as zero, gives the number of checks in that category |
| `Aggregator.CountByEmpty` | js_modules/dagster-ui/packages/ui-core/src/asset-graph/AssetNode.tsx:293 | no checks give an empty mapping |
| `Aggregator.CountOfPermutation` | js_modules/dagster-ui/packages/ui-core/src/asset-graph/AssetNode.tsx:293 | the number of checks in a category depends only on the multiset of checks |
| `Aggregator.CountByPermutation` | js_modules/dagster-ui/packages/ui-core/src/asset-graph/AssetNode.tsx:293 | permuting the checks leaves the counts unchanged |
| `Aggregator.CountsSumToLength` | js_modules/dagster-ui/packages/ui-core/src/asset-graph/AssetNode.tsx:293-306 | the counts over the six categories add up to the number of checks |
| `IconOrder.FilterShown` | js_modules/dagster-ui/packages/ui-core/src/asset-graph/AssetNode.tsx:321 | the filter keeps exactly the table entries for which `Shown` holds (JS truthiness of `byIconType[a.type]`: key present and non-zero), as a subsequence of the table, and keeps a rank-sorted table rank-sorted |
| `IconOrder.OrderedIcons` | js_modules/dagster-ui/packages/ui-core/src/asset-graph/AssetNode.tsx:321-326 | the rendered icons (`WithCounts`, the `.map` pairing each icon with `byIconType[icon.type]`) are exactly the categories with a non-zero count, strictly in priority order (so without repeats), a subsequence of the table, each with its count |
| `IconOrder.OrderedIconsIsTheSortedShownSet` | js_modules/dagster-ui/packages/ui-core/src/asset-graph/AssetNode.tsx:162-187 | any priority-sorted list of exactly the shown categories equals the rendered order, so the order is fixed by the table alone |
| `IconOrder.OrderedIconsKeepTotal` | js_modules/dagster-ui/packages/ui-core/src/asset-graph/AssetNode.tsx:321-326 | the numbers printed beside the icons add up to the total of the counts |
| `ChecksRow.RenderChecksRow` | js_modules/dagster-ui/packages/ui-core/src/asset-graph/AssetNode.tsx:289-326 | the row renders icons exactly when `ShowsChecksRow` (the guard at line 96 of `AssetNode`) holds; then it has at least one icon and its numbers add up to the number of checks |
| `ChecksRow.NoChecksNoIcons` | js_modules/dagster-ui/packages/ui-core/src/asset-graph/AssetNode.tsx:96-98 | absent live data or an empty check list renders no checks row and no icons |
| `ChecksRow.CountOfPositive` | js_modules/dagster-ui/packages/ui-core/src/asset-graph/AssetNode.tsx:293-306 | a category has a non-zero count exactly when some check is classified to it |
| `ChecksRow.RenderedIconsAreTheOccurringCategories` | js_modules/dagster-ui/packages/ui-core/src/asset-graph/AssetNode.tsx:293-326 | for a non-empty check list, the icons are the categories some check falls into, in priority order, each with the number of its checks |
| `ChecksRow.RenderChecksRowPermutation` | js_modules/dagster-ui/packages/ui-core/src/asset-graph/AssetNode.tsx:293-321 | checks arriving in any order give the same counts and the same rendered row |
| `ChecksRow.MixedChecksExample` | js_modules/dagster-ui/packages/ui-core/src/asset-graph/AssetNode.tsx:293-326 | SUCCEEDED (carrying a WARN evaluation, which is ignored outside FAILED), FAILED with WARN and FAILED without evaluation give one each of SUCCEEDED, WARN and ERROR, rendered as ERROR, WARN, SUCCEEDED |
| `ChecksRow.UnevaluatedChecksExample` | js_modules/dagster-ui/packages/ui-core/src/asset-graph/AssetNode.tsx:293-297 | two checks without execution count as NOT_EVALUATED twice |

## Left out

- Everything React renders around the counts: the JSX, the `styled-components` CSS, the icon and colour of each category, the link target and the "Checks" label. These are presentation.
- `AssetNodeContextMenuWrapper`: DOM event listeners, a portal and React state. This is UI plumbing.
- `useAssetLiveData`, `buildAssetNodeStatusContent`, `withMiddleTruncation`, `markdownToPlaintext`, `PartitionCountTags`, `StaleReasonsTags` and `useAssetNodeMenu`. They are calls into code that is not part of this model. The live data they deliver is a parameter (`Option<LiveData>`).
- The GraphQL fragment `ASSET_NODE_FRAGMENT`. It is a query shape. The model keeps only the fields the summary reads: status and evaluation severity.
- `AssetNodeMinimal`, the `(height - 64) / 2` layout arithmetic and the fractional font sizes. These are layout done in floating point.
- `React.memo` with `isEqual`. This is memoisation, and the model's functions are pure anyway.
- The status-row guard `isSource && !definition.isObservable` (line 93). It concerns the status row, not the checks row.
- RenderChecksRow: a status outside the five-value enum, such as one added by a newer server schema, cannot be represented. The code would return that raw string at line 304, `countBy` would count it under its own key, and the filter at line 321 would never show it, because the key is not in `AssetCheckIconsOrdered`. The printed numbers would then add up to fewer than the number of checks. The promise that they add up to the number of checks holds only for the closed enum.
