# Kibana aggregation post-processing, telemetry rollup and pivot options, in Dafny

This project models three small data transformations of Kibana and proves what their unit
tests promise about them.

**Terms "Other"/"Missing" buckets.** These are `buildOtherBucketAgg`,
`mergeOtherBucketAggResponse` and `updateMissingBucket` from
`src/ui/public/agg_types/buckets/_terms_other_bucket_helper.js`.
- A terms aggregation shows only its top buckets. To count everything else, Kibana walks the
  response tree and builds a second `filters` aggregation, the `other-filter` request. It has one
  filter per path of ancestor buckets, labelled `''` at the root and `'-US'`, `'-US-ios'` below it.
- Each filter fixes the ancestor values, requires the target field to exist, and excludes the
  top keys shown, except the backend's `__missing__` sentinel.
- The merge step parses each label back into a bucket path. It then appends an "Other" bucket
  to the list there. The bucket carries a negated phrases filter over the excluded terms.
- The missing-bucket step renames the sentinel bucket to "Missing" and attaches a negated
  `exists` filter.
- The aggregation chain is a `seq<TermsAgg>`, and the response is a typed tree of
  `AggResult`/`Bucket`. Level `i` of the tree answers `aggs[i]`. The target aggregation is
  given by its index.

**Monitoring high-level stats.** This is `handleHighLevelStatsResponse` from
`x-pack/plugins/xpack_main/server/lib/telemetry/monitoring/get_high_level_stats.js`.
- It is a loop over the search hits. The loop builds a map from cluster uuid to a record holding:
  - a hit count;
  - a version histogram in first-seen order;
  - per cloud name: a hit count, the number of distinct VM ids, and first-seen histograms of VM
    type, region and zone.
- It is modelled as a method with a `while` loop. The method is proved equal to a fold, and
  the fold is proved equal to a per-cluster summary defined independently.

**Pivot dropdown options.** This is `getPivotDropdownOptions` from
`x-pack/plugins/ml/public/data_frame/components/define_pivot/common.ts`.
- Every aggregatable field of an index pattern offers the aggregations and group-bys its type
  supports. `_id`, `_index` and `_type` are not offered.
- Each choice gets a dropdown label `agg(field)` and a configuration keyed by that label.

The behaviour modelled is the one the unit tests of these three files fix through their
fixtures and expectations, and each proved property cites the test lines it comes from. Two
consequences are worth stating:
- The VM type, region and zone histograms count every hit that has the field, including a
  repeated VM id (`ps4` counts 2).
- Cluster `c` has four hits.

Modules:

| file | module | contents |
|---|---|---|
| wrappers.dfy | Wrappers | `Option`, `Result` |
| agg_response.dfy | AggResponse | agg chain, filters, bool query, response tree, labels |
| other_bucket_build.dfy | OtherBucketBuild | `buildOtherBucketAgg` |
| other_bucket_build_properties.dfy | OtherBucketBuildProperties | the request it builds |
| other_bucket_merge.dfy | OtherBucketMerge | `mergeOtherBucketAggResponse` (method + fold) |
| other_bucket_merge_properties.dfy | OtherBucketMergeProperties | where and what the merge appends |
| missing_bucket.dfy | MissingBucket | `updateMissingBucket` and its properties |
| terms_other_bucket_fixtures.dfy | TermsOtherBucketFixtures | the helper's test fixtures |
| histogram.dfy | Histogram | first-seen histograms (`incrementByKey`) |
| high_level_stats.dfy | HighLevelStats | `handleHighLevelStatsResponse` (method + fold) |
| high_level_stats_properties.dfy | HighLevelStatsProperties | the rollup against per-cluster summaries |
| high_level_stats_fixture.dfy | HighLevelStatsFixture | the rollup's test fixture |
| pivot_options.dfy | PivotOptions | `getPivotDropdownOptions` and its properties |

## Model

| member | source | states |
|---|---|---|
| AggResponse.BoolOf | src/ui/public/agg_types/__tests__/buckets/_terms_other_bucket_helper.js:148-161 | a bool query has empty `filter` and `should`, and every filter lands in exactly one of `must`/`must_not` |
| AggResponse.KeptMembers | src/ui/public/agg_types/__tests__/buckets/_terms_other_bucket_helper.js:148-161 | a clause is kept on a side exactly when some filter with that `negate` flag translates to it |
| AggResponse.KeptAppend | src/ui/public/agg_types/__tests__/buckets/_terms_other_bucket_helper.js:177-190 | splitting filters by `negate` distributes over concatenation, so the order of filters is kept on each side |
| AggResponse.FirstWithKey | src/ui/public/agg_types/__tests__/buckets/_terms_other_bucket_helper.js:249 | `_.find` by key returns the first index holding that key |
| AggResponse.FirstWithKeyUnique | src/ui/public/agg_types/__tests__/buckets/_terms_other_bucket_helper.js:249 | a bucket with the key and none before it is the one found |
| AggResponse.SplitLabel | src/ui/public/agg_types/__tests__/buckets/_terms_other_bucket_helper.js:107-117 | splitting a label on `-` yields `''` followed by the keys it joined, for dash-free keys |
| AggResponse.PartsOfLabel | src/ui/public/agg_types/__tests__/buckets/_terms_other_bucket_helper.js:107-117 | labels round-trip: merge reads back exactly the keys build joined, for non-empty dash-free keys |
| AggResponse.DashedKeySplits | src/ui/public/agg_types/__tests__/buckets/_terms_other_bucket_helper.js:45-47 | a key containing a dash does not round-trip: the hypothetical key `win-xp` (the test's keys `ios`, `win xp`, `__missing__` have no dash) gives label `-win-xp`, which reads back as `win`, `xp` |
| OtherBucketBuild.Excluded | src/ui/public/agg_types/__tests__/buckets/_terms_other_bucket_helper.js:157-160 | every excluded filter is a negated phrase on the target field and index over a shown key other than `__missing__` |
| OtherBucketBuild.Walk | src/ui/public/agg_types/__tests__/buckets/_terms_other_bucket_helper.js:170-215 | `walkBucketTree` produces at least one filter whenever every level down to the target has a bucket |
| OtherBucketBuild.BuildOtherBucketAgg | src/ui/public/agg_types/__tests__/buckets/_terms_other_bucket_helper.js:135-139 | a builder function is returned exactly when every level down to the target has its aggregation and a bucket; a missing level is reported as such; calling the builder yields the `other-filter` request |
| OtherBucketBuildProperties.MustNotOf | src/ui/public/agg_types/__tests__/buckets/_terms_other_bucket_helper.js:157-160 | the expected `must_not` holds a `match_phrase` for exactly the keys other than `__missing__` |
| OtherBucketBuildProperties.ExcludedKept | src/ui/public/agg_types/__tests__/buckets/_terms_other_bucket_helper.js:157-160 | the excluded filters all go to `must_not`, in key order, with the sentinel skipped |
| OtherBucketBuildProperties.TargetQuery | src/ui/public/agg_types/__tests__/buckets/_terms_other_bucket_helper.js:148-161 | a path's query has the ancestors' positive clauses and then `exists` in `must`, and the ancestors' negated clauses and then the excluded top keys in `must_not` |
| OtherBucketBuildProperties.SingleTermRequest | src/ui/public/agg_types/__tests__/buckets/_terms_other_bucket_helper.js:141-168 | for a single terms aggregation the request is exactly one filter `''`: `must` is `exists` and `must_not` lists the shown keys except `__missing__` |
| OtherBucketBuildProperties.FilterMapKeys | src/ui/public/agg_types/__tests__/buckets/_terms_other_bucket_helper.js:176-210 | the filters map has a key exactly for each label the walk produced |
| OtherBucketBuildProperties.FilterMapValue | src/ui/public/agg_types/__tests__/buckets/_terms_other_bucket_helper.js:176-210 | every entry of the filters map is the bool query of some filter with that label |
| OtherBucketBuildProperties.FilterMapDistinct | src/ui/public/agg_types/__tests__/buckets/_terms_other_bucket_helper.js:176-210 | with distinct labels, every label maps to the bool query of its own filter |
| OtherBucketBuildProperties.NestedTermsRequest | src/ui/public/agg_types/__tests__/buckets/_terms_other_bucket_helper.js:170-215 | for two nested terms aggregations there is one filter per outer bucket, labelled `-key`; its `must` fixes the outer key and then requires the inner field, and its `must_not` excludes that bucket's inner keys except `__missing__`; an outer `__missing__` bucket is fixed instead by an `exists` on the outer field, first in `must_not` |
| OtherBucketBuildProperties.WalkExcludesOnly | src/ui/public/agg_types/__tests__/buckets/_terms_other_bucket_helper.js:157-192 | over unfiltered ancestor buckets, every negated filter of every path excludes a shown non-sentinel key of the target field, or is the negated `exists` on an ancestor's field that an ancestor `__missing__` bucket contributes |
| OtherBucketBuildProperties.SentinelNeverExcluded | src/ui/public/agg_types/__tests__/buckets/_terms_other_bucket_helper.js:157-192 | when no ancestor bucket carries filters of its own, no `must_not` clause of the request names `__missing__`: each is a `match_phrase` on the target field for another key, or an `exists` on the field of an aggregation above the target |
| OtherBucketBuildProperties.WalkPaths | src/ui/public/agg_types/__tests__/buckets/_terms_other_bucket_helper.js:107-117 | every label the walk produces is the label of a path of keys through the response |
| OtherBucketBuildProperties.LabelsNamePaths | src/ui/public/agg_types/__tests__/buckets/_terms_other_bucket_helper.js:107-117 | with dash-free keys, every label of the request reads back as a bucket path down to the target level |
| OtherBucketMerge.BucketsAt | src/ui/public/agg_types/__tests__/buckets/_terms_other_bucket_helper.js:233-241 | `getAggResultBuckets` finds a list only within as many levels as the label has keys, and a walk starting at the target level finds only the list it starts from |
| OtherBucketMerge.AppendAtFrame | src/ui/public/agg_types/__tests__/buckets/_terms_other_bucket_helper.js:233-241 | the push changes nothing off the walk: at every level stepped through, the list keeps its length and every other bucket, and the bucket stepped into changes only below |
| OtherBucketMerge.MergeOne | src/ui/public/agg_types/__tests__/buckets/_terms_other_bucket_helper.js:219-241 | merging one bucket of the `other-filter` response changes no bucket list off the path its label names |
| OtherBucketMerge.OtherTerms | src/ui/public/agg_types/__tests__/buckets/_terms_other_bucket_helper.js:219-231 | the terms read from a filter are exactly the `match_phrase` values on the field |
| OtherBucketMerge.MergeOtherBucketAggResponse | src/ui/public/agg_types/__tests__/buckets/_terms_other_bucket_helper.js:219-241 | the loop merges the other-filter buckets one after the other, equal to the fold `MergeAll` |
| OtherBucketMergeProperties.ShownTerms | src/ui/public/agg_types/__tests__/buckets/_terms_other_bucket_helper.js:157-160 | the shown terms are the keys other than `__missing__` |
| OtherBucketMergeProperties.ExcludedTermsReadBack | src/ui/public/agg_types/__tests__/buckets/_terms_other_bucket_helper.js:219-231 | the terms merge reads out of a built filter are exactly the shown keys except `__missing__`, in order |
| OtherBucketMergeProperties.AppendAtNowhere | src/ui/public/agg_types/__tests__/buckets/_terms_other_bucket_helper.js:233-241 | a label that leads to no bucket list leaves the response unchanged |
| OtherBucketMergeProperties.AppendAtFound | src/ui/public/agg_types/__tests__/buckets/_terms_other_bucket_helper.js:233-241 | after the push, the same walk finds the same list with exactly the pushed bucket at its end, provided the pushed key is not among the parts past the first `target - level`; nothing off the walk changes |
| OtherBucketMergeProperties.AppendAtKeysAbove | src/ui/public/agg_types/__tests__/buckets/_terms_other_bucket_helper.js:233-241 | a push starting above the target level keeps the keys of the starting list |
| OtherBucketMergeProperties.AppendAtKeys | src/ui/public/agg_types/__tests__/buckets/_terms_other_bucket_helper.js:233-241 | the push adds no key other than the pushed bucket's at the level the walk starts from |
| OtherBucketMergeProperties.MergeOneEffect | src/ui/public/agg_types/__tests__/buckets/_terms_other_bucket_helper.js:219-241 | an empty or unplaceable other bucket changes nothing; otherwise, provided the other-bucket label is not among the label's keys past the first `target` (a label of the build has exactly `target` keys), the list its label leads to gains exactly one "Other" bucket, with its count, a negated phrases filter over the excluded terms, and an `exists` filter when the list has a missing bucket; in every case no bucket list off the label's path changes |
| OtherBucketMergeProperties.BuiltLabelMerge | src/ui/public/agg_types/__tests__/buckets/_terms_other_bucket_helper.js:219-241 | merging a non-empty bucket whose label the build produced from the same response, when the label leads to a list, appends exactly the "Other" bucket to that list, with no condition on the other-bucket label |
| OtherBucketMergeProperties.SingleTermMerge | src/ui/public/agg_types/__tests__/buckets/_terms_other_bucket_helper.js:219-231 | merging the `''` bucket after a single-term build keeps the buckets and appends "Other", filtered by the shown keys except `__missing__` plus `exists` when a missing bucket was shown |
| OtherBucketMergeProperties.NestedTermMerge | src/ui/public/agg_types/__tests__/buckets/_terms_other_bucket_helper.js:233-241 | merging label `-key` appends "Other" to the inner list of the outer bucket with that key and changes no other outer bucket |
| OtherBucketMergeProperties.AppendAtOuter | src/ui/public/agg_types/__tests__/buckets/_terms_other_bucket_helper.js:233-241 | a one-key path finds the inner list of the uniquely keyed outer bucket, and the push updates only that bucket |
| MissingBucket.RenameMissing | src/ui/public/agg_types/__tests__/buckets/_terms_other_bucket_helper.js:246-250 | the rename keeps the number of buckets |
| MissingBucket.UpdateMissing | src/ui/public/agg_types/__tests__/buckets/_terms_other_bucket_helper.js:246-260 | the update keeps the number of buckets of the list it starts from |
| MissingBucket.UpdateMissingRenames | src/ui/public/agg_types/__tests__/buckets/_terms_other_bucket_helper.js:246-260 | above the target level every bucket keeps its key, count and filters and has sub-results exactly when it had them; every bucket list of the target aggregation becomes its rename (`RenameMissing`) |
| MissingBucket.UpdateMissingBucket | src/ui/public/agg_types/__tests__/buckets/_terms_other_bucket_helper.js:246-260 | `updateMissingBucket` keeps every bucket above the target and renames every target-level list; it returns a response without a sentinel unchanged and, with at most one sentinel per list and a label other than `__missing__`, leaves no sentinel; for the top-level aggregation, a sentinel is then found under the missing label with its count, its sub-results and a negated `exists` filter on the field |
| MissingBucket.RenameMissingEffect | src/ui/public/agg_types/__tests__/buckets/_terms_other_bucket_helper.js:246-260 | the bucket then found under the missing label is the former sentinel, with its count and sub-results and exactly one negated `exists` filter on the field and index pattern |
| MissingBucket.RenameMissingKeys | src/ui/public/agg_types/__tests__/buckets/_terms_other_bucket_helper.js:246-250 | only the first sentinel's key changes; every other bucket is unchanged |
| MissingBucket.RenameRemovesSentinel | src/ui/public/agg_types/__tests__/buckets/_terms_other_bucket_helper.js:246-250 | with at most one sentinel per list, no `__missing__` key survives the rename |
| MissingBucket.NoSentinelUnchanged | src/ui/public/agg_types/__tests__/buckets/_terms_other_bucket_helper.js:246-260 | a response without a sentinel at the target level comes back unchanged |
| MissingBucket.UpdateRemovesSentinel | src/ui/public/agg_types/__tests__/buckets/_terms_other_bucket_helper.js:246-260 | when every list of the target aggregation holds at most one sentinel and the missing label is not `__missing__`, no such list holds a sentinel after the update |
| MissingBucket.UpdateMissingIdempotent | src/ui/public/agg_types/__tests__/buckets/_terms_other_bucket_helper.js:246-260 | applying the update twice equals applying it once |
| TermsOtherBucketFixtures.ResponseKeys | src/ui/public/agg_types/__tests__/buckets/_terms_other_bucket_helper.js:33-93 | the fixture lists are keyed `ios`, `win xp`, `__missing__` |
| TermsOtherBucketFixtures.OsKeyQueries | src/ui/public/agg_types/__tests__/buckets/_terms_other_bucket_helper.js:157-160 | those keys give `must_not` on `ios` and `win xp` only |
| TermsOtherBucketFixtures.SingleBuildFixture | src/ui/public/agg_types/__tests__/buckets/_terms_other_bucket_helper.js:135-168 | the single-term build returns a builder whose request is exactly the expected one: `aggs` undefined, one filter `''` |
| TermsOtherBucketFixtures.TwoOuterBuckets | src/ui/public/agg_types/__tests__/buckets/_terms_other_bucket_helper.js:170-215 | over two outer buckets the filters map is exactly the two expected entries |
| TermsOtherBucketFixtures.NestedBuildFixture | src/ui/public/agg_types/__tests__/buckets/_terms_other_bucket_helper.js:170-215 | the nested build gives exactly the filters `-US` and `-IN` of the test |
| TermsOtherBucketFixtures.SingleMergeFixture | src/ui/public/agg_types/__tests__/buckets/_terms_other_bucket_helper.js:219-231 | the single merge puts "Other" at index 3 with two filters |
| TermsOtherBucketFixtures.TwoOuterMerge | src/ui/public/agg_types/__tests__/buckets/_terms_other_bucket_helper.js:233-241 | two labels merged in order give both outer buckets their "Other" bucket |
| TermsOtherBucketFixtures.NestedMergeFixture | src/ui/public/agg_types/__tests__/buckets/_terms_other_bucket_helper.js:233-241 | the nested merge puts "Other" at index 3 of both inner lists, including outer bucket 1 (`IN`), with two filters |
| TermsOtherBucketFixtures.MissingFixture | src/ui/public/agg_types/__tests__/buckets/_terms_other_bucket_helper.js:246-260 | the bucket found under "Missing" is the former sentinel, filtered by a negated `exists` on `geo.src` in `logstash-*` |
| Histogram.FirstIndex | x-pack/plugins/xpack_main/server/lib/telemetry/monitoring/__tests__/get_high_level_stats.js:162-165 | the first index of a key holds it and nothing before it does |
| Histogram.KeysLength | x-pack/plugins/xpack_main/server/lib/telemetry/monitoring/__tests__/get_high_level_stats.js:162-165 | a histogram has one key per entry, in order |
| Histogram.Increment | x-pack/plugins/xpack_main/server/lib/telemetry/monitoring/__tests__/get_high_level_stats.js:162-165 | incrementing adds 1 to the key's count only and appends a new key at the end |
| Histogram.TallyKeys | x-pack/plugins/xpack_main/server/lib/telemetry/monitoring/__tests__/get_high_level_stats.js:162-165 | a tally has distinct keys, exactly the values tallied |
| Histogram.TallyCounts | x-pack/plugins/xpack_main/server/lib/telemetry/monitoring/__tests__/get_high_level_stats.js:170-172 | each count is the number of occurrences, and the counts sum to the length |
| Histogram.FirstIndexPrefix | x-pack/plugins/xpack_main/server/lib/telemetry/monitoring/__tests__/get_high_level_stats.js:162-165 | extending a sequence keeps the first index of a key it already holds |
| Histogram.TallyFirstSeen | x-pack/plugins/xpack_main/server/lib/telemetry/monitoring/__tests__/get_high_level_stats.js:178-189 | tally keys come in order of first occurrence |
| Histogram.CountOfEntry | x-pack/plugins/xpack_main/server/lib/telemetry/monitoring/__tests__/get_high_level_stats.js:178-189 | with distinct keys, an entry's count is the count of its key |
| HighLevelStats.HandleHighLevelStatsResponse | x-pack/plugins/xpack_main/server/lib/telemetry/monitoring/__tests__/get_high_level_stats.js:211-229 | the loop over the hits yields the rollup of the hits, and the empty map for a response without hits or with none |
| HighLevelStats.Rollup | x-pack/plugins/xpack_main/server/lib/telemetry/monitoring/__tests__/get_high_level_stats.js:139-192 | every cluster record of the result counts at least one and at most all of the hits |
| HighLevelStats.FoldCounts | x-pack/plugins/xpack_main/server/lib/telemetry/monitoring/__tests__/get_high_level_stats.js:139-192 | every cluster of the fold was counted at least once and at most once per hit |
| HighLevelStatsProperties.FoldIsSummary | x-pack/plugins/xpack_main/server/lib/telemetry/monitoring/__tests__/get_high_level_stats.js:24-192 | the fold holds, for each uuid carried by some hit, the independently defined summary of that cluster's hits, and no other key |
| HighLevelStatsProperties.RollupClusterIsSummary | x-pack/plugins/xpack_main/server/lib/telemetry/monitoring/__tests__/get_high_level_stats.js:152-192 | each cluster record is the finished summary of its own hits |
| HighLevelStatsProperties.RollupClusters | x-pack/plugins/xpack_main/server/lib/telemetry/monitoring/__tests__/get_high_level_stats.js:139-192 | the result has a record exactly for the non-empty uuids some hit carries |
| HighLevelStatsProperties.RollupIgnoresHitWithoutUuid | x-pack/plugins/xpack_main/server/lib/telemetry/monitoring/__tests__/get_high_level_stats.js:139-148 | a hit whose `cluster_uuid` is absent or `''` changes nothing |
| HighLevelStatsProperties.RollupCountAndVersions | x-pack/plugins/xpack_main/server/lib/telemetry/monitoring/__tests__/get_high_level_stats.js:153-172 | `count` is the cluster's number of hits; `versions` holds distinct versions in first-seen order, each counting its hits, summing to at most `count` |
| HighLevelStatsProperties.RollupCloudAbsent | x-pack/plugins/xpack_main/server/lib/telemetry/monitoring/__tests__/get_high_level_stats.js:152-166 | `cloud` is undefined exactly when none of the cluster's hits carries cloud data |
| HighLevelStatsProperties.RollupCloudRecords | x-pack/plugins/xpack_main/server/lib/telemetry/monitoring/__tests__/get_high_level_stats.js:173-189 | one record per distinct cloud name in first-seen order: `count` counts its hits, `vms` the distinct non-empty ids present, and the VM type, region and zone histograms every hit having the field |
| HighLevelStatsFixture.FoldedFirstFive | x-pack/plugins/xpack_main/server/lib/telemetry/monitoring/__tests__/get_high_level_stats.js:24-151 | the first five hits of the fixture fold to the records of clusters a and b, counted one hit at a time |
| HighLevelStatsFixture.FoldedHits | x-pack/plugins/xpack_main/server/lib/telemetry/monitoring/__tests__/get_high_level_stats.js:24-151 | all ten hits fold to the records of clusters a, b and c, the hit without a cluster uuid skipped |
| HighLevelStatsFixture.FixtureRollup | x-pack/plugins/xpack_main/server/lib/telemetry/monitoring/__tests__/get_high_level_stats.js:219-223 | the fixture's hits roll up to exactly `expectedClusters` |
| HighLevelStatsFixture.EmptyResponses | x-pack/plugins/xpack_main/server/lib/telemetry/monitoring/__tests__/get_high_level_stats.js:212-229 | a response without `hits`, or with an empty hit list, yields `{}` |
| PivotOptions.Usable | x-pack/plugins/ml/public/data_frame/components/define_pivot/common.test.ts:13-16 | the offered fields are exactly the aggregatable ones not named `_id`, `_index` or `_type` |
| PivotOptions.UsableInOrder | x-pack/plugins/ml/public/data_frame/components/define_pivot/common.test.ts:13-18 | the offered fields are a subsequence of the index pattern's fields, so they keep its order |
| PivotOptions.Labels | x-pack/plugins/ml/public/data_frame/components/define_pivot/common.test.ts:24-30 | a field's labels are exactly `agg(field)` for its supported aggregations |
| PivotOptions.LabelInjective | x-pack/plugins/ml/public/data_frame/components/define_pivot/common.test.ts:33-43 | a label determines its aggregation and its field |
| PivotOptions.ConsistentLookup | x-pack/plugins/ml/public/data_frame/components/define_pivot/common.test.ts:33-43 | in consistent options data, the entry under `agg(field)` is `{agg, field, formRowLabel: agg_field}` |
| PivotOptions.RecordSpec | x-pack/plugins/ml/public/data_frame/components/define_pivot/common.test.ts:33-43 | recording a field's choices adds exactly their labels and keeps every entry the configuration its label names |
| PivotOptions.OfferedStep | x-pack/plugins/ml/public/data_frame/components/define_pivot/common.test.ts:21-52 | the labels offered for one more field are the earlier ones plus that field's |
| PivotOptions.CollectGroups | x-pack/plugins/ml/public/data_frame/components/define_pivot/common.test.ts:21-32 | there is one aggregation group per field, in order, titled with the field name and listing its aggregations |
| PivotOptions.CollectData | x-pack/plugins/ml/public/data_frame/components/define_pivot/common.test.ts:33-52 | the options data hold exactly the labels of the fields' supported choices, each with the configuration its label names |
| PivotOptions.CollectMenus | x-pack/plugins/ml/public/data_frame/components/define_pivot/common.test.ts:21-44 | the dropdowns list exactly the labels of the fields' supported choices |
| PivotOptions.OptionsMatchData | x-pack/plugins/ml/public/data_frame/components/define_pivot/common.test.ts:21-52 | a label is in a dropdown exactly when the options data hold a configuration for it, and only for usable fields and supported choices |
| PivotOptions.UsableFieldOffered | x-pack/plugins/ml/public/data_frame/components/define_pivot/common.test.ts:13-52 | every usable field gets its group and, for each supported choice, the entry `{agg, field, formRowLabel: agg_field}`, plus the default interval for histograms |
| PivotOptions.GetPivotDropdownOptions | x-pack/plugins/ml/public/data_frame/components/define_pivot/common.test.ts:18-55 | `getPivotDropdownOptions` gives one aggregation group per offered field, in order and titled with its name, and a group-by dropdown listing exactly the labels of the group-by data |
| PivotOptions.NumericFieldOptions | x-pack/plugins/ml/public/data_frame/components/define_pivot/common.test.ts:12-55 | a numeric aggregatable `the-field` gives exactly the expected options: one group of avg, max, min, sum and value_count, their data, and one `histogram` group-by with interval `'10'` |

## Left out

- The implementations of the three files are not part of this model, only their tests. The
  following are reconstructed from the usual implementation of that Kibana version and are not
  pinned down by the tests:
  - the walk and label parsing;
  - the rule that adds the `exists` filter;
  - the support tables for field types other than `number`;
  - the ignored field names;
  - the truthiness tests that skip an empty cluster uuid, VM id or histogram key;
  - the skip of other-filter buckets with a zero `doc_count` in the merge.
- `fetchHighLevelStats` and `getHighLevelStats`: these search the monitoring indices through
  `callWith` and read the server config, which is I/O. Only the response handler is modelled.
- The restriction of the search to the given cluster uuids, start and end belongs to the
  search query, which is not modelled.
- Response envelope fields (`took`, `_shards`, `status`, `timed_out`, `sum_other_doc_count`) and
  the `Vis`/index-pattern machinery that builds aggregation configs. The chain is a plain
  sequence of terms aggregations.
- Metric aggregations, non-terms bucket aggregations, numeric bucket keys, and the string
  aggregation ids (`'1'`, `'2'`) that key the response tree. Level `i` stands for `aggs[i]`.
- `createFilter` for an ancestor bucket is modelled as a phrase filter on the ancestor's field,
  or a negated `exists` filter on it for the `__missing__` bucket. Other filter kinds (ranges,
  dates, the filters of non-terms bucket aggregations) are not modelled.
- The key order of JavaScript objects: the `filters` map is a Dafny `map`, and the other-filter
  response is a sequence in its key order.
- The deep copy the merge and update steps take: the model works on values, so the caller's
  response is never changed.
- The "Other" bucket's sub-aggregation results are passed through as given. Recursive merging
  of nested other-bucket aggregations below the target is not modelled.
- OtherBucketMerge.MergeOtherBucketAggResponse: requires every non-empty other-filter bucket's
  label to be in the request. `mergeOtherBucketAggResponse` would throw on a missing label.
- OtherBucketMergeProperties.AppendAtFound: requires the pushed key not to be among the parts
  left past the first `target - level`. Such a part could lead the walk after the push through
  the pushed bucket.
- OtherBucketMergeProperties.MergeOneEffect: states the appended bucket only when the
  other-bucket label is not among the label's keys past the first `target`. A hand-written
  label with more keys than the target's depth, one of them the other-bucket label, is not
  covered. Labels of the build have exactly `target` keys (see BuiltLabelMerge).
- AggResponse.PartsOfLabel: holds only for non-empty keys without `-`. A key with a dash splits
  into several keys (see AggResponse.DashedKeySplits), and the merge may then place the bucket
  elsewhere.
- MissingBucket.UpdateMissingIdempotent: assumes at most one sentinel per list, as the backend
  returns them.
- MissingBucket.UpdateMissingIdempotent: assumes the missing label differs from `__missing__`.
- HighLevelStats.HandleHighLevelStatsResponse: cluster uuid, version, VM id, type, region and
  zone are optional strings, tested by JavaScript truthiness: absent and `''` are both skipped.
  The cloud name is a plain string: a cloud without a `name`, which the handler would group
  under `undefined`, is not modelled, and neither are other JSON shapes (numbers, `null`).
