# Wdb core logic, modelled in Dafny

WasteDB (Wdb) is a database of materials scored on three dimensions:
compostability (CC), recyclability (CR) and reusability (RU). Curators
attach evidence points taken from cited sources to a material, aggregate
them into parameter values, grade a material's confidence level against
its sources, and review, export and publish the results. The shipped code
is a TypeScript/React front end over a key-value store, plus one edge
function module for the exports.

This project models the logic under the screens and the store, module by
module, as pure Dafny functions over immutable records:

- the evidence and aggregation data layer over the key-value store: dimension mapping, creation with secondary indexes, the weighted mean, supersession of the current aggregation, and coverage (`Schema`, `Evidence`, `Aggregations`);
- the units ontology of the thirteen parameters (`Units`);
- the five confidence-level rules side by side (`Confidence`), the data migration (`Migration`, `Ranking`), the scientific editor (`Editor`), the batch operations (`Batch`), the metadata panel (`MetadataView`) and the recyclability calculator (`Processing`);
- the CSV writer and the exports (`Csv`, `Exports`) and the CSV import/export of the data-management view (`DataManagement`);
- the materials provider (`Store`), navigation history (`Navigation`), both curation wizards (`Curation`) and both source libraries (`Library`);
- the screens with statable logic: quantile chart, source comparison, search, takedown list and form, content review centre, review dialog, audit log, evidence lists, evidence lab, article editors, PDF viewer, guides, whitepaper sync and the transform formula bench;
- shared helpers: `Wrappers` (Option/Result), `Seqs`, `Text` (JavaScript string semantics) and `Sorting` (`Array.prototype.sort` as a stable insertion sort).

The key-value store is a `map<string, Value>`, and a prefix scan takes
the store's key listing as a parameter. Network calls, browser storage
writes, clocks and random ids are inputs: each operation takes the
outcome of a call, the current time or the generated id as an argument.
Scores and weights are `real`; JavaScript's `Math.round(x)` is
`Floor(x + 0.5)`. Where the written description of the system and the
code differ, the model follows the code.

## Model

| member | source | states |
|---|---|---|
| Evidence.ParameterDimension | src/utils/supabase/evidence.ts:95-105 | Y, D, C, M, E map to CR; B, N, T to CC; H, L, R, U, C_RU to RU; any other code is an error |
| Evidence.ParameterGroupsDisjoint | src/utils/supabase/evidence.ts:96-98 | the three parameter groups are disjoint, hold 13 distinct codes, none containing ':' |
| Evidence.StrOrNull | src/utils/supabase/evidence.ts:147 | `x \|\| null` on an optional string: null exactly for a missing or empty value, the value otherwise |
| Evidence.IntOrNull | src/utils/supabase/evidence.ts:148-150 | `x \|\| null` on an optional number: null exactly for a missing or zero value |
| Evidence.Create | src/utils/supabase/evidence.ts:122-183 | weight defaults to 0.5 and must lie in [0,1]; unknown parameter is an error; the new point is pending, unvalidated, untransformed, version '1.0', has the parameter's dimension; exactly the record and three index keys are written, all naming the new id |
| Evidence.Resolve | src/utils/supabase/evidence.ts:213-217 | an index row resolves to the stored record its id names, or to nothing |
| Evidence.ResolveAll | src/utils/supabase/evidence.ts:244-251 | fetching every row's record and dropping nulls keeps exactly the resolvable records, in row order |
| Evidence.WithDimension | src/utils/supabase/evidence.ts:219-225 | keeps exactly the points of the given dimension |
| Evidence.ByMaterial | src/utils/supabase/evidence.ts:197-228 | returns exactly the resolved records of the rows under the material (and parameter) prefix, in scan order, filtered by dimension when one is given |
| Evidence.BySource | src/utils/supabase/evidence.ts:235-252 | returns exactly the resolved records of the rows under the source prefix, in scan order |
| Evidence.CanDeleteSource | src/utils/supabase/evidence.ts:292-301 | canDelete iff evidenceCount = 0 iff no point cites the source; evidenceCount is the number of points found by source and evidenceIds lists their ids in order, so every citing point is listed |
| Evidence.RowFound | src/utils/supabase/evidence.ts:206-217 | a prefix row resolving to a record puts the record in the scan's result |
| Evidence.CreatedPointIsIndexed | src/utils/supabase/evidence.ts:168-180 | a created point is found by material, by material and parameter, by source, and blocks deleting its source |
| Evidence.UpdateValidation | src/utils/supabase/evidence.ts:258-286 | null for an unknown id; otherwise the old queue key goes, the new one comes, and only status, validator and timestamps change |
| Evidence.EmptyStoreInvariant | src/utils/supabase/evidence.ts:168-180 | the empty store satisfies the index invariant |
| Evidence.OtherRecordKeyUntouched | src/utils/supabase/evidence.ts:168-180 | creation writes no record key of another id |
| Evidence.OtherQueueKeyUntouched | src/utils/supabase/evidence.ts:178-180 | creation writes no queue key of another id |
| Evidence.CreateKeepsComplete | src/utils/supabase/evidence.ts:168-180 | after creation every record is keyed by its id and sits in its status queue |
| Evidence.CreateKeepsSound | src/utils/supabase/evidence.ts:168-180 | after creation under a fresh id every queue row names a record of that status |
| Evidence.CreatePreservesQueues | src/utils/supabase/evidence.ts:168-180 | creation under a fresh id preserves the queue invariant |
| Evidence.UpdatePreservesQueues | src/utils/supabase/evidence.ts:268-283 | a status change preserves the queue invariant |
| Evidence.Paginate | src/utils/supabase/evidence.ts:390-397 | offset and limit apply only when truthy (0 means unbounded); at most limit rows; a positive offset drops that many, a negative one keeps that many from the end |
| Evidence.ByStatus | src/utils/supabase/evidence.ts:380-408 | the page is exactly the resolvable records of the offset/limit slice of the status queue, in queue order; every result is in the queue and there are at most limit of them |
| Evidence.QueuedIsRecord | src/utils/supabase/evidence.ts:384-404 | under the invariant a queue row resolves only to a stored record with that status |
| Evidence.RecordIsQueued | src/utils/supabase/evidence.ts:178-180 | under the invariant every stored record is a row of its status queue |
| Evidence.ByStatusExact | src/utils/supabase/evidence.ts:380-408 | an unpaginated status query returns exactly the stored records with that status |
| Evidence.UpdateMovesBetweenQueues | src/utils/supabase/evidence.ts:268-283 | after a status change the point is listed under its new status and not under its old one |
| Evidence.DimensionsInOrder | src/utils/supabase/evidence.ts:334-340 | the grouping keys are distinct and exactly the dimensions present |
| Evidence.CodeSet | src/utils/supabase/evidence.ts:345 | parameters_covered counts at most the group's size |
| Evidence.SourceSet | src/utils/supabase/evidence.ts:346 | unique_sources counts at most the group's size |
| Evidence.CountStatus | src/utils/supabase/evidence.ts:349-351 | each status count is at most the group's size |
| Evidence.MinCreated | src/utils/supabase/evidence.ts:353-354 | first_evidence_date is the earliest creation time of the group |
| Evidence.MaxCreated | src/utils/supabase/evidence.ts:353-355 | last_evidence_date is the latest creation time of the group |
| Evidence.SumWeightsBounds | src/utils/supabase/evidence.ts:347 | the weight sum of weights in [0,1] lies in [0, n] |
| Evidence.StatusCountsBounded | src/utils/supabase/evidence.ts:349-351 | validated + pending + flagged counts never exceed the group size |
| Evidence.AvgSourceWeight | src/utils/supabase/evidence.ts:347 | the mean weight lies in [0,1] when the weights do |
| Evidence.Summarize | src/utils/supabase/evidence.ts:343-369 | one group's summary carries its material, dimension and size, with consistent counts |
| Evidence.GroupBy | src/utils/supabase/evidence.ts:334-340 | each group holds exactly the points of its dimension |
| Evidence.SummariesFor | src/utils/supabase/evidence.ts:342-370 | one consistent summary per group, totals carried over |
| Evidence.SummaryTotals | src/utils/supabase/evidence.ts:342-370 | the summaries' totals add up to the grouped points |
| Evidence.StatsOf | src/utils/supabase/evidence.ts:330-373 | empty for no evidence; one summary per distinct dimension, totals add to the number of points |
| Evidence.GroupsNonEmpty | src/utils/supabase/evidence.ts:334-340 | every present dimension's group is non-empty |
| Evidence.StatsByMaterial | src/utils/supabase/evidence.ts:324-374 | summaries' totals equal the points found for the material; with a dimension filter every summary has that dimension |
| Evidence.GroupTotals | src/utils/supabase/evidence.ts:334-340 | grouping by a distinct covering list of dimensions neither loses nor duplicates a point |
| Aggregations.MeanOf | src/utils/supabase/aggregations.ts:102-108 | the mean Σv·w / Σw uses transformed_value falling back to raw_value, and is non-finite exactly when the weights sum to zero |
| Aggregations.WeightedMean | src/utils/supabase/aggregations.ts:91-129 | an empty input is an error; se and both CI bounds are present iff n ≥ 2; se is sqrt((Σw·(v−mean)²/Σw)/n) and the interval is mean ± 1.96·se, and a non-finite se gives non-finite bounds |
| Aggregations.WeightedSumBounds | src/utils/supabase/aggregations.ts:106-107 | with non-negative weights Σv·w lies between lo·Σw and hi·Σw for any bounds lo, hi of the values |
| Aggregations.MeanWithinValues | src/utils/supabase/aggregations.ts:106-108 | with non-negative weights not all zero the mean is finite and lies between any bounds of the values |
| Aggregations.IntervalAroundMean | src/utils/supabase/aggregations.ts:113-125 | for n ≥ 2 and a positive weight sum the mean is the weighted mean, se = sqrt((Σw·(v−mean)²/Σw)/n), ci95_lower = mean − 1.96·se ≤ mean ≤ mean + 1.96·se = ci95_upper |
| Aggregations.FetchPoints | src/utils/supabase/aggregations.ts:144-149 | a point is fetched iff some listed id resolves to it, and there are at most as many points as ids |
| Aggregations.FetchPointsInOrder | src/utils/supabase/aggregations.ts:144-149 | the points come back in id order, one per listed id that resolves (a repeated id contributes its point twice), and missing ids are dropped |
| Aggregations.Mismatch | src/utils/supabase/aggregations.ts:156-164 | the consistency loop finds a mismatch iff some point has another material or parameter |
| Aggregations.IdSetMembers | src/utils/supabase/aggregations.ts:170-173 | an id is a weights_used key iff some resolved point has it |
| Aggregations.WeightsUsed | src/utils/supabase/aggregations.ts:170-173 | weights_used is keyed exactly by the resolved points' ids |
| Aggregations.WeightsUsedLastWins | src/utils/supabase/aggregations.ts:171-173 | each id maps to the weight of its last occurrence |
| Aggregations.Superseded | src/utils/supabase/aggregations.ts:214-219 | a superseded record is no longer current, names its successor and supersession time, and is otherwise unchanged |
| Aggregations.CurrentTarget | src/utils/supabase/aggregations.ts:207-212 | the previous current aggregation is looked up only when the pointer holds a truthy id |
| Aggregations.Publish | src/utils/supabase/aggregations.ts:204-229 | publishing writes the record, supersedes the old current record, moves the pointer to the new id and adds the history row; every other key keeps its value |
| Aggregations.CreateAggregation | src/utils/supabase/aggregations.ts:139-232 | an error iff no listed id resolves, a point mismatches, or the parameter is unknown; otherwise n_mius is the number of resolved points, miu_ids echoes the input, mean, se and CI bounds are the weighted mean of the resolved points, weights_used maps each resolved id to the weight of its last occurrence, and the new record is current |
| Aggregations.TargetAfterWrite | src/utils/supabase/aggregations.ts:204-212 | writing the new record before reading the pointer changes the pointer's target only when it already named the new id |
| Aggregations.HistoryNotCurrent | src/utils/supabase/aggregations.ts:204-228 | a history key is neither a pointer key nor a record key |
| Aggregations.AggregationKeyFamilies | src/utils/supabase/aggregations.ts:204-228 | record, pointer and history keys never collide |
| Aggregations.EmptyStoreAggInvariant | src/utils/supabase/aggregations.ts:204-229 | the empty store satisfies the current-pointer invariant |
| Aggregations.AtMostOneCurrent | src/utils/supabase/aggregations.ts:207-225 | under the invariant at most one aggregation is current for a material and parameter |
| Aggregations.CreatePreservesCurrent | src/utils/supabase/aggregations.ts:204-229 | creation under a fresh id keeps the invariant: the old current record is superseded and the current pointer names the new one |
| Aggregations.SameTarget | src/utils/supabase/aggregations.ts:204-212 | the pointer cannot name a fresh id, so writing the new record first does not change its target |
| Aggregations.CreateKeepsKeyed | src/utils/supabase/aggregations.ts:204-229 | after creation every aggregation record is keyed by its own id |
| Aggregations.CreateKeepsPointed | src/utils/supabase/aggregations.ts:207-225 | after creation every current record is the one its pointer names |
| Aggregations.CreateKeepsResolving | src/utils/supabase/aggregations.ts:207-225 | after creation every pointer names a stored aggregation |
| Aggregations.ResolveAgg | src/utils/supabase/aggregations.ts:262-264 | a row resolves to the aggregation its id names, or to nothing |
| Aggregations.ResolveAggs | src/utils/supabase/aggregations.ts:261-268 | the aggregations come back in row order, one per row whose record resolves, and the null fetches are dropped |
| Aggregations.CurrentByMaterialAsWritten | src/utils/supabase/aggregations.ts:246-269 | returns, in the listing order of the pointers whose key starts with the material (and parameter) prefix, one aggregation per pointer that resolves |
| Aggregations.CurrentQueryOvermatches | src/utils/supabase/aggregations.ts:250-252 | as written, the query for parameter C also returns the current C_RU aggregation |
| Aggregations.CurrentByMaterial | src/utils/supabase/aggregations.ts:246-269 | corrected query: with a parameter only that parameter's pointer is read; without one it is the query as written |
| Aggregations.CurrentQueryExact | src/utils/supabase/aggregations.ts:246-269 | under the invariant the corrected query returns at most the one current aggregation of that parameter |
| Aggregations.PublishedIsCurrent | src/utils/supabase/aggregations.ts:225 | after publishing, the corrected query for the material and parameter returns exactly the new record |
| Aggregations.FreshIdUnpointed | src/utils/supabase/aggregations.ts:207-212 | a fresh id is not what any pointer names |
| Aggregations.CreatedIsCurrent | src/utils/supabase/aggregations.ts:198-225 | after creation under a fresh id the corrected current query returns exactly the new aggregation |
| Aggregations.InsertByTime | src/utils/supabase/aggregations.ts:297-299 | inserting by calculation time keeps newest-first order and adds exactly one element |
| Aggregations.SortNewestFirst | src/utils/supabase/aggregations.ts:297-299 | the history sort is a newest-first permutation of its input |
| Aggregations.History | src/utils/supabase/aggregations.ts:275-302 | the history is a permutation of the resolvable aggregations under the history prefix, newest first |
| Aggregations.PublishedInHistory | src/utils/supabase/aggregations.ts:228-229 | a published record is in the history of its material and parameter |
| Aggregations.CreatedInHistory | src/utils/supabase/aggregations.ts:228-229 | a created aggregation is in its history |
| Aggregations.StatsOf | src/utils/supabase/aggregations.ts:307-330 | totalParameters counts the aggregations, the parameter list follows them, totalMiusUsed is the sum of their n_mius, lastCalculatedAt is absent iff there are none and is otherwise the newest time |
| Aggregations.LatestOfSorted | src/utils/supabase/aggregations.ts:315-318 | the head of the newest-first sort is at least as new as every aggregation |
| Aggregations.Stats | src/utils/supabase/aggregations.ts:307-330 | getAggregationStats is the summary of exactly the material's current aggregations |
| Aggregations.QualityScore | src/utils/supabase/aggregations.ts:398-404 | quality_score is null iff the CI width is null |
| Aggregations.Coverage | src/utils/supabase/aggregations.ts:380-411 | status is good iff n_mius ≥ 3, sufficient iff 1 ≤ n_mius < 3, insufficient otherwise; num_sources is the number of weights_used keys; the width is upper − lower when both exist |
| Aggregations.QualityScoreRange | src/utils/supabase/aggregations.ts:398-404 | for a non-negative width the score lies in [0,1], and is 1 exactly for n ≥ 3 and width 0 |
| Aggregations.CoverageMatrix | src/utils/supabase/aggregations.ts:358-412 | one coverage row per current aggregation of the material, or of every material when none is given |
| Units.ToCanonical | src/ontologies/units.ts:42-55 | a value converts iff the entry has a conversion for its unit, by that conversion's formula; for an entry with the ontology's invariants every allowed unit converts and a value in the canonical unit comes back unchanged (table-wide: Units.ConversionsTotal) |
| Units.ToxicityCanonicalUnconvertible | src/ontologies/units.ts:216-237 | as written, T's canonical unit is allowed but has no conversion, so the entry fails the ontology test's conversion check |
| Units.AllThirteenPresent | src/ontologies/units.ts:37-364 | the codes with an entry are exactly Y, D, C, M, E, B, N, T, H, L, R, U and C_RU |
| Units.CrEntriesWellFormed | src/ontologies/units.ts:38-162 | Y, D, C, M and E: canonical unit allowed, every allowed unit converted, canonical conversion the identity, min ≤ max |
| Units.CcEntriesWellFormed | src/ontologies/units.ts:164-237 | B, N and (corrected) T are well formed in the same sense |
| Units.RuEntriesWellFormed | src/ontologies/units.ts:239-362 | H, L, R, U and C_RU are well formed in the same sense |
| Units.TableWellFormed | src/ontologies/units.ts:37-364 | every entry of the corrected table is well formed |
| Units.ConversionsTotal | src/ontologies/units.ts:42-55 | every allowed unit converts, and converting a canonical-unit value is the identity |
| Units.RatioParametersInUnitRange | src/ontologies/units.ts:56-60 | the ratio-canonical parameters are exactly Y, D, B, R and U, and they validate against [0,1] (also lines 80-84, 183-186, 307-311, 331-335) |
| Units.YieldUnitCases | src/ontologies/units.ts:41 | "%" is an allowed unit of Y and "kg" is not |
| Migration.TablePlausible | src/utils/dataMigration.ts:15-181 | every default entry has its parameters and CR means in [0,1] |
| Migration.ExactFrom | src/utils/dataMigration.ts:188-190 | finds the first table key equal to the name |
| Migration.RelatedFrom | src/utils/dataMigration.ts:193-199 | finds the first table key that contains, or is contained in, the name case-insensitively |
| Migration.Lookup | src/utils/dataMigration.ts:187-202 | an exact key wins; otherwise the first related key; nothing iff no key is related |
| Migration.DefaultsFor | src/utils/dataMigration.ts:187-202 | getDefaultScientificData returns a plausible entry, exact match first, else the first related one, else null |
| Migration.EmptyNameGetsCardboard | src/utils/dataMigration.ts:193-199 | every key contains the empty name, so an unnamed material gets the first entry |
| Migration.Blanked | src/utils/dataMigration.ts:222 | every separator (whitespace, parentheses, comma, hyphen) becomes a space |
| Migration.SearchTerms | src/utils/dataMigration.ts:221-223 | the terms are the pieces of the lower-cased name split at spaces after every separator became a space, keeping those longer than two characters; each is lower-case and separator-free |
| Migration.SearchTermsArePieces | src/utils/dataMigration.ts:221-223 | when the lower-cased, blanked name is the space-join of space-free pieces, the terms are exactly those pieces longer than two characters |
| Migration.SearchTermsOfWord | src/utils/dataMigration.ts:221-223 | a single separator-free word of three or more characters is its own lower-cased term |
| Migration.TagScore | src/utils/dataMigration.ts:238-246 | a tag scores 10 iff equal to the term, 5 when either contains the other, else 0 |
| Migration.TermScore | src/utils/dataMigration.ts:236-255 | a term scores its tag points plus 5 when both title and abstract mention it, 3 for the title alone, 2 for the abstract alone, and nothing more otherwise |
| Migration.Score | src/utils/dataMigration.ts:232-266 | a source scores the sum of its term scores plus twice its weight (0 or missing counts as 1), plus 1 when it is general |
| Migration.TermsScoreConcat | src/utils/dataMigration.ts:236-255 | the score of a concatenation of term lists is the sum of the scores of its parts |
| Migration.ScoreOneTerm | src/utils/dataMigration.ts:232-266 | with one term a source scores that term's tag points, 3 and 2 for title and abstract mentions, twice its weight and 1 if general |
| Migration.ExactTagScore | src/utils/dataMigration.ts:240-241 | a tag equal to a term adds at least 10 to the weight bonus |
| Migration.AssignedParameters | src/utils/dataMigration.ts:308-342 | the assigned parameter list is never empty; above 8 it follows the tag rules, general sources get both CR means, others CR_practical_mean |
| Migration.Cite | src/utils/dataMigration.ts:344-352 | a chosen source is cited with its bibliographic fields, weight and parameters |
| Migration.Scores | src/utils/dataMigration.ts:232-266 | one score per library source, for the name's search terms |
| Migration.Chosen | src/utils/dataMigration.ts:268-307 | at most five distinct library positions, at least min(3, library size) |
| Migration.ChosenHasGeneral | src/utils/dataMigration.ts:273-294 | a general source is chosen whenever the library has one |
| Migration.CiteAll | src/utils/dataMigration.ts:307-353 | one citation per chosen position, in order |
| Migration.SourcesFor | src/utils/dataMigration.ts:220-354 | getSourcesForMaterial returns at most five, at least min(3, library size), distinct sources, each with a non-empty parameter list |
| Migration.Backfilled | src/utils/dataMigration.ts:368-374 | a material without Y takes the name's defaults when there are any, and is otherwise unchanged |
| Migration.Resourced | src/utils/dataMigration.ts:377-380 | missing or fewer than three sources are replaced by the chosen ones; three or more are kept |
| Migration.Graded | src/utils/dataMigration.ts:383-395 | a material with sources and no level gets the level its sources support; an existing level is kept |
| Migration.Stamped | src/utils/dataMigration.ts:397-405 | whitepaper and method versions and the timestamp are set only where falsy |
| Migration.Migrate | src/utils/dataMigration.ts:360-408 | unchanged when no migration is needed; identity and scores kept; Y from the defaults only when missing; an existing level never overwritten |
| Migration.MigrateSources | src/utils/dataMigration.ts:377-380 | three or more sources are kept, fewer are replaced |
| Migration.MigrateStamps | src/utils/dataMigration.ts:397-405 | the stamps are added where falsy and kept otherwise |
| Migration.MigrateCompletes | src/utils/dataMigration.ts:360-424 | with a library of three or more and a Y value or defaults, the migrated material needs no further migration |
| Migration.MigrateIdempotent | src/utils/dataMigration.ts:360-408 | migrating twice equals migrating once |
| Migration.MigratedIsShown | src/utils/dataMigration.ts:397-399 | a migrated material has scientific data for the metadata panel |
| Migration.MigrateAll | src/utils/dataMigration.ts:413-415 | migrateAllMaterials migrates each element in place |
| Migration.Stats | src/utils/dataMigration.ts:429-443 | getMigrationStats' counts are each bounded by total, and materials without Y all need migration |
| Migration.CountImplies | src/utils/dataMigration.ts:420-424 | no more materials lack Y than need migration |
| Migration.MigrateAllReducesWork | src/utils/dataMigration.ts:413-443 | migrating a batch never raises the number of materials needing migration |
| Ranking.Insert | src/utils/dataMigration.ts:270 | inserting a position keeps range and adds exactly it |
| Ranking.InsertSorted | src/utils/dataMigration.ts:270 | insertion keeps the ranking sorted by descending score |
| Ranking.InsertStable | src/utils/dataMigration.ts:270 | insertion keeps ties in library order |
| Ranking.Sort | src/utils/dataMigration.ts:270 | the score sort is a permutation sorted by descending score |
| Ranking.SortStable | src/utils/dataMigration.ts:270 | the sort is stable |
| Ranking.Rank | src/utils/dataMigration.ts:232-270 | every library position ranked exactly once, best first, ties in library order |
| Ranking.PushNew | src/utils/dataMigration.ts:282-292 | pushing the not-yet-selected elements keeps the selection distinct and adds exactly the new ones |
| Ranking.Fill | src/utils/dataMigration.ts:295-303 | the top-up loop adds ranked positions until three are selected or the ranking is exhausted |
| Ranking.FirstWhere | src/utils/dataMigration.ts:275-279 | the general source is the first ranked one that is general: every source ranked before it is not; none when no ranked source is general |
| Ranking.Specific | src/utils/dataMigration.ts:273 | the material-specific sources are at most four ranked positions scoring above 5 |
| Ranking.Select | src/utils/dataMigration.ts:268-307 | the selection is distinct, at most five, at least min(3, ranked), holds every specific source and the general one |
| Ranking.Choose | src/utils/dataMigration.ts:232-307 | the choice over a score table is at most five distinct positions and at least min(3, library size) |
| Ranking.ChooseHasGeneral | src/utils/dataMigration.ts:274-292 | when some position is general the choice includes a general one |
| Confidence.MeanAtLeast | src/components/ScientificDataEditor.tsx:155 | the mean weight reaches a threshold iff the total reaches n times it |
| Confidence.Suggested | src/components/ScientificDataEditor.tsx:153-166 | Low for no sources; High only with ≥ 3 sources and always when the mean weight is ≥ 0.8; never Low with ≥ 2 sources; one source is Medium iff its weight ≥ 0.6 |
| Confidence.MigrationLevel | src/utils/dataMigration.ts:383-395 | the migration's level agrees with the editor's suggestion on every input |
| Confidence.MismatchWithoutSources | src/components/scientific-editor/SourcesTab.tsx:131-147 | with no sources the warning stays silent iff the level is Low; an unset level (Medium) warns |
| Confidence.AuditFlags | src/components/BatchScientificOperations.tsx:540-551 | the audit flags iff (High with < 3 sources) or (Medium with < 2); the third clause adds nothing |
| Confidence.Recommended | src/components/BatchScientificOperations.tsx:589-594 | the recommendation is the highest level the audit would not flag |
| Confidence.RecommendationLowers | src/components/BatchScientificOperations.tsx:540-594 | a flagged material is recommended a strictly lower level |
| Confidence.Warning | src/components/views/ScientificMetadataView.tsx:51-68 | validateConfidenceLevel is non-null iff the audit condition holds, and null without a level; src/components/ScientificMetadataView.tsx:62-79 has the same text |
| Confidence.SuggestedVersusAudit | src/components/ScientificDataEditor.tsx:153-166 | the editor's suggestion is flagged by the audit iff there is one source of weight ≥ 0.6 |
| Confidence.DcmCount | src/components/BatchScientificOperations.tsx:252-255 | at most three of D, C and M are present |
| Confidence.Present | src/components/BatchScientificOperations.tsx:251-256 | at most five completeness items are present |
| Confidence.CompletenessCounts | src/components/BatchScientificOperations.tsx:251-256 | completeness is 0.2 times the number of present items |
| Confidence.BatchLevel | src/components/BatchScientificOperations.tsx:258-264 | High iff ≥ 4 items present and ≥ 2 sources; Medium iff not High and ≥ 3 present |
| Confidence.Recalculated | src/components/BatchScientificOperations.tsx:246-267 | a falsy Y leaves the material unchanged; otherwise only the level changes, High iff two of D, C, M and two sources |
| Confidence.RecalculatedVersusAudit | src/components/BatchScientificOperations.tsx:251-267 | characterises exactly when the recalculated level is then flagged by the audit (also lines 540-551) |
| Confidence.RecalculatedHighWithTwoSources | src/components/BatchScientificOperations.tsx:259-260 | two sources with Y, D, C and M give High, which the audit flags and recommends lowering to Medium (also lines 546) |
| MetadataView.Shown | src/components/views/ScientificMetadataView.tsx:40-48 | renders iff Y_value, CR_practical_mean or whitepaper_version is defined, or admin mode is on (same rule at src/components/ScientificMetadataView.tsx:52-59); Migration.MigratedIsShown proves every migrated material is shown in either mode |
| MetadataView.TaggedFrom | src/components/views/ScientificMetadataView.tsx:102-107 | keeps the sources listing the parameter, tagged with their positions in increasing order |
| MetadataView.TaggedFromComplete | src/components/views/ScientificMetadataView.tsx:102-107 | every source listing the parameter is among the tagged ones |
| MetadataView.SourcesForParameter | src/components/views/ScientificMetadataView.tsx:102-107 | empty without a source list; otherwise exactly the sources listing the parameter, tagged with their original index |
| MetadataView.Hue | src/components/ScientificMetadataView.tsx:83-90 | green, yellow, red for High, Medium, Low; gray exactly when no level is set |
| MetadataView.HuesDistinct | src/components/ScientificMetadataView.tsx:83-90 | different levels get different colours |
| Csv.DoubleQuotes | src/supabase/functions/server/exports.tsx:19 | doubling the quotes never shortens a value and adds or removes no comma |
| Csv.Escape | src/supabase/functions/server/exports.tsx:13-21 | a value with a comma, quote or line feed is wrapped in quotes; any other value is written verbatim |
| Csv.EscapeCell | src/supabase/functions/server/exports.tsx:11-21 | null and undefined are written as the empty string; every other value is escaped as its string |
| Csv.ReadPlain | src/supabase/functions/server/exports.tsx:13-21 | an unquoted field is read up to the next comma, line feed or end (the reader that inverts the escaping) |
| Csv.ReadFieldOf | src/supabase/functions/server/exports.tsx:11-22 | unquoting an escaped field, whatever legal text follows it, gives the original string back |
| Csv.EscapeInjective | src/supabase/functions/server/exports.tsx:11-22 | two different strings never escape to the same text |
| Csv.ReadRecordOf | src/supabase/functions/server/exports.tsx:24-25 | reading a comma-joined escaped row gives its values back |
| Csv.ParseOf | src/supabase/functions/server/exports.tsx:26 | reading rows joined with line feeds gives the rows back |
| Csv.ToCsvRoundTrip | src/supabase/functions/server/exports.tsx:10-27 | arrayToCSV's output reads back as the header row followed by one record per input row, in order |
| Exports.Or | src/supabase/functions/server/exports.tsx:38-41 | `a \|\| b` keeps a truthy a, and is b otherwise |
| Exports.ToPublic | src/supabase/functions/server/exports.tsx:30-44 | copies identity and scores; isEstimated defaults to false, confidenceLevel to "low", whitepaperVersion to "2025.1"; lastUpdated = updated_at \|\| created_at |
| Exports.IntCell | src/supabase/functions/server/exports.tsx:74-92 | a number cell is empty exactly when the value is undefined |
| Exports.PublicRow | src/supabase/functions/server/exports.tsx:67-93 | the public header and every public row have 11 cells, starting with id, name, category, isEstimated as Yes/No |
| Exports.RecordAt | src/supabase/functions/server/exports.tsx:24-26 | record i+1 of a written document reads back as row i |
| Exports.PublicCells | src/supabase/functions/server/exports.tsx:80-93 | a material's public record shows 11 cells, its id, name and category first |
| Exports.PublicCsvReadsBack | src/supabase/functions/server/exports.tsx:66-95 | the public CSV reads back as the header and then each material's 11 cells in order |
| Exports.Scaled | src/supabase/functions/server/exports.tsx:215 | toFixed(4) prints the magnitude in ten-thousandths, rounded half away from zero |
| Exports.Fixed4 | src/supabase/functions/server/exports.tsx:215-247 | toFixed(4) gives an optional minus, a whole part, a point and four digits |
| Exports.Fixed4Plain | src/supabase/functions/server/exports.tsx:215-247 | a formatted number never needs CSV quoting |
| Exports.Fixed4Value | src/supabase/functions/server/exports.tsx:215-247 | the printed digits denote the rounded magnitude in ten-thousandths |
| Exports.FixedCell | src/supabase/functions/server/exports.tsx:215-219 | `m.X?.toFixed(4) \|\| ""` is empty exactly when the value is missing |
| Exports.BoundCell | src/supabase/functions/server/exports.tsx:221-222 | a CI bound cell is always a cell (possibly empty) |
| Exports.DimensionCells | src/supabase/functions/server/exports.tsx:214-247 | a dimension block has its parameters' cells followed by the six mean and bound cells |
| Exports.ScoreCell | src/supabase/functions/server/exports.tsx:249-251 | `m.score \|\| ""` is empty for a missing score and for a score of 0 |
| Exports.SourceCountCell | src/supabase/functions/server/exports.tsx:253 | `m.sources?.length \|\| "0"` is never empty |
| Exports.ResearchRow | src/supabase/functions/server/exports.tsx:155-258 | the research header and every research row have 44 cells; the evidence count sits in cell 40 |
| Exports.ScienceCells | src/supabase/functions/server/exports.tsx:214-247 | the three dimension blocks make 31 cells |
| Exports.SummaryCells | src/supabase/functions/server/exports.tsx:249-257 | the scores, level, counts and stamps make 9 cells |
| Exports.ZeroScoreIsEmpty | src/supabase/functions/server/exports.tsx:249-251 | a public score of 0 is written as an empty cell, the same as a missing score |
| Exports.Group | src/supabase/functions/server/exports.tsx:145-152 | each point lands in exactly the group of its material, in store order |
| Exports.GroupStep | src/supabase/functions/server/exports.tsx:146-151 | one loop step appends the point to its material's group only |
| Exports.GroupCount | src/supabase/functions/server/exports.tsx:207 | a material's evidence count is the number of points with its id |
| Exports.ResearchCells | src/supabase/functions/server/exports.tsx:206-258 | a research record shows 44 cells with the material's own evidence count |
| Exports.ResearchCsvReadsBack | src/supabase/functions/server/exports.tsx:154-261 | the research CSV reads back as the header and then each material's 44 cells with its evidence count |
| Exports.ResearchJson | src/supabase/functions/server/exports.tsx:280-379 | every material carries exactly its own evidence points in order; material_count and total_evidence_points are the totals |
| Exports.PublicExport | src/supabase/functions/server/exports.tsx:49-123 | no materials give an empty CSV or an empty list; otherwise JSON carries one public record per material |
| Exports.ResearchExport | src/supabase/functions/server/exports.tsx:125-140 | no materials give an empty CSV or an empty list; otherwise the JSON counts every evidence point (also lines 368-379) |
| Exports.ExportedBound | src/supabase/functions/server/exports.tsx:145-152 | the points with an exported material number at most all points, and all of them iff every point's material is exported (also lines 366) |
| Exports.EvidenceAccounted | src/supabase/functions/server/exports.tsx:145-152 | with distinct material ids the evidence_count values sum to at most total_evidence_points, with equality iff every point's material is exported (also lines 366, 379) |
| DataManagement.Field | src/components/views/DataManagementView.tsx:151-155 | `row[key]` is undefined exactly when no header has that name |
| DataManagement.FieldIsLastCell | src/components/views/DataManagementView.tsx:152-155 | a field is the trimmed cell under the last header of that name, "" when the cell is missing |
| DataManagement.Clamp | src/components/views/DataManagementView.tsx:164-175 | min(100, max(0, n)) lies in [0,100] and fixes values already in range |
| DataManagement.Score | src/components/views/DataManagementView.tsx:164-175 | parseInt clamped to [0,100], NaN becoming 0, always lies in [0,100] |
| DataManagement.ReadRowShape | src/components/views/DataManagementView.tsx:150-184 | a data line gives a material iff its name and category are non-empty; the material has the line's id, empty article lists and scores in [0,100] |
| DataManagement.ReadRows | src/components/views/DataManagementView.tsx:150-185 | the row loop keeps at most one material per data line |
| DataManagement.ReadRowsFrom | src/components/views/DataManagementView.tsx:150-185 | every kept material is what some data line read as |
| DataManagement.ProcessCsv | src/components/views/DataManagementView.tsx:123-200 | blank lines ignored; fewer than two lines or a missing required header aborts; onBulkImport is called iff at least one row survives, with at most one material per data line |
| DataManagement.ImportedWellFormed | src/components/views/DataManagementView.tsx:157-184 | every imported material has a name, a category, scores in [0,100] and three empty article lists |
| DataManagement.ExportCells | src/components/views/DataManagementView.tsx:236-243 | an exported row has six cells |
| DataManagement.ScoreOfCell | src/components/views/DataManagementView.tsx:164-175 | a score in [0,100] written as digits reads back as itself |
| DataManagement.CellsOfLine | src/components/views/DataManagementView.tsx:151 | an exported line of an exportable material splits and trims back into its six cells (also lines 236-244) |
| DataManagement.ExportHeadersRead | src/components/views/DataManagementView.tsx:132 | the export header line reads back as the six headers (also lines 226-235) |
| DataManagement.ExportFieldAt | src/components/views/DataManagementView.tsx:151-155 | under the export headers each field is the cell in its column |
| DataManagement.ExportedFields | src/components/views/DataManagementView.tsx:151-155 | each field of an exported line is the cell written for it (also lines 236-244) |
| DataManagement.ReadExportedRow | src/components/views/DataManagementView.tsx:150-184 | an exported line reads back as the material's name, category, description and scores (also lines 236-244) |
| DataManagement.LinesOfJoin | src/components/views/DataManagementView.tsx:125 | non-blank lines joined with line feeds split back into the same lines |
| DataManagement.ImportOf | src/components/views/DataManagementView.tsx:123-195 | a header line and non-blank data lines import as the materials the data lines read as |
| DataManagement.ExportThenImport | src/components/views/DataManagementView.tsx:226-247 | for comma-free, newline-free, trimmed fields with non-empty name and category, importing the export reproduces name, category, description and scores with empty article lists (also lines 123-184) |
| DataManagement.Save | src/components/views/DataManagementView.tsx:103-116 | no-op without an editing id (none, or the falsy empty id) or a matching material; otherwise editData overlays the material: name, category, description and the three scores come from the edit when it has them and stay otherwise, and the id and every unedited field are kept |
| DataManagement.SaveUnedited | src/components/views/DataManagementView.tsx:103-116 | saving an empty edit passes the material on unchanged |
| Store.Normalise | src/contexts/MaterialsContext.tsx:103-144 | a loaded material keeps its id and name, gets category "Plastics" when it has none and three empty article lists when it has none |
| Store.NormaliseFixes | src/contexts/MaterialsContext.tsx:103-111 | normalising changes nothing exactly for a material that already has a category and articles |
| Store.NormaliseIdempotent | src/contexts/MaterialsContext.tsx:103-111 | normalising twice equals normalising once |
| Store.LoadFromLocal | src/contexts/MaterialsContext.tsx:77-124 | a stored version other than "2.0-clean" sets the version and starts empty; a missing or unparsable cache starts empty; otherwise the cached list is loaded normalised and nothing else changes. Starting empty saves the empty list: without sync rights status, availability and count are kept; a fired safeguard sets offline; a sync records the count 0 and ends synced iff some attempt succeeded, otherwise in error and unavailable |
| Store.Load | src/contexts/MaterialsContext.tsx:126-192 | a non-empty remote list is loaded normalised and cached with its count; a failed call leaves the backend unavailable and a succeeded one available unless the load's own sync failed; a signed-in user's status becomes synced or offline accordingly, unless loading started a sync, whose outcome (synced iff some attempt succeeded, else error) is the final status |
| Store.Retry | src/contexts/MaterialsContext.tsx:267-300 | the bulk sync is tried at most maxRetries+1 = 3 times, stops at the first success, and fails only after every attempt failed |
| Store.Save | src/contexts/MaterialsContext.tsx:195-302 | local state and cache always take the new list; the cloud sync happens only for an admin with the backend available, and is refused (status offline, no sync call; an audit-log entry is posted, which is I/O and not modelled) when the last count is > 1 and the new length ≤ 1; failure sets error and unavailability |
| Store.StoredCountOf | src/contexts/MaterialsContext.tsx:204-212 | the count a save records reads back as the list length |
| Store.SafeguardBlocksWipe | src/contexts/MaterialsContext.tsx:197-253 | after a synced save of more than one material, saving one or none makes no sync call (only the audit-log post, not modelled), reports offline and still keeps the list locally |
| Store.SyncSingle | src/contexts/MaterialsContext.tsx:305-343 | returns false with no call unless user, admin and availability all hold; otherwise returns the call's outcome and sets the status from it |
| Store.Add | src/contexts/MaterialsContext.tsx:346-361 | appends exactly one element, the data with the new id, and records the new length as last_known_count |
| Store.Update | src/contexts/MaterialsContext.tsx:364-405 | without an id nothing happens; a known id is replaced in place, preserving length and order; an unknown id is appended |
| Store.Delete | src/contexts/MaterialsContext.tsx:408-428 | once confirmed, removes exactly the elements with that id and records the new length; unconfirmed it changes nothing |
| Store.DeleteAccounts | src/contexts/MaterialsContext.tsx:408-418 | the survivors and the removed elements account for the whole list |
| Store.DeleteShrinks | src/contexts/MaterialsContext.tsx:408-418 | deleting a present id shortens the list |
| Store.DeleteAll | src/contexts/MaterialsContext.tsx:441-456 | deleting all empties the list and the cache, keeps the last known count, and calls the backend iff it is available |
| Store.DeleteAllThenSaveRefused | src/contexts/MaterialsContext.tsx:197-198 | after deleting everything the safeguard still remembers the old count, so syncing an empty list is refused (also lines 441-456) |
| Store.RetrySync | src/contexts/MaterialsContext.tsx:458-490 | only a signed-in admin triggers a call; its outcome sets availability and synced status, and the list is unchanged |
| Store.GetById | src/contexts/MaterialsContext.tsx:492-494 | returns the first material with the id, or nothing iff none has it |
| Store.AddThenGet | src/contexts/MaterialsContext.tsx:346-357 | a material just added under an unused id is found by that id (also lines 492-494) |
| Materials.Rank | src/components/scientific-editor/SourcesTab.tsx:138-142 | the level ranking is High 3, Medium 2, Low 1 |
| Schema.GetByPrefix | src/utils/supabase/evidence.ts:206 | the prefix scan returns exactly the listed rows whose key starts with the prefix, in listing order: its keys are the listing filtered by the prefix (also lines 237, 384) |
| Schema.KeyFamiliesDistinct | src/utils/supabase/evidence.ts:168-180 | record, material-index, source-index and validation-index keys never coincide |
| Schema.ValidationKeysDiffer | src/utils/supabase/evidence.ts:179 | queue keys of different statuses differ (also lines 270, 283) |
| Schema.ValidationKeyInjective | src/utils/supabase/evidence.ts:179 | a queue key determines its status and id (also lines 270, 283) |
| Schema.EvidenceKeyInjective | src/utils/supabase/evidence.ts:168-189 | a record key determines its id |
| Schema.AggregationKeyInjective | src/utils/supabase/aggregations.ts:204-238 | an aggregation key determines its id |
| Schema.LastColonSplit | src/utils/supabase/aggregations.ts:207 | splitting at the last ':' recovers both halves when the right half has no ':' |
| Schema.CurrentKeyInjective | src/utils/supabase/aggregations.ts:207 | the pointer key determines material and parameter for colon-free parameter codes |
| Navigation.NavigateTo | src/contexts/NavigationContext.tsx:121-125 | shows the view and appends it to the history, keeping the earlier entries; current stays the last entry |
| Navigation.GoBack | src/contexts/NavigationContext.tsx:283-294 | with more than one entry drops the last and shows the new last; at the root navigates to materials, which appends |
| Navigation.SetCurrentView | src/contexts/NavigationContext.tsx:297-298 | the exported raw setter changes the view and leaves the history alone |
| Navigation.InitialValid | src/contexts/NavigationContext.tsx:118-119 | the initial state shows materials with history [materials] |
| Navigation.BackUndoesNavigate | src/contexts/NavigationContext.tsx:121-125 | going back undoes a navigation (also lines 284-289) |
| Navigation.BackAtRoot | src/contexts/NavigationContext.tsx:290-293 | going back at the root leaves two entries, the root and materials |
| Navigation.RunValid | src/contexts/NavigationContext.tsx:118-125 | under any sequence of navigateTo and goBack the current view is the last history entry (also lines 283-294) |
| Navigation.SetCurrentViewBreaksValid | src/contexts/NavigationContext.tsx:297-298 | setCurrentView can leave a current view that is not the last history entry |
| Curation.SelectSourceIn | src/components/evidence/CurationWorkbench.tsx:260-267 | handleSourceSelect sets source_ref to the source id and citation to citation \|\| title \|\| "", and changes nothing else |
| Curation.Apply | src/components/evidence/CurationWorkbench.tsx:339-354 | every wizard action keeps the step in [1,5] (also lines 393-398, 1286-1298) |
| Curation.NextGate | src/components/evidence/CurationWorkbench.tsx:1292-1298 | Next moves to step+1 exactly when step < 5 and canProceedToStep(step+1), and is otherwise a no-op; same gate at src/components/CurationWorkbench.tsx:655-663 |
| Curation.CircleBackOnly | src/components/evidence/CurationWorkbench.tsx:393-398 | a step circle moves only to a completed or active step; same rule at src/components/CurationWorkbench.tsx:237-243 |
| Curation.SubmitResets | src/components/evidence/CurationWorkbench.tsx:308-337 | an accepted submission resets every field (confidence medium, no source) and returns to step 1; a refused or signed-out one changes nothing |
| Curation.EditKeepsLowerGates | src/components/evidence/CurationWorkbench.tsx:914 | a field edited on its own step never closes the gate of a step already reached (also lines 961, 1022) |
| Curation.ApplyKeepsReached | src/components/evidence/CurationWorkbench.tsx:339-354 | every action keeps canProceedToStep(k) for every k ≤ currentStep (also lines 641-650, 1286-1298) |
| Curation.RunKeepsReached | src/components/evidence/CurationWorkbench.tsx:339-354 | from the opening state, after any actions, every step up to the current one is enterable and the step stays in [1,5] (also lines 1286-1298) |
| Curation.AllowedUnits | src/components/evidence/CurationWorkbench.tsx:247-251 | getAllowedUnits is [] without an ontology, a code or an entry, and the entry's allowed units otherwise |
| Curation.CanonicalUnit | src/components/evidence/CurationWorkbench.tsx:254-258 | getCanonicalUnit is "" without an ontology, a code or an entry, and the entry's canonical unit otherwise |
| Curation.UnitError | src/components/evidence/CurationWorkbench.tsx:222-244 | empty when the parameter, unit or ontology is missing or the parameter unknown; otherwise non-empty iff the unit is not allowed |
| Curation.YieldUnitChecks | src/components/evidence/CurationWorkbench.tsx:222-244 | with the shipped ontology a yield in "%" passes and one in "kg" is flagged |
| Curation.Pilots | src/components/evidence/CurationWorkbench.tsx:55 | pilot materials are exactly those whose name contains one of the five patterns, ignoring case (also lines 151-157) |
| Curation.PilotsById | src/components/CurationWorkbench.tsx:21-72 | the older wizard's pilot materials are exactly those whose lower-cased id is aluminum, pet or cardboard |
| Library.AllTags | src/components/evidence/SourceLibraryManager.tsx:162-164 | the tag list is strictly sorted and duplicate-free, and a tag is in it exactly when some source carries it |
| Library.FilterSources | src/components/evidence/SourceLibraryManager.tsx:167-185 | a source is shown exactly when it is in the library and meets the search, type, selected-tag and open-access conditions; the view is never longer than the library |
| Library.OlderFilterHasNoOaCondition | src/components/SourceLibraryManager.tsx:91-103 | the older screen's filter selects the same sources as the current one with the open-access condition switched off |
| Library.NoFilterKeepsAll | src/components/evidence/SourceLibraryManager.tsx:167-185 | with no query, type "all", no selected tags and no open-access restriction the whole library is shown, in order |
| Library.SourceUsage | src/components/evidence/SourceLibraryManager.tsx:188-196 | a material is counted as a user of the source exactly when one of its references has the same title and the DOIs do not conflict |
| Library.FindSource | src/components/evidence/SourceLibraryManager.tsx:338 | a source is found exactly when some entry has the id, and what is found is such an entry |
| Library.Delete | src/components/evidence/SourceLibraryManager.tsx:337-372 | deletion is refused exactly when some material uses the source or the admin's server call fails; otherwise exactly the entries with that id leave the library |
| Library.DeleteOlder | src/components/SourceLibraryManager.tsx:190-200 | the older screen refuses exactly when the source is in use and otherwise removes it locally whatever the server does |
| Library.CitedSourceKept | src/components/evidence/SourceLibraryManager.tsx:337-347 | a source that some material cites can never be deleted |
| Library.DeleteAll | src/components/evidence/SourceLibraryManager.tsx:374-404 | after deleting everything only the sources the server skipped remain; with none skipped the library is empty |
| Library.RemoveDeleted | src/components/evidence/SourceLibraryManager.tsx:407-420 | after duplicate removal a source remains exactly when the server did not report its id as deleted |
| Library.WeightOrDefault | src/components/evidence/SourceLibraryManager.tsx:234 | a missing or zero weight becomes 1.0; any other weight is kept |
| Library.ValidateForm | src/components/evidence/SourceLibraryManager.tsx:198-223 | the form passes exactly when the title is non-blank, a type is chosen, a given year lies in 1900 to next year and a given weight lies in [0, 1] |
| Library.NewSource | src/components/evidence/SourceLibraryManager.tsx:226-239 | the new source carries the generated id, the trimmed title, authors, DOI and URL, the defaulted weight and the tags (empty when none) |
| Library.Add | src/components/evidence/SourceLibraryManager.tsx:198-284 | adding is rejected exactly when validation fails or the duplicate check errs, waits for confirmation exactly on a reported duplicate, and otherwise appends one trimmed, non-blank, weighted source after the unchanged library |
| Library.AddOlder | src/components/SourceLibraryManager.tsx:115-135 | the older screen refuses exactly a blank title and otherwise appends one source with the title as typed and the defaulted weight after the unchanged library |
| Library.ReplaceById | src/components/evidence/SourceLibraryManager.tsx:316-318 | the list keeps its length; entries with the id become the edited source and all others are unchanged |
| Library.Update | src/components/evidence/SourceLibraryManager.tsx:307-335 | updating is refused exactly on a blank title; otherwise only the edited source's entries change |
| Library.Import | src/components/evidence/SourceLibraryManager.tsx:855-876 | a non-array file is refused; otherwise the library is kept as a prefix and what follows is exactly the imported entries with a title and type whose id is new |
| Library.ParseTags | src/components/evidence/SourceLibraryManager.tsx:2094-2098 | every parsed tag is non-empty and holds neither ',' nor ';' |
| Library.ParseTagsOlder | src/components/SourceLibraryManager.tsx:658 | every parsed tag is non-empty and holds no ',' |
| Library.TagsRoundTrip | src/components/evidence/SourceLibraryManager.tsx:2090-2098 | tags shown joined by ", " parse back to the same list on both screens, when each tag is trimmed, non-empty and free of ',' and ';' |
| Library.CleanDoi | src/components/evidence/SourceLibraryManager.tsx:467-475 | the lookup is refused exactly when the trimmed DOI is empty; otherwise one leading doi.org link prefix is removed |
| Library.CleanDoiLink | src/components/evidence/SourceLibraryManager.tsx:474-475 | a DOI written as an https://doi.org/ link cleans to the bare DOI |
| Library.ToggleOa | src/components/evidence/SourceLibraryManager.tsx:742-768 | an unknown id changes nothing; otherwise the entries with the id get the negated open-access flag (own value, else the checker's, else false), a manual override and the matching status, and the rest are unchanged |
| Library.ToggleTwice | src/components/evidence/SourceLibraryManager.tsx:742-768 | toggling twice restores a defined open-access flag whatever the checker reports |
| Editor.AddSource | src/components/ScientificDataEditor.tsx:81-97 | a blank-titled draft is refused; otherwise exactly one copy of the draft is appended after the unchanged list and the draft is reset (also src/components/scientific-editor/SourcesTab.tsx:80-96) |
| Editor.RemoveSource | src/components/scientific-editor/SourcesTab.tsx:98-101 | exactly the citation at the index leaves: earlier entries stay in place, later ones move up by one, and an index out of range changes nothing (also src/components/ScientificDataEditor.tsx:99-102) |
| Editor.AddThenRemove | src/components/ScientificDataEditor.tsx:81-102 | removing the citation just added gives back the list before it |
| Editor.FromLibrary | src/components/ScientificDataEditor.tsx:138-147 | the citation made from a library source keeps its title, DOI and weight and carries the assigned parameters |
| Editor.AddFromLibrary | src/components/ScientificDataEditor.tsx:104-151 | refused exactly when a citation with the same title and DOI is present; otherwise the old citations are kept as a prefix and one citation is appended with the library source's title, authors, year, DOI, URL and weight and the assigned parameters, after which the source counts as added (also src/components/scientific-editor/SourcesTab.tsx:103-128) |
| Editor.AddFromLibraryOnce | src/components/scientific-editor/SourcesTab.tsx:103-111 | adding the same library source twice is refused the second time |
| Editor.RulePushes | src/components/ScientificDataEditor.tsx:113-133 | the tag rules push nothing exactly when none of them fires |
| Editor.RulePushesYd | src/components/ScientificDataEditor.tsx:116-121 | Y is pushed exactly when the recycling rule fires and D exactly when the degradation rule fires |
| Editor.RulePushesCme | src/components/ScientificDataEditor.tsx:122-130 | C, M and E are each pushed exactly when their rule fires |
| Editor.EditorParameters | src/components/ScientificDataEditor.tsx:135-136 | a library citation always gets at least one parameter |
| Editor.EditorParametersMembers | src/components/ScientificDataEditor.tsx:113-136 | each of Y, D, C, M and E is assigned exactly when one of its trigger tags is present |
| Editor.EditorParametersDefault | src/components/ScientificDataEditor.tsx:135-136 | with no tag any rule reads, the pair CR_practical_mean, CR_theoretical_mean is assigned |
| Editor.FirstOutOfRange | src/components/ScientificDataEditor.tsx:170-178 | no parameter is reported exactly when every checked value is unset or in [0, 1]; a reported name belongs to an out-of-range value |
| Editor.CheckedParametersInRange | src/components/ScientificDataEditor.tsx:170-178 | the parameter loop passes exactly when all seven named parameters are unset or in [0, 1] |
| Editor.Save | src/components/ScientificDataEditor.tsx:168-227 | saving succeeds exactly when all parameters and intervals are in range and the selected level (Medium when unset) does not rank above the suggested one; a saved material is the form with the sources copied in and the time stamped |
| Editor.SaveWithoutSources | src/components/ScientificDataEditor.tsx:197-218 | with no sources only a Low level saves |
| Editor.WarningIffSaveRefuses | src/components/scientific-editor/SourcesTab.tsx:131-147 | for an otherwise valid form the sources tab warns exactly when saving would be refused for the level, the editor's own check at src/components/ScientificDataEditor.tsx:197-199 computing the suggested level the same way |
| Editor.Round | src/components/ScientificDataEditor.tsx:259 | Math.round gives the integer nearest to x, halves rounded up |
| Editor.MarginCi | src/components/scientific-editor/RecyclabilityTab.tsx:25-37 | the interval is [max(0, 0.9·mean), min(1, 1.1·mean)], so it lies within [0, 1] and, for a mean in [0, 1], contains the mean |
| Editor.Recalculate | src/components/scientific-editor/RecyclabilityTab.tsx:11-40 | the theoretical score is the product Y·D·C·M with missing values as 0, the practical one is 0.6 of it, the intervals are the ±10% margins of the two scores, recyclability is round(100·practical), the method version becomes CR-v1 and nothing but the recalculated fields changes (also src/components/ScientificDataEditor.tsx:231-262) |
| Editor.RecalculateIdempotent | src/components/scientific-editor/RecyclabilityTab.tsx:11-40 | recalculating twice gives the same material as recalculating once |
| Editor.ProductInUnitRange | src/components/scientific-editor/RecyclabilityTab.tsx:12-21 | the product of four parameters in [0, 1] lies in [0, 1] |
| Editor.RecalculatedInRange | src/components/ScientificDataEditor.tsx:231-262 | for parameters in range the recalculated means and intervals pass the save checks, each interval contains its mean, practical does not exceed theoretical and recyclability lies in [0, 100] |
| Editor.MissingParameterZero | src/components/scientific-editor/RecyclabilityTab.tsx:13-21 | a missing Y, D, C or M makes the theoretical score and recyclability zero |
| Batch.LevelCount | src/components/BatchScientificOperations.tsx:61-63 | a level's count never exceeds the number of materials |
| Batch.LevelCountsBounded | src/components/BatchScientificOperations.tsx:61-63 | the three level counts together never exceed the number of materials |
| Batch.CalculateStats | src/components/BatchScientificOperations.tsx:59-73 | the total is the list length, materials with and without scientific data add up to it, and the level counts add up to at most it |
| Batch.ExportOne | src/components/BatchScientificOperations.tsx:80-101 | the exported entry carries the material's id |
| Batch.Export | src/components/BatchScientificOperations.tsx:76-101 | one entry per material, in order |
| Batch.Merge | src/components/BatchScientificOperations.tsx:204-214 | a merged material keeps its id, name, category and articles; each score, the description, Y, the sources and the confidence level come from the entry when it carries them and stay as they were otherwise |
| Batch.MergeOwnExport | src/components/BatchScientificOperations.tsx:80-101 | merging a material with its own exported entry changes nothing (also lines 204-214) |
| Batch.FindEntry | src/components/BatchScientificOperations.tsx:202 | the entry found has the id and is the first such entry; none is found exactly when no entry has the id |
| Batch.Import | src/components/BatchScientificOperations.tsx:185-218 | a non-array file is refused; otherwise the list keeps its length and order, a material with a matching entry is merged with the first such entry, keeping its id, name, category and articles, and a material with none is unchanged |
| Batch.ImportOwnExport | src/components/BatchScientificOperations.tsx:76-101 | importing the export of a list with distinct ids gives the list back (also lines 185-218) |
| Batch.RecalculateAll | src/components/BatchScientificOperations.tsx:235-267 | the list keeps its length and order, only confidence levels change, a material with a truthy Y gets the level computed from its sources, and one with a falsy Y is left as it is |
| Batch.RecalculateAllIdempotent | src/components/BatchScientificOperations.tsx:235-267 | recalculating a second time changes nothing more |
| Batch.Issues | src/components/BatchScientificOperations.tsx:540-551 | a material is listed exactly when the audit flags its level for its source count |
| Processing.Merge | src/components/DataProcessingView.tsx:73-145 | a known category's defaults replace Y, D, C and M while the mode and cleanliness factors stay global; an unknown category uses the globals unchanged |
| Processing.RoundMono | src/components/DataProcessingView.tsx:105 | Math.round never reverses the order of two values |
| Processing.CoreUnit | src/components/DataProcessingView.tsx:102 | the product of four parameters in [0, 1] lies in [0, 1] |
| Processing.ScoreInRange | src/components/DataProcessingView.tsx:97-106 | with every input in [0, 1] the recyclability score lies in [0, 100] |
| Processing.TheoreticalAtLeastPractical | src/components/DataProcessingView.tsx:97-106 | with non-negative parameters and theoretical cleanliness at least practical, the theoretical score is at least the practical one |
| Processing.LabelOf | src/components/DataProcessingView.tsx:111-119 | the five labels are chosen by the thresholds 80, 60, 40 and 20 on the score |
| Processing.LabelMonotone | src/components/DataProcessingView.tsx:111-119 | a higher score never gets a worse label |
| Processing.PreviewAll | src/components/DataProcessingView.tsx:137-162 | one preview row per material, in order, with its id, old score, the new score from its category's parameters and that score's label |
| Processing.FindPreview | src/components/DataProcessingView.tsx:172 | a row found has the id; none is found exactly when no row has it |
| Processing.LevelFor | src/components/DataProcessingView.tsx:184-193 | the level is High exactly when the deviation from the reference parameters is below 0.3, Low exactly when above 0.6, Medium otherwise |
| Processing.ScoreCi | src/components/DataProcessingView.tsx:209-216 | the stored interval lies in [0, 1] and, for a score in [0, 100], contains the score as a fraction |
| Processing.Applied | src/components/DataProcessingView.tsx:173-227 | an applied material keeps its id, name, category, other scores, description and articles, takes the preview's score, its category's parameters and level, keeps its sources (default []) and energy value (default 0) and is stamped CR-v1, 2025.1 and the time |
| Processing.ApplyToAll | src/components/DataProcessingView.tsx:165-230 | the list keeps its length and order; a material with a preview row is rewritten from it and any other is left alone |
| Processing.PreviewFinds | src/components/DataProcessingView.tsx:137-172 | every material of the previewed list finds its preview row |
| Processing.ApplyAfterPreview | src/components/DataProcessingView.tsx:137-227 | applying a fresh preview rescores every material with its own category's parameters and keeps its sources and energy value with their defaults |
| Processing.ApplyLeavesUnlisted | src/components/DataProcessingView.tsx:170-229 | a material the preview does not list is untouched |
| Processing.AppliedIdempotent | src/components/DataProcessingView.tsx:173-227 | applying the same row twice gives what applying it once gives |
| Processing.DefaultsHigh | src/components/DataProcessingView.tsx:62-70 | the global default parameters get High confidence (also lines 184-193) |
| Quantile.ModeOf | src/components/charts/QuantileVisualization.tsx:107-114 | the mode is overlap exactly when the two intervals meet, gap exactly when they do not and the means are at least 0.1 apart, near-overlap otherwise |
| Quantile.DotCount | src/components/charts/QuantileVisualization.tsx:117 | 50 dots on mobile, 80 on a chart narrower than 250, 150 otherwise |
| Quantile.Draw | src/components/charts/QuantileVisualization.tsx:79-120 | the simple bar is drawn exactly when asked for or when a quantile field is falsy, showing a positive fallback score or else the practical mean as a percentage; the chart carries the mode of its data, at least 50 dots and the rounded practical percentage |
| Quantile.SpreadWithin | src/components/charts/QuantileVisualization.tsx:329-333 | evenly spaced dot values stay between the ends of their range |
| Quantile.OverlapDotsInBoth | src/components/charts/QuantileVisualization.tsx:325-334 | in overlap mode with well-formed intervals every dot value lies in both intervals |
| Quantile.NearDotsInHull | src/components/charts/QuantileVisualization.tsx:433-440 | in near-overlap mode every dot value lies between the smaller lower bound and the larger upper bound |
| Quantile.GapDotsNearMidpoint | src/components/charts/QuantileVisualization.tsx:554-561 | every gap-mode dot value lies within 0.05 of the midpoint of the means |
| Quantile.GapDotX | src/components/charts/QuantileVisualization.tsx:560 | a gap-mode dot's position lies in [0, width], equal to the unclamped position when that is on the chart |
| Quantile.NearOverlapHidesToday | src/components/charts/QuantileVisualization.tsx:107-114 | in near-overlap mode, on a chart at most 350 wide, the "today" label is never shown (also lines 450-451) |
| Quantile.AriaLabel | src/components/charts/QuantileVisualization.tsx:802-821 | each mode's label is the chart's name, the mode's sentence with the rounded practical and theoretical percentages (and, for a gap, the rounded gap in points), then the confidence sentence and the call to click |
| Sorting.Sort | src/components/views/SearchResultsView.tsx:124-133 | the sorted copy is a permutation of the input |
| Sorting.SortSorted | src/components/views/SearchResultsView.tsx:124-133 | for a consistent comparator the sorted copy is in order |
| Sorting.SortSum | src/components/SourceDataComparison.tsx:193-205 | sorting the contributions does not change their sum |
| Sorting.StringOrdersConsistent | src/components/views/SearchResultsView.tsx:126-127 | ordering by a string key, ascending or descending, is a total preorder |
| Sorting.NumberOrdersConsistent | src/components/views/SearchResultsView.tsx:128-131 | ordering by a numeric key, ascending or descending, is a total preorder |
| Comparison.AvailableParameters | src/components/SourceDataComparison.tsx:158-170 | without a material nothing is offered; otherwise a parameter is offered exactly when it is a known key, the material defines it and it is in the selected dimension ("all" matches every one) |
| Comparison.Shares | src/components/SourceDataComparison.tsx:193-204 | one row per tagged source, in order, with its weight (a missing or zero weight counting as 1.0) and its share weight / total · 100 |
| Comparison.Compare | src/components/SourceDataComparison.tsx:173-212 | nothing without a material, a parameter or sources; otherwise data exists exactly when some source is tagged with the parameter, and then it counts the tagged sources, carries their total weight and a permutation of their shares |
| Comparison.CompareSorted | src/components/SourceDataComparison.tsx:205 | the contributions are in non-increasing order of share |
| Comparison.SharesSum | src/components/SourceDataComparison.tsx:193-204 | the shares add up to the tagged weight over the total, times 100 |
| Comparison.SortedSharesHundred | src/components/SourceDataComparison.tsx:193-205 | the sorted shares of a non-zero total add up to 100 |
| Comparison.SharesTotalHundred | src/components/SourceDataComparison.tsx:193-211 | over the reals the contributions of any comparison add up to 100% |
| Comparison.KindOf | src/components/SourceDataComparison.tsx:512-520 | the label is Peer-Reviewed from 1.0, Government from 0.9, Industrial from 0.7, NGO from 0.6 and Internal below, each on exactly its band |
| Comparison.UnweightedIsPeerReviewed | src/components/SourceDataComparison.tsx:193 | a source with no weight or weight 0 counts with weight 1 and so is shown as peer-reviewed (also lines 512-520) |
| Comparison.Selectable | src/components/SourceDataComparison.tsx:293-296 | the selector lists exactly the materials with at least one source, each as often as in the list, sorted by name under the collation given for localeCompare |
| Comparison.SelectableSorted | src/components/SourceDataComparison.tsx:295 | for a collation whose sign flips when its arguments swap and whose "not after" is transitive, the selector is in name order under that collation |
| Search.Matching | src/components/views/SearchResultsView.tsx:97-121 | a material is kept exactly when it matches the query on name or description, is in a selected category (when any is selected) and meets every positive minimum score; the kept ones are a sub-multiset of the input |
| Search.ChainIsMatching | src/components/views/SearchResultsView.tsx:97-121 | the screen's chain of conditional filters keeps exactly what the conjunction keeps, in the same order |
| Search.Results | src/components/views/SearchResultsView.tsx:93-134 | the results are a permutation of the matching materials and so a sub-multiset of the input, which is itself never reordered; names compare by the collation given for localeCompare |
| Search.ResultsSorted | src/components/views/SearchResultsView.tsx:124-132 | the results are in the chosen order: by name under a consistent collation, or by score with a missing score as 0, ascending or descending |
| Search.DescendingScoresFirst | src/components/views/SearchResultsView.tsx:128-131 | sorting by a score in descending order puts higher scores first |
| Search.CategoryCountIsSelectionSize | src/components/views/SearchResultsView.tsx:147-155 | a category's badge counts the results the screen would show with only that category selected and no minimum scores |
| Search.Toggle | src/components/views/SearchResultsView.tsx:67-73 | toggling flips the category's membership and leaves every other category as it was |
| Search.ToggleTwice | src/components/views/SearchResultsView.tsx:67-73 | toggling twice restores the selected set |
| Search.InactiveFiltersKeepQueryMatches | src/components/views/SearchResultsView.tsx:86-121 | without active filters the results are exactly the query's matches |
| Search.SortIsNotAFilter | src/components/views/SearchResultsView.tsx:86-90 | the sort settings never make a filter active |
| Search.Clear | src/components/views/SearchResultsView.tsx:76-83 | after clearing no filter is active and the sort is by name, ascending |
| Takedowns.IndexOf | src/components/admin/AdminTakedownList.tsx:128-130 | the index found is the first with the id; none exactly when no kept request has it |
| Takedowns.Step | src/components/admin/AdminTakedownList.tsx:127-147 | a new id is appended; a known id keeps the list length |
| Takedowns.Unique | src/components/admin/AdminTakedownList.tsx:125-150 | a missing request list yields []; otherwise the list is de-duplicated |
| Takedowns.FirstOccurrencesShape | src/components/admin/AdminTakedownList.tsx:126-150 | the first occurrences of the ids are distinct and cover every id |
| Takedowns.Heaviest | src/components/admin/AdminTakedownList.tsx:135-146 | the reference choice for an id exists exactly when some request has the id, is one of them, and no request with the id has more keys |
| Takedowns.HeaviestSnoc | src/components/admin/AdminTakedownList.tsx:138-144 | a later request replaces the choice only when it has strictly more keys, so ties keep the earlier record |
| Takedowns.StepIds | src/components/admin/AdminTakedownList.tsx:131-134 | a step appends the id exactly when it is new |
| Takedowns.DedupIds | src/components/admin/AdminTakedownList.tsx:126-150 | the kept records' ids are the input ids in first-occurrence order, so each kept record sits at its id's first position |
| Takedowns.StepHeaviest | src/components/admin/AdminTakedownList.tsx:127-147 | a step preserves that every kept record is the reference choice for its id |
| Takedowns.DedupHeaviest | src/components/admin/AdminTakedownList.tsx:126-150 | under each id the list keeps the first request with the greatest key count |
| Takedowns.DedupDistinct | src/components/admin/AdminTakedownList.tsx:126-150 | the de-duplicated list has pairwise distinct ids and keeps every input id |
| Takedowns.FirstIndex | src/components/admin/AdminTakedownList.tsx:250 | the first position of a character, and none exactly when it is absent |
| Takedowns.ReplaceFirst | src/components/admin/AdminTakedownList.tsx:250 | only the first occurrence of the character is replaced and every other character is kept |
| Takedowns.Badge | src/components/admin/AdminTakedownList.tsx:219-253 | a missing status reads "pending" with the pending style, an unknown status gets the pending style, each known status gets exactly its own style, and the label replaces the first '_' with a space |
| Takedowns.OpenReview | src/components/admin/AdminTakedownList.tsx:168-176 | the dialog opens on the request with its status and resolution, and notes defaulting to "" |
| Takedowns.Update | src/components/admin/AdminTakedownList.tsx:178-215 | a patch is sent exactly when a request is selected and a token exists, carrying the request's id and the review; the dialog closes only when the server accepts it |
| TakedownForm.Initial | src/components/TakedownRequestForm.tsx:21-50 | the form opens with every text field empty, every statement unchecked and the signature dated today |
| TakedownForm.Get | src/components/TakedownRequestForm.tsx:21-50 | exactly the checkbox fields hold flags |
| TakedownForm.Set | src/components/TakedownRequestForm.tsx:123-124 | the field takes the value and every other field keeps its own |
| TakedownForm.Message | src/components/TakedownRequestForm.tsx:58-78 | a reported message is non-empty and belongs to a validated field |
| TakedownForm.ErrorsHaveMessages | src/components/TakedownRequestForm.tsx:58-78 | only validated fields are reported, each with a non-empty message |
| TakedownForm.RequiredTextRule | src/components/TakedownRequestForm.tsx:61-67 | each required text field is reported exactly when blank after trimming |
| TakedownForm.StatementRule | src/components/TakedownRequestForm.tsx:70-72 | each legal statement is reported exactly when unchecked |
| TakedownForm.EmailRule | src/components/TakedownRequestForm.tsx:62-63 | the email is reported exactly when blank or without '@', and a missing '@' decides the message |
| TakedownForm.SignatureRule | src/components/TakedownRequestForm.tsx:75-78 | the signature is reported exactly when blank or not matching the name, and a mismatch decides the message |
| TakedownForm.Validate | src/components/TakedownRequestForm.tsx:57-82 | the stored errors are the computed ones and the form may be sent exactly when there are none |
| TakedownForm.ValidateIff | src/components/TakedownRequestForm.tsx:57-82 | the form passes exactly when every field, statement and the signature meet their requirements |
| TakedownForm.EmailWithoutAtFails | src/components/TakedownRequestForm.tsx:63 | an address without '@' never passes |
| TakedownForm.TrailingSpaceSignatureFails | src/components/TakedownRequestForm.tsx:76 | only the full name is trimmed, so a signature ending in whitespace never matches |
| TakedownForm.CaseInsensitiveSignature | src/components/TakedownRequestForm.tsx:76 | a signature that differs from a trimmed name only in letter case is accepted |
| TakedownForm.Change | src/components/TakedownRequestForm.tsx:123-133 | the field takes the value, its own error goes when it has a message, and every other error stays |
| TakedownForm.ChangeClears | src/components/TakedownRequestForm.tsx:123-133 | when every error has a message, editing a field clears exactly that field's error |
| TakedownForm.ChangeAfterValidate | src/components/TakedownRequestForm.tsx:58-133 | after validation editing a field clears that field's error and no other |
| ContentReview.TabOf | src/components/admin/ContentReviewCenter.tsx:373-388 | each status is listed under exactly one tab |
| ContentReview.ByStatus | src/components/admin/ContentReviewCenter.tsx:373-388 | a tab shows exactly the submissions whose status belongs to it, each as often as in the list |
| ContentReview.TabsPartition | src/components/admin/ContentReviewCenter.tsx:373-388 | the three tabs together hold every submission exactly as often as the list does |
| ContentReview.TabCountIsListed | src/components/admin/ContentReviewCenter.tsx:412-450 | each tab's count is the length of the list the tab shows |
| ContentReview.Flag | src/components/admin/ContentReviewCenter.tsx:83-92 | an empty or cancelled reason sends nothing; otherwise the submission is flagged |
| ContentReview.Approve | src/components/admin/ContentReviewCenter.tsx:101-111 | approval sets the status to approved, by the current user, without feedback |
| ContentReview.Reject | src/components/admin/ContentReviewCenter.tsx:227-233 | rejection sets the status to rejected with the feedback |
| ContentReview.RequestRevision | src/components/admin/ContentReviewCenter.tsx:278-288 | a revision request sets the status to needs_revision with the feedback |
| ContentReview.Remit | src/components/admin/ContentReviewCenter.tsx:340-345 | remitting sets the status back to pending_review without new feedback |
| ContentReview.ApplyPatch | src/components/admin/ContentReviewCenter.tsx:88-92 | the stored submission takes the patch's status and reviewer, and its feedback when the patch has one |
| ContentReview.Apply | src/components/admin/ContentReviewCenter.tsx:88-111 | the list keeps its length; the submission with the id is patched and every other one is left alone |
| ContentReview.TransitionsMoveTabs | src/components/admin/ContentReviewCenter.tsx:88-92 | flagging and rejecting move a submission to moderation, approving and requesting revision to pending, and remitting to review (also lines 108-111, 229-233, 284-288, 342-345) |
| ContentReview.ApplyLeavesOthers | src/components/admin/ContentReviewCenter.tsx:88-92 | an update keeps every other submission in the list |
| ContentReview.Actions | src/components/admin/ContentReviewCenter.tsx:641-698 | delete is offered on every tab but review, and flag only on review |
| ContentReview.RemitOnlyForNeedsRevision | src/components/admin/ContentReviewCenter.tsx:664-672 | remit is offered exactly on a needs_revision submission in the pending tab |
| ContentReview.FormatAgo | src/components/admin/ContentReviewCenter.tsx:595-607 | minutes under an hour, hours under a day, days under a week, each the whole number of units elapsed |
| ContentReview.FormatDate | src/components/admin/ContentReviewCenter.tsx:595-607 | the text ends in "m ago", "h ago" or "d ago" by the same bands, and is the locale date from a week on |
| ReviewModal.Open | src/components/shared/ReviewModal.tsx:46-49 | the dialog opens with no action, no feedback, the submission's content and nothing in progress |
| ReviewModal.Submit | src/components/shared/ReviewModal.tsx:51-75 | approve and edit call the approval callback, without and with the edited content; reject and suggest with blank feedback alert and call nothing, otherwise they pass the feedback on; processing always ends false |
| ReviewModal.FeedbackNeverBlank | src/components/shared/ReviewModal.tsx:57-70 | every rejection and revision request the dialog makes carries non-blank feedback |
| ReviewModal.OnlyEditPassesContent | src/components/shared/ReviewModal.tsx:54-56 | content reaches the centre only through the edit action, which alone marks the approval as edited |
| ReviewModal.Choose | src/components/shared/ReviewModal.tsx:46 | picking an action keeps the feedback and edited content |
| ReviewModal.Back | src/components/shared/ReviewModal.tsx:390-395 | Back clears the action and feedback and restores the submission's content |
| ReviewModal.BackRestoresOpen | src/components/shared/ReviewModal.tsx:46-49 | going back returns to the freshly opened state, so submitting then calls nothing (also lines 390-395) |
| AuditLog.Visible | src/components/admin/AuditLogViewer.tsx:153-162 | an entry is shown exactly when the lower-cased query occurs in its entity type, entity id, user email or a change (or the query is empty); the shown entries are a sub-multiset of the page |
| AuditLog.EmptyQueryKeepsAll | src/components/admin/AuditLogViewer.tsx:153-155 | with no query the whole page is shown, in order |
| AuditLog.EntityTypeHitShown | src/components/admin/AuditLogViewer.tsx:153-162 | an entry whose entity type contains the query is always shown |
| AuditLog.Param | src/components/admin/AuditLogViewer.tsx:74-78 | a filter is sent exactly when its value is set |
| AuditLog.FilterParams | src/components/admin/AuditLogViewer.tsx:74-78 | each server-side filter is in the request exactly when it is set |
| AuditLog.Params | src/components/admin/AuditLogViewer.tsx:57-78 | the request starts with offset page·50 and limit 50, followed by the set filters |
| AuditLog.SetFilter | src/components/admin/AuditLogViewer.tsx:236-309 | changing a server-side filter sets exactly that filter and returns to page 0 |
| AuditLog.SetQuery | src/components/admin/AuditLogViewer.tsx:153-162 | the search box changes only the client-side query and keeps the page |
| AuditLog.FilterChangeRequestsFirstPage | src/components/admin/AuditLogViewer.tsx:69-72 | after any filter change the next request asks for offset 0 (also lines 236-240) |
| AuditLog.Previous | src/components/admin/AuditLogViewer.tsx:425 | Previous moves to max(0, page - 1) and changes nothing else |
| AuditLog.Next | src/components/admin/AuditLogViewer.tsx:432 | Next moves one page on and changes nothing else |
| AuditLog.ButtonsKeepInRange | src/components/admin/AuditLogViewer.tsx:425-433 | moving with the enabled buttons or changing a filter keeps the page on the first page or starting inside the total |
| AuditLog.Shown | src/components/admin/AuditLogViewer.tsx:420-421 | the range shown starts at page·50 + 1 and ends at the smaller of the page's end and the total |
| AuditLog.ShownWithinTotal | src/components/admin/AuditLogViewer.tsx:420-433 | on a page starting inside the total the range is non-empty, within the total and at most one page long |
| EvidenceList.PilotLoad | src/components/EvidenceListViewer.tsx:114-119 | the older viewer loads exactly the CR points of aluminum, PET and cardboard, whatever the id's case |
| EvidenceList.Filtered | src/components/evidence/EvidenceListViewer.tsx:320-332 | a point is listed exactly when the material matches ignoring case (or "all"), the parameter matches exactly (or "all") and the query occurs in the snippet or citation (or is empty) (also src/components/EvidenceListViewer.tsx:133-145) |
| EvidenceList.AllSelectionKeepsAll | src/components/evidence/EvidenceListViewer.tsx:320-332 | with both selections "all" and no query every point is listed, in order |
| EvidenceList.MaterialCaseIgnored | src/components/evidence/EvidenceListViewer.tsx:323 | the material test does not depend on the letter case of the selection |
| EvidenceList.BulkDeleteIds | src/components/evidence/EvidenceListViewer.tsx:288 | bulk delete sends one id per listed point, in order |
| EvidenceList.BulkDeleteIsListed | src/components/evidence/EvidenceListViewer.tsx:288 | an id is sent exactly when it belongs to a listed point |
| EvidenceList.LocatorParts | src/components/evidence/EvidenceListViewer.tsx:354-358 | at most three parts, each starting with "p.", "Fig." or "Table" |
| EvidenceList.LocatorText | src/components/evidence/EvidenceListViewer.tsx:354-360 | the text is "No locator" exactly when no locator field is truthy, and otherwise the parts joined with ", " (also src/components/EvidenceListViewer.tsx:167-173) |
| EvidenceList.JoinedLocatorNotSentinel | src/components/evidence/EvidenceListViewer.tsx:359 | joined parts are empty only without parts and never read "No locator" |
| EvidenceList.NoLocatorIff | src/components/EvidenceListViewer.tsx:167-173 | "No locator" exactly when the page is missing or 0 and the figure and table are missing or empty |
| EvidenceList.ConfidenceBadge | src/components/evidence/EvidenceListViewer.tsx:334-341 | high is green, low is red, and every other level gets the medium style (also src/components/EvidenceListViewer.tsx:147-154) |
| EvidenceList.Find | src/components/evidence/EvidenceListViewer.tsx:343-352 | an entry is found exactly when some key passes the test, and it is such an entry |
| EvidenceList.ParameterName | src/components/evidence/EvidenceListViewer.tsx:343-345 | an unknown code is shown as itself; otherwise the listed name or the code |
| EvidenceList.MaterialName | src/components/evidence/EvidenceListViewer.tsx:347-352 | an unknown id (ignoring case) is shown as itself; otherwise the listed name or the id |
| EvidenceList.PresentPilotsMembership | src/components/evidence/EvidenceListViewer.tsx:404-413 | the menu's first part names exactly the pilot materials that have points |
| EvidenceList.MaterialMenu | src/components/evidence/EvidenceListViewer.tsx:404-427 | the pilots with points come first, then the other distinct ids, strictly sorted, each exactly when it has points and names no pilot |
| EvidenceList.MenuCoversMaterials | src/components/evidence/EvidenceListViewer.tsx:404-427 | every material with points appears in the menu, as its pilot entry or among the others |
| EvidenceLab.TallyIsMultiplicity | src/components/views/EvidenceLabView.tsx:174-177 | each parameter's count is the number of loaded points with that code |
| EvidenceLab.AbsentCodeCountsZero | src/components/views/EvidenceLabView.tsx:174-177 | a code without points counts 0, and a code is a key of the counts exactly when it has points (also lines 506-508) |
| EvidenceLab.TallyPositive | src/components/views/EvidenceLabView.tsx:174-177 | every key of the counts has a positive count |
| EvidenceLab.SumCountsBump | src/components/views/EvidenceLabView.tsx:176 | adding one to a listed code's count adds one to the sum over distinct codes |
| EvidenceLab.TallySum | src/components/views/EvidenceLabView.tsx:174-177 | over distinct codes covering every point the counts add up to the number of points |
| EvidenceLab.Filtered | src/components/views/EvidenceLabView.tsx:510-516 | a point is listed exactly when its parameter is the selected one and the query is empty or occurs in its citation or snippet |
| EvidenceLab.NoSelectionListsNothing | src/components/views/EvidenceLabView.tsx:510-516 | with no parameter selected nothing is listed |
| EvidenceLab.EmptyQueryListsCount | src/components/views/EvidenceLabView.tsx:174-177 | with an empty query the list is as long as the parameter's count over the same points (also lines 510-516) |
| EvidenceLab.StartSearch | src/components/views/EvidenceLabView.tsx:411-420 | a blank query is refused before any request; otherwise the search starts with no results, selection or open-access answer |
| EvidenceLab.FinishSearch | src/components/views/EvidenceLabView.tsx:422-436 | searching ends; a failed request is reported as such and keeps the results, otherwise the hits are stored and "none found" is reported exactly when there are none |
| EvidenceLab.Select | src/components/views/EvidenceLabView.tsx:439-443 | picking a hit selects it, clears the open-access answer and starts the check |
| EvidenceLab.FinishOaCheck | src/components/views/EvidenceLabView.tsx:444-452 | the check ends with the server's answer, or with "not open access" and no status or link when it failed |
| EvidenceLab.NonEmpty | src/components/views/EvidenceLabView.tsx:464-467 | an empty text counts as absent and any other is kept |
| EvidenceLab.PrepareAddSource | src/components/views/EvidenceLabView.tsx:455-473 | nothing without a selected hit; otherwise a peer-reviewed draft with the hit's title and DOI, authors joined with ", ", url https://doi.org/ and the DOI, no tags, a zero year as absent and open access only when the answer says so |
| EvidenceLab.NewSearchPreparesNothing | src/components/views/EvidenceLabView.tsx:411-456 | right after a search starts the add button prepares nothing |
| EvidenceLab.FailedOaCheckDraftsClosed | src/components/views/EvidenceLabView.tsx:447-465 | after a failed open-access check the draft is not open access and has no status or link |
| EvidenceLab.AuthorsReadBack | src/components/views/EvidenceLabView.tsx:461 | comma-free trimmed author names can be read back from the joined author text |
| EvidenceLab.TagsOf | src/components/views/EvidenceLabView.tsx:1705-1708 | every parsed tag is non-empty, comma-free and lower case |
| EvidenceLab.EditTags | src/components/views/EvidenceLabView.tsx:1702-1709 | editing the tag input changes only the draft's tags |
| EvidenceLab.TagsOfIsLoweredList | src/components/views/EvidenceLabView.tsx:1705-1708 | the tag parser is the split-trim-drop-empty list parser followed by lower-casing |
| EvidenceLab.TagsRoundTrip | src/components/views/EvidenceLabView.tsx:1701-1708 | lower-case, trimmed, comma-free tags shown joined with ", " parse back to the same list |
| ArticleEditor.StripStart | src/components/ArticleEditor.tsx:52 | leading hyphens are removed: the result is a suffix of the input that does not start with '-' |
| ArticleEditor.StripEnd | src/components/ArticleEditor.tsx:52 | trailing hyphens are removed: the result is a prefix of the input that does not end with '-' |
| ArticleEditor.Dashify | src/components/ArticleEditor.tsx:50-51 | replacing runs of other characters by '-' keeps exactly the input's letters and digits, in order, and never lengthens it |
| ArticleEditor.Slugify | src/components/ArticleEditor.tsx:49-52 | the generated slug keeps exactly the lower-cased title's letters and digits, in order, and is no longer than the title |
| ArticleEditor.DashifyShape | src/components/ArticleEditor.tsx:50-51 | after lower-casing and collapsing every run of other characters to one '-', only [a-z0-9-] remain and no "--" occurs |
| ArticleEditor.SliceKeepsShape | src/components/ArticleEditor.tsx:52 | cutting hyphens off the ends keeps the alphabet and adds no double hyphen |
| ArticleEditor.SlugifyIsSlug | src/components/ArticleEditor.tsx:49-52 | a generated slug uses only [a-z0-9-], has no leading or trailing '-' and no "--" (also src/components/forms/ArticleEditor.tsx:49-52) |
| ArticleEditor.SlugifyOfSlug | src/components/ArticleEditor.tsx:49-52 | generating a slug from a well-formed slug gives it back |
| ArticleEditor.SlugifyIdempotent | src/components/ArticleEditor.tsx:49-52 | generating a slug from a generated slug changes nothing |
| ArticleEditor.AutoSlug | src/components/ArticleEditor.tsx:47-55 | the slug changes only for a new article with a title and an empty slug, and then becomes a well-formed slug |
| ArticleEditor.AutoSlugSettles | src/components/ArticleEditor.tsx:47-55 | running the effect again changes nothing, and an existing article's slug is never replaced |
| ArticleEditor.OrElse | src/components/ArticleEditor.tsx:86-90 | a missing or empty stored text falls back to the default and any other is kept |
| ArticleEditor.Save | src/components/ArticleEditor.tsx:57-96 | saving is refused exactly when the title, slug or content is blank or no material is chosen, with the first failing check's message; a saved article carries the form's title, slug, content and material and the new update time (also src/components/forms/ArticleEditor.tsx:57-96) |
| ArticleEditor.SaveVersions | src/components/ArticleEditor.tsx:78-95 | a stored article's version goes up by one and its id, creation date, status, date added and content blocks are kept; a new article is a version-1 draft with the generated id, added now, with an empty overview and empty introduction, supplies and first step |
| ArticleEditor.ResaveBumpsVersion | src/components/ArticleEditor.tsx:78-90 | saving the saved article again moves it one version on and changes nothing but the update time |
| ArticleEditor.Load | src/components/ArticleEditor.tsx:33-42 | the form opens on a stored article's title, slug, content and material |
| ArticleEditor.InsertMarkdown | src/components/ArticleEditor.tsx:106-128 | the text grows by the two markers, the prefix and suffix around the selection are kept, the markers surround the selected text and the new selection covers that same text (also src/components/forms/ArticleEditor.tsx:106-128) |
| ArticleEditor.InsertMarkdownUndo | src/components/ArticleEditor.tsx:106-128 | taking the two markers out again gives the content back |
| PdfViewer.InitialValid | src/components/evidence/PDFViewer.tsx:79-81 | the viewer starts on page 1 at scale 1.0 within its bounds |
| PdfViewer.StartLoad | src/components/evidence/PDFViewer.tsx:104-107 | a new document starts loading with no error and the page and zoom untouched |
| PdfViewer.Loaded | src/components/evidence/PDFViewer.tsx:122-125 | a loaded document of n pages shows page 1 and keeps the viewer within bounds |
| PdfViewer.LoadFailed | src/components/evidence/PDFViewer.tsx:141-147 | a failed load stops loading with the error's message, or a default one when it has none |
| PdfViewer.GoToPage | src/components/evidence/PDFViewer.tsx:415-419 | a page of the document is taken and any other request changes nothing |
| PdfViewer.ExternalGoTo | src/components/evidence/PDFViewer.tsx:161-169 | an external request is applied exactly when it names a page of the document |
| PdfViewer.ExternalIsGoTo | src/components/evidence/PDFViewer.tsx:161-169 | an external request behaves exactly like goToPage (also lines 415-419) |
| PdfViewer.NavigationKeepsValid | src/components/evidence/PDFViewer.tsx:415-422 | navigation keeps the page within the document and never changes the zoom |
| PdfViewer.StepsAtTheEnds | src/components/evidence/PDFViewer.tsx:421-422 | Previous on page 1 and Next on the last page do nothing; elsewhere they move by one and undo each other |
| PdfViewer.ZoomIn | src/components/evidence/PDFViewer.tsx:425 | zooming in adds 0.25 up to 3.0 and changes nothing else |
| PdfViewer.ZoomOut | src/components/evidence/PDFViewer.tsx:426 | zooming out takes 0.25 off down to 0.5 and changes nothing else |
| PdfViewer.ResetZoom | src/components/evidence/PDFViewer.tsx:427 | reset sets the scale to 1.0 and changes nothing else |
| PdfViewer.ZoomKeepsValid | src/components/evidence/PDFViewer.tsx:425-427 | the zoom buttons keep the scale in [0.5, 3.0] |
| PdfViewer.ZoomInOutCancel | src/components/evidence/PDFViewer.tsx:425-426 | away from the bounds zooming in and out cancel; at a bound the button does nothing |
| PdfViewer.CopyToSnippet | src/components/evidence/PDFViewer.tsx:400-412 | with selected text it goes to the snippet callback with the current page when there is one, else to the clipboard; without a selection nothing is copied |
| PdfViewer.SnippetPageInDocument | src/components/evidence/PDFViewer.tsx:400-404 | a snippet always names a page of the loaded document |
| Guides.CategoryOf | src/components/views/GuidesView.tsx:131-140 | no tags give "all"; otherwise the lower-cased tags decide with precedence composting, recycling, art or creative, repair or maintenance, and "all" when none is present |
| Guides.Filtered | src/components/views/GuidesView.tsx:143-146 | "all" lists every guide; any other category lists exactly its guides, in order |
| Guides.UncategorisedOnlyUnderAll | src/components/views/GuidesView.tsx:131-146 | a guide whose tags name no category is listed only under "all" |
| Guides.CategoryIgnoresCase | src/components/views/GuidesView.tsx:133 | the category does not depend on the letter case of the tags |
| Guides.CategoriesDisjoint | src/components/views/GuidesView.tsx:131-146 | no guide is listed under two categories other than "all" |
| Guides.DifficultyColor | src/components/views/GuidesView.tsx:117-128 | beginner, intermediate and advanced get their own colours and anything else, or nothing, is grey |
| Guides.ParseList | src/components/forms/SubmitGuideForm.tsx:43-54 | an empty input gives []; every parsed entry is non-empty and comma-free |
| Guides.ParseListIsSplitTrimmed | src/components/forms/SubmitGuideForm.tsx:43-54 | the empty-input guard changes nothing: the input split on ',', trimmed and stripped of empty entries |
| Guides.Collect | src/components/forms/SubmitGuideForm.tsx:41-54 | the submission is the form's data with only the two lists replaced by the parsed inputs |
| Guides.SubmitGuide | src/components/forms/SubmitGuideForm.tsx:36-63 | the collected guide is sent, the form closes only once the submission resolves, and submitting ends in every outcome |
| Guides.ParseContent | src/components/forms/EditGuideForm.tsx:27-37 | structured content is kept, parsable text becomes what it parses to and unparsable text becomes the empty document |
| Guides.ParseContentSettles | src/components/forms/EditGuideForm.tsx:27-37 | parsing parsed content again changes nothing |
| Guides.JoinOrEmpty | src/components/forms/EditGuideForm.tsx:53-56 | a missing list shows as "" and a present one joined with ", " |
| Guides.OpenEdit | src/components/forms/EditGuideForm.tsx:39-56 | the edit form opens on the guide's title, description and parsed content, with the lists joined as inputs |
| Guides.EditGuide | src/components/forms/EditGuideForm.tsx:58-84 | the updates go to the guide's own id with the lists parsed, and the form closes only once the update resolves |
| Guides.EditRoundTrip | src/components/forms/EditGuideForm.tsx:53-76 | saving the form untouched writes back the guide's title, description and lists (an absent list becomes empty) whenever the list entries are trimmed, non-empty and comma-free |
| WhitepaperSync.Lookup | src/components/evidence/WhitepaperSyncTool.tsx:31-53 | a file name is found only under itself in the table of five methodology papers |
| WhitepaperSync.MappingInjective | src/components/evidence/WhitepaperSyncTool.tsx:31-53 | the table is one-to-one: each paper is found under its own file name and no two share a file name or a slug |
| WhitepaperSync.MappedNamesAreMarkdown | src/components/evidence/WhitepaperSyncTool.tsx:31-82 | every mapped file name ends in ".md", so the markdown check never turns a known paper away |
| WhitepaperSync.Accept | src/components/evidence/WhitepaperSyncTool.tsx:78-118 | a file is accepted exactly when its name ends in ".md", is in the table, and it reads to non-empty text; the first failing check gives its message; an accepted paper carries the mapping's slug and title and the file's content |
| WhitepaperSync.LoadAll | src/components/evidence/WhitepaperSyncTool.tsx:72-121 | every file ends up as either a paper or an error, and the papers are exactly the accepted files |
| WhitepaperSync.LoadedAreKnown | src/components/evidence/WhitepaperSyncTool.tsx:78-106 | every loaded paper is a known markdown paper with content, carrying its mapping's slug and title |
| WhitepaperSync.DistinctNamesDistinctSlugs | src/components/evidence/WhitepaperSyncTool.tsx:31-106 | files with distinct names give papers with distinct slugs |
| WhitepaperSync.SelectFiles | src/components/evidence/WhitepaperSyncTool.tsx:66-121 | choosing no files leaves the list alone; otherwise the accepted papers replace it |
| WhitepaperSync.AllPending | src/components/evidence/WhitepaperSyncTool.tsx:166-171 | before any save the results have exactly the papers' slugs as keys |
| WhitepaperSync.Run | src/components/evidence/WhitepaperSyncTool.tsx:173-202 | after the save loop every paper's slug has an outcome other than pending and no other key changes |
| WhitepaperSync.RunRecordsOutcome | src/components/evidence/WhitepaperSyncTool.tsx:190-201 | with distinct slugs each paper's status is its own save's outcome |
| WhitepaperSync.CountsCoverKeys | src/components/evidence/WhitepaperSyncTool.tsx:207-212 | with nothing pending every slug is counted once, as saved or as failed |
| WhitepaperSync.SyncAll | src/components/evidence/WhitepaperSyncTool.tsx:159-218 | syncing is refused exactly when no paper is loaded; otherwise every slug ends saved or failed and the two counts add up to the number of slugs |
| WhitepaperSync.SlugsCount | src/components/evidence/WhitepaperSyncTool.tsx:166-171 | distinct slugs give one result key each |
| WhitepaperSync.SyncAccountsForAll | src/components/evidence/WhitepaperSyncTool.tsx:66-218 | when the chosen files have distinct names the summary's successes and failures add up to the number of loaded papers |
| FormulaTesting.Clamp | src/components/evidence/TransformFormulaTesting.tsx:109-115 | a score is clamped into [0, 100]: values inside are kept, values below become 0 and values above become 100 |
| FormulaTesting.Find | src/components/evidence/TransformFormulaTesting.tsx:92-95 | the transform found is one for the parameter, and none is found exactly when no transform has that parameter |
| FormulaTesting.BranchOf | src/components/evidence/TransformFormulaTesting.tsx:103-120 | a formula containing "log10" always takes the log branch; the complement branch needs "100 - x" and the identity branch needs exactly "x" |
| FormulaTesting.ApplyTransform | src/components/evidence/TransformFormulaTesting.tsx:88-126 | no transform, a log formula that fails the pattern and an unknown formula give no score; the log, complement and identity branches give their formula clamped into [0, 100]; the average formula hands the raw value back |
| FormulaTesting.IdentityAndComplement | src/components/evidence/TransformFormulaTesting.tsx:111-115 | the identity formula keeps an in-range value and applying the complement twice gives it back |
| FormulaTesting.RawParam | src/components/evidence/TransformFormulaTesting.tsx:61-85 | the mock raw values of C, R and U are the material's own compostability, recyclability and reusability scores |
| FormulaTesting.ActualScore | src/components/evidence/TransformFormulaTesting.tsx:137-145 | exactly C, R, U and C_RU have a score to compare with, C_RU's being the mean of recyclability and reusability |
| FormulaTesting.Evaluate | src/components/evidence/TransformFormulaTesting.tsx:133-172 | a row has a difference exactly when it has both scores, and that difference is their distance; the first failure that applies is recorded, and a row passes exactly when its difference is at most 5 |
| FormulaTesting.OnlyScoredParametersPass | src/components/evidence/TransformFormulaTesting.tsx:137-160 | a row can pass only for C, R, U or C_RU |
| FormulaTesting.Row | src/components/evidence/TransformFormulaTesting.tsx:132-173 | one material gives one row per transform, in the transforms' order |
| FormulaTesting.Results | src/components/evidence/TransformFormulaTesting.tsx:128-177 | the bench has one row per material and transform |
| FormulaTesting.ResultsAt | src/components/evidence/TransformFormulaTesting.tsx:131-174 | row i times the number of transforms plus j tests material i with transform j |
| FormulaTesting.BenchRowAt | src/components/evidence/TransformFormulaTesting.tsx:128-177 | the bench's row for material i and transform j is that material evaluated under that transform |
| FormulaTesting.OverallStats | src/components/evidence/TransformFormulaTesting.tsx:227-234 | the total is the number of rows, the errors are the failed rows, successes and errors add up to the total, and the success rate is 100·successes/total, lies in [0, 100] and is 100 exactly when nothing failed |
| FormulaTesting.MaxOf | src/components/evidence/TransformFormulaTesting.tsx:214 | the largest difference bounds every difference and is one of them; with none it is 0 |
| FormulaTesting.EvaluateIsDistance | src/components/evidence/TransformFormulaTesting.tsx:151-154 | a row's difference is never negative |
| FormulaTesting.ResultsAreDistances | src/components/evidence/TransformFormulaTesting.tsx:128-177 | no row of the bench has a negative difference |
| FormulaTesting.Diffs | src/components/evidence/TransformFormulaTesting.tsx:209-211 | the collected differences are all non-negative |
| FormulaTesting.Mean | src/components/evidence/TransformFormulaTesting.tsx:212-213 | the mean of no differences is 0; otherwise mean·n is their sum, and the mean lies between 0 and the largest difference |
| FormulaTesting.Stats | src/components/evidence/TransformFormulaTesting.tsx:194-225 | a parameter's total is the number of its rows, its errors the number of them that failed, its average and largest difference the mean and maximum of their differences, with failures ≤ rows ≤ all rows |
| FormulaTesting.FilterResults | src/components/evidence/TransformFormulaTesting.tsx:179-191 | a row is shown exactly when it belongs to the chosen parameter (or "all" is chosen) and, when only failures are asked for, it failed |

## Left out

- I/O of every kind is not modelled: network requests, Supabase and key-value store round trips, browser storage writes, toasts, timers, DOM focus and file reading. Each is reduced to the outcome it hands back, which is an input.
- Generated ids (`crypto.randomUUID`, `Date.now()` plus random suffixes), timestamps and "today" are inputs, because they are nondeterministic.
- `Math.sqrt`, `Math.log10`, the collation `localeCompare` applies and date parsing are function parameters or inputs, because Dafny's reals have no transcendental functions, locale tables or calendar. `toFixed(4)` is modelled on the exact value, without binary floating-point representation error.
- `toLowerCase` is modelled as ASCII lower-casing only; other Unicode letters are left unchanged.
- NaN, infinities and `parseFloat` are not modelled: scores are reals. `parseInt` is modelled on digit prefixes with `|| 0` for NaN.
- Floating-point rounding is not modelled: all arithmetic is exact on reals, so sums such as the 100% total of the source contributions hold exactly.
- Navigation: the table of `navigateToX` helpers that build each view with its tag and arguments is not modelled, because a distinctness proof over forty tags is too costly; views are an abstract datatype.
- The key-value store module `kv_store`, the source library data (`SOURCE_LIBRARY`), `autoAssignParameters` and the transform loader are not part of this model. The library and the loaded transforms are parameters, and the parameter assignment is passed to the editor as `assign`.
- String-typed levels, statuses and categories are modelled as datatypes. A value outside the known set becomes the fallback the code applies.
- EvidenceLab: `openEditDialog` is not modelled, because the evidence point record the lab lists lacks the raw value, unit, source type and notes the dialog fills in.
- Library: `handleAddAnyway`, `handleMergeSource`, PDF upload, cloud sync and refresh are not modelled; they are I/O around the list operations that are modelled.
- Comparison.Compare: a zero total weight, possible only with negative weights, is treated like having no tagged source, where JavaScript would produce NaN percentages.
- Batch.Merge: an entry carries only the fields the export writes plus the three scores and the description; an explicit `null` and keys outside that record, which the source's object spread would also copy, are not modelled.
- Editor.WarningIffSaveRefuses: the sources tab receives `getSuggestedConfidenceLevel` as a prop from a parent that is not part of this model; the lemma takes it to be the scientific editor's own function (src/components/ScientificDataEditor.tsx:153-165).
- Store.Load: the transient `syncing` status and the interleaving of React state updates are not modelled; the model takes the sync that starting empty may trigger to finish after the effect's own status and availability updates, and takes `saveMaterials` to see the availability of the state loading starts from.
- PdfViewer: rendering, text extraction and the text layer are left to PDF.js and not modelled.
- Rendering, styling and accessibility markup are not modelled except where a function computes a value (badge colours, labels, the chart's aria label).

## Findings

| source | as written | input that shows it | evidently intended | confidence | as-written member | corrected member |
|---|---|---|---|---|---|---|
| src/utils/supabase/aggregations.ts:250-252 | the current-aggregation query for a parameter scans the prefix `aggregation_current:<material>:<parameter>` without a closing separator | asking for parameter `C` of a material that also has a current `C_RU` aggregation returns the `C_RU` one too | only the aggregation whose pointer key is exactly that material and parameter | not executed | Aggregations.CurrentQueryOvermatches | Aggregations.CurrentQueryExact |
| src/ontologies/units.ts:216-222 | the Toxicity (T) entry keys its identity conversion `LD50_mg_kg` while its canonical unit is `LD50_mg/kg` | converting a T value entered in the canonical unit `LD50_mg/kg` finds no conversion | the identity conversion keyed by the canonical unit, as every other entry has | not executed | Units.ToxicityCanonicalUnconvertible | Units.TableWellFormed |
