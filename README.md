# Offline analytics copilot: schema inference and capability gating

This project models the core of an offline analytics assistant in Dafny. The assistant takes a
table it has never seen, infers a small canonical model from it (a measure, an optional entity,
an optional time axis, and zero or more dimensions), asks a person to confirm the proposed
roles, builds the canonical table, and decides which kinds of aggregate analysis are safe to
offer. The project proves properties of each step.

Two generations of the pipeline are modelled side by side, each module after one source file:

- **v3**
  - `V3SchemaExtractor` infers each column's type and its numeric or categorical signals.
  - `V3CanonicalSchema` merges the three tiers of canonical fields.
  - `V3SemanticMapper` scores every column for every field in three layers and proposes the first strictly best column.
  - `V3HumanConfirmation` is the accept, reject or custom-column prompt loop.
  - `V3SchemaAdapter` validates the mapping, then renames and filters the columns.
  - `V3SystemReasoner` derives the dataset shape, the enabled and disabled analyses, the assumptions and the risks.
- **v4**
  - `V4CanonicalSchema` is the role table.
  - `V4SemanticMapper` makes one pass over the columns, giving each to the first role that takes it, then runs the y/n confirmation.
  - `V4SchemaAdapter` builds the canonical table `measure`, `entity`, `time`, `dimension_1..N`, with its validation errors.
  - `V4SystemReasoner` is the capability table over the canonical column names, plus the risk checks.
- **Around the pipeline**
  - `DataInspector` computes the shape report, missing values, duplicates and the revenue consistency check.
  - `Suggestions` gives the advice derived from an inspection report.
  - `GuidedAnalytics` builds the numbered analysis menu and maps a chosen text back to an intent.
  - `InterpretationBuilder` produces the step plan for an intent.
  - `SemanticContext` is the two-valued analysis mode.
- **Shared modules**
  - `Basics` holds Option, Result and subsequences.
  - `Text` does lower-casing, stripping, substring search, joining and decimal rendering.
  - `Table` holds cells, columns, tables, missing counts and distinct counts.

Conventions of the model:
- Scores and confidences are integers counting hundredths, so 0.4 is `40`.
- NaN is a missing value (`None`), and every comparison with it is false.
- A dictionary is a sequence in insertion order.
- Whatever `input()` would return is a sequence of scripted responses, one per prompt.
- Date parsing is a parameter of the adapter.

Each loop and each state-building function of the source is a method with a loop or a sequence
of steps. It is proved equal to a specification function, and the lemmas below are stated
about that function.

## Model

| member | source | states |
|---|---|---|
| V3SchemaExtractor.InferColumnType | src/v3/schema_extractor.py:5-15 | a column is "date" exactly when its storage is datetime, "numeric" exactly when it is numeric, and "categorical" otherwise |
| V3SchemaExtractor.NumericSignalsOf | src/v3/schema_extractor.py:18-30 | the distinct count is the number of distinct non-missing values. The value is integer-like exactly when every present value is whole. Min, max and mean are missing (NaN) exactly when every cell is missing. Otherwise min and max are present values bounding all of them, and the mean lies between them |
| V3SchemaExtractor.MeanBetween | src/v3/schema_extractor.py:25-27 | the mean of the non-missing values lies between their minimum and maximum |
| V3SchemaExtractor.AllWhole | src/v3/schema_extractor.py:28 | `(clean % 1 == 0).all()` holds exactly when every present value is a whole number |
| V3SchemaExtractor.Unique | src/v3/schema_extractor.py:41 | `unique()` has no repeated value and holds exactly the values of the input |
| V3SchemaExtractor.UniquePrefix | src/v3/schema_extractor.py:41 | the unique values of a prefix are a prefix of the unique values (first-seen order) |
| V3SchemaExtractor.UniqueCount | src/v3/schema_extractor.py:40-41 | the number of unique values is the number of distinct values (`nunique`) |
| V3SchemaExtractor.CategoricalSignalsOf | src/v3/schema_extractor.py:33-42 | the distinct count is the number of distinct non-missing values. The samples are the first min(nunique, 5) distinct present values, in first-seen order, without repetition |
| V3SchemaExtractor.EntryFor | src/v3/schema_extractor.py:51-66 | an entry keeps the column's name, inferred type and missing count. It has no signals exactly for a date column, numeric signals for a numeric column and categorical signals for a categorical one |
| V3SchemaExtractor.ExtractSchema | src/v3/schema_extractor.py:45-68 | the loop yields one entry per column, in column order, each the entry of its column |
| Table.Present | src/v3/schema_extractor.py:22 | `dropna()` keeps exactly the values of the non-missing cells |
| Table.MissingCount | src/v3/schema_extractor.py:57 | `isna().sum()` is at most the number of cells, and zero exactly when no cell is missing |
| Table.MissingPlusPresent | src/v3/schema_extractor.py:57 | the missing count and the number of present values add up to the number of cells |
| V3CanonicalSchema.Put | src/v3/canonical_schema.py:32-37 | assigning a new key of a dictionary appends it |
| V3CanonicalSchema.UpdateWithFreshKeys | src/v3/canonical_schema.py:32-37 | `update` with distinct keys that are all new appends them in order and overrides nothing |
| V3CanonicalSchema.MergeTiers | src/v3/canonical_schema.py:32-37 | merging three tiers whose keys are all distinct by successive updates concatenates them |
| V3CanonicalSchema.GetAllFields | src/v3/canonical_schema.py:32-37 | the merged dictionary is the three tiers in order: six distinct fields |
| V3CanonicalSchema.AllowedFields | src/v3/schema_adapter.py:45-49 | the union of the three tiers' keys is exactly the six canonical field names |
| V3SemanticMapper.ScoreColumnNameMeaning | src/v3/semantic_mapper.py:16-27 | the name layer is 0.6 exactly when some keyword of the field occurs in the lower-cased column name, and 0 otherwise, including for a field without hints |
| V3SemanticMapper.ScoreTypeMatch | src/v3/semantic_mapper.py:30-34 | the type layer is 0.2 exactly when the inferred type is the expected one, and 0 otherwise |
| V3SemanticMapper.ScoreNumericBehavior | src/v3/semantic_mapper.py:37-58 | the behaviour layer is 0 without signals and for fields other than the three numeric ones. It is 0.3 for an integer-like units column with max < 1000, a price column with max > 10 and a revenue column with max > 100 (absent max read as 0) |
| V3SemanticMapper.ScoreColumn | src/v3/semantic_mapper.py:74-93 | scoring one column adds each layer's score and appends its tag when the layer scores |
| V3SemanticMapper.TagsMeaning | src/v3/semantic_mapper.py:77-93 | a column contributes each tag exactly when its layer scores, and no tag exactly when it scores 0 |
| V3SemanticMapper.BestScoreBound | src/v3/semantic_mapper.py:69-97 | the best score bounds every column's score. It is 0 exactly when there is no candidate, and otherwise it is the candidate's score |
| V3SemanticMapper.BestSoFarMeaning | src/v3/semantic_mapper.py:69-97 | the strict `>` keeps the first column of highest score. There is no candidate exactly when every column scores 0 |
| V3SemanticMapper.FirstBestUnique | src/v3/semantic_mapper.py:95-97 | at most one column is the first strictly best |
| V3SemanticMapper.EvidenceOverMeaning | src/v3/semantic_mapper.py:71-93 | the evidence holds a tag exactly when some scanned column contributed it, whether or not that column wins |
| V3SemanticMapper.EvidenceSource | src/v3/semantic_mapper.py:71-93 | every tag in the evidence names a scanned column that contributed it |
| V3SemanticMapper.EvidenceFromColumn | src/v3/semantic_mapper.py:71-93 | every tag a scanned column contributes ends up in the evidence |
| V3SemanticMapper.ProposeField | src/v3/semantic_mapper.py:69-104 | the inner loop yields the field's proposal, or none |
| V3SemanticMapper.ProposalForMeaning | src/v3/semantic_mapper.py:99-104 | a field gets a proposal exactly when the first strictly best column exists and has a non-empty name. The proposal names that column, with confidence min(score, 1.0), in (0, 1], and the distinct tags of all columns |
| V3SemanticMapper.NoProposalWhenAllZero | src/v3/semantic_mapper.py:99 | a field for which every column scores 0 gets no proposal |
| V3SemanticMapper.ProposeMappings | src/v3/semantic_mapper.py:61-106 | the outer loop yields the proposals of the fields of `get_all_fields()`, in order |
| V3SemanticMapper.ProposedFieldsInOrder | src/v3/semantic_mapper.py:68-104 | the proposals come in field order, at most one per field |
| V3SemanticMapper.ProposalsComeFromFields | src/v3/semantic_mapper.py:68-104 | every proposal is the proposal of one of the fields |
| V3SemanticMapper.ProposedFieldsIncluded | src/v3/semantic_mapper.py:68-104 | every field that has a proposal is proposed |
| V3SemanticMapper.ProposalKeysAllowed | src/v3/semantic_mapper.py:66-68 | every proposal's key is one of the six canonical fields |
| V3SemanticMapper.LoneNumericColumnWinsEveryNumericField | src/v3/semantic_mapper.py:68-104 | nothing keeps one column from winning several fields: a lone numeric column with a non-empty name is proposed for every numeric field |
| V3HumanConfirmation.LowerSingle | src/v3/human_confirmation.py:28-31 | a one-letter answer lower-cases to a given letter exactly when it is that letter in either case |
| V3HumanConfirmation.DecideMeaning | src/v3/human_confirmation.py:24-41 | after stripping, "y"/"Y" accepts and "n"/"N" rejects. An empty answer is no input. Any other answer is a custom column: the stripped text with its case kept |
| V3HumanConfirmation.BindingForSome | src/v3/human_confirmation.py:28-41 | a proposal is bound exactly when its answer accepts or names a column |
| V3HumanConfirmation.ConfirmMappings | src/v3/human_confirmation.py:4-43 | the prompt loop yields one decision for each proposal, in order, with the answers as a parameter |
| V3HumanConfirmation.ConfirmedFields | src/v3/human_confirmation.py:13-43 | only consulted fields are bound, in proposal order |
| V3HumanConfirmation.UnconsultedUnbound | src/v3/human_confirmation.py:13-43 | a field that no proposal names is never bound |
| V3HumanConfirmation.ConfirmedLookup | src/v3/human_confirmation.py:13-43 | with distinct proposal fields, a field's confirmed column is decided by its own answer alone: the proposed column on accept, the typed name for a custom answer, none otherwise |
| V3SchemaAdapter.ValidateMappings | src/v3/schema_adapter.py:15-26 | validation fails exactly when "revenue" is not mapped, with the message naming it |
| V3SchemaAdapter.RenameTargetMeaning | src/v3/schema_adapter.py:41 | inverting the mapping sends a column to the field of the last binding naming it, and to nothing when no binding names it |
| V3SchemaAdapter.LaterFieldWins | src/v3/schema_adapter.py:41 | when several fields map to one column, the last of them names it |
| V3SchemaAdapter.RenameColumns | src/v3/schema_adapter.py:42 | renaming keeps every column's place, dtype and cells, and changes only its name |
| V3SchemaAdapter.FilterAllowed | src/v3/schema_adapter.py:51-53 | the filter keeps exactly the columns with canonical names, in table order |
| V3SchemaAdapter.Named | src/v3/schema_adapter.py:55 | selecting one label yields exactly the columns carrying it |
| V3SchemaAdapter.Select | src/v3/schema_adapter.py:55 | selecting a label list yields exactly the columns whose label is listed |
| V3SchemaAdapter.AdaptDataframe | src/v3/schema_adapter.py:29-55 | adapting fails exactly when "revenue" is not mapped, with the validation message. On success the row count is kept, and a column is in the result exactly when it is a renamed column with a canonical name |
| V3SchemaAdapter.AdaptOkIff | src/v3/schema_adapter.py:29-38 | adapting fails exactly when "revenue" is not mapped, whatever the table holds |
| V3SchemaAdapter.AdaptOutputAllowed | src/v3/schema_adapter.py:40-55 | on success every row is kept and every column has a canonical name |
| V3SchemaAdapter.AdaptKeepsOrder | src/v3/schema_adapter.py:40-55 | when the renamed canonical names are distinct, the result is exactly the canonical renamed columns, in table order. Whatever the names, a renamed column is kept exactly when its new name is canonical |
| V3SchemaAdapter.AdaptRepeatsCollidingColumns | src/v3/schema_adapter.py:40-55 | when two columns are renamed to the same canonical field, the selection returns more columns than the filter kept, since each label selects every column carrying it |
| V3SchemaAdapter.UnmappedColumn | src/v3/schema_adapter.py:40-55 | a column that no binding names keeps its name, and survives only if that name is canonical |
| V3SchemaAdapter.ConfirmedRevenueAdapts | src/v3/schema_adapter.py:15-38 | confirming the revenue proposal, by accepting it or typing a column, makes the adapter succeed, even when the column does not exist |
| V3SystemReasoner.ReasonAboutSystem | src/v3/system_reasoner.py:4-75 | the dictionary filled step by step is the reasoning of the table's column names and distinct counts. The confirmed mappings are not read |
| V3SystemReasoner.Risks | src/v3/system_reasoner.py:65-73 | the risk checks, appended in order, give the risks of the table; each distinct count is read only for a column that exists |
| V3SystemReasoner.EnabledAnalyses | src/v3/system_reasoner.py:32-51 | the four checks append, in order, each analysis to the enabled list or, with its reason, to the disabled dictionary |
| V3SystemReasoner.ShapeMeaning | src/v3/system_reasoner.py:15-30 | the shape is the first matching pattern: Entity–Metric–Time, Entity–Metric, Metric–Time, Metric-only. It is "Unsupported" exactly when there is no revenue column |
| V3SystemReasoner.EnabledMeaning | src/v3/system_reasoner.py:32-51 | Summary is enabled exactly with the metric. Ranking needs the entity and the metric, Comparison the category and the metric, Trend the time and the metric |
| V3SystemReasoner.DisabledMeaning | src/v3/system_reasoner.py:32-51 | each disabled analysis carries its fixed reason exactly when it is not enabled. Together the two lists hold all four analyses |
| V3SystemReasoner.AssumptionsMeaning | src/v3/system_reasoner.py:53-62 | the comparability assumption is recorded exactly with the metric, and the exclusivity assumption exactly with the category |
| V3SystemReasoner.RisksMeaning | src/v3/system_reasoner.py:64-73 | the low-variance risk needs a revenue column with fewer than 5 distinct values. The single-time risk needs an order_date column with exactly one |
| V4CanonicalSchema.GetCanonicalFields | src/v4/canonical_schema.py:33-34 | the schema's keys are measure, dimensions, entity, time and identifier, in that order |
| V4CanonicalSchema.OnlyMeasureIsRequired | src/v4/canonical_schema.py:3-30 | the measure is the only required field |
| V4CanonicalSchema.OnlyDimensionsIsMultiple | src/v4/canonical_schema.py:9-14 | dimensions is the only field that may hold several columns |
| V4CanonicalSchema.FieldTypes | src/v4/canonical_schema.py:3-30 | the measure is the only numeric field and time the only date field |
| V4SemanticMapper.ScoreNameMatchMeaning | src/v4/semantic_mapper.py:45-53 | the name score is 0.4 exactly when some keyword of the role occurs in the lower-cased name, and 0 otherwise, including for a role without hints |
| V4SemanticMapper.ScoreTypeMatch | src/v4/semantic_mapper.py:56-66 | 0.4 for a numeric measure or a date time, 0.3 for a categorical entity or dimension, and 0 otherwise |
| V4SemanticMapper.ScoreNumericBehavior | src/v4/semantic_mapper.py:69-84 | 0, 0.2 or 0.4, and 0 without signals. The full 0.4 comes exactly with a max above the mean (absent keys read as 0) and more than three distinct values |
| V4SemanticMapper.InitializeMappingOutput | src/v4/semantic_mapper.py:91-97 | nothing is proposed yet: no measure, entity or time, and no dimensions |
| V4SemanticMapper.ScoreMeasure | src/v4/semantic_mapper.py:116-133 | the measure block adds each non-zero layer's score and appends its tag |
| V4SemanticMapper.ScanColumn | src/v4/semantic_mapper.py:110-176 | one pass of the loop body gives the column to the first role that takes it. Each assignment followed by `continue` ends the body |
| V4SemanticMapper.ProposalsSnoc | src/v4/semantic_mapper.py:110-178 | the role-by-role description of the proposals agrees with scanning the columns one at a time |
| V4SemanticMapper.ProposeMappings | src/v4/semantic_mapper.py:104-178 | the loop over the columns yields the role-by-role proposals |
| V4SemanticMapper.MeasureConfidence | src/v4/semantic_mapper.py:116-141 | an accepted measure scores 0.6, 0.8, 1.0 or 1.2 (never clamped) and always carries the type tag. It has the name tag exactly when its name holds a measure keyword |
| V4SemanticMapper.MeasureIsFirstEligible | src/v4/semantic_mapper.py:110-141 | the measure is the first numeric column scoring at least 0.6, and there is none exactly when no numeric column reaches 0.6 |
| V4SemanticMapper.MeasureConfidenceReaches120 | src/v4/semantic_mapper.py:135-140 | a numeric column named "total" whose max exceeds its mean, with four distinct values, gets confidence 1.2 and all three tags |
| V4SemanticMapper.TimeConfidence | src/v4/semantic_mapper.py:144-153 | every date column is eligible as time. It scores 0.4, or 0.8 exactly with a time keyword in its name |
| V4SemanticMapper.TimeIsFirstDate | src/v4/semantic_mapper.py:144-153 | time goes to the first date column, and is absent exactly when there is no date column |
| V4SemanticMapper.EntityConfidence | src/v4/semantic_mapper.py:156-165 | an entity needs a categorical column whose name holds an entity keyword, and then scores 0.7. A bare categorical column scores 0.3 and is rejected |
| V4SemanticMapper.EntityIsFirstEligible | src/v4/semantic_mapper.py:156-165 | the entity is the first eligible column, and absent exactly when there is none |
| V4SemanticMapper.DimensionsMembers | src/v4/semantic_mapper.py:168-176 | the dimensions are exactly the proposals of the categorical columns other than the entity's column |
| V4SemanticMapper.DimensionConfidence | src/v4/semantic_mapper.py:168-176 | every categorical column clears the 0.3 threshold: a dimension scores 0.3 or 0.7 |
| V4SemanticMapper.DimensionsExcludeOtherRoles | src/v4/semantic_mapper.py:110-178 | with distinct column names, a column proposed as measure, time or entity is never also a dimension |
| V4SemanticMapper.DimensionsIgnoreLaterEntity | src/v4/semantic_mapper.py:156-176 | an entity position past the columns scanned so far excludes none of them, so the entity a later column takes leaves earlier dimensions alone |
| V4SemanticMapper.AcceptsMeaning | src/v4/semantic_mapper.py:209-211 | only "y" or "Y", with any surrounding whitespace, accepts |
| V4SemanticMapper.ConfirmKeys | src/v4/semantic_mapper.py:198-211 | the first loop prompts once per proposed key, in the order measure, entity, time, and records each key its answer accepts |
| V4SemanticMapper.ConfirmMappings | src/v4/semantic_mapper.py:185-224 | the answers are consumed in prompt order: the three keys first, then one per proposed dimension |
| V4SemanticMapper.ConfirmedKeyMeaning | src/v4/semantic_mapper.py:198-211 | a key is confirmed only from its own proposal and its own answer, and then to the proposed column |
| V4SemanticMapper.AcceptedInOrder | src/v4/semantic_mapper.py:213-222 | the accepted dimensions form a subsequence of the proposed columns (proposal order) |
| V4SemanticMapper.AcceptedMembers | src/v4/semantic_mapper.py:213-222 | a column is accepted exactly when some proposal for it met an accepting answer |
| V4SemanticMapper.ConfirmedDimensions | src/v4/semantic_mapper.py:213-222 | the confirmed dimensions are, in proposal order, exactly the proposed ones answered "y" or "Y" |
| V4SemanticMapper.Set | src/v4/semantic_mapper.py:211 | `confirmed[key] = column` changes that key alone |
| V4SchemaAdapter.Message | src/v4/schema_adapter.py:44-86 | each validation reason raises the source's message. The message's head tells the three reasons apart, and the active-measure message names the active measure right after its opening quote |
| V4SchemaAdapter.ParseCells | src/v4/schema_adapter.py:70-72 | coercing parse of the time column: one cell out per cell in, a missing cell stays missing, and an unparseable value becomes missing |
| V4SchemaAdapter.Renamed | src/v4/schema_adapter.py:60 | a canonical column is the source column's cells and dtype under the canonical name |
| V4SchemaAdapter.DimensionColumns | src/v4/schema_adapter.py:75-78 | a successful dimension list has one column per listed dimension |
| V4SchemaAdapter.AddDimensions | src/v4/schema_adapter.py:75-78 | the enumerate loop appends `dimension_1`.. in list order, or stops with the first lookup that fails |
| V4SchemaAdapter.DimensionErrorPropagates | src/v4/schema_adapter.py:77-78 | a failed lookup aborts the loop: the later dimensions cannot change the outcome |
| V4SchemaAdapter.AddOptional | src/v4/schema_adapter.py:63-72 | entity, then time, are appended when their mapping is truthy, or the lookup failure is raised |
| V4SchemaAdapter.BuildCanonicalDataframe | src/v4/schema_adapter.py:10-88 | the imperative build returns what the canonical-frame definition gives, error or table |
| V4SchemaAdapter.DimensionColumnsSnoc | src/v4/schema_adapter.py:77-78 | the last dimension is looked up after all the earlier ones and is named after its position |
| V4SchemaAdapter.DimensionColumnsOk | src/v4/schema_adapter.py:75-78 | the dimension loop succeeds exactly when every listed column exists |
| V4SchemaAdapter.DimensionColumnsContents | src/v4/schema_adapter.py:78 | the k-th dimension column is a copy of the k-th listed column named `dimension_{k+1}` |
| V4SchemaAdapter.DimensionColumnsError | src/v4/schema_adapter.py:78 | a failure is a KeyError naming the first listed column that the table lacks |
| V4SchemaAdapter.OptionalColumnsMeaning | src/v4/schema_adapter.py:63-72 | the optional part fails exactly on a truthy mapping to a missing column, with the entity checked first, and otherwise holds the entity and time parts |
| V4SchemaAdapter.CanonicalFrameParts | src/v4/schema_adapter.py:57-88 | a successful table has the input's rows and the columns measure, entity, time, then dimensions, with every precondition of success made explicit |
| V4SchemaAdapter.ValidationOrder | src/v4/schema_adapter.py:42-60 | no measures is reported first, then an active measure outside the list, then a missing active column, and each error only under its own condition |
| V4SchemaAdapter.KeyErrorMeaning | src/v4/schema_adapter.py:60-78 | a KeyError always names a referenced column absent from the table: the adapter never checks existence before looking up |
| V4SchemaAdapter.AllNullMeasureMeaning | src/v4/schema_adapter.py:83-86 | the all-null measure error comes only after every lookup has succeeded, and only for an all-missing measure |
| V4SchemaAdapter.ReferencedPresentMeaning | src/v4/schema_adapter.py:60-78 | the columns the adapter looks up are the active measure, the truthy entity and time, and the dimensions |
| V4SchemaAdapter.CanonicalFrameOkIff | src/v4/schema_adapter.py:42-88 | success exactly when measures are confirmed, the active measure is one of them, every referenced column exists and the measure has at least one value |
| V4SchemaAdapter.SuccessMeasure | src/v4/schema_adapter.py:57-60 | the row count is kept, there is one column per canonical field, and `measure` comes first and holds a value |
| V4SchemaAdapter.SuccessOptional | src/v4/schema_adapter.py:63-72 | `entity` follows `measure` when mapped, and `time` is the time column parsed cell by cell, placed before the dimensions |
| V4SchemaAdapter.SuccessDimensions | src/v4/schema_adapter.py:77-78 | `dimension_{k+1}` is the k-th listed dimension, in list order, after the other fields |
| V4SchemaAdapter.DimensionNameInjective | src/v4/schema_adapter.py:78 | different positions give different dimension names |
| V4SchemaAdapter.DimensionNameHead | src/v4/schema_adapter.py:78 | a dimension name is longer than the `dimension_` prefix and starts with `d` |
| V4SchemaAdapter.DimensionNames | src/v4/schema_adapter.py:77-78 | dimension columns are numbered from 1 by position |
| V4SchemaAdapter.PartsNamesDistinct | src/v4/schema_adapter.py:57-78 | the canonical layout never assigns the same column name twice |
| V4SchemaAdapter.CanonicalNamesDistinct | src/v4/schema_adapter.py:57-88 | the canonical table has no two columns with the same name, so no assignment overwrites another |
| V4SchemaAdapter.CanonicalFrameValid | src/v4/schema_adapter.py:57-88 | a canonical table built from a data frame is itself a data frame |
| V4SchemaAdapter.DimensionNameList | src/v4/schema_adapter.py:77-78 | the names `dimension_1` .. `dimension_n`, in order |
| V4SchemaAdapter.CanonicalFrameNames | src/v4/schema_adapter.py:57-88 | the columns are named `measure`, then `entity` and `time` when mapped, then `dimension_1`.., and nothing else |
| V4SchemaAdapter.FromConfirmed | src/v4/schema_adapter.py:42 | read through the key `measures`, the v4 confirmation output (which writes `measure`) has no measures |
| V4SchemaAdapter.ConfirmedMappingAlwaysRejected | src/v4/schema_adapter.py:42-47 | the adapter always rejects the v4 confirmation output with "No measures confirmed" |
| V4SystemReasoner.ReasonAboutCapabilities | src/v4/system_reasoner.py:4-40 | the capability loop and the risk checks compute the explanation definition, or the KeyError for a missing `measure` column |
| V4SystemReasoner.AllCapabilities | src/v4/system_reasoner.py:10-15 | the four capability keys are all there is |
| V4SystemReasoner.EnabledInOrder | src/v4/system_reasoner.py:24-26 | enabled capabilities keep the dictionary's order |
| V4SystemReasoner.EnabledMembers | src/v4/system_reasoner.py:24-26 | a capability is enabled exactly when its columns are present |
| V4SystemReasoner.DisabledMembers | src/v4/system_reasoner.py:27-28 | a capability is disabled, with the fixed reason, exactly when its columns are missing, and no other reason occurs |
| V4SystemReasoner.EnabledDisabledCount | src/v4/system_reasoner.py:24-28 | each capability lands in exactly one of the two |
| V4SystemReasoner.ExplainMeaning | src/v4/system_reasoner.py:17-40 | it raises exactly when there is no `measure` column, and otherwise has no assumptions and the risks defined below |
| V4SystemReasoner.ExplainPartition | src/v4/system_reasoner.py:10-28 | the four capabilities split into enabled, in dictionary order, and disabled with the fixed reason |
| V4SystemReasoner.RisksMeaning | src/v4/system_reasoner.py:30-38 | low variance exactly for fewer than 3 distinct measure values, a single time exactly for a `time` column with one distinct value, in that order |
| V4SystemReasoner.CompareWithoutMeasure | src/v4/system_reasoner.py:11-14 | on every table with a dimension column and no measure column, `compare` is the only enabled analysis, and the reasoner raises a `KeyError` for the measure |
| V4SystemReasoner.DimensionNameShape | src/v4/system_reasoner.py:14 | adapter dimension names match the `dimension_` prefix test and differ from the fixed names |
| V4SystemReasoner.CanonicalNamesFacts | src/v4/system_reasoner.py:8-14 | which canonical names occur follows the mapping: `measure` always, `entity` and `time` when truthy, a dimension when the list is non-empty |
| V4SystemReasoner.CanonicalFrameCapabilities | src/v4/system_reasoner.py:8-28 | on an adapter-built table the reasoner never raises: summary is always enabled, rank follows the entity mapping, trend the time mapping, compare the dimension list |
| DataInspector.InspectShape | src/utils/data_inspector.py:5-12 | the shape is the row count and the number of columns |
| DataInspector.InspectMissingValues | src/utils/data_inspector.py:15-32 | the loop over the columns builds the report of one entry per column, in column order |
| DataInspector.MissingCountAll | src/utils/data_inspector.py:24 | a column's missing count equals its length exactly when every cell is missing |
| DataInspector.MissingReportMeaning | src/utils/data_inspector.py:21-30 | each entry names its column and counts its missing cells. The percentage is 0 without rows, lies in 0..100, and is 100 exactly when the column is all missing |
| DataInspector.PercentBounds | src/utils/data_inspector.py:25 | a count out of a positive total gives a percentage in 0..100, reaching 100 only at the total |
| DataInspector.DuplicateCountElements | src/utils/data_inspector.py:40 | the duplicated count plus the distinct values gives the length |
| DataInspector.DuplicateCountZero | src/utils/data_inspector.py:40 | no duplicates exactly when the elements are pairwise distinct |
| DataInspector.DuplicateCount | src/utils/data_inspector.py:40 | the repeated values are fewer than the values when there is at least one |
| DataInspector.InspectDuplicates | src/utils/data_inspector.py:35-48 | a table without columns has no duplicate rows. Both counts stay below the row count when there are rows, and the key count is present exactly when the key is usable |
| DataInspector.DuplicatesMeaning | src/utils/data_inspector.py:35-48 | with at least one column the total counts the rows repeating an earlier row, and it is 0 without columns. The key count is `None` unless the key is given, non-empty and a column, and otherwise counts the repeated key values |
| DataInspector.AnyInconsistentMeaning | src/utils/data_inspector.py:61-64 | the aligned check fails exactly when some row's revenue is off from units times price by more than 0.01 |
| DataInspector.InspectNumericSanity | src/utils/data_inspector.py:51-71 | NOT_APPLICABLE exactly when one of the three columns is absent, and a table without rows never fails |
| DataInspector.NumericSanityMeaning | src/utils/data_inspector.py:51-71 | NOT_APPLICABLE exactly when one of the three columns is absent. Otherwise FAIL exactly when some row is inconsistent, and PASS exactly when none is |
| DataInspector.InspectDataset | src/utils/data_inspector.py:74-83 | the full report has all four sections. The shape counts rows and columns, and the missing-values section has one entry per column, naming the columns in order |
| GuidedAnalytics.AvailableAnalyses | src/explanation/guided_analytics.py:4-35 | the counter loop numbers the menu texts 1, 2, ... in the order they are appended |
| GuidedAnalytics.AppendDimOptions | src/explanation/guided_analytics.py:24-33 | one dimension loop appends the option of each listed dimension that is a key and keeps the counter one past the last id |
| GuidedAnalytics.NumberedSnoc | src/explanation/guided_analytics.py:14-15 | appending an option gives it the next id |
| GuidedAnalytics.OptionIds | src/explanation/guided_analytics.py:8-35 | the ids run 1..n over the option texts in order |
| GuidedAnalytics.OptionParts | src/explanation/guided_analytics.py:12-33 | the menu is summary, trend, then the compare options, then the rank options |
| GuidedAnalytics.OfferedSummary | src/explanation/guided_analytics.py:12-15 | "View summary" is offered exactly when the shape reports rows (absent shape or rows read as 0), and is then the first option |
| GuidedAnalytics.OfferedTrend | src/explanation/guided_analytics.py:18-21 | the trend option is offered exactly when `order_date` is a key of the missing-values section |
| GuidedAnalytics.OfferedCompare | src/explanation/guided_analytics.py:24-27 | a compare option is offered exactly for region, salesperson or product when it is a key |
| GuidedAnalytics.OfferedRank | src/explanation/guided_analytics.py:30-33 | a rank option is offered exactly for salesperson, product or region when it is a key |
| GuidedAnalytics.OptionCount | src/explanation/guided_analytics.py:8-35 | at most eight options |
| GuidedAnalytics.DimOptionsMembers | src/explanation/guided_analytics.py:24-27 | a dimension loop offers `prefix + d` exactly for the listed dimensions that are keys, at most one per dimension |
| GuidedAnalytics.DimOptionHead | src/explanation/guided_analytics.py:26 | every option of a dimension loop starts like its prefix |
| GuidedAnalytics.PrefixInjective | src/explanation/guided_analytics.py:26 | the option text determines its dimension |
| GuidedAnalytics.FirstDimIn | src/explanation/guided_analytics.py:51-53 | the result is the first listed dimension the text contains, and none exactly when it contains none |
| GuidedAnalytics.MapChoiceToIntent | src/explanation/guided_analytics.py:38-60 | an accepted choice has one of the four intents, and a dimension exactly for compare and rank. That dimension is known and named in the text, and a refusal carries "Unsupported guided analytics choice" |
| GuidedAnalytics.MapIgnoresCase | src/explanation/guided_analytics.py:42 | the mapping reads the lower-cased text only, so case never matters |
| GuidedAnalytics.MapPrecedence | src/explanation/guided_analytics.py:42-60 | summary wins over trend, trend over compare, compare (with a known dimension) over rank. A dimension returned is known and contained in the text, and every other text is refused with "Unsupported guided analytics choice" |
| GuidedAnalytics.FirstChoiceDim | src/explanation/guided_analytics.py:51-53 | the dimension found is the first of region, salesperson, product that the text names |
| GuidedAnalytics.SummaryRoundTrip | src/explanation/guided_analytics.py:44-45 | the "View summary" option of line 14 maps back to SUMMARY |
| GuidedAnalytics.TrendOptionWords | src/explanation/guided_analytics.py:20 | the trend option names "trend" |
| GuidedAnalytics.TrendOptionNoSummary | src/explanation/guided_analytics.py:20 | the trend option does not name "summary" |
| GuidedAnalytics.TrendRoundTrip | src/explanation/guided_analytics.py:47-48 | the trend option of line 20 maps back to TREND |
| GuidedAnalytics.CompareHas | src/explanation/guided_analytics.py:26 | a compare option names "compare" and its own dimension |
| GuidedAnalytics.CompareNoSummary | src/explanation/guided_analytics.py:26 | a compare option does not name "summary" |
| GuidedAnalytics.CompareNoTrend | src/explanation/guided_analytics.py:26 | a compare option does not name "trend" |
| GuidedAnalytics.CompareNoRegion | src/explanation/guided_analytics.py:26 | a compare option for another dimension does not name "region" |
| GuidedAnalytics.CompareNoSalesperson | src/explanation/guided_analytics.py:26 | a compare option for another dimension does not name "salesperson" |
| GuidedAnalytics.CompareRoundTrip | src/explanation/guided_analytics.py:50-53 | every compare option of line 26 maps back to COMPARE with its own dimension |
| GuidedAnalytics.RankHas | src/explanation/guided_analytics.py:32 | a rank option names "rank" and its own dimension |
| GuidedAnalytics.RankNoSummary | src/explanation/guided_analytics.py:32 | a rank option does not name "summary" |
| GuidedAnalytics.RankNoTrend | src/explanation/guided_analytics.py:32 | a rank option does not name "trend" |
| GuidedAnalytics.RankNoCompare | src/explanation/guided_analytics.py:32 | a rank option does not name "compare" |
| GuidedAnalytics.RankNoRegion | src/explanation/guided_analytics.py:32 | a rank option for another dimension does not name "region" |
| GuidedAnalytics.RankNoSalesperson | src/explanation/guided_analytics.py:32 | a rank option for another dimension does not name "salesperson" |
| GuidedAnalytics.RankRoundTrip | src/explanation/guided_analytics.py:55-58 | every rank option of line 32 maps back to RANK with its own dimension, although the rank loop lists the dimensions in another order |
| GuidedAnalytics.MenuRoundTrip | src/explanation/guided_analytics.py:4-60 | every offered option is accepted by the mapper, and the intent it gives is backed by the report: SUMMARY by rows, TREND by `order_date`, and a dimension by its key |
| GuidedAnalytics.UnknownDimensionRefused | src/explanation/guided_analytics.py:50-60 | a compare text for a dimension outside the three (without the letters g, s and d) falls through every rule and is refused |
| Suggestions.EntryColumns | src/explanation/suggestions.py:13 | the columns of the missing-values entries, one per entry, in report order |
| Suggestions.ColumnsWithMissing | src/explanation/suggestions.py:12-15 | a column is listed exactly when some entry for it has a positive missing count, and the list keeps report order |
| Suggestions.GenerateSuggestions | src/explanation/suggestions.py:4-61 | the list built section by section is the suggestion list defined by the report |
| Suggestions.SuggestionCount | src/explanation/suggestions.py:8-61 | two to four suggestions, and four only for a clean dataset |
| Suggestions.MessageHeads | src/explanation/suggestions.py:17-59 | the messages begin with different letters where needed, which tells them apart |
| Suggestions.MissingSuggestionMeaning | src/explanation/suggestions.py:11-25 | the first suggestion reports missing values exactly when some column has a positive count, and then lists exactly those columns |
| Suggestions.DuplicateSuggestionMeaning | src/explanation/suggestions.py:28-38 | the second suggestion is the all-clear exactly when there are no duplicate rows (an absent section reads as 0), and otherwise gives their number |
| Suggestions.DuplicateSuggestionInjective | src/explanation/suggestions.py:33 | the duplicate warning determines the count it reports |
| Suggestions.RevenueSuggestionMeaning | src/explanation/suggestions.py:41-52 | each revenue message appears exactly for its own outcome, and NOT_APPLICABLE or an absent check adds none |
| Suggestions.ReadinessMeaning | src/explanation/suggestions.py:55-59 | the readiness message appears exactly when nothing is missing, there are no duplicates and the revenue check passed |
| InterpretationBuilder.BuildInterpretation | src/explanation/interpretation_builder.py:4-32 | the plan keeps the intent, holds the intent's steps and the given assumptions (empty when absent), and asks for no user input |
| InterpretationBuilder.StepsMeaning | src/explanation/interpretation_builder.py:9-25 | summary gets one step, rank, trend and compare two, and every other string the single unknown-analysis step |
| InterpretationBuilder.StepsTellIntent | src/explanation/interpretation_builder.py:9-22 | the first step of a known intent identifies the intent |
| SemanticContext.ExactlyOneMode | src/core/semantic_context.py:14-18 | a context is single-measure exactly when it is not categorical, and exactly in that mode |
| SemanticContext.ModeValueInjective | src/core/semantic_context.py:5-7 | the two modes have different string values |

## Left out

- Loading files, `print`, the interactive menu and `main`: I/O outside the pipeline. The prompts are modelled only through the answers they consume.
- `input()` reaching end of file: the confirmation methods require one scripted answer per prompt.
- The v4 semantic advisor, both analytics engines, the metrics module and the explainers: they are not part of this model.
- Floating-point arithmetic and `round(x, 2)`. Scores are exact hundredths, because every score in the source is a sum of fixed tenths. The mean and the missing percentage are exact rationals. `DataInspector.MissingReportMeaning` states the percentage before rounding.
- Text: `str.lower` is modelled for ASCII letters only. `str.strip` removes every character Python's `str.isspace` accepts.
- Tables: input tables with duplicate column names are not modelled, and a name lookup returns the first column of that name. The v3 adapter's own selection `canonical_df[canonical_columns]` is modelled when the rename makes two columns share a name: each label then selects every column carrying it.
- `numeric_checks` treats a non-numeric or missing cell as never inconsistent. The source would raise or compare NaN, and NaN also compares false.
- Complex and other exotic dtypes: a column's storage is numeric, datetime or other.
- Inspection reports missing keys inside an entry, such as an entry without `missing_count`, which makes the source raise: the model's entries always have their fields.
- V4SchemaAdapter.ListRepr: Python's `repr` of the confirmed-measures list is modelled for names without quotes, backslashes or unprintable characters, which `repr` would escape.
- `pd.to_datetime(..., errors="coerce")`: a parser function is passed in and applied cell by cell, and the model is proved for every such parser. pandas infers one format from the first non-null value and applies it to the whole column; a per-cell parser does not capture that a cell in another format is then coerced to a missing value.
- `InterpretationPlan` is a plain mutable dataclass in the source, and `build_interpretation` stores the capabilities' `assumptions` list in it by reference (src/explanation/interpretation_builder.py:6-30). The model is a value datatype, so it does not capture a later mutation of the plan or of that shared list.
- GuidedAnalytics.UnknownDimensionRefused: stated for compare texts whose dimension avoids the letters g, s and d. `GuidedAnalytics.MapPrecedence` covers every other input, refused or not.
- GuidedAnalytics.MenuRoundTrip: states that every offered option is accepted and that its intent is backed by the report. The exact intent of each option is stated separately by `SummaryRoundTrip`, `TrendRoundTrip`, `CompareRoundTrip` and `RankRoundTrip`.

The model keeps these behaviours of the source:
- v4 measure confidence is `round(score, 2)` with no clamp (src/v4/semantic_mapper.py:135-140), so it reaches 1.2 (`V4SemanticMapper.MeasureConfidenceReaches120`).
- v4 proposes a single measure: the block runs only while `mappings["measure"]` is `None` (src/v4/semantic_mapper.py:116), so the first eligible numeric column wins.
- Each v4 column takes at most one role: every role block that records a proposal ends with `continue` (src/v4/semantic_mapper.py:141-165).
- v4 `compare` is enabled by any `dimension_` column, with no test for `measure` (src/v4/system_reasoner.py:14). The reasoner then reads `canonical_df["measure"]` and raises a `KeyError` when that column is absent (src/v4/system_reasoner.py:30; `V4SystemReasoner.CompareWithoutMeasure`).
- Every v4 disabled analysis gets the reason "Required canonical fields missing", and the assumption list stays empty (src/v4/system_reasoner.py:17-28).
- The v4 time risk fires when `time` has exactly one distinct value (src/v4/system_reasoner.py:35).
- The v4 adapter reads the entity, time and dimension columns with `df[...]` and no existence check (src/v4/schema_adapter.py:60-78). A missing one raises a `KeyError` (`V4SchemaAdapter.KeyErrorMeaning`).
- v4 confirmation writes the key `measure` (src/v4/semantic_mapper.py:189-211), while the adapter reads `measures` (src/v4/schema_adapter.py:42). So a confirmed mapping passed straight to the adapter is always rejected (`V4SchemaAdapter.ConfirmedMappingAlwaysRejected`).
- v3 confirmation takes any non-empty answer other than y or n as a custom column name (src/v3/human_confirmation.py:34-35).
- v3 type inference tests only the datetime and numeric dtypes, and every other column is categorical (src/v3/schema_extractor.py:5-15). A text column holding dates is therefore categorical.
