# TrustLens decision pipeline: verified model

TrustLens decides whether a message carries a known scam pattern. The decision is made by explicit
computation over governed knowledge and extracted observations. This project models that computation and
proves what it promises.

**The pipeline** (`knowledge/runtime`)

1. *Boundary.* Observation records are validated and grouped into one context (`Observations`).
2. *Evaluation.* Indicator occurrences fold into three-valued truth, gated by extraction confidence and by
   structural verdicts on the backing observations. Hard-risk overrides are read off the raw live set,
   occurrence-scoped suppression is executed, and a negation-free condition tree is evaluated and gated on
   evidence-class diversity (`Kleene`, `Conditions`, `Evaluator`, `EvaluatorLoops`).
3. *Suppression.* A matched rule is cancelled, capped, or refused when its governed metadata cannot be acted
   on (`Suppression`, `SuppressionLaws`).
4. *Aggregation.* Union-find merges observation references into components, augmenting paths match evidence
   classes to components, one rule governs, and a risk matrix, a confidence policy and a classification state
   machine produce the decision (`UnionFind`, `Matching`, `Independence`, `Aggregation`, `AggregationLoops`,
   `AggregationLaws`).
5. *Re-checks.* The explanation and the result assembler restate invariants and refuse a decision that breaks
   one (`Consumers`, `Agreement`).

`Pipeline` runs all of it for one request. `Benign`, `RiskBound`, `Soundness`, `Confidence`, `TwoSignals` and
`Rearrangement` hold the theorems about whole runs. `Schemas` says what the loader and the boundary's schemas let
through; `Examples` is one small bundle and its requests that pass them, and `RiskCanRise` and `Refusals` are the
statements that need an instance. `Indexes` and `AiValidation` model the reverse indexes and the staged validator
of extraction responses. `Scanlines`, `Png` and `Rasters` model the stand-alone PNG tool.

**How it is written.** Code that mutates is a method or a class with loops: the union-find, the matcher, the
per-rule accumulators, the work stacks, the byte buffers. Each is proved against a specification over sets,
maps or sequences in which no processing order is left, and the laws are proved about that specification.
Identifiers are natural numbers: the position of a string in lexical order, which is all the code compares
strings by.

**Main results**

- *Independence.* The union-find answers connectivity through shared references. The matching is maximum, by
  a vertex cover of equal size, and the class set is canonical. The count is the size of a largest family of
  groups of different classes that are pairwise unconnected.
- *Exact verdicts.* NO_SCAM_PATTERN and HIGH confidence are characterised by if-and-only-if conditions on the
  context; condition trees are evaluated exactly against every completion of their unknowns.
- *Benign evidence.* Observations of anything but positive indicators never add a matched rule, never create
  a scam classification, never raise severity, and raise risk by at most one level and only with a new
  governing rule. Risk itself can rise, and exactly when is settled before the evidence is added: what benign
  evidence may leave of the results never carries more risk if and only if no firing rule, on its own severity
  and strength, is above the decision's risk (`RiskBound.RiskCannotRiseExactly`). Under that condition no benign
  extension of a request raises its risk (`RiskBound.RiskStaysDown`); a schema-valid request without it goes
  from MEDIUM to HIGH (`RiskCanRise.NoteRaisesRisk`).
- *No finding on one signal.* Under loaded knowledge a scam classification rests on a rule with two directly
  observed, unsuppressed indicators of different evidence classes (`TwoSignals.ScamNeedsTwoSignals`).
- *Producer and consumers.* Aggregation accepts everything the evaluator and the suppression step emit. The
  re-checks then refuse a well-posed request for exactly two reasons, one of which is a real disagreement.
- *Determinism.* Rearranging rule results, arrays, groups and errors changes nothing; end to end, permuting or
  repeating occurrences and permuting observations leaves the same refusal or the identical decision.
- *PNG.* Reconstruction and filtering invert each other, `read` after `write` returns the image, boxes tile
  the source exactly, and trimming loses no dark pixel.

**Where the code and its documentation part ways.** The code is modelled.

- `matched_rule_ids` counts matched results of every kind, aggregation only composites. A published
  SUPPRESSION rule that fires therefore makes the assembler refuse the decision (`Pipeline.RefusedExactly`,
  `Refusals.SuppressionRuleIsRefused`).
- The evaluator lists a soft suppressor as blocked without looking at `blockable_by_overrides`; the suppression
  step does look, and refuses the rule when the lists differ (`SuppressionLaws.BlockedSetsAgreeExactly`). A bundle
  the loader accepts reaches this, though the shipped library declares every such suppressor blockable
  (`Refusals.BlockedListIsRefused`).
- A structurally dead occurrence is documented to read FALSE, but a polarity mismatch is noticed first and reads
  UNKNOWN (`Evaluator.DeadStaysDead`).
- `content_box` of an image without dark pixels is the whole image if and only if it has a column or no more rows
  than the padding, and `scale` of an image without rows reads out of bounds (`Rasters.ContentBox`,
  `Rasters.Scale`).

`dafny verify dfyconfig.toml` checks the whole project.

## Model

| member | source | states |
|---|---|---|
| Kleene.AllOf | knowledge/runtime/kleene.py:50-63 | the loop with its early exit computes strong Kleene conjunction: False if any operand is, else Unknown if any is, else True |
| Kleene.AnyOf | knowledge/runtime/kleene.py:66-78 | the loop computes strong Kleene disjunction |
| Kleene.NOf | knowledge/runtime/kleene.py:81-101 | the counting loop computes at-least-n by what must and what may be true; `n < 1` is refused |
| Conditions.EvalIsMonotone | knowledge/runtime/evaluator.py:667-679 | conditions are negation-free: lowering operands in the order False < Unknown < True lowers the verdict, for nested trees |
| Conditions.EvalIsExact | knowledge/runtime/evaluator.py:667-679 | TRUE iff the Boolean evaluator of the rule runner holds with every unknown false, and iff it holds for every completion; FALSE iff it fails with every unknown true, and iff it fails for every completion |
| Conditions.Embed | knowledge/validation/rule_runner.py:55-66 | on fully known readings the runtime's three-valued evaluator and the authoring tool's Boolean one agree |
| Conditions.DefiniteVerdictsSurviveRefinement | knowledge/runtime/kleene.py:1-42 | a definite verdict is kept however the unknown operands are settled later |
| Observations.LiveMeansDirectlyObserved | knowledge/runtime/observations.py:179-213 | an occurrence is live iff it has references and every one leads to an observation that was seen, affirmed, first-party and not descriptive |
| Observations.BuildContext | knowledge/runtime/observations.py:239-313 | accepts exactly the data with distinct observation ids, one input, resolving references and no observed claim on unobserved backing; the context is then the grouping of that data |
| Observations.OneInputCannotCross | knowledge/runtime/observations.py:239-313 | once a single input is established, no reference can lead to another input: the per-reference branch is dead |
| Observations.ContextListsOccurrences | knowledge/runtime/observations.py:216-236 | an indicator's occurrences in the context are exactly those the data lists for it |
| EvaluatorLoops.SuppressionAssociation | knowledge/runtime/evaluator.py:513-531 | a shared reference associates a suppressor with an occurrence; a missing reference on either side leaves it open |
| EvaluatorLoops.CombinePositive | knowledge/runtime/evaluator.py:450-511 | the occurrence loop, in any order, computes the set-based combination: truth, reason, neutralised flag and live groups |
| Evaluator.MoreSuppressorsLower | knowledge/runtime/evaluator.py:450-511 | suppressors only move an occurrence down the truth order, and a neutralised occurrence stays neutralised |
| Evaluator.DeadStaysDead | knowledge/runtime/evaluator.py:474-497 | under any suppressors a structurally dead occurrence reads False iff its registry polarity agrees; otherwise it reads Unknown |
| Evaluator.TrueOccurrence | knowledge/runtime/evaluator.py:450-511 | an occurrence is True iff it is observed at or above the gate, live in all backing observations and neither associated nor possibly associated with a suppressor |
| Evaluator.CombinedTruth | knowledge/runtime/evaluator.py:450-511 | the combined truth is a three-valued OR over the occurrences |
| Evaluator.GroupsAreLive | knowledge/runtime/evaluator.py:450-511 | the reported groups are exactly the sorted references of the True occurrences |
| Evaluator.GroupsWitnessTruth | knowledge/runtime/evaluator.py:450-511 | groups are reported iff the indicator is True |
| EvaluatorLoops.CombineNegativeOccurrences | knowledge/runtime/evaluator.py:546-565 | the same OR for negative indicators, which structure does not gate |
| EvaluatorLoops.ComputeActiveOverrides | knowledge/runtime/evaluator.py:584-604 | the active overrides are those that apply and whose condition is TRUE on the raw readings; the blocked categories are theirs |
| EvaluatorLoops.ComputeMatchedNegatives | knowledge/runtime/evaluator.py:543-544 | the matched negatives are those that apply to the rule's families and read True |
| EvaluatorLoops.ActiveSuppressorOccurrences | knowledge/runtime/evaluator.py:632-665 | per target, exactly the gated occurrences of the unblocked executing negatives that name it |
| EvaluatorLoops.PositiveTruthMap | knowledge/runtime/evaluator.py:433-448 | the three maps hold the raw reading of every observed positive indicator |
| EvaluatorLoops.ExecuteSuppression | knowledge/runtime/evaluator.py:302-318 | re-reading only the targets that have suppressors, in place, leaves the maps as if every indicator had been read with its suppressors |
| EvaluatorLoops.EvaluateComposite | knowledge/runtime/evaluator.py:261-392 | the imperative evaluation of a composite rule equals the order-free specification of its result |
| Pipeline.EvaluateSuppression | knowledge/runtime/evaluator.py:396-429 | a SUPPRESSION rule is evaluated over negative readings only, without diversity |
| Pipeline.EvaluateById | knowledge/runtime/evaluator.py:206-220 | a rule is turned away with each of the three codes exactly when it is unknown, unpublished or out of scope; otherwise it carries no error and is the result of its kind |
| Suppression.TallyNegatives | knowledge/runtime/suppression.py:181-227 | the loop over matched negatives fails iff some metadata is unreadable, and otherwise splits them by effect and blocking into six lists |
| Suppression.LowestIsLeast | knowledge/runtime/suppression.py:101-108 | the least of a set of severities is in it and below all of it |
| Suppression.LowerSeverity | knowledge/runtime/suppression.py:101-108 | folding ordinal minima gives the least of the base and the ceilings |
| Suppression.ResolveMatched | knowledge/runtime/suppression.py:157-252 | a matched composite is refused iff it is not acceptable; otherwise it is capped, possibly cancelled, and its suppression object rebuilt from the governed resolution alone |
| Suppression.ApplyRule | knowledge/runtime/suppression.py:124-179 | fail closed on aggregation fields and on any fault; results that are not matched composites come back canonical |
| Suppression.ApplyAll | knowledge/runtime/suppression.py:150-153 | each output depends on its own input only |
| SuppressionLaws.StatesMoveLawfully | knowledge/runtime/suppression.py:157-252 | the only state changes are a cancelled composite MATCHED to SUPPRESSED and degradation with an error; a rule left matched has no unblocked suppressor |
| SuppressionLaws.SeverityIsTheMinimum | knowledge/runtime/suppression.py:228-241 | the final severity is the evaluator's base or a surviving ceiling, and below all of them |
| SuppressionLaws.OthersPassThrough | knowledge/runtime/suppression.py:157-180 | a result that is not a matched composite is unchanged up to the order of its arrays |
| SuppressionLaws.CanonicalFormIsExact | knowledge/runtime/suppression.py:256-273 | canonical forms agree iff two results are spellings of one result |
| SuppressionLaws.ApplyIgnoresOrder | knowledge/runtime/suppression.py:256-273 | permuting or repeating array entries changes nothing in the output |
| SuppressionLaws.BlockedSetsAgreeExactly | knowledge/runtime/suppression.py:304-352 | the step's blocked set is contained in the evaluator's; they are equal, and the cross-check silent, iff every matched soft suppressor in a blocked category is declared blockable |
| SuppressionLaws.DisagreementDegrades | knowledge/runtime/suppression.py:330-352 | whenever they differ, a matched rule is refused with SUPPRESSION_EXECUTION_ERROR |
| UnionFind.DisjointSets.Find | knowledge/runtime/aggregation.py:325-332 | returns the root, adds the node if new, and compresses without changing any root |
| UnionFind.DisjointSets.Compress | knowledge/runtime/aggregation.py:325-332 | the path-compression loop keeps nodes and roots |
| UnionFind.DisjointSets.Union | knowledge/runtime/aggregation.py:334-337 | afterwards two nodes share a root iff they are linked by the pairs united so far, the new one included |
| UnionFind.RootIsLeast | knowledge/runtime/aggregation.py:321-337 | the root is the least element of its component |
| Matching.Matcher.Augment | knowledge/runtime/aggregation.py:347-356 | success shifts partners along one augmenting path; failure moves nothing and leaves the seen components taken and closed under their partners' neighbours; the search terminates on unseen components |
| Matching.CertificateIsSound | knowledge/runtime/aggregation.py:340-360 | the closed set with the classes matched outside it bounds every matching: a vertex cover of the matching's size |
| Matching.MaxBipartiteMatching | knowledge/runtime/aggregation.py:340-360 | the size is the maximum matching number, the classes are the canonical ones, and there are as many of them |
| Matching.CanonicalClassesAreMaximum | knowledge/runtime/aggregation.py:340-360 | the classes whose addition to the smaller ones raises the matching number are as many as the matching number |
| Independence.StarsConnectTheGroups | knowledge/runtime/aggregation.py:390-395 | uniting each group's references with its first connects exactly what chains of groups sharing references connect |
| Independence.RootIsComponent | knowledge/runtime/aggregation.py:390-399 | after merging, roots name the components of references |
| Independence.BuildGraph | knowledge/runtime/aggregation.py:390-399 | the class-to-component map is the bipartite graph of the entries |
| Independence.ProvenIndependence | knowledge/runtime/aggregation.py:363-403 | count, classes and shared references are those of the live groups of the eligible rules, whatever their order |
| Independence.CountIsLargestIndependentFamily | knowledge/runtime/aggregation.py:363-403 | the count is the size of a largest family of groups of different classes, no two connected |
| AggregationLoops.AggregateDecision | knowledge/runtime/aggregation.py:590-707 | refuses exactly the inputs that are pre-stamped, unsound or duplicate a rule id, and otherwise returns the decision specified on the set of canonical results |
| AggregationLoops.CollectErrors | knowledge/runtime/aggregation.py:653-661 | the caller's errors and one SINGLE_RULE error per degraded result |
| AggregationLaws.CanonicalCopyIsExact | knowledge/runtime/aggregation.py:498-535 | canonical copies agree iff two results are spellings of one, provenance groups included |
| AggregationLaws.AggregationIsDeterministic | knowledge/runtime/aggregation.py:590-755 | rearranging results, arrays, groups and errors gives the same refusal or the identical decision |
| AggregationLaws.RepeatedPairsAddNothing | knowledge/runtime/aggregation.py:363-403 | a (class, group) pair already present adds nothing to the count and changes no class |
| AggregationLaws.DecisionSeverityIsGovernings | knowledge/runtime/aggregation.py:295-304 | the decision severity, a maximum over eligible rules, is the governing rule's own |
| Consumers.SemanticViolations | knowledge/runtime/result.py:125-171 | the list holds exactly the violated invariants |
| Consumers.CheckRollups | knowledge/runtime/explanation.py:206-263 | passes iff every rollup is duplicate-free and the one the rule results imply |
| Agreement.CleanExactly | knowledge/runtime/result.py:125-171 | the invariants hold of a decision iff no SUPPRESSION result is matched, no composite is matched outside the evaluated path, and a whole-evaluation error does not meet unsupported or insufficient input |
| Agreement.RollupsExactly | knowledge/runtime/explanation.py:206-263 | the rollup check passes iff no eligible result sits outside the evaluated path and the caller's errors are not SINGLE_RULE |
| Agreement.ClassificationExactly | knowledge/runtime/explanation.py:266-343 | the classification check passes iff no eligible result sits outside the evaluated path and a refusal of a non-error input says so in its scope |
| Pipeline.ProductionIsAccepted | knowledge/runtime/aggregation.py:538-587 | whatever the knowledge and the observations, evaluator and suppression results pass the semantic invariants of aggregation |
| Pipeline.EvaluateAll | knowledge/runtime/suppression.py:407-417 | every published rule in lexical order, evaluated and then suppressed |
| Pipeline.Detect | knowledge/runtime/result.py:461-526 | support first: rules run only for evaluable support without upstream errors; a decision is returned iff the request is well posed and both re-checks pass |
| Pipeline.RefusedExactly | knowledge/runtime/result.py:461-526 | a well-posed request fails the re-checks iff rules ran and a published SUPPRESSION rule fired, or a whole-evaluation error is scoped to a single rule |
| Refusals.SuppressionRuleIsRefused | knowledge/runtime/result.py:106-108 | a schema-valid bundle and request for which the first case occurs, at every gate |
| Refusals.SingleScopeIsRefused | knowledge/runtime/explanation.py:249-263 | any error scoped to a single rule, reported with support ERROR, is the second case, under any knowledge and gate |
| Refusals.BlockedListIsRefused | knowledge/runtime/suppression.py:330-352 | a schema-valid bundle and request on which the evaluator matches a rule and the step refuses it over the blocked list |
| Rearrangement.OrderDecidesNothing | knowledge/runtime/result.py:461-526 | permuting or repeating occurrences and permuting observations and errors keeps a request well posed or not, and its decision identical |
| TwoSignals.ScamNeedsTwoSignals | knowledge/runtime/evaluator.py:315-331 | under loaded knowledge a scam classification rests on a rule that fired on two indicators of different evidence classes, each observed at or above the gate, live and unsuppressed |
| Benign.CompositeWeakens | knowledge/runtime/evaluator.py:261-331 | more negative evidence never turns a composite rule MATCHED, and only removes matched positives and adds matched negatives |
| Benign.MatrixMovesOneLevel | knowledge/runtime/aggregation.py:83-89 | at no higher severity, no choice of strengths moves the risk up by more than one level |
| Benign.BenignEvidenceIsAntitone | knowledge/runtime/result.py:461-526 | end to end: no new matched rule, no new scam classification, no higher severity, at most one more level of risk and only under a new governing rule |
| RiskBound.RiskCannotRiseExactly | knowledge/runtime/aggregation.py:676-694 | whatever benign evidence leaves of the results carries no more risk, iff no eligible rule's own severity and strength put it above the risk decided |
| RiskBound.RiskStaysDown | knowledge/runtime/result.py:461-526 | end to end: where no firing rule outranks the decision on its own axes, no benign extension of the request raises its risk |
| RiskCanRise.NoteRaisesRisk | knowledge/runtime/aggregation.py:676-694 | on a schema-valid bundle and request where a firing rule outranks the decision, one educational note raises the risk from MEDIUM to HIGH, at every gate |
| Soundness.NoScamExactly | knowledge/runtime/aggregation.py:453-469 | NO_SCAM_PATTERN iff rules ran, none failed, every composite match was cancelled by an unblocked suppressor, no composite was left open by an observed operand, and some composite fails under every completion or was so cancelled |
| Soundness.CompositeStaysOpen | knowledge/runtime/aggregation.py:234-247 | a composite is unresolved harm iff its condition is Unknown and a positive operand that was observed stayed Unknown |
| Soundness.CompositeFails | knowledge/runtime/aggregation.py:250-262 | a composite is NOT_MATCHED with FALSE iff its condition fails under every completion of its unknowns |
| Confidence.ThreeExactly | knowledge/runtime/aggregation.py:434-447 | the count reaches three iff three groups of different classes are pairwise unconnected |
| Confidence.HighConfidenceExactly | knowledge/runtime/aggregation.py:434-447 | HIGH iff rules ran, none failed, and the governing rule is SUPPORTED, unambiguous, decisively extracted, and has an active override or three independent groups behind the decision |
| Confidence.EveryEntryIsWitnessed | knowledge/runtime/evaluator.py:369-381 | every group the count is taken over belongs to an occurrence observed at or above the gate, live and unsuppressed, in a rule that fired and was not cancelled |
| Confidence.HighConfidenceHasWitnesses | knowledge/runtime/aggregation.py:363-403 | HIGH without an override names three such occurrences of different classes, pairwise unconnected |
| Indexes.RulesByIndicator | knowledge/runtime/indexes.py:302-323 | equals the sorted linear scan of published rules with the positive operand |
| Indexes.CompositesOnlyExactly | knowledge/runtime/indexes.py:302-311 | the index names COMPOSITE rules only iff no published SUPPRESSION rule reads a positive indicator; no branch reads the kind |
| Schemas.LoadedIndexIsComposite | knowledge/runtime/indexes.py:395-413 | the loader's polarity check refuses such rules, so in every loaded bundle it does |
| Indexes.RulesByCategory | knowledge/runtime/indexes.py:302-324 | equals the sorted linear scan of published rules under the category |
| Indexes.OverrideIndexes | knowledge/runtime/indexes.py:326-336 | both override indexes equal their sorted linear scans |
| Indexes.NegativesByRule | knowledge/runtime/indexes.py:313-320 | has a key exactly for each published rule, and equals the evaluator's applicability filter restricted to active negatives |
| AiValidation.CheckDepth | knowledge/ai/validation.py:197-209 | the stack scan accepts iff the recursive nesting depth is within the limit |
| AiValidation.ScanForbidden | knowledge/ai/validation.py:212-224 | the stack scan accepts iff no object anywhere in the tree has a forbidden name |
| AiValidation.CheckRecords | knowledge/ai/validation.py:306-362 | the staged loops return the code of the first failing stage |
| AiValidation.Validate | knowledge/ai/validation.py:230-363 | the whole staged validator returns the code of the first failing stage |
| AiValidation.AcceptedExactly | knowledge/ai/validation.py:306-363 | accepted iff shallow, free of decision fields, about the expected input, naming governed live indicators, with resolving references and excerpts equal to their source slices |
| AiValidation.OrderDoesNotMatter | knowledge/ai/validation.py:306-362 | permuting observations and indicators leaves the code unchanged |
| Scanlines.UndoSub | tools/png.py:138-140 | the in-place loop equals the Sub recurrence |
| Scanlines.UndoUp | tools/png.py:141-143 | the in-place loop equals the Up recurrence |
| Scanlines.UndoAverage | tools/png.py:144-147 | the in-place loop equals the Average recurrence |
| Scanlines.UndoPaeth | tools/png.py:148-155 | the in-place loop equals the Paeth recurrence of section 6.6 of RFC 2083 |
| Scanlines.Nearest | tools/png.py:153-154 | the simplified distances pick the same neighbour as the predictor defined from left + above - upper left |
| Scanlines.ReconstructionInvertsFilter | tools/png.py:138-155 | for every filter, width, pixel size and line above, reconstruction undoes filtering |
| Scanlines.FilterInvertsReconstruction | tools/png.py:138-155 | and filtering undoes reconstruction |
| Scanlines.DecodeLines | tools/png.py:129-159 | the line loop over in-place buffers equals the recursive decoding, out-of-range reads and a short last line included |
| Scanlines.DecodingInvertsEncoding | tools/png.py:129-159 | an image encoded with any filter per line decodes to its lines |
| Png.ScanChunks | tools/png.py:106-121 | the chunk loop equals the recursive walk |
| Png.FramingRoundTrips | tools/png.py:196-198 | reading framed chunks sees exactly those chunks, up to the first end marker |
| Png.ReadPng | tools/png.py:101-160 | up to the conversion of colour types, refuses exactly what the reader refuses; a truecolour image is returned decoded |
| Png.WritePng | tools/png.py:188-204 | writes the signature and three framed chunks iff every length fits 32 bits |
| Png.ReadInvertsWrite | tools/png.py:188-204 | reading what was written returns the same image |
| Rasters.BoxesPartition | tools/png.py:49-53 | every source pixel is averaged into exactly one target pixel |
| Rasters.BoxesTile | tools/png.py:49-53 | every box is non-empty, in bounds, and ends where the next begins |
| Rasters.HeightShrinks | tools/png.py:47 | the target height does not exceed the height iff there is a row at all |
| Rasters.Scale | tools/png.py:43-72 | the nested loops compute the box averages; wide targets return the image, an image without rows fails |
| Rasters.ScaledIsAverages | tools/png.py:57-71 | each channel of the scaled image is the average over its own box |
| Rasters.ScaledIsBetween | tools/png.py:57-71 | and lies between the least and the greatest value of that box |
| Rasters.Crop | tools/png.py:32-41 | row copies give exactly the clipped box; outside the image a negative buffer size fails and any other is zeroed |
| Rasters.CropShowsItsBox | tools/png.py:32-41 | every pixel of the crop is the source pixel at the shifted position |
| Rasters.ContentBox | tools/png.py:75-95 | the loops find the tight box of dark pixels, padded and clipped; without any, the whole image iff it has a column or no more rows than the padding |
| Rasters.TightIsSmallest | tools/png.py:75-95 | before padding, no smaller box holds every dark pixel |
| Rasters.TrimmingKeepsDark | tools/png.py:75-95 | cropping to the content box keeps every dark pixel at its place |

## Left out

- Strings: message texts, templated prose, source quotes, timestamps and identity fields; errors are codes, and only emptiness and order of names are kept.
- JSON Schema validation, file loading, hashing, freezing and path safety; malformed conditions and wrongly typed scalars are ruled out by types, except the governed suppression metadata the suppression step checks itself.
- Taxonomy references: a rule carries its category set, so the prefix match on taxonomy ids and the base-language split of language tags are not modelled.
- Result fields that are only copied along: rule versions, evidence ids, source references, indicator observation references.
- The explanation beyond its two cross-field checks, recommended actions, provenance pins and the probability-key scan of the result assembler.
- The candidate and on-promotion evaluation entry points, which run the same evaluator without the published-only gate.
- In-place stamping of result records: `aggregate_decision` marks the eligible dictionaries it holds, the model builds the stamped results as values, so aliasing between the eligible list and the result list is not captured.
- Sorting: `sorted` is a function of the multiset it sorts; its algorithm is not modelled.
- AiValidation.Validate: the parser, the schema validator and UTF-8 encoding are inputs, and which of several failing items is reported first is not kept because the code is the same.
- Consumers.SemanticViolations: does not check the action vocabulary and the action-policy version, because recommended actions and provenance pins are not modelled.
- Pipeline.Detect: identity and timestamp validation, the result schema and the explanation checks other than the two modelled can refuse too, on fields the model does not have.
- Schemas: taxonomy, source, evidence and family references, lifecycle dates and explanation texts are not part of the predicates.
- Png.ReadPng: zlib is a pair of parameters, checksums are not verified (the reader does not), and conversion of greyscale, palette and alpha images to RGB is left as an unconverted buffer.
- Rasters.Scale: the target height rounds the exact quotient half to even; the source rounds its floating-point quotient, which differs only beyond double precision.
- The remaining indexes keyed by a record's own id, and reference validation across components.
- The PDF and figure tools, the applications, and the persistence, governance and replay modules.
