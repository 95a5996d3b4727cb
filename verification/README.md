# RoofTrace in Dafny

RoofTrace measures roofs. A Rails application drives a chain of sidecar stages for each job and stores one measurement row
per run; captures from a phone later refine that measurement, by a fused row, and put overlays on the photos; reports and
PDFs are made from the latest row. This project models the parts of it that have something to prove.

## The parts

- **Scoring detections** (`BoxOverlap`, `DetectionScorer`, `MatchingTheorems`, `ReportTheorems`): the greedy matching of
  predicted to true boxes, as loops proved against a functional matching, and what the matching is worth.
- **The measurement machine** (`PipelineTypes`, `FusionRules`, `MeasurementAssembler`, `MeasurementSystem`,
  `SystemInvariants`, `SystemTheorems`): one job row, its history, its overlays and whether it has a report, as a
  transition system in which a geometry execution, a fusion execution and projection executions interleave, with an
  invariant kept by every step.
- **The code that drives it** (`JobRecord`, `VlmRunner`, `MeasurementOrchestrator`, `GeometryJob`, `FusionOrchestrator`,
  `FusionJob`, `ProjectionOrchestrator`, `CacheAgreement`): the orchestrators and jobs as methods over a `Job` object.
  The object keeps a ghost log, and each database action of each method is shown to be one step of the machine, so what
  holds over runs of the machine holds of the code. Every sidecar call may answer, violate its contract, time out, fail or
  raise something unexpected; every broadcast may be lost.
- **Ingest and reports** (`SessionManifest`, `CaptureIngest`, `IngestRaces`, `Reports`): the manifest validator, the
  ingest of a bundle alone and in races of any number of calls, the report deduplication, and the racing report mint.
- **Codes and caches** (`Fingerprint`, `PoseConfidence`, `ReportPdfCache`, `Rounding`).

`dafny verify dfyconfig.toml` checks everything.

## How the model reads the code

- A Ruby exception is a `Failure`; a `rescue` is a match on it. `SidecarClient::Error` and its subclasses are `SchemaFault`,
  `TimeoutFault` and `SidecarFault`; anything else is `CrashFault`.
- Geometry executions of a job are serial, and so are its fusion executions; the guards at `app/models/job.rb:70` and
  `app/jobs/fusion_job.rb:31` read values loaded earlier and do not stop concurrent duplicates.
- A method is stated for one execution on its own. What other executions do between its database actions is covered by
  the lemmas over runs of the machine, where every action is a separate step.
- Database updates of the job, its rows and its overlays do not fail; the insert of a measurement row and the minting of a
  report may.
- The clock is strictly increasing, and a row's `generated_at` is read in an earlier step than the one that commits it.
- The digest is a parameter; injectivity is assumed only where `CollisionFree` says so.
- `Job` is the job as one execution loaded it, with fixed inputs; edits of the address and the selection are steps of the runs
  of `CacheAgreement`.
- `find_or_create_by!` is the Rails 8.1 one: `find_by`, then `create!`, rescuing RecordNotUnique by `find_by!`.
- The captures of a job are given in the order of their sequence indices.
- JSON, UUIDs, object keys and polygons are values; UUIDs are ordered like natural numbers.

## Where the code and its comments differ

- A comment says every ready job has a report (`app/services/measurement_orchestrator.rb:401`): the report is minted after
  the commit, so a ready job is without one until then, and stays so when the mint fails
  (`SystemTheorems.ReadyWithoutReport`); when there is one is `SystemTheorems.ReadyJobHasReportIff`. The mint itself can
  raise, exactly as `Reports.MintCanRaiseIff` says.
- A comment says `call` raises nothing for an expected failure (`app/services/measurement_orchestrator.rb:73`): when the
  broadcast of `failed` is lost, and only then, that error is raised instead of returning nil
  (`MeasurementOrchestrator.MeasurementOrchestrator.Call`).
- A comment takes a PDF not older than the row to show current data (`app/services/report_pdf.rb:121`): not after a write
  during a render, or a commit after one (`ReportPdfCache.SlowRenderServesStale`, `ReportPdfCache.LateCommitServesStale`);
  the exact condition is `ReportPdfCache.ServesStaleIff`.
- A comment says a retry must not overwrite overlays that succeeded (`app/services/projection_orchestrator.rb:57`): a retry
  after an unexpected error can (`ProjectionOrchestrator.RetryCanLoseOverlay`), exactly under the condition of
  `ProjectionOrchestrator.RetryLosesIff`, and a later delivery can as `ProjectionOrchestrator.PassLosesIff` says.

## Model

| member | source | states |
|---|---|---|
| BoxOverlap.IouBounds | sidecar/validation/metrics.py:85-109 | IoU lies in [0, 1] for all boxes, inverted and empty ones included |
| BoxOverlap.IouSymmetric | sidecar/validation/metrics.py:85-109 | IoU does not depend on the order of the boxes |
| BoxOverlap.IouOneIffSameBox | sidecar/validation/metrics.py:85-109 | IoU is 1 exactly when both are the same box of positive area |
| BoxOverlap.IouPositiveIffInteriorsMeet | sidecar/validation/metrics.py:93-102 | IoU is positive exactly when the interiors share a point; an empty box overlaps nothing |
| BoxOverlap.IouIsShare | sidecar/validation/metrics.py:93-109 | when the common part of the two boxes is not empty, IoU times the area of either box is the area of that part |
| BoxOverlap.UnionGuardUnreachable | sidecar/validation/metrics.py:104-109 | past the intersection guard the union is positive, so the union guard never fires and the quotient is exact |
| DetectionScorer.ConfidenceOrderIsPermutation | sidecar/validation/metrics.py:136 | the processing order visits every prediction once, by falling confidence, a missing one counting as 0.0, and in input order among equals |
| DetectionScorer.BestFreeIsBest | sidecar/validation/metrics.py:138-146 | the specification's pick is an eligible free box of greatest IoU, the first of equals, and there is none only if no free box is eligible |
| DetectionScorer.FindBest | sidecar/validation/metrics.py:138-146 | the inner loop finds that pick |
| DetectionScorer.CountMatches | sidecar/validation/metrics.py:132-149 | the outer loop computes the greedy matching, and tp is its size |
| DetectionScorer.WithLabelKeepsPositions | sidecar/validation/metrics.py:130-131 | filtering by a label keeps exactly the positions with that label, each once and in input order |
| DetectionScorer.WithLabelCounts | sidecar/validation/metrics.py:130-131 | the filtered list is as long as the set of positions with the label is large |
| DetectionScorer.ScoreClass | sidecar/validation/metrics.py:151-167 | one label's scores come from its true-positive count |
| DetectionScorer.PrecisionRecallF1 | sidecar/validation/metrics.py:126-168 | the report has exactly the labels that occur on either side; every entry has tp + fp equal to the number of input predictions with the label and tp + fn to the number of input boxes with it, and its tp is the size of the greedy matching |
| MatchingTheorems.GreedyIsMatching | sidecar/validation/metrics.py:137-149 | the greedy result is a matching of eligible pairs that nobody free could extend, of size tp, at most the predictions and at most the boxes |
| MatchingTheorems.GreedyIsStable | sidecar/validation/metrics.py:136-149 | a prediction is denied an eligible box better than its own match only if that box is held by a prediction before it in confidence order |
| MatchingTheorems.GreedyIsHalfOptimal | sidecar/validation/metrics.py:136-149 | any set of disjoint eligible pairs has at most 2 tp members |
| MatchingTheorems.SamePick | sidecar/validation/metrics.py:138-146 | the step of the two-run proof: a stricter run that picks a box the looser run has left free picks the same one |
| MatchingTheorems.ThresholdMonotone | sidecar/validation/metrics.py:129-167 | raising the threshold only removes matched boxes; tp, precision, recall and f1 never rise, fp and fn never fall, for every label |
| MatchingTheorems.F1ClosedForm | sidecar/validation/metrics.py:153-159 | f1 is 2 tp over (2 tp + fp + fn) |
| MatchingTheorems.ReportIsConsistent | sidecar/validation/metrics.py:151-167 | for every label: tp + fp and tp + fn are the numbers of input positions with it, precision and recall are the exact shares, f1 their harmonic mean, and every ratio is in [0, 1] |
| ReportTheorems.TruePositivesAreStableMatching | sidecar/validation/metrics.py:129-149 | tp counts a matching between the input's own positions: same label, IoU positive and at least the threshold, nothing used twice, and for every such pair left out the prediction holds a box at least as good or the box went to a prediction scored earlier |
| PoseConfidence.NormTestsAgree | app/services/projection_pose_confidence.rb:95-110 | the square-root tests agree with tests on squared length |
| PoseConfidence.AcceptedPoseIsNearIsometry | app/services/projection_pose_confidence.rb:89-104 | an accepted rotation block keeps every squared length within [0.8025, 1.2025] of itself |
| PoseConfidence.AcceptedPoseIsInvertible | app/services/projection_pose_confidence.rb:89-104 | an accepted rotation block maps distinct vectors to distinct vectors |
| PoseConfidence.DrawableIffTightFit | app/services/projection_pose_confidence.rb:43-77 | at the default threshold a score is acceptable exactly when the pose is sane and 1.2 rmse is at most 0.30005 |
| PoseConfidence.ScoreIsAntitone | app/services/projection_pose_confidence.rb:58-77 | the score is in [0, 1] and never rises with the residual |
| PoseConfidence.SaneIff | app/services/projection_pose_confidence.rb:79-110 | the extrinsics gate on the sixteen entries themselves: columns of norm within 0.05 of 1, pairwise dot products within 0.05 of 0, translation of norm at most 1000 |
| PoseConfidence.ScoreValue | app/services/projection_pose_confidence.rb:58-77 | the score is 0 without a residual or a sane pose, and otherwise 1 less 1.2 times the residual kept in [0, 0.5], to four places |
| Fingerprint.EncodeInjective | app/services/measurement_idempotency_cache.rb:50-55 | the length-prefixed text determines both fields, whatever characters they hold |
| Fingerprint.IntegerTextInjective | app/services/measurement_idempotency_cache.rb:53 | no two integers have the same decimal text |
| Fingerprint.JobTextInjective | app/services/measurement_idempotency_cache.rb:50-55 | the hashed text determines the address and the selection |
| Fingerprint.FingerprintsAgreeIff | app/services/measurement_idempotency_cache.rb:50-55 | under a collision-free hash two fingerprints are equal exactly when the addresses and the selections are |
| CacheAgreement.HitWasBuiltFromSameInputs | app/services/measurement_idempotency_cache.rb:29-55 | over runs with edits at any moment, under a collision-free hash, a lookup hits only a row at most an hour old and built from exactly the inputs looked up |
| CacheAgreement.OrchestratorsAgreeIff | app/services/measurement_idempotency_cache.rb:50-55 | two executions compute the same fingerprint exactly when their jobs agree in address and selection |
| CacheAgreement.StampIsEditedStep | app/services/measurement_orchestrator.rb:341-370 | the step in which the code stamps its row is a step of the edited runs, so the row carries the fingerprint of the inputs loaded |
| CacheAgreement.LookupServesOwnInputs | app/services/measurement_idempotency_cache.rb:29-55 | over runs with edits, the lookup of an execution hits only a row built from its own job's address and selection |
| CacheAgreement.CommittedRowIsNewestPipelineRow | app/services/measurement_orchestrator.rb:383-402 | in every run, whatever is newer than a row just committed is fused |
| CacheAgreement.SecondCallHits | app/services/measurement_idempotency_cache.rb:29-39 | over any run without another pipeline commit, a later lookup in the window with the same inputs hits exactly unless the latest row is fused |
| SessionManifest.Validator.Call | app/services/session_manifest_validator.rb:40-52 | valid exactly when no error was accumulated, exactly when the manifest is well formed |
| SessionManifest.WellFormedIff | app/services/session_manifest_validator.rb:40-145 | what a validated manifest is, field by field and without the validator's own helpers |
| SessionManifest.VersionOkIff | app/services/session_manifest_validator.rb:62-72 | the version is accepted exactly when its text is 1 or starts with 1 and a dot |
| SessionManifest.Validator.ValidateCaptures | app/services/session_manifest_validator.rb:90-102 | adds an error exactly when the captures are not well formed |
| SessionManifest.Validator.ValidateEachCapture | app/services/session_manifest_validator.rb:111-130 | the loop over `seen` adds an error exactly when some capture is malformed or repeats an index |
| SessionManifest.CapturesBounded | app/services/session_manifest_validator.rb:97-101 | distinct indices in 0..7 already imply the length cap |
| SessionManifest.ValidManifestKeysDistinct | app/services/capture_bundle/uploader.rb:44-91 | a validated bundle never writes two of its blobs under one key |
| CaptureIngest.ValidatedIndicesAreDistinct | app/services/capture_session_ingester.rb:97-100 | a validated manifest hands the ingester distinct sequence indices |
| CaptureIngest.CaptureSessionIngester.BuildCaptures | app/services/capture_session_ingester.rb:97-112 | every capture is inserted, unless an index repeats |
| CaptureIngest.CaptureSessionIngester.ResolveDuplicate | app/services/capture_session_ingester.rb:67-77 | the job's own row if it has one, a conflict if another job has it, and otherwise the inconsistent raise |
| CaptureIngest.CaptureSessionIngester.Persist | app/services/capture_session_ingester.rb:34-56 | one call: a new session with all its captures or no change at all, with the exact condition for each of the five outcomes |
| IngestRaces.StepKeepsInv | app/services/capture_session_ingester.rb:34-77 | every step of every call, under any interleaving, keeps session ids unique and each call's claim true |
| IngestRaces.CreatedOnce | app/services/capture_session_ingester.rb:37-43 | at most one call per session id ever reports a new session |
| IngestRaces.ResolutionsAgree | app/services/capture_session_ingester.rb:67-72 | a call resolves to the one row only if its job owns it and conflicts only if another job does |
| IngestRaces.CreatedWithAllCaptures | app/services/capture_session_ingester.rb:37-41 | a created session is a valid bundle's and exists with exactly its captures |
| IngestRaces.RefusedForCause | app/services/capture_session_ingester.rb:44-77 | a call ends invalid only for an invalid bundle, with a conflict only if the session is stored, for another job unless an index repeats, and inconsistent only if an index repeats |
| IngestRaces.EverySessionIsComplete | app/services/capture_session_ingester.rb:37-41 | in every state every session was there from the start, untouched, or was created by one of the calls and has exactly the captures of its bundle |
| IngestRaces.NeverInconsistent | app/services/capture_session_ingester.rb:73-76 | the final RecordNotUnique is unreachable for a validated manifest, under any interleaving |
| IngestRaces.RetryIsIdempotent | app/services/capture_session_ingester.rb:34-77 | under any interleaving, a call for a session stored before the run ends with that very row if its job owns it, with a conflict if not, or with a store failure |
| Reports.ReportsTable.DeleteDuplicates | db/migrate/20260528230223_add_unique_index_to_reports_job_id.rb:21-33 | keeps exactly the oldest report of each job, by creation time and then id, and every report without a job; the result is unique per job and has nothing left to delete |
| Reports.SurvivorExists | db/migrate/20260528230223_add_unique_index_to_reports_job_id.rb:24-30 | no job that had a report loses its last one |
| Reports.AlwaysOnePerJob | app/services/measurement_orchestrator.rb:419-423 | in every state of every interleaving of mints, every job has at most one report |
| Reports.MintsAgree | app/services/measurement_orchestrator.rb:419-423 | calls of one job that return yield the same, existing report |
| Reports.EndedMintLeavesReport | app/services/measurement_orchestrator.rb:419-423 | a mint that ended, even by raising, leaves the job with a report, and never fails to find one |
| Reports.ValidatedMintNeverRaises | app/services/measurement_orchestrator.rb:419-423 | over runs, a mint that has passed validation never raises: beaten to the insert, it finds the report of the winner |
| Reports.RaisedMeansOvertaken | app/services/measurement_orchestrator.rb:419-423 | over runs, a mint that has raised belongs to a job without a report at the start, and another call of that job has returned |
| Reports.MintCanRaiseIff | app/services/measurement_orchestrator.rb:419-423 | a mint raises in some run if and only if its job has no report yet and another call for the job is about |
| Reports.MintCanRaise | app/models/report.rb:14 | against any table without a report of the job, a run of two mints of that job in which one escapes with RecordInvalid |
| MeasurementAssembler.ConfidenceIsHonest | app/services/measurement_assembler.rb:52-60 | confidence is a four-place number in [0, 1], at most 0.6 without lidar |
| MeasurementAssembler.ConfidenceNearProduct | app/services/measurement_assembler.rb:52-60 | confidence is the product of the confidences present, capped without lidar, to four places |
| MeasurementAssembler.ConfidenceBelowEachFactor | app/services/measurement_assembler.rb:52-60 | confidence exceeds neither stage's confidence, up to rounding |
| MeasurementAssembler.Uniq | app/services/measurement_assembler.rb:64-69 | the merged warnings are those that occurred, each once |
| MeasurementAssembler.UniqKeepsOrder | app/services/measurement_assembler.rb:64-69 | the merged warnings keep the order of first occurrence |
| MeasurementAssembler.AssembledRowIsHonest | app/services/measurement_orchestrator.rb:341-370 | every assembled row is honest: source matches lidar, cap and lidar warning when imagery-only, distinct warnings, no fusion keys |
| MeasurementOrchestrator.CompletedRowIsHonest | app/services/measurement_orchestrator.rb:203-260 | a completed run shows its degradations: a lidar failure leaves a LIDAR_MISSING row capped at 0.6 and its cause, an outline failure the footprint and its cause, a detection that raised or took more than a minute too long no features and a warning |
| MeasurementOrchestrator.CompletedRowCarriesStages | app/services/measurement_orchestrator.rb:128-195 | each stage's answer is in its own column of the row, and every stage's warnings are kept |
| MeasurementOrchestrator.CompletedRowConfidence | app/services/measurement_assembler.rb:52-60 | the row's confidence is the product of the geocoding and geometry confidences that are there, at most 0.6 without lidar, to four places |
| MeasurementOrchestrator.CompletesIffNoProblem | app/services/measurement_orchestrator.rb:128-168 | a run commits a row exactly when nothing goes wrong in program order |
| MeasurementOrchestrator.RescuedIffExpected | app/services/measurement_orchestrator.rb:80-93 | the rescue clauses end the job exactly for a contract violation, a timeout, another sidecar error and a geometric failure, each under its own note; a crash, a missing key, a lost broadcast and a store failure pass |
| JobRecord.Job.AdvanceTo | app/models/job.rb:64-76 | a terminal job is refused and unchanged; otherwise the status is written before the broadcast, which may raise |
| JobRecord.Job.FailWith | app/models/job.rb:85-88 | failed with the note, then the broadcast |
| PipelineTypes.LatestIndex | app/models/job.rb:51-53 | the index of a row that no row is newer than, and none exactly for an empty history |
| VlmRunner.VlmRunner.Wait | app/services/vlm_runner.rb:76-80 | a join with a limit says whether the thread ended, which it did exactly if its end lies within the limit |
| VlmRunner.VlmRunner.Unwind | app/services/vlm_runner.rb:80 | after the grace period or the kill the thread is not alive, and it is killed only if it outlasts the grace period |
| VlmRunner.VlmRunner.Join | app/services/vlm_runner.rb:73-89 | features only from a thread that ends within the join timeout and did not raise, else a warning; no thread is alive afterwards |
| VlmRunner.VlmRunner.Cleanup | app/services/vlm_runner.rb:95-104 | no thread is held or alive afterwards, whatever the held thread does |
| MeasurementOrchestrator.MeasurementOrchestrator.CachedMeasurement | app/services/measurement_idempotency_cache.rb:29-39 | a hit is served; only a job that is not terminal is moved to ready |
| MeasurementOrchestrator.MeasurementOrchestrator.Advance | app/services/measurement_orchestrator.rb:128-168 | each stage sets the next status of the fixed order, and the terminal guard never fires |
| MeasurementOrchestrator.MeasurementOrchestrator.IngestLidarStage | app/services/measurement_orchestrator.rb:203-227 | a transport failure becomes the LIDAR_MISSING stand-in, a contract violation is raised |
| MeasurementOrchestrator.MeasurementOrchestrator.RefineOutlineStage | app/services/measurement_orchestrator.rb:237-260 | a transport failure keeps the footprint, a contract violation is raised |
| MeasurementOrchestrator.MeasurementOrchestrator.GeometryStage | app/services/measurement_orchestrator.rb:262-299 | planes with a point cloud, the imagery fallback and its warning without; no facets or no longitude fails the run |
| MeasurementOrchestrator.MeasurementOrchestrator.AssembleAndPersist | app/services/measurement_orchestrator.rb:341-413 | row and ready commit together or not at all; what follows the commit may raise but undoes nothing |
| MeasurementOrchestrator.MeasurementOrchestrator.Mint | app/services/measurement_orchestrator.rb:409-423 | after it there is a report unless the store failed and there was none; it raises when overtaken or when the store fails |
| MeasurementOrchestrator.MeasurementOrchestrator.RunPipelineStages | app/services/measurement_orchestrator.rb:128-168 | one assembled row, ready, and the sidecar calls with their arguments; or the first problem in program order and only statuses written |
| MeasurementOrchestrator.MeasurementOrchestrator.RunPipeline | app/services/measurement_orchestrator.rb:115-126 | the same, with no detector thread left on any exit |
| MeasurementOrchestrator.MeasurementOrchestrator.Fail | app/services/measurement_orchestrator.rb:80-92 | the job fails under its cause, and nil is returned unless the broadcast is lost |
| MeasurementOrchestrator.MeasurementOrchestrator.GiveUp | app/services/measurement_orchestrator.rb:80-92 | an expected failure leaves the job failed under the note of its kind, and returns nil unless the broadcast is lost |
| MeasurementOrchestrator.MeasurementOrchestrator.RunAndRescue | app/services/measurement_orchestrator.rb:75-93 | one new row and ready; or, without naming the rescue clauses, failed under the note of an expected failure with the history untouched; or an unexpected failure re-raised with the job open |
| MeasurementOrchestrator.MeasurementOrchestrator.Call | app/services/measurement_orchestrator.rb:75-93 | a hit serves the latest row and calls no stage; a miss ends in one new row and ready, failed with the history unchanged, or a re-raise with the job not terminal; the statuses are a prefix of the fixed order, then ready or failed or neither |
| GeometryJob.Perform | app/jobs/geometry_job.rb:33-57 | the terminal guard is never raised; a terminal job is left alone; the outcome is ready, failed under the note of an expected failure, or open for a retry, each under its exact condition; the third attempt always ends terminal and an earlier crash never does |
| GeometryJob.Deliver | app/jobs/geometry_job.rb:29-57 | ready or failed after at most three executions, at most one row richer, crashed only once all three are spent |
| FusionRules.FusedConfidenceBounds | app/services/fusion_orchestrator.rb:140-144 | fused confidence gains between 0.05 and 0.10 on the prior, up to 1, and the whole 0.10 for a perfect fit |
| FusionRules.FusedConfidenceIsAntitone | app/services/fusion_orchestrator.rb:140-144 | a tighter alignment never earns less confidence |
| FusionRules.FusedConfidenceValue | app/services/fusion_orchestrator.rb:140-144 | the value: the prior, plus 0.05, plus a tenth of what the residual is below 0.5, at most 1, to four places |
| FusionRules.ProvenanceIsFromOneReplyIff | app/services/fusion_orchestrator.rb:151-163 | the merged fusion keys all belong to this response if and only if the prior has no transform or projection that the response leaves out |
| FusionOrchestrator.AppendFailureWarning | app/services/fusion_orchestrator.rb:31-37 | the message ends up on the given row, or on the latest when none is given, and is not repeated |
| FusionOrchestrator.WarnedOnce | app/services/fusion_orchestrator.rb:31-37 | one append puts the message there once and changes no other row and not which row is latest |
| FusionOrchestrator.WarnedTwice | app/services/fusion_orchestrator.rb:31-37 | repeating an append changes nothing |
| FusionOrchestrator.AddedIffGoesThrough | app/services/fusion_orchestrator.rb:46-94 | an attempt adds a row exactly when the prior has lidar, the started broadcast is delivered, the response has a measurement and a residual below 0.5, and the insert succeeds |
| FusionOrchestrator.FusionOrchestrator.PersistFusedMeasurement | app/services/fusion_orchestrator.rb:112-135 | one row more, built from the prior and the response, device-fused, stamped now and without warnings; everything else as it was |
| FusionOrchestrator.FusionOrchestrator.Call | app/services/fusion_orchestrator.rb:46-94 | the history afterwards and what is raised, for every way an attempt can end; one row more exactly under the condition of `AddedIffGoesThrough` |
| FusionJob.Perform | app/jobs/fusion_job.rb:24-46 | nothing for an already fused job; otherwise the attempt, its error noted, or on the last attempt warned about on the latest row |
| FusionJob.ExecutionExtends | app/jobs/fusion_job.rb:24-46 | an execution adds at most one row, then the latest, and otherwise only lengthens warnings; a last failure is visible on the latest row |
| FusionJob.Deliver | app/jobs/fusion_job.rb:20-46 | over all retries at most one fused row, and a delivery that failed to the end says so on the latest row |
| ProjectionOrchestrator.StoredOverlayIsGood | app/services/projection_orchestrator.rb:129-166 | drawn exactly when both scores reach the threshold and the sidecar answers, with the smaller score; otherwise nothing to draw, and no confidence exactly when the sidecar failed |
| ProjectionOrchestrator.DrawnMeansTightFit | app/services/projection_orchestrator.rb:101-155 | at the default threshold a drawn overlay has a residual below 0.2501 m |
| ProjectionOrchestrator.ReadsTheReplysValues | app/services/fusion_orchestrator.rb:151-163 | what a projection reads off a fused row is the response's own residual and sixteen-float transform, or the prior's transform when the response has none |
| ProjectionOrchestrator.WithPhotoKeepsPositions | app/models/capture.rb:13 | the scope keeps exactly the captures with a photo, each once and in order |
| ProjectionOrchestrator.PassDrawsOnlyTightFits | app/services/projection_orchestrator.rb:42-80 | at the threshold 0.7, whatever a pass has drawn anew, the latest row stores a residual below 0.2501 m under its key |
| ProjectionOrchestrator.ProjectionOrchestrator.ProjectOne | app/services/projection_orchestrator.rb:101-125 | stores exactly the overlay the scores call for, or stores nothing and reports the sidecar's failure |
| ProjectionOrchestrator.ProjectionOrchestrator.Pass | app/services/projection_orchestrator.rb:63-87 | every shot gets exactly its overlay and no other changes, up to an unexpected error; raises exactly when there is a shot and all timed out |
| ProjectionOrchestrator.ProjectionOrchestrator.Call | app/services/projection_orchestrator.rb:29-88 | skipped unless the latest row carries sixteen floats and a projection code; otherwise a pass over exactly the photographed captures with the stored residual; at the default threshold an overlay is drawn only if that residual is below 0.2501 m |
| ProjectionOrchestrator.Perform | app/jobs/projection_job.rb:17-41 | the pass, drawing only over a tight fit, with a raise noted on every attempt and passed on |
| ProjectionOrchestrator.Deliver | app/jobs/projection_job.rb:11-33 | at most three passes over the same shots, each from the overlays the one before left, and another exactly after each that raised; between them they draw only over a tight fit |
| ProjectionOrchestrator.PassLosesIff | app/services/projection_orchestrator.rb:63-80 | a pass loses a drawable overlay exactly when it reaches the capture and does not draw it |
| ProjectionOrchestrator.RetryLosesIff | app/services/projection_orchestrator.rb:50-58 | a retry loses an overlay the pass before it drew if and only if that pass was cut short by an unexpected error and the retry reaches the shot undrawn; never after a completed pass |
| ProjectionOrchestrator.RetryCanLoseOverlay | app/services/projection_orchestrator.rb:50-58 | two photos and two passes in which a good overlay is lost and nothing is raised |
| SystemInvariants.GeoPreserves | app/services/measurement_orchestrator.rb:75-413 | every geometry step keeps the invariant |
| SystemInvariants.FusPreserves | app/services/fusion_orchestrator.rb:31-163 | every fusion step keeps the invariant, whatever happened since it last read |
| SystemInvariants.ProjPreserves | app/services/projection_orchestrator.rb:135-166 | every projection step keeps the invariant |
| SystemInvariants.NextPreserves | app/models/job.rb:64-100 | every step of the machine keeps the invariant |
| SystemTheorems.ReadyHasMeasurement | app/services/measurement_orchestrator.rb:374-402 | in every reachable state a ready job has a measurement |
| SystemTheorems.MeasuredJobHasReport | app/services/measurement_orchestrator.rb:403-411 | a job with a measurement has its report, is about to mint it, or lost a mint to the store |
| SystemTheorems.ReadyJobHasReportIff | app/services/measurement_orchestrator.rb:403-411 | a ready job whose mint has ended has a report if and only if no mint was lost to the store or another was made |
| SystemTheorems.ReadyWithoutReport | app/services/measurement_orchestrator.rb:400-411 | a run with a ready job that has no report, before its mint and after a lost one |
| SystemTheorems.ImageryRowsStayHonest | app/services/measurement_orchestrator.rb:305-316 | in every reachable state an imagery-only row is capped and carries its lidar warning |
| SystemTheorems.WarningsAreDistinct | app/services/fusion_orchestrator.rb:34 | in every reachable state no row repeats a warning |
| SystemTheorems.OverlaysStayHonest | app/services/projection_orchestrator.rb:135-166 | in every reachable state an overlay is drawn with enough confidence and an image, or flagged and shows nothing |
| SystemTheorems.NoTwoFusedAdjacent | app/jobs/fusion_job.rb:31 | in every reachable state a pipeline row lies between any two fused rows |
| SystemTheorems.OriginsAreCommits | app/services/fusion_orchestrator.rb:112-135 | every recorded origin was recorded by the step that committed the row, from the base and the response held in that step |
| SystemTheorems.FusedRowsHaveOneOrigin | app/services/fusion_orchestrator.rb:112-163 | every fused row was committed by one step and is what the code builds from the pipeline row and the one response held in that step, with warnings added since |
| SystemTheorems.FusedRowsAreTight | app/services/fusion_orchestrator.rb:71-74 | in every reachable state a fused row stores a residual of at least 0 and below 0.5 |
| SystemTheorems.HistoryOnlyGrows | app/services/fusion_orchestrator.rb:31-37 | between any two states of a run, rows are only added and existing ones only gain warnings |
| SystemTheorems.RowsOnlyGainWarnings | app/services/fusion_orchestrator.rb:31-37 | column by column, a row of a run never changes but for warnings added at the end |
| SystemTheorems.StatusMoves | app/models/job.rb:64-100 | fusion and projection leave the status alone; only a fresh geometry run re-opens a terminal job |
| SystemTheorems.TerminalUntilRerun | app/models/job.rb:91-100 | a terminal status stays as it is until a geometry run resets it |
| ReportPdfCache.ReportPdf.MapImage | app/services/report_pdf.rb:133-162 | the rendered map, the static map or none, and no object but the fallback image written |
| ReportPdfCache.ReportPdf.Render | app/services/report_pdf.rb:60-86 | succeeds exactly on a hit, or with vertices, no unexpected error, a printer and a store; a hit writes nothing; a render replaces the PDF, flagged degraded exactly when the map is not the rendered one; a raise leaves the PDF as it was; the new PDF is served again exactly if clean, for thirty minutes |
| ReportPdfCache.CurrentIffVisibleWhenRead | app/services/report_pdf.rb:103-128 | in every run the stored PDF shows the current latest row exactly when that version was visible as its render read it |
| ReportPdfCache.ServesStaleIff | app/services/report_pdf.rb:95-128 | a stale PDF is served if and only if the age and flag tests pass, the row is stamped no later than the PDF, and its commit came after the read |
| ReportPdfCache.ServedIsCurrent | app/services/report_pdf.rb:95-113 | a served PDF is clean, at most thirty minutes old, and current whenever the write and the render did not overlap |
| ReportPdfCache.SlowRenderServesStale | app/services/report_pdf.rb:123-128 | a run in which a write during a render leads to old contents being served |
| ReportPdfCache.LateCommitServesStale | app/services/report_pdf.rb:123-128 | a run in which a row stamped before but committed after a render leads to old contents being served |

## Left out

- Floating point: floats are reals, `round(4)` is explicit and rounds halves up, and NaN and infinity appear only as unusable extrinsics entries.
- HTTP, S3, Grover, ActionCable, JSON Schema and Pydantic: only the kinds of outcome they have.
- Controllers, views, authentication, the iOS client and the sidecar's geometry.
- `mape`, `p90`, `per_complexity_breakdown`, `count_error`, `structural_validity`: easy members or numpy.
- Haversine and pitch formulas, report text and the map bounding box: transcendental functions and string assembly.
- The UTM zone number sent with the fallback call: only whether a longitude is there.
- Provenance keys other than the fusion keys, schema version, detector, refinement backend and geometry source.
- A nil `generated_at` or equal stamps: the strictly increasing clock rules both out.
- Deleting jobs, sessions, rows or reports while calls are under way.
- VlmRunner.VlmRunner.Join: does not model an exception outside StandardError in the detector thread, which would be re-raised.
- FusionOrchestrator.FusionOrchestrator.Call: the enqueued projection is an outcome only; a broadcast that raises before it loses it, as in the code.
- ReportPdfCache.ServedIsCurrent: says nothing about overlays, capture sessions or evidence photos, whose changes do not invalidate the cached PDF.
- Precedence between `discard_on` and `retry_on`, and how the queue delays and repeats executions: only the count of attempts.
- Missing job or capture-session records, and a job destroyed while an execution runs.
