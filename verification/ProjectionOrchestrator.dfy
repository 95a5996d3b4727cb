/**
 One projection pass over a job's photographed captures, and the job around it (`ProjectionOrchestrator`,
 `ProjectionJob`).
 */
module ProjectionOrchestrator {
  import opened Wrappers
  import opened Rounding
  import opened PipelineTypes
  import opened FusionRules
  import opened PoseConfidence
  import opened MeasurementAssembler
  import opened MeasurementSystem
  import opened SystemInvariants
  import opened JobRecord

  const MAX_ATTEMPTS := 3

  datatype Capture = Capture(id: nat, photoRef: Option<string>, extrinsics: Extrinsics)

  /** A schema-valid `ProjectPhotoResponse`: `overlay_ref` is required, the rest is not. */
  datatype PhotoReply = PhotoReply(
    overlayRef: string,
    compositeRef: Option<string>,
    svgRef: Option<string>,
    poseConfidence: Option<real>,
    occluded: seq<string>)

  /** What the sidecar would answer for each capture. */
  type Answers = nat -> Result<PhotoReply, Fault>

  /** The scope `with_photo`: captures with something to project onto, in the order given. */
  function WithPhoto(captures: seq<Capture>): seq<Capture> {
    if captures == [] then []
    else
      var n := |captures| - 1;
      WithPhoto(captures[..n]) + if captures[n].photoRef.Some? then [captures[n]] else []
  }

  /** `at` lists, in increasing order, exactly the positions of the captures that have a photo. */
  ghost predicate PhotoPositions(captures: seq<Capture>, at: seq<nat>) {
    && (forall i :: 0 <= i < |at| ==> at[i] < |captures| && captures[at[i]].photoRef.Some?)
    && (forall i, j :: 0 <= i < j < |at| ==> at[i] < at[j])
    && (forall p: nat :: p < |captures| && captures[p].photoRef.Some? ==> p in at)
  }

  lemma PhotoPositionsExtend(captures: seq<Capture>, before: seq<nat>)
    requires captures != [] && PhotoPositions(captures[..|captures| - 1], before)
    ensures var n := |captures| - 1; PhotoPositions(captures, before + if captures[n].photoRef.Some? then [n] else [])
  {
    var n := |captures| - 1;
    var at := before + if captures[n].photoRef.Some? then [n] else [];
    forall i | 0 <= i < |at| ensures at[i] < |captures| && captures[at[i]].photoRef.Some? {
      if i < |before| { assert captures[..n][before[i]].photoRef.Some?; }
    }
    forall p: nat | p < |captures| && captures[p].photoRef.Some? ensures p in at {
      if p < n {
        assert captures[..n][p].photoRef.Some?;
        assert p in before;
      } else {
        assert at[|before|] == n;
      }
    }
  }

  /** The scope keeps exactly the captures with a photo, each once and in order. */
  lemma {:induction false} WithPhotoKeepsPositions(captures: seq<Capture>) returns (at: seq<nat>)
    ensures PhotoPositions(captures, at) && |at| == |WithPhoto(captures)|
    ensures forall i :: 0 <= i < |at| ==> WithPhoto(captures)[i] == captures[at[i]]
  {
    if captures == [] {
      at := [];
    } else {
      var n := |captures| - 1;
      var before := WithPhotoKeepsPositions(captures[..n]);
      PhotoPositionsExtend(captures, before);
      at := before + if captures[n].photoRef.Some? then [n] else [];
      forall i | 0 <= i < |at| ensures WithPhoto(captures)[i] == captures[at[i]] {
        if i < |before| { assert WithPhoto(captures[..n])[i] == captures[..n][before[i]]; }
      }
      hide PhotoPositions;
    }
  }

  predicate DistinctIds(captures: seq<Capture>) {
    forall i, j :: 0 <= i < j < |captures| ==> captures[i].id != captures[j].id
  }

  lemma WithPhotoKeepsDistinct(captures: seq<Capture>)
    requires DistinctIds(captures)
    ensures DistinctIds(WithPhoto(captures))
  {
    var at := WithPhotoKeepsPositions(captures);
    hide WithPhoto;
  }

  // ------------------------------------------------------- one capture's fate

  function EffectiveConfidence(railsScore: real, sidecarValue: Option<real>): real {
    if sidecarValue.None? then railsScore else Min(railsScore, sidecarValue.value)
  }

  function LowConfidence(confidence: Option<real>): Overlay { Overlay(None, None, confidence, true, []) }

  /** The solved transform a row carries, if it is one: sixteen floats. */
  function SolvedTransform(p: Provenance): Option<seq<real>> {
    if TRANSFORM_KEY in p && p[TRANSFORM_KEY].Floats? && |p[TRANSFORM_KEY].rs| == 16
    then Some(p[TRANSFORM_KEY].rs) else None
  }

  function StoredRmse(p: Provenance): Option<real> {
    if RMSE_KEY in p && p[RMSE_KEY].Number? then Some(p[RMSE_KEY].r) else None
  }

  predicate Projectable(r: Row) { SolvedTransform(r.provenance).Some? && EPSG_KEY in r.provenance }

  /** What a projection reads is what is stored under those names, and nothing else. */
  lemma ReadsWhatIsStored(p: Provenance)
    ensures forall r :: StoredRmse(p) == Some(r) <==> "fusion_icp_rmse_m" in p && p["fusion_icp_rmse_m"] == Number(r)
    ensures forall t :: SolvedTransform(p) == Some(t) <==>
      "fusion_arkit_to_utm_4x4" in p && p["fusion_arkit_to_utm_4x4"] == Floats(t) && |t| == 16
  {
  }

  /** A row to project from: it carries sixteen floats for a transform, and a projection code. */
  ghost predicate Registered(latest: Option<Snap>) {
    && latest.Some?
    && var p := latest.value.row.provenance;
    && "fusion_arkit_to_utm_4x4" in p && p["fusion_arkit_to_utm_4x4"].Floats? && |p["fusion_arkit_to_utm_4x4"].rs| == 16
    && "fusion_utm_epsg" in p
  }

  /** On a fused row these are the response's own residual and its solved transform. */
  lemma ReadsTheReplysValues(prior: Provenance, reply: FuseReply, session: Session)
    requires reply.icpRmse.Some?
    ensures var p := FusedProvenance(prior, reply, session);
      && StoredRmse(p) == reply.icpRmse
      && (reply.arkitToUtm.Some? && |reply.arkitToUtm.value| == 16 ==> SolvedTransform(p) == reply.arkitToUtm)
      && (reply.arkitToUtm.None? ==> SolvedTransform(p) == SolvedTransform(prior))
      && (reply.utmEpsg.Some? ==> "fusion_utm_epsg" in p && p["fusion_utm_epsg"] == Integer(reply.utmEpsg.value))
  {
    KeysDistinct();
  }

  /** What a pass works with: the stored residual, the sidecar's answers and the threshold. */
  datatype Input = Input(rmse: Option<real>, answers: Answers, threshold: real)

  /** How a capture's turn in the loop ends. */
  datatype Turn = Stored(overlay: Overlay) | TransientFailure | PermanentFailure | Aborted

  function TurnOf(c: Capture, e: Input): Turn {
    var score := Score(e.rmse, c.extrinsics);
    if !Acceptable(Some(score), e.threshold) then Stored(LowConfidence(Some(score)))
    else
      match e.answers(c.id)
      case Failure(TimeoutFault) => TransientFailure
      case Failure(CrashFault) => Aborted
      case Failure(_) => PermanentFailure
      case Success(reply) =>
        var confidence := EffectiveConfidence(score, reply.poseConfidence);
        if !Acceptable(Some(confidence), e.threshold) then Stored(LowConfidence(Some(confidence)))
        else Stored(Overlay(Some(reply.compositeRef.GetOr(reply.overlayRef)), reply.svgRef, Some(confidence), false,
                            reply.occluded))
  }

  function OverlayAfter(t: Turn): Overlay { if t.Stored? then t.overlay else LowConfidence(None) }

  /**
   An overlay is drawn exactly when Rails' score reaches the threshold, the sidecar answers, and its own confidence,
   if it gives one, reaches it too; the smaller of the two is stored. A flagged one shows nothing, and has no
   confidence at all exactly when the sidecar failed.
   */
  lemma StoredOverlayIsGood(c: Capture, e: Input)
    ensures var o, score, answer := OverlayAfter(TurnOf(c, e)), Score(e.rmse, c.extrinsics), e.answers(c.id);
      && GoodOverlay(o, e.threshold)
      && (!o.lowPoseConfidence <==>
            score >= e.threshold && answer.Success?
                && (answer.value.poseConfidence.Some? ==> answer.value.poseConfidence.value >= e.threshold))
      && (!o.lowPoseConfidence ==>
            && o.poseConfidence.value <= score
            && (if answer.value.poseConfidence.None? then o.poseConfidence.value == score
                else o.poseConfidence.value <= answer.value.poseConfidence.value
                     && o.poseConfidence.value in {score, answer.value.poseConfidence.value})
            && o.compositeRef == Some(answer.value.compositeRef.GetOr(answer.value.overlayRef))
            && o.svgRef == answer.value.svgRef && o.occluded == answer.value.occluded)
      && (o.poseConfidence.None? <==> score >= e.threshold && answer.Failure?)
  {
    hide Score;
  }

  /** At the default threshold a drawn overlay means a residual of at most about 0.25 m. */
  lemma DrawnMeansTightFit(c: Capture, e: Input)
    requires e.threshold == DEFAULT_THRESHOLD && !OverlayAfter(TurnOf(c, e)).lowPoseConfidence
    ensures e.rmse.Some? && e.rmse.value < 0.2501
  {
    DrawableIffTightFit(e.rmse, c.extrinsics);
    hide Score;
  }

  /** The first capture whose turn aborts the pass, or the number of captures. */
  function StopsAt(shots: seq<Capture>, e: Input): (k: nat)
    ensures k <= |shots|
    ensures forall i :: 0 <= i < k ==> !TurnOf(shots[i], e).Aborted?
    ensures k < |shots| ==> TurnOf(shots[k], e).Aborted?
  {
    if shots == [] || TurnOf(shots[0], e).Aborted? then 0
    else 1 + StopsAt(shots[1..], e)
  }

  /** The first `n` shots have their overlay, and no other capture's overlay has changed. */
  ghost predicate Upserted(before: map<nat, Overlay>, after: map<nat, Overlay>, shots: seq<Capture>, n: nat, e: Input)
    requires n <= |shots|
  {
    && (forall i :: 0 <= i < n ==> shots[i].id in after && after[shots[i].id] == OverlayAfter(TurnOf(shots[i], e)))
    && (forall c :: (forall i :: 0 <= i < n ==> shots[i].id != c) ==>
          (c in after <==> c in before) && (c in before ==> after[c] == before[c]))
  }

  lemma UpsertOne(before: map<nat, Overlay>, after: map<nat, Overlay>, shots: seq<Capture>, i: nat, e: Input)
    requires i < |shots| && DistinctIds(shots) && Upserted(before, after, shots, i, e)
    ensures Upserted(before, after[shots[i].id := OverlayAfter(TurnOf(shots[i], e))], shots, i + 1, e)
  {
    hide TurnOf;
  }

  ghost predicate AllTransient(shots: seq<Capture>, n: nat, e: Input)
    requires n <= |shots|
  {
    forall i :: 0 <= i < n ==> TurnOf(shots[i], e).TransientFailure?
  }

  /**
   What a pass leaves and whether it raises: every shot has exactly its overlay and no other changed, up to an
   unexpected error if there is one; and it raises on such an error, or when there is a shot and every one timed out.
   */
  ghost predicate Passed(before: map<nat, Overlay>, after: map<nat, Overlay>, shots: seq<Capture>, e: Input,
                         raised: bool)
  {
    var n := StopsAt(shots, e);
    && Upserted(before, after, shots, n, e)
    && (raised <==> n < |shots| || (shots != [] && AllTransient(shots, n, e)))
  }

  predicate Drawn(overlays: map<nat, Overlay>, id: nat) { id in overlays && !overlays[id].lowPoseConfidence }

  predicate DrawnBy(c: Capture, e: Input) { !OverlayAfter(TurnOf(c, e)).lowPoseConfidence }

  /** The latest row stores a residual of less than about a quarter of a metre. */
  ghost predicate TightFit(latest: Option<Snap>) {
    && latest.Some?
    && var p := latest.value.row.provenance;
    && "fusion_icp_rmse_m" in p && p["fusion_icp_rmse_m"].Number? && p["fusion_icp_rmse_m"].r < 0.2501
  }

  /** At the threshold 0.7, whatever was drawn in between was drawn over a tight fit. */
  ghost predicate DrewOnlyTightFits(before: map<nat, Overlay>, after: map<nat, Overlay>, threshold: real,
                                    latest: Option<Snap>) {
    threshold == 0.7 ==>
      forall id :: Drawn(after, id) && (id !in before || before[id] != after[id]) ==> TightFit(latest)
  }

  lemma PassDrawsOnlyTightFits(before: map<nat, Overlay>, after: map<nat, Overlay>, shots: seq<Capture>, e: Input,
                               raised: bool, latest: Option<Snap>)
    requires Passed(before, after, shots, e, raised) && latest.Some?
    requires e.rmse == StoredRmse(latest.value.row.provenance)
    ensures DrewOnlyTightFits(before, after, e.threshold, latest)
  {
    ReadsWhatIsStored(latest.value.row.provenance);
    hide TurnOf, StoredRmse;
    forall id | e.threshold == 0.7 && Drawn(after, id) && (id !in before || before[id] != after[id])
      ensures TightFit(latest)
    {
      var i :| 0 <= i < StopsAt(shots, e) && shots[i].id == id;
      DrawnMeansTightFit(shots[i], e);
    }
  }

  lemma DrewTwice(a: map<nat, Overlay>, b: map<nat, Overlay>, c: map<nat, Overlay>, threshold: real,
                  latest: Option<Snap>)
    requires DrewOnlyTightFits(a, b, threshold, latest) && DrewOnlyTightFits(b, c, threshold, latest)
    ensures DrewOnlyTightFits(a, c, threshold, latest)
  {
    hide TightFit;
  }

  class ProjectionOrchestrator {
    const job: Job
    const captures: seq<Capture>
    const answers: Answers

    constructor (job: Job, captures: seq<Capture>, answers: Answers)
      ensures this.job == job && this.captures == captures && this.answers == answers
    {
      this.job, this.captures, this.answers := job, captures, answers;
    }

    function InputOf(rmse: Option<real>): Input { Input(rmse, answers, job.threshold) }

    /** The upsert of one capture's overlay. */
    method Persist(c: Capture, o: Overlay)
      requires job.Valid() && GoodOverlay(o, job.threshold)
      modifies job`overlays, job`run
      ensures job.Valid() && job.overlays == old(job.overlays)[c.id := o]
    {
      hide Inv, IsRun;
      ghost var before := job.State();
      job.overlays := job.overlays[c.id := o];
      assert ProjUpsert(before, job.State(), c.id, o);
      job.Took(before);
    }

    /** Scores, asks the sidecar when the score is acceptable, and stores; a sidecar error leaves nothing stored. */
    method ProjectOne(c: Capture, rmse: Option<real>) returns (r: Result<(), Fault>)
      requires job.Valid()
      modifies job`overlays, job`run
      ensures job.Valid()
      ensures var t := TurnOf(c, InputOf(rmse));
        && (t.Stored? <==> r.Success?)
        && job.overlays == (if t.Stored? then old(job.overlays)[c.id := t.overlay] else old(job.overlays))
        && (t.TransientFailure? <==> r == Failure(TimeoutFault)) && (t.Aborted? <==> r == Failure(CrashFault))
    {
      hide Score, Job.Valid;
      var score := Score(rmse, c.extrinsics);
      if !Acceptable(Some(score), job.threshold) {
        Persist(c, LowConfidence(Some(score)));
        return Success(());
      }
      var answer := answers(c.id);
      if answer.Failure? {
        return Failure(answer.error);
      }
      var reply := answer.value;
      var confidence := EffectiveConfidence(score, reply.poseConfidence);
      if !Acceptable(Some(confidence), job.threshold) {
        Persist(c, LowConfidence(Some(confidence)));
        return Success(());
      }
      var ref := if reply.compositeRef.Some? then reply.compositeRef.value else reply.overlayRef;
      Persist(c, Overlay(Some(ref), reply.svgRef, Some(confidence), false, reply.occluded));
      r := Success(());
    }

    /** The loop's rescue: a sidecar error flags this capture, any other leaves it alone and ends the pass. */
    method ProjectOrFlag(c: Capture, rmse: Option<real>) returns (r: Result<(), Fault>)
      requires job.Valid()
      modifies job`overlays, job`run
      ensures job.Valid()
      ensures var t := TurnOf(c, InputOf(rmse));
        && (t.Stored? <==> r.Success?)
        && (t.TransientFailure? <==> r == Failure(TimeoutFault)) && (t.Aborted? <==> r == Failure(CrashFault))
        && job.overlays == (if t.Aborted? then old(job.overlays) else old(job.overlays)[c.id := OverlayAfter(t)])
    {
      hide TurnOf, Job.Valid;
      r := ProjectOne(c, rmse);
      if r.Failure? && !r.error.CrashFault? {
        Persist(c, LowConfidence(None));
      }
    }

    /**
     The loop. Every shot gets exactly its overlay and no other overlay changes, unless an unexpected error stops the
     pass part-way. A completed pass raises for a retry if and only if there is a shot and every one timed out.
     */
    method Pass(shots: seq<Capture>, rmse: Option<real>) returns (r: Outcome<()>)
      requires job.Valid() && DistinctIds(shots)
      modifies job`overlays, job`run
      ensures job.Valid()
      ensures Passed(old(job.overlays), job.overlays, shots, InputOf(rmse), r.Failure?)
      ensures r == Failure(FromSidecar(CrashFault)) <==> StopsAt(shots, InputOf(rmse)) < |shots|
    {
      hide Score, TurnOf, Job.Valid, DistinctIds;
      ghost var e := InputOf(rmse);
      ghost var n := StopsAt(shots, e);
      assert Upserted(old(job.overlays), job.overlays, shots, 0, e);
      hide Upserted;
      var anySuccess, anyPermanentFailure, transientFailures := false, false, 0;
      for i := 0 to |shots|
        invariant i <= n && job.Valid()
        invariant Upserted(old(job.overlays), job.overlays, shots, i, e)
        invariant !anySuccess && !anyPermanentFailure <==> AllTransient(shots, i, e)
        invariant transientFailures >= 0 && (!anySuccess && !anyPermanentFailure ==> transientFailures == i)
      {
        UpsertOne(old(job.overlays), job.overlays, shots, i, e);
        var projected := ProjectOrFlag(shots[i], rmse);
        if projected == Failure(CrashFault) {
          return Failure(FromSidecar(CrashFault));
        }
        if projected.Success? {
          anySuccess := true;
        } else if projected.error.TimeoutFault? {
          transientFailures := transientFailures + 1;
        } else {
          anyPermanentFailure := true;
        }
      }
      r := if transientFailures > 0 && !anyPermanentFailure && !anySuccess
           then Failure(FromSidecar(SidecarFault("SidecarClient::Error"))) else Success(());
    }

    /**
     Skipped without a measurement or a solved transform. Otherwise the photographed captures have exactly their
     overlays, up to an unexpected error, and the pass raises as `Pass` says.
     */
    twostate predicate Projected(new r: Outcome<()>)
      requires DistinctIds(captures)
      reads job
    {
      var latest, shots := Snapshot(old(job.rows)), WithPhoto(captures);
      if !Registered(latest) then r.Success? && job.overlays == old(job.overlays)
      else
        var e := InputOf(StoredRmse(latest.value.row.provenance));
        && Passed(old(job.overlays), job.overlays, shots, e, r.Failure?)
        && (r == Failure(FromSidecar(CrashFault)) <==> StopsAt(shots, e) < |shots|)
    }

    method Call() returns (r: Outcome<()>)
      requires job.Valid() && DistinctIds(captures)
      modifies job`overlays, job`run
      ensures job.Valid() && Projected(r)
      ensures DrewOnlyTightFits(old(job.overlays), job.overlays, job.threshold, Snapshot(job.rows))
    {
      hide Job.Valid, LatestIndex, WithPhoto, Passed, StopsAt;
      var latest := job.LatestMeasurement();
      assert DrewOnlyTightFits(job.overlays, job.overlays, job.threshold, latest);
      if latest.None? || !Projectable(latest.value.row) {
        return Success(());
      }
      WithPhotoKeepsDistinct(captures);
      r := Pass(WithPhoto(captures), StoredRmse(latest.value.row.provenance));
      PassDrawsOnlyTightFits(old(job.overlays), job.overlays, WithPhoto(captures),
                             InputOf(StoredRmse(latest.value.row.provenance)), r.Failure?, latest);
      hide DrewOnlyTightFits;
    }
  }

  /**
   One execution of the job: a raise is noted on every attempt, the last included, and passed on; the status is out of
   reach.
   */
  method Perform(o: ProjectionOrchestrator, executions: nat) returns (r: Outcome<()>)
    requires o.job.Valid() && DistinctIds(o.captures)
    modifies o.job`overlays, o.job`run, o.job`lastError
    ensures o.job.Valid() && o.Projected(r)
    ensures DrewOnlyTightFits(old(o.job.overlays), o.job.overlays, o.job.threshold, Snapshot(o.job.rows))
    ensures o.job.lastError ==
      if r.Success? then old(o.job.lastError)
      else if executions >= MAX_ATTEMPTS then ProjectionExhausted else ProjectionCrashed(executions)
  {
    hide Inv, IsRun, LatestIndex, StopsAt, WithPhoto, TurnOf, DrewOnlyTightFits;
    r := o.Call();
    if r.Failure? {
      ghost var before := o.job.State();
      o.job.lastError := if executions >= MAX_ATTEMPTS then ProjectionExhausted else ProjectionCrashed(executions);
      assert ProjNoteError(before, o.job.State());
      o.job.Took(before);
    }
  }

  // ------------------------------------------------------ deliveries and retries

  /** What a delivery projects: nothing without a solved transform, otherwise every photographed capture. */
  function Shots(rows: seq<Row>, captures: seq<Capture>): seq<Capture> {
    var latest := Snapshot(rows);
    if latest.None? || !Projectable(latest.value.row) then [] else WithPhoto(captures)
  }

  function InputAt(rows: seq<Row>, answers: Answers, threshold: real): Input {
    var latest := Snapshot(rows);
    Input(if latest.None? then None else StoredRmse(latest.value.row.provenance), answers, threshold)
  }

  /**
   One pass after the other, each from the overlays the one before left; all but the last raised, and the last did if
   `raised`.
   */
  ghost predicate Chained(states: seq<map<nat, Overlay>>, shots: seq<Capture>, inputs: seq<Input>, raised: bool)
    requires |states| == |inputs| + 1
  {
    forall k :: 0 <= k < |inputs| ==> Passed(states[k], states[k + 1], shots, inputs[k], k + 1 < |inputs| || raised)
  }

  lemma ChainStarts(overlays: map<nat, Overlay>, shots: seq<Capture>, threshold: real, latest: Option<Snap>)
    ensures Chained([overlays], shots, [], true) && DrewOnlyTightFits(overlays, overlays, threshold, latest)
  {
  }

  lemma ChainExtends(states: seq<map<nat, Overlay>>, shots: seq<Capture>, inputs: seq<Input>,
                     after: map<nat, Overlay>, e: Input, raised: bool)
    requires |states| == |inputs| + 1 && Chained(states, shots, inputs, true)
    requires Passed(states[|inputs|], after, shots, e, raised)
    ensures Chained(states + [after], shots, inputs + [e], raised)
  {
    hide Passed;
  }

  /**
   A delivery with its retries: at most three passes over the same shots, and another one exactly after each that
   raised.
   */
  method Deliver(job: Job, captures: seq<Capture>, attempts: seq<Answers>)
    returns (executions: nat, raised: bool, ghost states: seq<map<nat, Overlay>>, ghost inputs: seq<Input>)
    requires job.Valid() && DistinctIds(captures) && |attempts| == MAX_ATTEMPTS
    modifies job`overlays, job`run, job`lastError
    ensures job.Valid()
    ensures 1 <= executions <= 3 && (raised ==> executions == 3)
    ensures |inputs| == executions && |states| == executions + 1
    ensures forall k :: 0 <= k < executions ==> inputs[k] == InputAt(job.rows, attempts[k], job.threshold)
    ensures states[0] == old(job.overlays) && states[executions] == job.overlays
    ensures Chained(states, Shots(job.rows, captures), inputs, raised)
    ensures DrewOnlyTightFits(old(job.overlays), job.overlays, job.threshold, Snapshot(job.rows))
  {
    assert MAX_ATTEMPTS == 3;
    hide *;
    ghost var rows, before := job.rows, job.overlays;
    ghost var shots, latest := Shots(rows, captures), Snapshot(rows);
    ChainStarts(before, shots, job.threshold, latest);
    executions, raised, states, inputs := 0, true, [before], [];
    while raised && executions < MAX_ATTEMPTS
      invariant 0 <= executions <= MAX_ATTEMPTS && (executions == 0 ==> raised) && job.Valid()
      invariant |inputs| == executions && |states| == executions + 1
      invariant forall k :: 0 <= k < executions ==> inputs[k] == InputAt(rows, attempts[k], job.threshold)
      invariant states[0] == before && states[executions] == job.overlays
      invariant Chained(states, shots, inputs, raised)
      invariant DrewOnlyTightFits(before, job.overlays, job.threshold, latest)
    {
      ghost var e, overlays := InputAt(rows, attempts[executions], job.threshold), job.overlays;
      var o := new ProjectionOrchestrator(job, captures, attempts[executions]);
      var r := Execute(o, executions + 1, shots, e);
      DrewTwice(before, overlays, job.overlays, job.threshold, latest);
      ChainExtends(states, shots, inputs, job.overlays, e, r.Failure?);
      executions, raised := executions + 1, r.Failure?;
      states, inputs := states + [job.overlays], inputs + [e];
    }
  }

  /** An execution, seen as a pass over the shots of the delivery: none when the projection is skipped. */
  method Execute(o: ProjectionOrchestrator, executions: nat, ghost shots: seq<Capture>, ghost e: Input)
    returns (r: Outcome<()>)
    requires o.job.Valid() && DistinctIds(o.captures)
    requires shots == Shots(o.job.rows, o.captures) && e == InputAt(o.job.rows, o.answers, o.job.threshold)
    modifies o.job`overlays, o.job`run, o.job`lastError
    ensures o.job.Valid() && Passed(old(o.job.overlays), o.job.overlays, shots, e, r.Failure?)
    ensures DrewOnlyTightFits(old(o.job.overlays), o.job.overlays, o.job.threshold, Snapshot(o.job.rows))
  {
    hide DrewOnlyTightFits, Job.Valid, LatestIndex, WithPhoto, TurnOf, Score;
    r := Perform(o, executions);
  }

  /**
   What becomes of a drawable overlay in a pass: it is lost exactly when its capture's turn comes and is not drawn.
   */
  lemma PassLosesIff(before: map<nat, Overlay>, after: map<nat, Overlay>, shots: seq<Capture>, e: Input, raised: bool,
                     i: nat)
    requires Passed(before, after, shots, e, raised) && DistinctIds(shots) && i < |shots| && Drawn(before, shots[i].id)
    ensures !Drawn(after, shots[i].id) <==> i < StopsAt(shots, e) && !DrawnBy(shots[i], e)
  {
    hide TurnOf;
    if i >= StopsAt(shots, e) {
      assert forall k :: 0 <= k < StopsAt(shots, e) ==> shots[k].id != shots[i].id;
    }
  }

  /**
   A retry loses a drawable overlay of the pass before it if and only if that pass was cut short by an unexpected error,
   had drawn this shot, and the retry reaches the shot and does not draw it. A completed pass is retried only when every
   shot timed out, so it has no drawable overlay to lose.
   */
  lemma RetryLosesIff(before: map<nat, Overlay>, middle: map<nat, Overlay>, after: map<nat, Overlay>,
                      shots: seq<Capture>, first: Input, second: Input, raised: bool, i: nat)
    requires DistinctIds(shots) && i < StopsAt(shots, first)
    requires Passed(before, middle, shots, first, true) && Passed(middle, after, shots, second, raised)
    ensures Drawn(middle, shots[i].id) && !Drawn(after, shots[i].id) <==>
      StopsAt(shots, first) < |shots| && DrawnBy(shots[i], first) && i < StopsAt(shots, second)
          && !DrawnBy(shots[i], second)
  {
    assert Drawn(middle, shots[i].id) <==> DrawnBy(shots[i], first);
    if StopsAt(shots, first) == |shots| {
      assert TurnOf(shots[i], first).TransientFailure?;
    }
    if Drawn(middle, shots[i].id) {
      PassLosesIff(middle, after, shots, second, raised, i);
    }
    hide TurnOf, Passed;
  }

  function Identity(): Extrinsics {
    var o, z := Finite(1.0), Finite(0.0);
    Entries([o, z, z, z, z, o, z, z, z, z, o, z, z, z, z, o])
  }

  lemma IdentityIsSane()
    ensures ExtrinsicsSane(Identity())
  {
    var e := Identity();
    var m := Values(e);
    assert m[0] == e.m[0].value && m[5] == e.m[5].value && m[10] == e.m[10].value;
    assert m[4] == e.m[4].value && m[8] == e.m[8].value && m[1] == e.m[1].value && m[9] == e.m[9].value;
    assert m[2] == e.m[2].value && m[6] == e.m[6].value;
    assert m[3] == e.m[3].value && m[7] == e.m[7].value && m[11] == e.m[11].value;
    hide Values;
    UnitColumnsAreSane(m);
  }

  lemma UnitColumnsAreSane(m: seq<real>)
    requires |m| == 16
    requires Column(m, 0) == Vec3(1.0, 0.0, 0.0) && Column(m, 1) == Vec3(0.0, 1.0, 0.0)
        && Column(m, 2) == Vec3(0.0, 0.0, 1.0)
    requires Column(m, 3) == Vec3(0.0, 0.0, 0.0)
    ensures RotationOrthonormal(m) && TranslationPlausible(m)
  {
    hide Column;
  }

  /**
   It happens: with two photos, a first pass that draws one and crashes on the other, and a second that times out on the
   first and draws the other, the good overlay of the first photo is gone and the delivery ends without raising.
   */
  lemma RetryCanLoseOverlay() returns (shots: seq<Capture>, first: Input, second: Input,
                                       middle: map<nat, Overlay>, after: map<nat, Overlay>)
    ensures |shots| == 2 && DistinctIds(shots)
    ensures Passed(map[], middle, shots, first, true) && Passed(middle, after, shots, second, false)
    ensures Drawn(middle, shots[0].id) && !Drawn(after, shots[0].id) && Drawn(after, shots[1].id)
  {
    var reply := PhotoReply("overlay", None, None, None, []);
    shots := [Capture(0, Some("a"), Identity()), Capture(1, Some("b"), Identity())];
    first := Input(Some(0.0), id => if id == 0 then Success(reply) else Failure(CrashFault), DEFAULT_THRESHOLD);
    second := Input(Some(0.0), id => if id == 0 then Failure(TimeoutFault) else Success(reply), DEFAULT_THRESHOLD);
    IdentityIsSane();
    DrawableIffTightFit(Some(0.0), Identity());
    hide Score, ExtrinsicsSane;
    assert DrawnBy(shots[0], first) && TurnOf(shots[1], first).Aborted?;
    assert TurnOf(shots[0], second).TransientFailure? && DrawnBy(shots[1], second);
    assert StopsAt(shots, first) == 1 && StopsAt(shots, second) == 2;
    middle := map[0 := OverlayAfter(TurnOf(shots[0], first))];
    after := map[0 := OverlayAfter(TurnOf(shots[0], second)), 1 := OverlayAfter(TurnOf(shots[1], second))];
    assert !TurnOf(shots[1], second).TransientFailure?;
    hide TurnOf;
  }
}
