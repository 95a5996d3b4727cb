/**
 One measurement run: the idempotency cache, the stage chain and the transactional persist
 (`MeasurementOrchestrator`).
 */
module MeasurementOrchestrator {
  import opened Wrappers
  import opened Rounding
  import opened PipelineTypes
  import opened MeasurementAssembler
  import opened Fingerprint
  import opened MeasurementSystem
  import opened SystemInvariants
  import opened JobRecord
  import opened VlmRunner

  /** One hour, in microseconds. */
  const IDEMPOTENCY_WINDOW := 3_600_000_000

  /** A sidecar call with the arguments that carry the data flow. */
  datatype Call =
    | CallResolve(address: string)
    | CallImagery(footprint: Polygon)
    | CallLidar(footprint: Polygon, parcel: Option<Polygon>)
    | CallRefine(tileRef: string, prior: Polygon)
    | CallFitPlanes(pointArrayRef: string, utmZone: int, outline: Polygon)
    | CallFallback(outline: Polygon, lon: real)

  class Sidecar {
    const script: Script
    var calls: seq<Call>

    constructor (script: Script)
      ensures this.script == script && calls == []
    {
      this.script := script;
      calls := [];
    }

    method Log(c: Call)
      modifies `calls
      ensures calls == old(calls) + [c]
    {
      calls := calls + [c];
    }
  }

  function Lift<T>(r: Result<T, Fault>): Outcome<T> {
    match r case Success(v) => Success(v) case Failure(f) => Failure(FromSidecar(f))
  }

  /** `pick_building_polygon`: an out-of-range selection falls back to the first footprint. */
  function PickPolygon(polygons: seq<Polygon>, selection: int): Polygon
    requires polygons != []
  {
    if 0 <= selection < |polygons| then polygons[selection] else polygons[0]
  }

  /** The latest row is recent and was built from the same inputs. */
  predicate CacheHit(rows: seq<Row>, now: int, fingerprint: string) {
    var latest := Snapshot(rows);
    && latest.Some? && latest.value.row.generatedAt >= now - IDEMPOTENCY_WINDOW
    && latest.value.row.fingerprint == Some(fingerprint)
  }

  // ----------------------------------------------- what a run amounts to

  function LidarStage(s: Script): LidarOutcome
    requires s.lidar.Success? || Absorbed(s.lidar.error)
  {
    match s.lidar case Success(v) => LidarOutcome(v, false) case Failure(f) => LidarStandIn(f)
  }

  function RefineStage(s: Script, footprint: Polygon): (Polygon, Option<string>, seq<string>)
    requires s.refine.Success? || Absorbed(s.refine.error)
  {
    match s.refine
    case Success(v) => (v.polygon, Some(v.backend), v.warnings)
    case Failure(f) => RefineStandIn(footprint, f)
  }

  /** What the geometry stage needs before it can call the sidecar. */
  predicate GeometryInputs(s: Script)
    requires s.resolve.Success? && (s.lidar.Success? || Absorbed(s.lidar.error))
  {
    var l := LidarStage(s).reply;
    if l.lidar.available then l.lidar.pointArrayRef.Some? && l.utmZone.Some? else s.resolve.value.geocode.lon.Some?
  }

  /** Every stage answers, or fails in a way the pipeline absorbs, and every broadcast on the way is delivered. */
  predicate Answers(s: Script) {
    && s.resolve.Success? && s.resolve.value.polygons != []
    && s.imagery.Success?
    && (s.lidar.Success? || Absorbed(s.lidar.error))
    && (s.refine.Success? || Absorbed(s.refine.error))
    && GeometryInputs(s) && s.geometry.Success? && s.geometry.value.facets != []
    && forall i :: 0 <= i < |PROGRESS| ==> PROGRESS[i] !in s.silenced
  }

  /** The run gets as far as committing a row. */
  predicate Completes(s: Script) { Answers(s) && s.documentValid && !s.insertRaises }

  const NO_FOOTPRINT := "No building footprint found for this address."
  const NO_FACETS :=
    "No roof facets could be measured for this address (the roof outline produced no usable surfaces)."
  const NO_PROJECTION :=
    "Could not determine a map projection for this location (no longitude from geocoding), " +
    "so the roof area can't be computed."

  /** The first thing to go wrong up to the imagery and the start of detection. */
  function EarlyProblem(s: Script): Option<Thrown> {
    if ResolvingAddress in s.silenced then Some(BroadcastDown)
    else if s.resolve.Failure? then Some(FromSidecar(s.resolve.error))
    else if s.resolve.value.polygons == [] then Some(Geometric(NO_FOOTPRINT))
    else if FetchingImagery in s.silenced then Some(BroadcastDown)
    else if s.imagery.Failure? then Some(FromSidecar(s.imagery.error))
    else if DetectingFeatures in s.silenced then Some(BroadcastDown)
    else None
  }

  /** The first thing to go wrong in the geometric stages that run beside the detector. */
  function GeometricProblem(s: Script): Option<Thrown>
    requires s.resolve.Success?
  {
    if FetchingLidar in s.silenced then Some(BroadcastDown)
    else if s.lidar.Failure? && !Absorbed(s.lidar.error) then Some(FromSidecar(s.lidar.error))
    else if RefiningOutline in s.silenced then Some(BroadcastDown)
    else if s.refine.Failure? && !Absorbed(s.refine.error) then Some(FromSidecar(s.refine.error))
    else if FittingPlanes in s.silenced then Some(BroadcastDown)
    else if !GeometryInputs(s)
    then Some(if LidarStage(s).reply.lidar.available then KeyMissing else Geometric(NO_PROJECTION))
    else if s.geometry.Failure? then Some(FromSidecar(s.geometry.error))
    else if s.geometry.value.facets == [] then Some(Geometric(NO_FACETS))
    else None
  }

  /** The first thing to go wrong before the row is committed, in program order. */
  function Problem(s: Script): Option<Thrown> {
    if EarlyProblem(s).Some? then EarlyProblem(s)
    else if GeometricProblem(s).Some? then GeometricProblem(s)
    else if !s.documentValid then Some(FromSidecar(SchemaFault))
    else if s.insertRaises then Some(StoreDown)
    else None
  }

  lemma CompletesIffNoProblem(s: Script)
    ensures Answers(s) <==> EarlyProblem(s).None? && GeometricProblem(s).None?
    ensures Completes(s) <==> Problem(s).None?
  {
    assert PROGRESS[0] == ResolvingAddress && PROGRESS[1] == FetchingImagery && PROGRESS[2] == DetectingFeatures
        && PROGRESS[3] == FetchingLidar && PROGRESS[4] == RefiningOutline && PROGRESS[5] == FittingPlanes;
  }

  function PartsOf(s: Script, selection: int): Parts
    requires Answers(s)
  {
    var footprint := PickPolygon(s.resolve.value.polygons, selection);
    var (outline, backend, refineWarnings) := RefineStage(s, footprint);
    var lidar := LidarStage(s);
    Parts(footprint, s.resolve.value, s.imagery.value, lidar, outline, backend, refineWarnings, s.geometry.value,
          VlmFeatures(s.vlm), (if lidar.reply.lidar.available then [] else [LidarNote(lidar)]) + VlmNote(s.vlm))
  }

  /**
   A completed run is honest about what it lacked. Without lidar the confidence is capped and a lidar warning kept;
   a failed refinement leaves the footprint as the outline, under its cause and with no refinement backend; a
   detection that failed or timed out contributes no features and a warning.
   */
  lemma CompletedRowIsHonest(s: Script, selection: int, fingerprint: string, now: int)
    requires Completes(s)
    ensures var r := AssembledRow(PartsOf(s, selection), fingerprint, now);
      HonestRow(r) && LidarLossShows(s, r) && OutlineLossShows(s, r) && DetectionLossShows(s, r)
  {
    LidarLossIsShown(s, selection, fingerprint, now);
    OutlineLossIsShown(s, selection, fingerprint, now);
    DetectionLossIsShown(s, selection, fingerprint, now);
    AssembledRowIsHonest(PartsOf(s, selection), fingerprint, now);
    hide HonestRow, LidarLossShows, OutlineLossShows, DetectionLossShows, AssembledRow;
  }

  /** A failed lidar call: imagery, capped, under its cause. */
  ghost predicate LidarLossShows(s: Script, r: Row) {
    s.lidar.Failure? ==>
      && r.source.Imagery? && r.confidence <= 0.6 && r.lidar == Some(Lidar(false, "LIDAR_MISSING", None))
      && (s.lidar.error.TimeoutFault? ==> ("lidar_unavailable: " + "SidecarClient::TimeoutError") in r.warnings)
      && (s.lidar.error.SidecarFault? ==> ("lidar_unavailable: " + s.lidar.error.className) in r.warnings)
  }

  /** A failed refinement: the footprint for an outline, no backend, and its cause. */
  ghost predicate OutlineLossShows(s: Script, r: Row) {
    s.refine.Failure? ==>
      && r.roofOutline == r.footprint && "sam2_backend" !in r.provenance
      && (s.refine.error.TimeoutFault? ==> ("outline_unrefined: " + "SidecarClient::TimeoutError") in r.warnings)
      && (s.refine.error.SidecarFault? ==> ("outline_unrefined: " + s.refine.error.className) in r.warnings)
  }

  /** A detection that raised, hung, or ended more than a minute after the geometry: no features, and a warning. */
  ghost predicate DetectionLossShows(s: Script, r: Row) {
    s.vlm.detection.DetectorRaised? || s.vlm.runsFor.None? || s.vlm.runsFor.value > s.vlm.foreground + 60 ==>
      r.features == [] && exists w :: w in r.warnings && "vlm_failed: " <= w
  }

  lemma LidarLossIsShown(s: Script, selection: int, fingerprint: string, now: int)
    requires Completes(s)
    ensures LidarLossShows(s, AssembledRow(PartsOf(s, selection), fingerprint, now))
  {
    var p := PartsOf(s, selection);
    AssembledRowIsHonest(p, fingerprint, now);
    hide OverallConfidence, PickPolygon, RefineStage, BuildProvenance, VlmFeatures, VlmNote;
    if s.lidar.Failure? {
      assert p.accumulated[0] == "lidar_unavailable: " + FaultName(s.lidar.error);
    }
  }

  lemma OutlineLossIsShown(s: Script, selection: int, fingerprint: string, now: int)
    requires Completes(s)
    ensures OutlineLossShows(s, AssembledRow(PartsOf(s, selection), fingerprint, now))
  {
    var p := PartsOf(s, selection);
    hide OverallConfidence, PickPolygon, LidarStage, VlmFeatures, VlmNote, LidarNote;
    if s.refine.Failure? {
      assert p.refineWarnings[0] == "outline_unrefined: " + FaultName(s.refine.error);
      assert |"pipeline_schema_version"| == 23 && |"detector"| == 8 && |"geometry_source"| == 15
          && |"sam2_backend"| == 12;
    }
  }

  lemma DetectionLossIsShown(s: Script, selection: int, fingerprint: string, now: int)
    requires Completes(s)
    ensures DetectionLossShows(s, AssembledRow(PartsOf(s, selection), fingerprint, now))
  {
    var p := PartsOf(s, selection);
    hide OverallConfidence, PickPolygon, LidarStage, RefineStage, BuildProvenance, LidarNote;
    if s.vlm.detection.DetectorRaised? || !InTime(s.vlm) {
      var note := VlmNote(s.vlm)[0];
      assert p.accumulated[|p.accumulated| - 1] == note;
      assert p.features == [];
      assert note in AssembledRow(p, fingerprint, now).warnings;
      assert "vlm_failed: " <= note;
    }
  }

  /**
   A completed run puts each stage's answer in its own column: the selected footprint (or the first, when the
   selection is out of range), the refined outline, the measured facets, the features detected in time, and every
   stage's warnings.
   */
  lemma CompletedRowCarriesStages(s: Script, selection: int, fingerprint: string, now: int)
    requires Completes(s)
    ensures var r, polygons := AssembledRow(PartsOf(s, selection), fingerprint, now), s.resolve.value.polygons;
      && r.generatedAt == now && r.fingerprint == Some(fingerprint)
      && (if 0 <= selection < |polygons| then r.footprint == polygons[selection] else r.footprint == polygons[0])
      && (s.refine.Success? ==>
            r.roofOutline == s.refine.value.polygon && r.provenance["sam2_backend"] == Text(s.refine.value.backend)
            && forall w :: w in s.refine.value.warnings ==> w in r.warnings)
      && (s.lidar.Success? ==>
            r.lidar == Some(s.lidar.value.lidar) && (r.source.Fusion? <==> s.lidar.value.lidar.available))
      && (s.lidar.Success? && !s.lidar.value.lidar.available ==>
            exists reason :: (reason == s.lidar.value.lidar.status || reason in s.lidar.value.warnings)
              && ("lidar_missing: " + reason) in r.warnings)
      && r.facets == s.geometry.value.facets && r.totalAreaSqFt == s.geometry.value.totalAreaSqFt
      && r.pitchRatio == s.geometry.value.pitchRatio && r.site.perimeterFt == s.geometry.value.perimeterFt
      && r.provenance["geometry_source"] == Text(s.geometry.value.source)
      && r.provenance["pipeline_schema_version"] == Text("1") && r.provenance["detector"] == Text("openrouter")
      && (s.vlm.detection.Detected? && s.vlm.runsFor.Some? && s.vlm.runsFor.value <= s.vlm.foreground + 60 ==>
            r.features == s.vlm.detection.features)
      && (forall w :: w in s.imagery.value.warnings || w in s.geometry.value.warnings ==> w in r.warnings)
      && r.site.geocode == s.resolve.value.geocode && r.site.parcel == s.resolve.value.parcel
  {
    var p := PartsOf(s, selection);
    assert s.refine.Success? ==> p.refineWarnings == s.refine.value.warnings;
    if s.lidar.Success? && !s.lidar.value.lidar.available {
      var l := s.lidar.value;
      assert p.accumulated[0] == LidarNote(p.lidar);
      var reason := if l.warnings == [] then l.lidar.status else l.warnings[0];
      assert ("lidar_missing: " + reason) in p.accumulated;
    }
  }

  /** The row's confidence is the product of the geocoding and geometry confidences there are, capped without lidar. */
  lemma CompletedRowConfidence(s: Script, selection: int, fingerprint: string, now: int)
    requires Completes(s)
    requires var c := s.resolve.value.geocode.confidence; c.Some? ==> 0.0 <= c.value <= 1.0
    requires var c := s.geometry.value.confidence; c.Some? ==> 0.0 <= c.value <= 1.0
    ensures var r := AssembledRow(PartsOf(s, selection), fingerprint, now);
      var geocode, geometry := s.resolve.value.geocode.confidence, s.geometry.value.confidence;
      var product :=
        if geocode.Some? && geometry.Some? then geocode.value * geometry.value
        else if geocode.Some? then geocode.value else if geometry.Some? then geometry.value else 1.0;
      var kept := if (s.lidar.Success? && s.lidar.value.lidar.available) || product <= 0.6 then product else 0.6;
      kept - 0.00005 < r.confidence <= kept + 0.00005
  {
    var geocode, geometry := s.resolve.value.geocode.confidence, s.geometry.value.confidence;
    assert geocode.Some? && geometry.Some? ==> Times(geocode.value, geometry.value) == geocode.value * geometry.value;
    assert geocode.Some? && geometry.None? ==> Times(geocode.value, 1.0) == geocode.value;
    assert geocode.None? && geometry.Some? ==> Times(1.0, geometry.value) == geometry.value;
    assert Times(1.0, 1.0) == 1.0;
    hide Times, OverallConfidence, InTime, PickPolygon, BuildProvenance, Uniq, LidarNote, VlmFeatures, VlmNote;
    ConfidenceNearProduct(geocode, geometry, s.lidar.Success? && s.lidar.value.lidar.available);
  }

  /** The calls of the geometric stages, with their arguments. */
  function GeometricCalls(l: LidarReply, footprint: Polygon, resolve: ResolveReply, tileRef: string,
      outline: Polygon): seq<Call>
    requires if l.lidar.available then l.lidar.pointArrayRef.Some? && l.utmZone.Some? else resolve.geocode.lon.Some?
  {
    [CallLidar(footprint, resolve.parcel), CallRefine(tileRef, footprint),
     if l.lidar.available then CallFitPlanes(l.lidar.pointArrayRef.value, l.utmZone.value, outline)
     else CallFallback(outline, resolve.geocode.lon.value)]
  }

  /** The sidecar calls of a completed run, with their arguments. */
  function CallsOf(s: Script, address: string, selection: int): seq<Call>
    requires Answers(s)
  {
    var p := PartsOf(s, selection);
    [CallResolve(address), CallImagery(p.footprint)]
    + GeometricCalls(p.lidar.reply, p.footprint, p.resolve, p.imagery.tileRef, p.outline)
  }

  /** The values the stages hand over are the parts of the run, and the calls made are its calls. */
  lemma PartsCollected(p: Parts, s: Script, address: string, selection: int, before: seq<Call>)
    requires Answers(s)
    requires var t := PartsOf(s, selection);
      p == t.(accumulated := p.accumulated)
      && p.accumulated == [] + (if p.lidar.reply.lidar.available then [] else [LidarNote(p.lidar)]) + VlmNote(s.vlm)
    ensures p == PartsOf(s, selection) && LidarNoted(p)
    ensures before + [CallResolve(address), CallImagery(p.footprint)]
              + GeometricCalls(p.lidar.reply, p.footprint, p.resolve, p.imagery.tileRef, p.outline)
            == before + CallsOf(s, address, selection)
  {
    hide VlmNote, LidarNote, PickPolygon, GeometricCalls;
    if !p.lidar.reply.lidar.available {
      assert p.accumulated[0] == LidarNote(p.lidar);
    }
  }

  /** The `rescue` clauses of `call`: the errors that end the job, and what each notes. The rest are re-raised. */
  function Rescued(e: Thrown): Option<Note> {
    match e
    case FromSidecar(SchemaFault) => Some(ContractViolation)
    case Geometric(message) => Some(GeometricFailure(message))
    case FromSidecar(TimeoutFault) => Some(StageTimedOut)
    case FromSidecar(SidecarFault(_)) => Some(StageFailed)
    case _ => None
  }

  /** The failures the pipeline expects, each with what the job is left to say about it. */
  ghost predicate Expected(e: Thrown, note: Note) {
    || (e == FromSidecar(SchemaFault) && note == ContractViolation)
    || (e == FromSidecar(TimeoutFault) && note == StageTimedOut)
    || (e.FromSidecar? && e.fault.SidecarFault? && note == StageFailed)
    || (e.Geometric? && note == GeometricFailure(e.message))
  }

  /** Anything else: a crash, a missing key, a lost broadcast, a failing store, or what only a later step can raise. */
  ghost predicate Unexpected(e: Thrown) {
    || e == FromSidecar(CrashFault) || e == KeyMissing || e == BroadcastDown || e == StoreDown
    || e == ReportDown || e == TerminalGuard
  }

  /** The rescue clauses end the job for the expected failures, each under its own note, and for no other. */
  lemma RescuedIffExpected(e: Thrown)
    ensures forall note :: Rescued(e) == Some(note) <==> Expected(e, note)
    ensures Rescued(e).None? <==> Unexpected(e)
  {
  }

  lemma ExpectedOrNot(e: Thrown) returns (note: Option<Note>)
    ensures note.Some? ==> Expected(e, note.value) && !Unexpected(e)
    ensures note.None? ==> Unexpected(e) && forall n :: !Expected(e, n)
    ensures forall n :: Expected(e, n) ==> note == Some(n)
    ensures note == Rescued(e)
  {
    note := Rescued(e);
  }

  /** What a run writes before its first stage: a reset when it re-opens a terminal job. */
  function Reset(status: Status): seq<Status> { if Terminal(status) then [Pending] else [] }

  class MeasurementOrchestrator {
    const job: Job
    const sidecar: Sidecar
    const vlm: VlmRunner
    const hash: string -> string
    /** The clock reading of the cache lookup. */
    const lookupAt: int
    /** How long the run takes up to its final clock reading. */
    const elapsed: nat

    constructor (job: Job, sidecar: Sidecar, hash: string -> string, lookupAt: int, elapsed: nat)
      ensures this.job == job && this.sidecar == sidecar && this.hash == hash && this.lookupAt == lookupAt
          && this.elapsed == elapsed
      ensures fresh(vlm) && vlm.Unused() && vlm.Quiet()
    {
      this.job, this.sidecar, this.hash, this.lookupAt := job, sidecar, hash, lookupAt;
      this.elapsed := elapsed;
      vlm := new VlmRunner();
    }

    function Fingerprint(): string { FingerprintOf(hash, Inputs(job.address, job.selection)) }

    function Signal(s: Status): Broadcast { if s in sidecar.script.silenced then Lost else Delivered }

    /** The execution has written, after `base`, exactly the first `stages` progress statuses. */
    ghost predicate Running(base: seq<Status>, stages: nat)
      requires stages <= |PROGRESS|
      reads job
    {
      job.Valid() && job.geo == GeoRunning(stages) && !Terminal(job.status) && job.written == base + PROGRESS[..stages]
    }

    /** How many progress statuses the current execution has written. */
    ghost function StagesDone(): nat
      reads job
    {
      if job.geo.GeoRunning? && job.geo.done <= |PROGRESS| then job.geo.done else |PROGRESS|
    }

    /** A hit is returned as is; a job that is not terminal is moved to ready with it. */
    method CachedMeasurement() returns (r: Outcome<Option<Row>>)
      requires job.Valid() && job.geo.GeoIdle?
      modifies job`status, job`written, job`run
      ensures job.Valid()
      ensures !CacheHit(job.rows, lookupAt, Fingerprint()) ==>
        r == Success(None) && job.status == old(job.status) && job.written == old(job.written)
      ensures CacheHit(job.rows, lookupAt, Fingerprint()) ==>
        && job.status == (if Terminal(old(job.status)) then old(job.status) else Ready)
        && job.written == old(job.written) + (if Terminal(old(job.status)) then [] else [Ready])
        && r == if !Terminal(old(job.status)) && Ready in sidecar.script.silenced then Failure(BroadcastDown)
                else Success(Some(Snapshot(job.rows).value.row))
    {
      hide Inv, IsRun, LatestIndex;
      var recent := job.LatestMeasurement();
      if recent.None? || recent.value.row.generatedAt < lookupAt - IDEMPOTENCY_WINDOW
         || recent.value.row.fingerprint != Some(Fingerprint()) {
        return Success(None);
      }
      if !job.status.Ready? && !Terminal(job.status) {
        ghost var before := job.State();
        var sent := job.AdvanceTo(Ready, Signal(Ready));
        assert GeoCacheHit(before, job.State());
        job.Took(before);
        if sent.Failure? {
          return Failure(sent.error);
        }
      }
      r := Success(Some(recent.value.row));
    }

    /** Sets the next progress status. The terminal guard cannot fire here. */
    method Advance(s: Status, ghost base: seq<Status>, ghost stages: nat) returns (r: Outcome<()>)
      requires stages < |PROGRESS| && Running(base, stages) && s == PROGRESS[stages]
      modifies job`status, job`written, job`geo, job`run
      ensures Running(base, stages + 1)
      ensures r == Sent(Signal(s))
    {
      hide Inv, IsRun;
      ghost var before := job.State();
      r := job.AdvanceTo(s, Signal(s));
      job.geo := GeoRunning(stages + 1);
      assert GeoAdvance(before, job.State());
      job.Took(before);
    }

    method ResolveAddressStage(ghost base: seq<Status>) returns (r: Outcome<ResolveReply>)
      requires Running(base, 0)
      modifies job`status, job`written, job`geo, job`run, sidecar`calls
      ensures Running(base, 1)
      ensures r == if Signal(ResolvingAddress).Lost? then Failure(BroadcastDown) else Lift(sidecar.script.resolve)
      ensures sidecar.calls == old(sidecar.calls)
        + if Signal(ResolvingAddress).Lost? then [] else [CallResolve(job.address)]
    {
      var _ :- Advance(ResolvingAddress, base, 0);
      sidecar.Log(CallResolve(job.address));
      r := Lift(sidecar.script.resolve);
    }

    method ImageryStage(footprint: Polygon, ghost base: seq<Status>) returns (r: Outcome<ImageryReply>)
      requires Running(base, 1)
      modifies job`status, job`written, job`geo, job`run, sidecar`calls
      ensures Running(base, 2)
      ensures r == if Signal(FetchingImagery).Lost? then Failure(BroadcastDown) else Lift(sidecar.script.imagery)
      ensures sidecar.calls == old(sidecar.calls)
        + if Signal(FetchingImagery).Lost? then [] else [CallImagery(footprint)]
    {
      var _ :- Advance(FetchingImagery, base, 1);
      sidecar.Log(CallImagery(footprint));
      r := Lift(sidecar.script.imagery);
    }

    /** A transport failure degrades to the LIDAR_MISSING stand-in; a contract violation does not. */
    method IngestLidarStage(footprint: Polygon, parcel: Option<Polygon>, ghost base: seq<Status>)
      returns (r: Outcome<LidarOutcome>)
      requires Running(base, 3)
      modifies job`status, job`written, job`geo, job`run, sidecar`calls
      ensures Running(base, 4)
      ensures r == if Signal(FetchingLidar).Lost? then Failure(BroadcastDown)
                   else if sidecar.script.lidar.Failure? && !Absorbed(sidecar.script.lidar.error)
                   then Failure(FromSidecar(sidecar.script.lidar.error))
                   else Success(LidarStage(sidecar.script))
      ensures sidecar.calls == old(sidecar.calls)
        + if Signal(FetchingLidar).Lost? then [] else [CallLidar(footprint, parcel)]
    {
      var _ :- Advance(FetchingLidar, base, 3);
      sidecar.Log(CallLidar(footprint, parcel));
      match sidecar.script.lidar
      case Success(reply) => r := Success(LidarOutcome(reply, false));
      case Failure(f) =>
        r := if f.TimeoutFault? || f.SidecarFault? then Success(LidarStandIn(f)) else Failure(FromSidecar(f));
    }

    /** A refinement outage keeps the footprint; a contract violation does not. */
    method RefineOutlineStage(tileRef: string, footprint: Polygon, ghost base: seq<Status>)
      returns (r: Outcome<(Polygon, Option<string>, seq<string>)>)
      requires Running(base, 4)
      modifies job`status, job`written, job`geo, job`run, sidecar`calls
      ensures Running(base, 5)
      ensures r == if Signal(RefiningOutline).Lost? then Failure(BroadcastDown)
                   else if sidecar.script.refine.Failure? && !Absorbed(sidecar.script.refine.error)
                   then Failure(FromSidecar(sidecar.script.refine.error))
                   else Success(RefineStage(sidecar.script, footprint))
      ensures sidecar.calls == old(sidecar.calls)
        + if Signal(RefiningOutline).Lost? then [] else [CallRefine(tileRef, footprint)]
    {
      var _ :- Advance(RefiningOutline, base, 4);
      sidecar.Log(CallRefine(tileRef, footprint));
      match sidecar.script.refine
      case Success(reply) => r := Success((reply.polygon, Some(reply.backend), reply.warnings));
      case Failure(f) =>
        r := if f.TimeoutFault? || f.SidecarFault? then Success(RefineStandIn(footprint, f))
          else Failure(FromSidecar(f));
    }

    /** Plane fitting when there is a point cloud, the imagery fallback (and its warning) when there is none. */
    method GeometryStage(lidar: LidarOutcome, outline: Polygon, lon: Option<real>, ghost base: seq<Status>)
      returns (r: Outcome<GeometryReply>)
      requires Running(base, 5)
      modifies job`status, job`written, job`geo, job`run, sidecar`calls, vlm`warnings
      ensures Running(base, 6)
      ensures vlm.warnings == old(vlm.warnings) + if lidar.reply.lidar.available then [] else [LidarNote(lidar)]
      ensures var l := lidar.reply;
        r == if Signal(FittingPlanes).Lost? then Failure(BroadcastDown)
             else if l.lidar.available && (l.lidar.pointArrayRef.None? || l.utmZone.None?) then Failure(KeyMissing)
             else if !l.lidar.available && lon.None? then Failure(Geometric(NO_PROJECTION))
             else if sidecar.script.geometry.Success? && sidecar.script.geometry.value.facets == []
             then Failure(Geometric(NO_FACETS))
             else Lift(sidecar.script.geometry)
      ensures var l := lidar.reply;
        sidecar.calls == old(sidecar.calls) +
          if Signal(FittingPlanes).Lost? then []
          else if l.lidar.available then
            (if l.lidar.pointArrayRef.None? || l.utmZone.None? then []
             else [CallFitPlanes(l.lidar.pointArrayRef.value, l.utmZone.value, outline)])
          else if lon.None? then [] else [CallFallback(outline, lon.value)]
    {
      var l := lidar.reply;
      if l.lidar.available {
        var _ :- Advance(FittingPlanes, base, 5);
        if l.lidar.pointArrayRef.None? || l.utmZone.None? {
          return Failure(KeyMissing);
        }
        sidecar.Log(CallFitPlanes(l.lidar.pointArrayRef.value, l.utmZone.value, outline));
      } else {
        vlm.AddWarning(LidarNote(lidar));
        var _ :- Advance(FittingPlanes, base, 5);
        if lon.None? {
          return Failure(Geometric(NO_PROJECTION));
        }
        sidecar.Log(CallFallback(outline, lon.value));
      }
      r := Lift(sidecar.script.geometry);
      if r.Success? && r.value.facets == [] {
        r := Failure(Geometric(NO_FACETS));
      }
    }

    /** Reads the clock for `generated_at` and builds the row. */
    method Stamp(p: Parts, ghost base: seq<Status>) returns (row: Row)
      requires Running(base, 6) && LidarNoted(p)
      modifies job`geo, job`run, job`now
      ensures job.Valid() && job.geo == GeoStamped(row) && job.now > old(job.now)
      ensures row == AssembledRow(p, Fingerprint(), job.now)
    {
      hide AssembledRow, HonestRow, LidarNoted, Fingerprint, Inv, IsRun;
      ghost var before := job.State();
      var now := job.Tick(elapsed);
      row := AssembledRow(p, Fingerprint(), now);
      AssembledRowIsHonest(p, Fingerprint(), now);
      job.geo := GeoStamped(row);
      assert GeoStamp(before, job.State());
      job.Took(before);
    }

    /** The transaction: insert and ready status together. */
    method Commit(row: Row)
      requires job.Valid() && job.geo == GeoStamped(row)
      modifies job`status, job`written, job`geo, job`run, job`rows
      ensures job.Valid() && job.geo.GeoMinting? && job.status == Ready && job.written == old(job.written) + [Ready]
      ensures job.rows == old(job.rows) + [row]
    {
      ghost var before := job.State();
      job.rows := job.rows + [row];
      var _ := job.AdvanceTo(Ready, Deferred);
      job.geo := GeoMinting;
      assert GeoCommit(before, job.State());
      job.Took(before);
    }

    /**
     `ensure_report_for`, after the commit. It raises when another call's report comes between its lookup and its
     validation, in which case there is a report, and when the store fails, in which case there is none but an earlier
     one.
     */
    method Mint() returns (r: Outcome<()>)
      requires job.Valid() && job.geo.GeoMinting?
      modifies job`report, job`geo, job`run
      ensures job.Valid() && job.geo.GeoIdle?
      ensures job.report == (old(job.report) || !sidecar.script.mint.MintFailed?)
      ensures r == if sidecar.script.mint.Minted? then Success(()) else Failure(ReportDown)
    {
      hide Inv, IsRun;
      ghost var before := job.State();
      match sidecar.script.mint {
        case Minted =>
          job.report := true;
          job.geo := GeoIdle;
          assert GeoMint(before, job.State());
          job.Took(before);
          r := Success(());
        case Overtaken =>
          job.report := true;
          assert ReportOpened(before, job.State());
          job.Took(before);
          before := job.State();
          job.geo := GeoIdle;
          assert GeoMintRaises(before, job.State());
          job.Took(before);
          r := Failure(ReportDown);
        case MintFailed =>
          job.geo := GeoIdle;
          assert GeoMintRaises(before, job.State());
          job.Took(before);
          r := Failure(ReportDown);
      }
    }

    /**
     The assembled document is validated, then row and ready status commit together; minting the report and the
     broadcast follow, and may raise.
     */
    method AssembleAndPersist(p: Parts, ghost base: seq<Status>) returns (r: Outcome<Row>)
      requires Running(base, 6) && LidarNoted(p)
      modifies job`status, job`written, job`geo, job`run, job`rows, job`now, job`report
      ensures job.Valid() && job.now >= old(job.now)
      ensures var s := sidecar.script; !s.documentValid || s.insertRaises ==>
        && r == Failure(if !s.documentValid then FromSidecar(SchemaFault) else StoreDown)
        && Working(job.geo) && StagesDone() == 6 && job.report == old(job.report)
        && job.rows == old(job.rows) && !Terminal(job.status) && job.written == base + PROGRESS
      ensures var s := sidecar.script; s.documentValid && !s.insertRaises ==>
        && job.now > old(job.now) && job.geo.GeoIdle? && job.status == Ready && job.written == base + PROGRESS + [Ready]
        && job.report == (old(job.report) || !s.mint.MintFailed?)
        && job.rows == old(job.rows) + [AssembledRow(p, Fingerprint(), job.now)]
        && r == AfterCommit(AssembledRow(p, Fingerprint(), job.now))
    {
      hide AssembledRow, LidarNoted, Inv, IsRun;
      if !sidecar.script.documentValid {
        return Failure(FromSidecar(SchemaFault));
      }
      var row := Stamp(p, base);
      if sidecar.script.insertRaises {
        return Failure(StoreDown);
      }
      Commit(row);
      var _ :- Mint();
      var sent := Sent(Signal(Ready));
      r := if sent.Failure? then Failure(sent.error) else Success(row);
    }

    /** What `persist` does once the row is safely committed. */
    function AfterCommit(row: Row): Outcome<Row> {
      if !sidecar.script.mint.Minted? then Failure(ReportDown)
      else if Ready in sidecar.script.silenced then Failure(BroadcastDown)
      else Success(row)
    }

    /** A cache miss re-opens a terminal job. */
    method Begin() returns (ghost base: seq<Status>)
      requires job.Valid() && job.geo.GeoIdle?
      modifies job`status, job`written, job`geo, job`run
      ensures Running(base, 0) && base == old(job.written) + Reset(old(job.status))
    {
      ghost var before := job.State();
      if Terminal(job.status) {
        job.ResetForRerun();
      }
      base := job.written;
      job.geo := GeoRunning(0);
      assert GeoBegin(before, job.State());
      job.Took(before);
    }

    /** Up to the rendered tile and the footprint picked, with the detector started. */
    method ImageryPhase(ghost base: seq<Status>) returns (r: Outcome<(ResolveReply, Polygon, ImageryReply)>)
      requires Running(base, 0) && vlm.Valid() && vlm.thread.None?
      modifies job`status, job`written, job`geo, job`run, sidecar`calls, vlm`thread, vlm`spawned
      ensures job.geo.GeoRunning? && job.geo.done <= 3 && Running(base, job.geo.done) && vlm.Valid()
      ensures var s := sidecar.script; EarlyProblem(s).Some? ==> r == Failure(EarlyProblem(s).value)
      ensures var s := sidecar.script; EarlyProblem(s).None? ==>
        && var footprint := PickPolygon(s.resolve.value.polygons, job.selection);
        && s.resolve.Success? && r == Success((s.resolve.value, footprint, s.imagery.value)) && job.geo.done == 3
        && sidecar.calls == old(sidecar.calls) + [CallResolve(job.address), CallImagery(footprint)]
        && vlm.thread.Some? && Started(vlm.thread.value, s.vlm, vlm.clock)
    {
      hide Job.Valid;
      var resolve :- ResolveAddressStage(base);
      if resolve.polygons == [] {
        return Failure(Geometric(NO_FOOTPRINT));
      }
      var footprint := PickPolygon(resolve.polygons, job.selection);
      var imagery :- ImageryStage(footprint, base);
      var _ :- Advance(DetectingFeatures, base, 2);
      vlm.Start(sidecar.script.vlm);
      r := Success((resolve, footprint, imagery));
    }

    /** Lidar, outline and planes, all in the foreground of the running detector. */
    method GeometricPhase(resolve: ResolveReply, footprint: Polygon, tileRef: string, ghost base: seq<Status>)
      returns (r: Outcome<(LidarOutcome, (Polygon, Option<string>, seq<string>), GeometryReply)>)
      requires Running(base, 3) && sidecar.script.resolve == Success(resolve) && vlm.Valid()
      modifies job`status, job`written, job`geo, job`run, sidecar`calls, vlm`warnings, vlm`clock
      ensures vlm.Valid() && vlm.clock == old(vlm.clock) + sidecar.script.vlm.foreground
      ensures job.geo.GeoRunning? && job.geo.done <= 6 && Running(base, job.geo.done)
      ensures var s := sidecar.script; GeometricProblem(s).Some? ==> r == Failure(GeometricProblem(s).value)
      ensures var s := sidecar.script; GeometricProblem(s).None? ==>
        var lidar, refined := LidarStage(s), RefineStage(s, footprint);
        && r == Success((lidar, refined, s.geometry.value)) && StandInIfDegraded(lidar) && job.geo.done == 6
        && sidecar.calls == old(sidecar.calls) + GeometricCalls(lidar.reply, footprint, resolve, tileRef, refined.0)
        && vlm.warnings == old(vlm.warnings) + if lidar.reply.lidar.available then [] else [LidarNote(lidar)]
    {
      hide Job.Valid, LidarNote;
      vlm.Elapse(sidecar.script.vlm.foreground);
      var lidar :- IngestLidarStage(footprint, resolve.parcel, base);
      var refined :- RefineOutlineStage(tileRef, footprint, base);
      var geometry :- GeometryStage(lidar, refined.0, resolve.geocode.lon, base);
      r := Success((lidar, refined, geometry));
    }

    /** The row a completed run assembles. */
    function NewRow(): Row
      requires Completes(sidecar.script)
      reads job
    {
      AssembledRow(PartsOf(sidecar.script, job.selection), Fingerprint(), job.now)
    }

    /**
     One row more, ready, the statuses in order, the calls with their arguments, and the report as far as the mint
     got.
     */
    twostate predicate Committed()
      requires Completes(sidecar.script)
      reads job, sidecar
    {
      && job.now > old(job.now) && job.rows == old(job.rows) + [NewRow()]
      && job.status == Ready && job.geo.GeoIdle?
      && job.report == (old(job.report) || !sidecar.script.mint.MintFailed?)
      && job.written == old(job.written) + Reset(old(job.status)) + PROGRESS + [Ready]
      && sidecar.calls == old(sidecar.calls) + CallsOf(sidecar.script, job.address, job.selection)
    }

    /** One row and ready, or nothing but the statuses up to the stage that raised. */
    twostate predicate RanPipeline(new r: Outcome<Row>)
      reads job, sidecar
    {
      if Completes(sidecar.script) then Committed() && r == AfterCommit(NewRow())
      else
        && Working(job.geo) && r == Failure(Problem(sidecar.script).value)
        && job.rows == old(job.rows) && job.report == old(job.report) && !Terminal(job.status)
        && job.written == old(job.written) + Reset(old(job.status)) + PROGRESS[..StagesDone()]
    }

    method RunPipelineStages() returns (r: Outcome<Row>)
      requires job.Valid() && job.geo.GeoIdle?
      requires vlm.Unused()
      modifies job`status, job`written, job`geo, job`run, job`rows, job`now, job`report, sidecar`calls, vlm
      ensures job.Valid() && vlm.Valid()
      ensures RanPipeline(r)
    {
      hide AssembledRow, Job.Valid, Times, StandInIfDegraded, LidarNote, LidarNoted, VlmNote, VlmFeatures, Started,
           AfterCommit, EarlyProblem, GeometricProblem, GeometricCalls, PickPolygon, LidarStage, RefineStage, Answers;
      CompletesIffNoProblem(sidecar.script);
      ghost var base := Begin();
      var early :- ImageryPhase(base);
      var (resolve, footprint, imagery) := early;
      ghost var startedAt := vlm.clock;
      var stages :- GeometricPhase(resolve, footprint, imagery.tileRef, base);
      var (lidar, refined, geometry) := stages;
      var features := vlm.Join(sidecar.script.vlm, startedAt);
      var p := Parts(footprint, resolve, imagery, lidar, refined.0, refined.1, refined.2, geometry, features,
                     vlm.warnings);
      PartsCollected(p, sidecar.script, job.address, job.selection, old(sidecar.calls));
      hide PartsOf, CallsOf;
      r := AssembleAndPersist(p, base);
    }

    /** Every exit, normal or raising, leaves no detector thread held or running. */
    method RunPipeline() returns (r: Outcome<Row>)
      requires job.Valid() && job.geo.GeoIdle?
      requires vlm.Unused()
      modifies job`status, job`written, job`geo, job`run, job`rows, job`now, job`report, sidecar`calls, vlm
      ensures job.Valid() && vlm.Quiet()
      ensures RanPipeline(r)
    {
      hide Job.Valid;
      r := RunPipelineStages();
      hide RanPipeline;
      vlm.Cleanup();
    }

    /** A `rescue` clause: the job fails under its cause; nil is returned unless the broadcast is lost. */
    method Fail(note: Note) returns (r: Outcome<Option<Row>>)
      requires job.Valid() && Working(job.geo)
      modifies job`status, job`lastError, job`written, job`geo, job`run
      ensures job.Valid() && job.geo.GeoIdle?
      ensures job.status == Failed && job.lastError == note && job.written == old(job.written) + [Failed]
      ensures r == if Failed in sidecar.script.silenced then Failure(BroadcastDown) else Success(None)
    {
      hide Inv, IsRun;
      ghost var before := job.State();
      var sent := job.FailWith(note, Signal(Failed));
      job.geo := GeoIdle;
      assert GeoFail(before, job.State());
      job.Took(before);
      r := if sent.Failure? then Failure(sent.error) else Success(None);
    }

    /** A hit serves the latest row, moves a job that is not terminal to ready, and calls no stage. */
    twostate predicate Served(new r: Outcome<Option<Row>>)
      reads job, sidecar
    {
      && job.rows == old(job.rows) && job.rows != [] && job.report == old(job.report)
         && sidecar.calls == old(sidecar.calls) && job.geo.GeoIdle?
      && job.status == (if Terminal(old(job.status)) then old(job.status) else Ready)
      && job.written == old(job.written) + (if Terminal(old(job.status)) then [] else [Ready])
      && r == if !Terminal(old(job.status)) && Ready in sidecar.script.silenced then Failure(BroadcastDown)
              else Success(Some(Snapshot(job.rows).value.row))
    }

    /**
     A miss ends in exactly one of three ways: one new row and ready; failed with the cause noted and the history
     untouched; or the error re-raised with the job not terminal and the history untouched. The statuses written are
     the first `stages` progress statuses, then `ready` or `failed` or nothing, never one after the other.
     */
    twostate predicate Ran(new r: Outcome<Option<Row>>, stages: nat)
      reads job, sidecar
    {
      && stages <= |PROGRESS|
      && if Completes(sidecar.script) then RanToCommit(r) else StoppedShort(r, stages)
    }

    twostate predicate RanToCommit(new r: Outcome<Option<Row>>)
      requires Completes(sidecar.script)
      reads job, sidecar
    {
      && Committed()
      && r == if !sidecar.script.mint.Minted? then Failure(ReportDown)
              else if Ready in sidecar.script.silenced then Failure(BroadcastDown) else Success(Some(NewRow()))
    }

    twostate predicate StoppedShort(new r: Outcome<Option<Row>>, stages: nat)
      requires !Completes(sidecar.script) && stages <= |PROGRESS|
      reads job, sidecar
    {
      CompletesIffNoProblem(sidecar.script);
      && job.rows == old(job.rows) && job.report == old(job.report)
      && GaveUp(Problem(sidecar.script).value, r, old(job.written) + Reset(old(job.status)) + PROGRESS[..stages])
    }

    /** Failed under the note of an expected failure, or an unexpected one re-raised with the job still open. */
    ghost predicate GaveUp(e: Thrown, r: Outcome<Option<Row>>, progressed: seq<Status>)
      reads job
    {
      && (forall note :: Expected(e, note) ==>
            && job.status == Failed && job.lastError == note && job.geo.GeoIdle? && job.written == progressed + [Failed]
            && r == if Failed in sidecar.script.silenced then Failure(BroadcastDown) else Success(None))
      && (Unexpected(e) ==>
            && job.status !in {Ready, Failed} && Working(job.geo) && job.written == progressed && r == Failure(e))
    }

    lemma ReraisedIsGivenUp(e: Thrown)
      requires Rescued(e).None? && !Terminal(job.status) && Working(job.geo)
      ensures GaveUp(e, Failure(e), job.written)
    {
      var note := ExpectedOrNot(e);
      hide Expected, Unexpected, Rescued;
    }

    lemma AfterCommitIsUnexpected(row: Row)
      ensures AfterCommit(row).Failure? ==> Rescued(AfterCommit(row).error).None?
    {
    }

    /** An expected error ends the job under its note. */
    method GiveUp(e: Thrown) returns (r: Outcome<Option<Row>>)
      requires job.Valid() && Working(job.geo) && Rescued(e).Some?
      modifies job`status, job`lastError, job`written, job`geo, job`run
      ensures job.Valid() && GaveUp(e, r, old(job.written))
    {
      hide Job.Valid, Expected, Unexpected, Rescued;
      ghost var expected := ExpectedOrNot(e);
      r := Fail(Rescued(e).value);
    }

    /** The rescue clauses: an expected error ends the job under its note, any other is re-raised as it is. */
    method RunAndRescue() returns (r: Outcome<Option<Row>>, ghost stages: nat)
      requires job.Valid() && job.geo.GeoIdle?
      requires vlm.Unused()
      modifies job`status, job`lastError, job`written, job`geo, job`run, job`rows, job`now, job`report,
        sidecar`calls, vlm
      ensures job.Valid() && vlm.Quiet()
      ensures Ran(r, stages)
    {
      hide Job.Valid, AssembledRow, Problem, Completes, PartsOf, CallsOf, Rescued, Reset, Committed, NewRow, GaveUp;
      CompletesIffNoProblem(sidecar.script);
      var ran := RunPipeline();
      stages := StagesDone();
      if ran.Success? {
        return Success(Some(ran.value)), stages;
      }
      if Completes(sidecar.script) {
        AfterCommitIsUnexpected(NewRow());
      } else if Rescued(ran.error).None? {
        ReraisedIsGivenUp(ran.error);
      }
      if Rescued(ran.error).None? {
        return Failure(ran.error), stages;
      }
      r := GiveUp(ran.error);
    }

    method Call() returns (r: Outcome<Option<Row>>, ghost stages: nat)
      requires job.Valid() && job.geo.GeoIdle?
      requires vlm.Unused()
      modifies job`status, job`lastError, job`written, job`geo, job`run, job`rows, job`now, job`report,
        sidecar`calls, vlm
      ensures job.Valid() && vlm.Quiet()
      ensures if old(CacheHit(job.rows, lookupAt, Fingerprint())) then Served(r) else Ran(r, stages)
    {
      hide Job.Valid, AssembledRow, AfterCommit, Problem, Completes, PartsOf, CallsOf, Rescued, LatestIndex;
      stages := 0;
      var cached :- CachedMeasurement();
      if cached.Some? {
        return Success(cached), 0;
      }
      r, stages := RunAndRescue();
    }
  }
}
