/**
 The whole measurement machine as a transition system: one job row, its measurement history and its overlays,
 shared by a geometry execution, a fusion execution and any number of projection executions. Geometry executions
 of one job run one at a time, and so do its fusion executions; everything else interleaves freely. A row's
 `generated_at` is stamped in one step and the row committed in a later one. The clock is strictly increasing.
 */
module MeasurementSystem {
  import opened Wrappers
  import opened PipelineTypes
  import opened FusionRules
  import opened MeasurementAssembler

  /** The statuses a run sets before `ready`, in order. Detection starts before the lidar fetch. */
  const PROGRESS: seq<Status> :=
    [ResolvingAddress, FetchingImagery, DetectingFeatures, FetchingLidar, RefiningOutline, FittingPlanes]

  /**
   Where the geometry execution is: `done` of the progress statuses set, a row stamped but not committed, or a row
   committed and the report about to be minted.
   */
  datatype GeoPc = GeoIdle | GeoRunning(done: nat) | GeoStamped(row: Row) | GeoMinting

  /** The execution has not committed yet. */
  predicate Working(geo: GeoPc) { geo.GeoRunning? || geo.GeoStamped? }

  /** A row as loaded into memory, with its place in the history. */
  datatype Snap = Snap(index: nat, row: Row)

  datatype FusPc =
    | FusIdle
    | FusChecked
    | FusReady(prior: Option<Snap>)
    | FusStamped(base: Snap, reply: FuseReply, session: Session, row: Row)
    | FusWarning(target: Snap, message: string)
    | FusRescue

  /** Which row a fused row refined, and the response it was built from. */
  datatype Origin = Origin(prior: nat, reply: FuseReply)

  datatype System = System(
    w: World,
    geo: GeoPc,
    fus: FusPc,
    origins: map<nat, Origin>,
    now: int,
    threshold: real)

  function Snapshot(rows: seq<Row>): Option<Snap> {
    var i := LatestIndex(rows);
    if i.None? then None else Some(Snap(i.value, rows[i.value]))
  }

  predicate Fused(r: Row) { r.source.DeviceFused? }

  // ----------------------------------------------------------- geometry steps

  /** A cache miss: a terminal job is reset to pending, any other job keeps its status until the first stage. */
  predicate GeoBegin(s: System, s': System) {
    s.geo.GeoIdle?
    && s' == s.(geo := GeoRunning(0), w := s.w.(status := if Terminal(s.w.status) then Pending else s.w.status))
  }

  /** A cache hit leaves a terminal job alone and moves any other to ready. */
  predicate GeoCacheHit(s: System, s': System) {
    s.geo.GeoIdle? && s.w.rows != []
    && s' == s.(w := s.w.(status := if Terminal(s.w.status) then s.w.status else Ready))
  }

  predicate GeoAdvance(s: System, s': System) {
    s.geo.GeoRunning? && s.geo.done < |PROGRESS|
    && s' == s.(geo := GeoRunning(s.geo.done + 1), w := s.w.(status := PROGRESS[s.geo.done]))
  }

  predicate GeoStamp(s: System, s': System) {
    s.geo == GeoRunning(|PROGRESS|) && s'.geo.GeoStamped? && s.now < s'.now
    && HonestRow(s'.geo.row) && s'.geo.row.generatedAt == s'.now
    && s' == s.(geo := s'.geo, now := s'.now)
  }

  /** The row and the ready status commit together. */
  predicate GeoCommit(s: System, s': System) {
    s.geo.GeoStamped? && s' == s.(geo := GeoMinting, w := s.w.(status := Ready, rows := s.w.rows + [s.geo.row]))
  }

  predicate GeoFail(s: System, s': System) {
    Working(s.geo) && s' == s.(geo := GeoIdle, w := s.w.(status := Failed, lastError := s'.w.lastError))
  }

  /** A crashed attempt that is to be retried writes `last_error` and leaves the status where it was. */
  predicate GeoCrash(s: System, s': System) {
    Working(s.geo) && s' == s.(geo := GeoIdle, w := s.w.(lastError := s'.w.lastError))
  }

  /** The mint finds or creates the report. */
  predicate GeoMint(s: System, s': System) {
    s.geo.GeoMinting? && s' == s.(geo := GeoIdle, w := s.w.(report := true))
  }

  /** The mint raises: over another call's report, or because the store fails. */
  predicate GeoMintRaises(s: System, s': System) {
    s.geo.GeoMinting? && s' == s.(geo := GeoIdle)
  }

  predicate GeoNext(s: System, s': System) {
    || GeoBegin(s, s') || GeoCacheHit(s, s') || GeoAdvance(s, s') || GeoStamp(s, s')
    || GeoCommit(s, s') || GeoFail(s, s') || GeoCrash(s, s') || GeoMint(s, s') || GeoMintRaises(s, s')
  }

  // ------------------------------------------------------------- fusion steps

  /** `FusionJob`'s guard: a job whose latest row is already fused is left alone. */
  predicate FusGuard(s: System, s': System) {
    s.fus.FusIdle? && (var latest := Snapshot(s.w.rows); latest.Some? ==> !Fused(latest.value.row))
    && s' == s.(fus := FusChecked)
  }

  /** The orchestrator's own, later read of the latest row. */
  predicate FusReadPrior(s: System, s': System) {
    s.fus.FusChecked? && s' == s.(fus := FusReady(Snapshot(s.w.rows)))
  }

  /** Decides to append a warning: to the prior, or to whatever is latest now when there was no prior. */
  predicate FusDecideWarning(s: System, s': System) {
    s.fus.FusReady? && s'.fus.FusWarning?
    && (s.fus.prior.Some? ==> s'.fus.target == s.fus.prior.value)
    && (s.fus.prior.None? ==> Some(s'.fus.target) == Snapshot(s.w.rows))
    && s' == s.(fus := s'.fus)
  }

  /** A converged response: the fused row is built and stamped. */
  predicate FusStamp(s: System, s': System) {
    s.fus.FusReady? && s.fus.prior.Some? && LidarAvailable(s.fus.prior.value.row)
    && s'.fus.FusStamped? && s'.fus.base == s.fus.prior.value && s.now < s'.now
    && Converged(s'.fus.reply) && SchemaValid(s'.fus.reply)
    && s'.fus.row == FusedRow(s'.fus.base.row, s'.fus.reply, s'.fus.session, s'.now)
    && s' == s.(fus := s'.fus, now := s'.now)
  }

  /** The additive insert. What follows it may still raise. */
  predicate FusCommit(s: System, s': System) {
    s.fus.FusStamped? && (s'.fus.FusIdle? || s'.fus.FusRescue?)
    && s' == s.(fus := s'.fus,
                w := s.w.(rows := s.w.rows + [s.fus.row]),
                origins := s.origins[|s.w.rows| := Origin(s.fus.base.index, s.fus.reply)])
  }

  /** `append_failure_warning` writes the list it read, plus the message unless already there. */
  function Warned(rows: seq<Row>, target: Snap, message: string): seq<Row>
    requires target.index < |rows|
  {
    if message in target.row.warnings then rows
    else rows[target.index := rows[target.index].(warnings := target.row.warnings + [message])]
  }

  predicate FusWriteWarning(s: System, s': System) {
    s.fus.FusWarning? && s.fus.target.index < |s.w.rows| && (s'.fus.FusIdle? || s'.fus.FusRescue?)
    && s' == s.(fus := s'.fus, w := s.w.(rows := Warned(s.w.rows, s.fus.target, s.fus.message)))
  }

  /** Nothing to warn about (no row at all), or a raise before anything was written. */
  predicate FusAbandon(s: System, s': System) {
    !s.fus.FusIdle? && !s.fus.FusWarning? && (s'.fus.FusIdle? || s'.fus.FusRescue?) && s' == s.(fus := s'.fus)
  }

  /** The job's rescue: note the attempt, or on the last one warn on the latest row. */
  predicate FusNoteError(s: System, s': System) {
    s.fus.FusRescue? && s' == s.(fus := FusIdle, w := s.w.(lastError := s'.w.lastError))
  }

  predicate FusExhausted(s: System, s': System) {
    s.fus.FusRescue? && s'.fus.FusWarning? && Some(s'.fus.target) == Snapshot(s.w.rows) && s' == s.(fus := s'.fus)
  }

  predicate FusNext(s: System, s': System) {
    || FusGuard(s, s') || FusReadPrior(s, s') || FusDecideWarning(s, s') || FusStamp(s, s') || FusCommit(s, s')
    || FusWriteWarning(s, s') || FusAbandon(s, s') || FusNoteError(s, s') || FusExhausted(s, s')
  }

  // --------------------------------------------------------- projection steps

  /** An overlay is drawable with enough confidence, or flagged with nothing to draw. */
  predicate GoodOverlay(o: Overlay, threshold: real) {
    if o.lowPoseConfidence then
      o.compositeRef.None? && o.svgRef.None? && o.occluded == []
          && (o.poseConfidence.Some? ==> o.poseConfidence.value < threshold)
    else
      o.compositeRef.Some? && o.poseConfidence.Some? && threshold <= o.poseConfidence.value
  }

  /** The upsert of one capture's overlay. */
  predicate ProjUpsert(s: System, s': System, capture: nat, o: Overlay) {
    GoodOverlay(o, s.threshold) && s' == s.(w := s.w.(overlays := s.w.overlays[capture := o]))
  }

  predicate ProjNoteError(s: System, s': System) {
    s' == s.(w := s.w.(lastError := s'.w.lastError))
  }

  ghost predicate ProjNext(s: System, s': System) {
    ProjNoteError(s, s') || exists capture, o :: ProjUpsert(s, s', capture, o)
  }

  // --------------------------------------------------------- somebody's report

  /** The other call site mints too: a contractor opening the report of the job. */
  predicate ReportOpened(s: System, s': System) { s' == s.(w := s.w.(report := true)) }

  // ------------------------------------------------------------------- runs

  predicate Init(s: System) {
    s.w == World(Pending, NoNote, [], map[], false) && s.geo.GeoIdle? && s.fus.FusIdle? && s.origins == map[]
  }

  ghost predicate Next(s: System, s': System) {
    GeoNext(s, s') || FusNext(s, s') || ProjNext(s, s') || ReportOpened(s, s')
  }

  ghost predicate IsRun(run: seq<System>) {
    run != [] && Init(run[0]) && forall i :: 0 < i < |run| ==> Next(run[i - 1], run[i])
  }
}
