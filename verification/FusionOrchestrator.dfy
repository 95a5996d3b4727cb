/** One fusion attempt: the additive row on convergence, a warning on the prior otherwise (`FusionOrchestrator`). */
module FusionOrchestrator {
  import opened Wrappers
  import opened PipelineTypes
  import opened FusionRules
  import opened MeasurementAssembler
  import opened MeasurementSystem
  import opened SystemInvariants
  import opened JobRecord

  /** The states of the fusion status stream. */
  datatype Progress = Started | Unfused | Complete

  /**
   The environment of one attempt: the sidecar's answer, whether the insert or the enqueue raises, which broadcasts
   are lost.
   */
  datatype FusionScript = FusionScript(
    reply: Result<FuseReply, Fault>,
    insertRaises: bool,
    enqueueRaises: bool,
    lost: set<Progress>,
    elapsed: nat)

  /** How an attempt ends, up to the broadcasts around it. */
  datatype Ending = Skipped | NeverStarted | Outage | Crash | Diverged(rmse: Option<real>) | NotInserted | Added

  function EndingOf(prior: Option<Snap>, s: FusionScript): Ending {
    if prior.None? || !LidarAvailable(prior.value.row) then Skipped
    else if Started in s.lost then NeverStarted
    else if s.reply.Failure? then (if s.reply.error.CrashFault? then Crash else Outage)
    else if !Converged(s.reply.value) then Diverged(s.reply.value.icpRmse)
    else if s.insertRaises then NotInserted
    else Added
  }

  /** What the attempt raises, if anything. */
  function Raised(e: Ending, s: FusionScript): Option<Thrown> {
    match e
    case Skipped | Diverged(_) => if Unfused in s.lost then Some(BroadcastDown) else None
    case NeverStarted => Some(BroadcastDown)
    case Outage =>
      Some(if Unfused in s.lost then BroadcastDown
           else if s.reply.Failure? then FromSidecar(s.reply.error) else StoreDown)
    case Crash => Some(if s.reply.Failure? then FromSidecar(s.reply.error) else StoreDown)
    case NotInserted => Some(StoreDown)
    case Added => if Complete in s.lost then Some(BroadcastDown) else if s.enqueueRaises then Some(StoreDown) else None
  }

  /** The attempt goes through: a prior with lidar, a delivered start, a residual below 0.5 m, a working store. */
  ghost predicate GoesThrough(prior: Option<Snap>, s: FusionScript) {
    && prior.Some? && prior.value.row.lidar.Some? && prior.value.row.lidar.value.available
    && Started !in s.lost && s.reply.Success? && !s.insertRaises
    && s.reply.value.measurement.Some? && s.reply.value.icpRmse.Some? && s.reply.value.icpRmse.value < 0.5
  }

  lemma AddedIffGoesThrough(prior: Option<Snap>, s: FusionScript)
    ensures EndingOf(prior, s).Added? <==> GoesThrough(prior, s)
  {
  }

  function WarnedIfAny(rows: seq<Row>, target: Option<Snap>, message: string): seq<Row>
    requires target.Some? ==> target.value.index < |rows|
  {
    if target.None? then rows else Warned(rows, target.value, message)
  }

  /** The older history, with at most one row added, and no existing row changed but for longer warnings. */
  ghost predicate Extends(rows: seq<Row>, rows': seq<Row>) {
    |rows| <= |rows'| <= |rows| + 1 && Grown(rows, rows'[..|rows|])
  }

  lemma SameExtends(rows: seq<Row>)
    ensures Extends(rows, rows) && Grown(rows, rows)
  {
    assert rows[..|rows|] == rows;
  }

  lemma ExtendsThenGrown(rows: seq<Row>, rows': seq<Row>, rows'': seq<Row>)
    requires Extends(rows, rows') && Grown(rows', rows'')
    ensures Extends(rows, rows'')
  {
    forall i | 0 <= i < |rows| ensures OnlyWarningsGrew(rows[i], rows''[i]) {
      assert rows'[..|rows|][i] == rows'[i];
      assert OnlyWarningsGrew(rows'[i], rows''[i]);
    }
  }

  /** Which row is latest depends on the stamps alone. */
  lemma {:induction false} LatestFollowsStamps(rows: seq<Row>, rows': seq<Row>)
    requires |rows| == |rows'| && forall i :: 0 <= i < |rows| ==> rows[i].generatedAt == rows'[i].generatedAt
    ensures LatestIndex(rows) == LatestIndex(rows')
  {
    if rows == [] {
    } else {
      LatestFollowsStamps(rows[..|rows| - 1], rows'[..|rows| - 1]);
    }
  }

  lemma GrownKeepsLatest(rows: seq<Row>, rows': seq<Row>)
    requires Grown(rows, rows')
    ensures LatestIndex(rows) == LatestIndex(rows')
  {
    forall i | 0 <= i < |rows| ensures rows[i].generatedAt == rows'[i].generatedAt {
      assert OnlyWarningsGrew(rows[i], rows'[i]);
    }
    LatestFollowsStamps(rows, rows');
  }

  /** A row stamped after every other is the latest. */
  lemma NewestIsLatest(rows: seq<Row>, r: Row)
    requires forall i :: 0 <= i < |rows| ==> rows[i].generatedAt < r.generatedAt
    ensures LatestIndex(rows + [r]) == Some(|rows|)
  {
    assert (rows + [r])[|rows|] == r;
  }

  lemma WarnedGrows(rows: seq<Row>, target: Snap, message: string)
    requires InHistory(rows, target)
    ensures Grown(rows, Warned(rows, target, message))
  {
  }

  /** One append: the message is there, is there once, and nothing else about the history changes. */
  lemma WarnedOnce(rows: seq<Row>, target: Snap, message: string)
    requires InHistory(rows, target)
    ensures var rows' := Warned(rows, target, message);
      && Grown(rows, rows') && LatestIndex(rows') == LatestIndex(rows)
      && (forall i :: 0 <= i < |rows| && i != target.index ==> rows'[i] == rows[i])
      && rows'[target.index].warnings ==
           (if message in target.row.warnings then target.row.warnings else target.row.warnings + [message])
      && (Distinct(target.row.warnings) ==> Distinct(rows'[target.index].warnings))
  {
    WarnedGrows(rows, target, message);
    hide LatestIndex, Grown;
    GrownKeepsLatest(rows, Warned(rows, target, message));
  }

  /** Repeating it changes nothing. */
  lemma WarnedTwice(rows: seq<Row>, target: Snap, message: string)
    requires InHistory(rows, target)
    ensures var rows' := Warned(rows, target, message);
      Warned(rows', Snap(target.index, rows'[target.index]), message) == rows'
  {
    hide LatestIndex;
    if message !in target.row.warnings {
      var extended := target.row.warnings + [message];
      assert extended[|target.row.warnings|] == message;
    }
  }

  /** A snapshot taken earlier in the same execution is still the row it was. */
  lemma ReadyIsInHistory(s: System)
    requires Inv(s) && s.fus.FusReady? && s.fus.prior.Some?
    ensures InHistory(s.w.rows, s.fus.prior.value)
  {
  }

  lemma LatestIsInHistory(rows: seq<Row>)
    ensures Snapshot(rows).Some? ==> InHistory(rows, Snapshot(rows).value)
    ensures Snapshot(rows).None? <==> rows == []
  {
  }

  class FusionOrchestrator {
    const job: Job
    const session: Session
    const script: FusionScript
    /** How a residual is interpolated into a warning. */
    const show: Option<real> -> string
    var prior: Option<Snap>

    constructor (job: Job, session: Session, script: FusionScript, show: Option<real> -> string)
      ensures this.job == job && this.session == session && this.script == script && this.show == show
    {
      this.job, this.session, this.script, this.show, prior := job, session, script, show, None;
    }

    function WarningOf(e: Ending): Option<string> {
      match e
      case Skipped => Some("icp_skipped: lidar_unavailable")
      case Outage => Some("fusion_failed: sidecar_error")
      case Diverged(rmse) => Some("icp_alignment_failed: rmse=" + show(rmse) + "m")
      case _ => None
    }

    /** The history after an attempt that started from `rows` and stamps at `now`. */
    function Effect(rows: seq<Row>, now: int): seq<Row> {
      var latest := Snapshot(rows);
      var e := EndingOf(latest, script);
      if e.Added? then rows + [FusedRow(latest.value.row, script.reply.value, session, now)]
      else if WarningOf(e).Some? then WarnedIfAny(rows, latest, WarningOf(e).value)
      else rows
    }

    /** Leaves the execution, towards its end or the job's rescue, with nothing more written. */
    ghost method Leave(next: FusPc)
      requires job.Valid() && !job.fus.FusIdle? && !job.fus.FusWarning? && (next.FusIdle? || next.FusRescue?)
      modifies job`fus, job`run
      ensures job.Valid() && job.fus == next
    {
      hide Inv, IsRun;
      var before := job.State();
      job.fus := next;
      assert FusAbandon(before, job.State());
      job.Took(before);
    }

    /** The additive insert: one more row, everything else as it was. */
    method PersistFusedMeasurement(p: Snap, reply: FuseReply, ghost next: FusPc) returns (row: Row)
      requires job.Valid() && job.fus == FusReady(Some(p)) && LidarAvailable(p.row) && Converged(reply)
          && SchemaValid(reply)
      requires next.FusIdle? || next.FusRescue?
      modifies job`rows, job`fus, job`origins, job`run, job`now
      ensures job.Valid() && job.fus == next && job.now > old(job.now)
      ensures row == FusedRow(p.row, reply, session, job.now) && job.rows == old(job.rows) + [row]
      ensures row.generatedAt == job.now && row.source == DeviceFused && row.warnings == []
    {
      hide Inv, IsRun, FusedConfidence, FusedProvenance;
      ghost var before := job.State();
      var now := job.Tick(script.elapsed);
      row := FusedRow(p.row, reply, session, now);
      job.fus := FusStamped(p, reply, session, row);
      assert FusStamp(before, job.State());
      job.Took(before);
      before := job.State();
      job.origins := job.origins[|job.rows| := Origin(p.index, reply)];
      job.rows := job.rows + [row];
      job.fus := next;
      assert FusCommit(before, job.State());
      job.Took(before);
    }

    /** The job's status is out of reach here: the frame leaves it, its overlays and its error note alone. */
    method Call() returns (r: Outcome<Option<Row>>)
      requires job.Valid() && job.fus.FusChecked?
      requires script.reply.Success? ==> SchemaValid(script.reply.value)
      modifies this`prior, job`rows, job`fus, job`origins, job`run, job`now
      ensures job.Valid() && job.fus == (if r.Success? then FusIdle else FusRescue)
      ensures job.rows == Effect(old(job.rows), job.now)
      ensures var raised := Raised(EndingOf(old(Snapshot(job.rows)), script), script);
        if raised.Some? then r == Failure(raised.value) else r.Success?
      ensures |job.rows| == |old(job.rows)| + (if GoesThrough(old(Snapshot(job.rows)), script) then 1 else 0)
      ensures EndingOf(old(Snapshot(job.rows)), script).Added? ==> job.now > old(job.now)
    {
      hide Inv, IsRun, Job.Valid, LatestIndex, FusedRow, Converged, SchemaValid;
      ghost var e := EndingOf(Snapshot(job.rows), script);
      AddedIffGoesThrough(Snapshot(job.rows), script);
      hide GoesThrough;
      ghost var next := if Raised(e, script).Some? then FusRescue else FusIdle;
      ReadPrior();
      if prior.None? || !LidarAvailable(prior.value.row) {
        AppendFailureWarning(job, "icp_skipped: lidar_unavailable", prior, next);
        return if Unfused in script.lost then Failure(BroadcastDown) else Success(None);
      }
      if Started in script.lost {
        Leave(FusRescue);
        return Failure(BroadcastDown);
      }
      if script.reply.Failure? {
        if script.reply.error.CrashFault? {
          Leave(FusRescue);
          return Failure(FromSidecar(script.reply.error));
        }
        AppendFailureWarning(job, "fusion_failed: sidecar_error", prior, FusRescue);
        return Failure(if Unfused in script.lost then BroadcastDown else FromSidecar(script.reply.error));
      }
      var reply := script.reply.value;
      if !Converged(reply) {
        AppendFailureWarning(job, "icp_alignment_failed: rmse=" + show(reply.icpRmse) + "m", prior, next);
        return if Unfused in script.lost then Failure(BroadcastDown) else Success(None);
      }
      if script.insertRaises {
        Leave(FusRescue);
        return Failure(StoreDown);
      }
      var row := PersistFusedMeasurement(prior.value, reply, next);
      if Complete in script.lost {
        return Failure(BroadcastDown);
      }
      r := if script.enqueueRaises then Failure(StoreDown) else Success(Some(row));
    }

    method ReadPrior()
      requires job.Valid() && job.fus.FusChecked?
      modifies this`prior, job`fus, job`run
      ensures job.Valid() && prior == Snapshot(job.rows) && job.fus == FusReady(prior)
    {
      hide Inv, IsRun;
      ghost var before := job.State();
      prior := job.LatestMeasurement();
      job.fus := FusReady(prior);
      assert FusReadPrior(before, job.State());
      job.Took(before);
    }
  }

  /**
   Appends `message` to the given row, or to the latest when none is given; a message already there is not repeated.
   */
  method AppendFailureWarning(job: Job, message: string, measurement: Option<Snap>, ghost next: FusPc)
    requires job.Valid() && (job.fus == FusReady(measurement) || (job.fus.FusRescue? && measurement.None?))
    requires next.FusIdle? || next.FusRescue?
    modifies job`rows, job`fus, job`run
    ensures job.Valid() && job.fus == next
    ensures var target := if measurement.Some? then measurement else old(Snapshot(job.rows));
      && (target.Some? ==> InHistory(old(job.rows), target.value))
      && job.rows == WarnedIfAny(old(job.rows), target, message)
  {
    LatestIsInHistory(job.rows);
    if measurement.Some? { ReadyIsInHistory(job.State()); }
    hide Inv, IsRun, LatestIndex;
    var target := measurement;
    if target.None? {
      target := job.LatestMeasurement();
    }
    ghost var before := job.State();
    if target.None? {
      job.fus := next;
      assert FusAbandon(before, job.State());
      job.Took(before);
      return;
    }
    job.fus := FusWarning(target.value, message);
    assert FusDecideWarning(before, job.State()) || FusExhausted(before, job.State());
    job.Took(before);
    WriteWarning(job, target.value, message, next);
  }

  /** The `update!` of the warnings column, from the list that was read. */
  method WriteWarning(job: Job, target: Snap, message: string, ghost next: FusPc)
    requires job.Valid() && job.fus == FusWarning(target, message) && InHistory(job.rows, target)
    requires next.FusIdle? || next.FusRescue?
    modifies job`rows, job`fus, job`run
    ensures job.Valid() && job.fus == next
    ensures job.rows == Warned(old(job.rows), target, message)
  {
    hide Inv, IsRun;
    ghost var before := job.State();
    if message !in target.row.warnings {
      job.rows := job.rows[target.index := job.rows[target.index].(warnings := target.row.warnings + [message])];
    }
    job.fus := next;
    assert FusWriteWarning(before, job.State());
    job.Took(before);
  }
}
