/** The retried background job around a fusion attempt (`FusionJob`). */
module FusionJob {
  import opened Wrappers
  import opened PipelineTypes
  import opened FusionRules
  import opened MeasurementSystem
  import opened SystemInvariants
  import opened JobRecord
  import opened FusionOrchestrator

  const MAX_ATTEMPTS := 3

  /** The guard: the newest row is the fused one, so this work is done. */
  predicate AlreadyFused(rows: seq<Row>) {
    var latest := Snapshot(rows);
    latest.Some? && Fused(latest.value.row)
  }

  /** What the attempt raises when the history is `rows`; nothing when the guard stops it. */
  function RaisedBy(o: FusionOrchestrator, rows: seq<Row>): Option<Thrown> {
    if AlreadyFused(rows) then None else Raised(EndingOf(Snapshot(rows), o.script), o.script)
  }

  /**
   The history one execution leaves: the attempt's effect, and on a last failed attempt a warning on the latest row.
   */
  ghost predicate Executed(o: FusionOrchestrator, rows: seq<Row>, rows': seq<Row>, now': int, executions: nat) {
    if AlreadyFused(rows) then rows' == rows
    else
      var after := o.Effect(rows, now');
      if RaisedBy(o, rows).Some? && executions >= MAX_ATTEMPTS
      then
        var latest := Snapshot(after);
        (latest.Some? ==> InHistory(after, latest.value)) && rows' == WarnedIfAny(after, latest, "fusion_job_exhausted")
      else rows' == after
  }

  /**
   One execution. It never reaches the status, and it adds a row exactly when the attempt converged. An error is noted
   on the job, except on the last attempt, where it becomes a warning on the latest row.
   */
  method Perform(o: FusionOrchestrator, executions: nat) returns (r: Outcome<()>)
    requires o.job.Valid() && o.job.fus.FusIdle?
    requires o.script.reply.Success? ==> SchemaValid(o.script.reply.value)
    modifies o`prior, o.job`rows, o.job`lastError, o.job`fus, o.job`origins, o.job`run, o.job`now
    ensures o.job.Valid() && o.job.fus.FusIdle?
    ensures var raised := RaisedBy(o, old(o.job.rows));
      && r == (if raised.Some? then Failure(raised.value) else Success(()))
      && o.job.lastError == (if raised.Some? && executions < MAX_ATTEMPTS then FusionCrashed(executions)
        else old(o.job.lastError))
    ensures Executed(o, old(o.job.rows), o.job.rows, o.job.now, executions)
    ensures o.job.now > old(o.job.now) || !EndingOf(old(Snapshot(o.job.rows)), o.script).Added?
        || old(AlreadyFused(o.job.rows))
  {
    hide Inv, IsRun, LatestIndex, FusedRow, Converged, SchemaValid, FusionOrchestrator.Effect, EndingOf, Raised;
    var latest := o.job.LatestMeasurement();
    if latest.Some? && Fused(latest.value.row) {
      return Success(());
    }
    Guard(o.job);
    var called := o.Call();
    if called.Success? {
      return Success(());
    }
    r := Failure(called.error);
    if executions >= MAX_ATTEMPTS {
      AppendFailureWarning(o.job, "fusion_job_exhausted", None, FusIdle);
    } else {
      NoteCrash(o.job, executions);
    }
  }

  ghost method Guard(job: Job)
    requires job.Valid() && job.fus.FusIdle? && !AlreadyFused(job.rows)
    modifies job`fus, job`run
    ensures job.Valid() && job.fus.FusChecked?
  {
    hide Inv, IsRun, LatestIndex;
    var before := job.State();
    job.fus := FusChecked;
    assert FusGuard(before, job.State());
    job.Took(before);
  }

  method NoteCrash(job: Job, executions: nat)
    requires job.Valid() && job.fus.FusRescue?
    modifies job`lastError, job`fus, job`run
    ensures job.Valid() && job.fus.FusIdle? && job.lastError == FusionCrashed(executions)
  {
    hide Inv, IsRun;
    ghost var before := job.State();
    job.lastError := FusionCrashed(executions);
    job.fus := FusIdle;
    assert FusNoteError(before, job.State());
    job.Took(before);
  }

  lemma GrownKeepsFused(rows: seq<Row>, rows': seq<Row>)
    requires Grown(rows, rows')
    ensures AlreadyFused(rows) == AlreadyFused(rows')
  {
    GrownKeepsLatest(rows, rows');
    var i := LatestIndex(rows);
    assert i.Some? ==> OnlyWarningsGrew(rows[i.value], rows'[i.value]);
    hide LatestIndex;
  }

  lemma WarnedLatest(rows: seq<Row>, message: string)
    ensures var latest := Snapshot(rows);
      && (latest.Some? ==> InHistory(rows, latest.value))
      && var rows' := WarnedIfAny(rows, latest, message);
      && Grown(rows, rows')
      && (rows' != [] ==> message in Snapshot(rows').value.row.warnings)
  {
    LatestIsInHistory(rows);
    SameExtends(rows);
    var latest := Snapshot(rows);
    if latest.Some? {
      WarnedOnce(rows, latest.value, message);
    }
    hide LatestIndex;
  }

  /** An attempt adds the fused row, now the latest, when it converged, and otherwise only lengthens warnings. */
  lemma EffectExtends(o: FusionOrchestrator, rows: seq<Row>, now: int, now': int)
    requires StampsOk(rows, now)
    requires EndingOf(Snapshot(rows), o.script).Added? ==> now < now'
    ensures var rows' := o.Effect(rows, now');
      && Extends(rows, rows')
      && (if EndingOf(Snapshot(rows), o.script).Added? then |rows'| == |rows| + 1 && AlreadyFused(rows')
        else Grown(rows, rows'))
  {
    var latest := Snapshot(rows);
    var e := EndingOf(latest, o.script);
    SameExtends(rows);
    if e.Added? {
      var r := FusedRow(latest.value.row, o.script.reply.value, o.session, now');
      NewestIsLatest(rows, r);
      assert (rows + [r])[..|rows|] == rows;
    } else if o.WarningOf(e).Some? {
      WarnedLatest(rows, o.WarningOf(e).value);
      ExtendsThenGrown(rows, rows, o.Effect(rows, now'));
    }
    hide LatestIndex, FusedRow, Grown;
  }

  /**
   Fusion is additive: an execution adds at most one row, which is then the latest, and changes nothing else but for
   longer warnings. A last attempt that fails says so on the latest row, if there is one.
   */
  lemma ExecutionExtends(o: FusionOrchestrator, rows: seq<Row>, rows': seq<Row>, now: int, now': int, executions: nat)
    requires StampsOk(rows, now) && Executed(o, rows, rows', now', executions)
    requires !AlreadyFused(rows) && EndingOf(Snapshot(rows), o.script).Added? ==> now < now'
    ensures Extends(rows, rows')
    ensures |rows'| > |rows| ==> AlreadyFused(rows')
    ensures |rows'| == |rows| ==> Grown(rows, rows')
    ensures RaisedBy(o, rows).Some? && executions >= 3 ==>
      rows' == [] || "fusion_job_exhausted" in Snapshot(rows').value.row.warnings
  {
    SameExtends(rows);
    if !AlreadyFused(rows) {
      EffectExtends(o, rows, now, now');
      var after := o.Effect(rows, now');
      if rows' != after {
        WarnedLatest(after, "fusion_job_exhausted");
        ExtendsThenGrown(rows, after, rows');
        GrownKeepsFused(after, rows');
      }
    }
    hide *;
  }

  lemma ExtendsTwice(rows: seq<Row>, rows': seq<Row>, rows'': seq<Row>)
    requires Extends(rows, rows') && Extends(rows', rows'') && |rows''| <= |rows| + 1
    ensures Extends(rows, rows'')
  {
    forall i | 0 <= i < |rows| ensures OnlyWarningsGrew(rows[i], rows''[i]) {
      assert rows'[..|rows|][i] == rows'[i] && rows''[..|rows'|][i] == rows''[i];
      assert OnlyWarningsGrew(rows[i], rows'[i]) && OnlyWarningsGrew(rows'[i], rows''[i]);
    }
  }

  /**
   A delivery with its retries: however the attempts go, at most one fused row is added, the rest of the history only
   gains warnings, and a delivery that failed to the end says so on the latest row. The status is outside the frame.
   */
  method Deliver(job: Job, session: Session, show: Option<real> -> string, attempts: seq<FusionScript>)
    returns (executions: nat, raised: bool)
    requires job.Valid() && job.fus.FusIdle? && |attempts| == MAX_ATTEMPTS
    requires forall i :: 0 <= i < MAX_ATTEMPTS ==> attempts[i].reply.Success? ==> SchemaValid(attempts[i].reply.value)
    modifies job`rows, job`lastError, job`fus, job`origins, job`run, job`now
    ensures job.Valid() && job.fus.FusIdle?
    ensures 1 <= executions <= 3 && (raised ==> executions == 3)
    ensures Extends(old(job.rows), job.rows)
    ensures |job.rows| > |old(job.rows)| ==> !old(AlreadyFused(job.rows)) && AlreadyFused(job.rows)
    ensures old(AlreadyFused(job.rows)) ==> executions == 1 && !raised && job.rows == old(job.rows)
    ensures raised ==> job.rows == [] || "fusion_job_exhausted" in Snapshot(job.rows).value.row.warnings
  {
    executions, raised := 0, true;
    SameExtends(job.rows);
    while raised && executions < MAX_ATTEMPTS
      invariant 0 <= executions <= MAX_ATTEMPTS && (executions == 0 ==> raised && job.rows == old(job.rows))
      invariant job.Valid() && job.fus.FusIdle?
      invariant Extends(old(job.rows), job.rows)
      invariant |job.rows| > |old(job.rows)| ==> !old(AlreadyFused(job.rows)) && AlreadyFused(job.rows)
      invariant old(AlreadyFused(job.rows)) ==>
          executions <= 1 && job.rows == old(job.rows) && (executions == 1 ==> !raised)
      invariant raised && executions == MAX_ATTEMPTS ==>
          job.rows == [] || "fusion_job_exhausted" in Snapshot(job.rows).value.row.warnings
    {
      assert StampsOk(job.rows, job.now);
      hide *;
      ghost var rows, now := job.rows, job.now;
      var o := new FusionOrchestrator(job, session, attempts[executions], show);
      executions := executions + 1;
      var r := Perform(o, executions);
      raised := r.Failure?;
      ExecutionExtends(o, rows, job.rows, now, job.now, executions);
      if |rows| <= |old(job.rows)| || AlreadyFused(rows) {
        ExtendsTwice(old(job.rows), rows, job.rows);
      }
    }
  }
}
