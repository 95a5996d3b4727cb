/** The retried background job that drives the measurement pipeline (`GeometryJob`). */
module GeometryJob {
  import opened Wrappers
  import opened PipelineTypes
  import opened MeasurementAssembler
  import opened MeasurementSystem
  import opened SystemInvariants
  import opened JobRecord
  import opened MeasurementOrchestrator

  const MAX_ATTEMPTS := 3

  /** The environment of one execution. */
  datatype Attempt = Attempt(script: Script, lookupAt: int, elapsed: nat)

  /** No stage of a run trips the terminal guard of `advance_to!`. */
  lemma ProblemIsNotTheGuard(s: Script)
    ensures Problem(s) != Some(TerminalGuard) && (Problem(s).Some? ==> Rescued(Problem(s).value) != Some(Crashed))
  {
  }

  /**
   One execution. A terminal job is left alone. Otherwise the job ends ready or failed, except when an unexpected error
   is re-raised before the last attempt: then it stays open, with the attempt noted, so that the retry really re-runs.
   */
  method Perform(o: MeasurementOrchestrator, executions: nat) returns (r: Outcome<()>)
    requires o.job.Valid() && o.job.geo.GeoIdle?
    requires o.vlm.Unused()
    modifies o.job`status, o.job`lastError, o.job`written, o.job`geo, o.job`run, o.job`rows, o.job`now, o.job`report,
        o.sidecar`calls, o.vlm
    ensures o.job.Valid() && o.job.geo.GeoIdle? && o.vlm.Quiet()
    ensures r != Failure(TerminalGuard)
    ensures Terminal(old(o.job.status)) ==>
      r == Success(()) && unchanged(o.job) && unchanged(o.sidecar)
    ensures o.job.status.Failed? && o.job.lastError == Crashed && !Terminal(old(o.job.status)) ==>
        executions >= MAX_ATTEMPTS
    ensures r.Success? || executions >= 3 ==> Terminal(o.job.status)
    ensures !Terminal(o.job.status) ==> o.job.lastError == CrashedAttempt(executions) && o.job.rows == old(o.job.rows)
    ensures !Terminal(old(o.job.status)) ==>
      var s, hit := o.sidecar.script, old(CacheHit(o.job.rows, o.lookupAt, o.Fingerprint()));
      && (o.job.status.Ready? <==> hit || Completes(s))
      && (o.job.status.Failed? <==>
            !hit && !Completes(s) && (executions >= 3 || exists note :: Expected(Problem(s).value, note)))
      && (!hit && !Completes(s) ==>
            forall note :: Expected(Problem(s).value, note) ==> o.job.lastError == note)
      && (if !hit && Completes(s)
          then o.job.rows == old(o.job.rows) + [AssembledRow(PartsOf(s, o.job.selection), o.Fingerprint(), o.job.now)]
          else o.job.rows == old(o.job.rows))
      && o.job.report == (old(o.job.report) || (!hit && Completes(s) && !s.mint.MintFailed?))
  {
    hide Job.Valid, Inv, IsRun, AssembledRow, PartsOf, CallsOf, CacheHit, Completes, Problem, Rescued, LatestIndex;
    if Terminal(o.job.status) {
      return Success(());
    }
    ProblemIsNotTheGuard(o.sidecar.script);
    CompletesIffNoProblem(o.sidecar.script);
    if !Completes(o.sidecar.script) {
      ghost var note := ExpectedOrNot(Problem(o.sidecar.script).value);
    }
    hide Expected, Unexpected;
    var called, _ := o.Call();
    if called.Success? {
      return Success(());
    }
    r := Failure(called.error);
    if !Terminal(o.job.status) {
      var sent := NoteCrash(o, executions);
      r := if sent.Failure? then sent else r;
    }
  }

  /** The rescue of an unexpected error: terminal on the last attempt only. */
  method NoteCrash(o: MeasurementOrchestrator, executions: nat) returns (r: Outcome<()>)
    requires o.job.Valid() && Working(o.job.geo)
    modifies o.job`status, o.job`lastError, o.job`written, o.job`geo, o.job`run
    ensures o.job.Valid() && o.job.geo.GeoIdle?
    ensures if executions >= 3
            then o.job.status == Failed && o.job.lastError == Crashed && r == Sent(o.Signal(Failed))
            else o.job.status == old(o.job.status) && o.job.lastError == CrashedAttempt(executions) && r == Success(())
  {
    hide Inv, IsRun;
    ghost var before := o.job.State();
    if executions >= MAX_ATTEMPTS {
      r := o.job.FailWith(Crashed, o.Signal(Failed));
      o.job.geo := GeoIdle;
      assert GeoFail(before, o.job.State());
    } else {
      o.job.lastError := CrashedAttempt(executions);
      o.job.geo := GeoIdle;
      r := Success(());
      assert GeoCrash(before, o.job.State());
    }
    o.job.Took(before);
  }

  /**
   The queue's bounded retry: whatever the stages do, the job is ready or failed after at most three executions, at most
   one row richer, and given up as crashed only once all three have been spent.
   */
  method Deliver(job: Job, hash: string -> string, attempts: seq<Attempt>) returns (executions: nat)
    requires job.Valid() && job.geo.GeoIdle?
    requires |attempts| == MAX_ATTEMPTS
    modifies job`status, job`lastError, job`written, job`geo, job`run, job`rows, job`now, job`report
    ensures job.Valid() && job.geo.GeoIdle?
    ensures Terminal(job.status) && 1 <= executions <= 3
    ensures job.rows == old(job.rows) || (job.status == Ready && exists row :: job.rows == old(job.rows) + [row])
    ensures Terminal(old(job.status)) ==> job.status == old(job.status) && job.rows == old(job.rows) && executions == 1
    ensures job.status == Failed && job.lastError == Crashed && !Terminal(old(job.status)) ==>
        executions == MAX_ATTEMPTS
  {
    hide Job.Valid, AssembledRow, PartsOf, CacheHit, Completes, Problem, Rescued;
    executions := 0;
    var raised := true;
    while raised && executions < MAX_ATTEMPTS
      invariant 0 <= executions <= MAX_ATTEMPTS
      invariant job.Valid() && job.geo.GeoIdle?
      invariant executions == 0 ==> raised && job.status == old(job.status) && job.rows == old(job.rows)
      invariant !raised || executions == MAX_ATTEMPTS ==> Terminal(job.status)
      invariant job.rows == old(job.rows) || (job.status == Ready && exists row :: job.rows == old(job.rows) + [row])
      invariant Terminal(old(job.status)) ==>
          job.status == old(job.status) && job.rows == old(job.rows) && executions <= 1
      invariant Terminal(old(job.status)) && executions == 1 ==> !raised
      invariant job.status == Failed && job.lastError == Crashed && !Terminal(old(job.status)) ==>
          executions == MAX_ATTEMPTS
    {
      var a := attempts[executions];
      executions := executions + 1;
      var sidecar := new Sidecar(a.script);
      var o := new MeasurementOrchestrator(job, sidecar, hash, a.lookupAt, a.elapsed);
      var r := Perform(o, executions);
      raised := r.Failure?;
    }
  }
}
