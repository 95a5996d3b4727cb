/** What the idempotency cache promises about repeated calls (`MeasurementIdempotencyCache`). */
module CacheAgreement {
  import opened Wrappers
  import opened PipelineTypes
  import opened FusionRules
  import opened Fingerprint
  import opened MeasurementAssembler
  import opened MeasurementSystem
  import opened SystemInvariants
  import opened SystemTheorems
  import opened MeasurementOrchestrator

  // ------------------------------------------------------ edits of the inputs

  /**
   The machine with the job's inputs, those the geometry execution loaded, and those each pipeline row was built from.
   */
  datatype Edited = Edited(s: System, current: Inputs, loaded: Inputs, built: map<nat, Inputs>)

  /** The address or the selection is edited; a running execution does not see it. */
  predicate Edit(e: Edited, e': Edited) { e' == e.(current := e'.current) }

  /** An execution loads the job. */
  predicate Load(e: Edited, e': Edited) { e.s.geo.GeoIdle? && e' == e.(loaded := e.current) }

  /** Any step of the machine; a stamped row carries the fingerprint of the loaded inputs. */
  ghost predicate MachineStep(hash: string -> string, e: Edited, e': Edited) {
    && Next(e.s, e'.s) && e'.current == e.current && e'.loaded == e.loaded
    && (GeoStamp(e.s, e'.s) ==> e'.s.geo.row.fingerprint == Some(FingerprintOf(hash, e.loaded)))
    && e'.built == if GeoCommit(e.s, e'.s) then e.built[|e.s.w.rows| := e.loaded] else e.built
  }

  ghost predicate IsEditedRun(hash: string -> string, run: seq<Edited>) {
    && run != [] && Init(run[0].s) && run[0].built == map[]
    && forall k :: 0 < k < |run| ==>
         Edit(run[k - 1], run[k]) || Load(run[k - 1], run[k]) || MachineStep(hash, run[k - 1], run[k])
  }

  /** Every fingerprint stored, or about to be, is that of the inputs its row was built from. */
  ghost predicate FingerprintsTrue(hash: string -> string, e: Edited) {
    && (e.s.geo.GeoStamped? ==> e.s.geo.row.fingerprint == Some(FingerprintOf(hash, e.loaded)))
    && RowsTrue(hash, e.s.w.rows, e.built)
  }

  ghost predicate RowsTrue(hash: string -> string, rows: seq<Row>, built: map<nat, Inputs>) {
    forall i: nat :: i < |rows| && rows[i].fingerprint.Some? ==>
      i in built && rows[i].fingerprint == Some(FingerprintOf(hash, built[i]))
  }

  /**
   Fingerprints stay, and at most one row is added: the stamped one on a commit, and otherwise one without a
   fingerprint.
   */
  predicate FingerprintsKept(rows: seq<Row>, rows': seq<Row>, added: Option<string>) {
    && |rows| <= |rows'| <= |rows| + 1
    && (forall i :: 0 <= i < |rows| ==> rows'[i].fingerprint == rows[i].fingerprint)
    && (|rows'| > |rows| ==> rows'[|rows|].fingerprint == added)
  }

  lemma GeoKeepsFingerprints(s: System, s': System)
    requires GeoNext(s, s')
    ensures FingerprintsKept(s.w.rows, s'.w.rows, if GeoCommit(s, s') then s.geo.row.fingerprint else None)
    ensures GeoCommit(s, s') ==> |s'.w.rows| > |s.w.rows|
    ensures s'.geo.GeoStamped? && s'.geo != s.geo ==> GeoStamp(s, s')
  {
    hide HonestRow, Terminal;
  }

  lemma FusKeepsFingerprints(s: System, s': System)
    requires FusNext(s, s') && HistoryGrew(s.w.rows, s'.w.rows) && (s.fus.FusStamped? ==> s.fus.row.fingerprint.None?)
    ensures FingerprintsKept(s.w.rows, s'.w.rows, None) && s'.geo == s.geo
  {
    assert forall i :: 0 <= i < |s.w.rows| ==> OnlyWarningsGrew(s.w.rows[i], s'.w.rows[i]);
    hide FusedRow, LatestIndex, Snapshot, Converged, SchemaValid, LidarAvailable, HistoryGrew;
  }

  lemma StepKeepsFingerprints(s: System, s': System)
    requires Inv(s) && Next(s, s')
    ensures FingerprintsKept(s.w.rows, s'.w.rows, if GeoCommit(s, s') then s.geo.row.fingerprint else None)
    ensures GeoCommit(s, s') ==> |s'.w.rows| > |s.w.rows|
    ensures s'.geo.GeoStamped? && s'.geo != s.geo ==> GeoStamp(s, s')
  {
    StepGrowsHistory(s, s');
    assert s.fus.FusStamped? ==> s.fus.row.fingerprint.None?;
    assert ProjNext(s, s') || ReportOpened(s, s') ==> s'.w.rows == s.w.rows && s'.geo == s.geo;
    hide Inv, FusNext, GeoNext, ProjNext, ReportOpened, HistoryGrew, FusedRow;
    if GeoNext(s, s') { GeoKeepsFingerprints(s, s'); }
    if FusNext(s, s') { FusKeepsFingerprints(s, s'); }
  }

  lemma RowsStayTrue(hash: string -> string, rows: seq<Row>, rows': seq<Row>, built: map<nat, Inputs>, loaded: Inputs,
                     added: Option<string>)
    requires RowsTrue(hash, rows, built) && FingerprintsKept(rows, rows', added)
    ensures added.None? ==> RowsTrue(hash, rows', built)
    ensures added == Some(FingerprintOf(hash, loaded)) ==> RowsTrue(hash, rows', built[|rows| := loaded])
  {
    hide FingerprintOf;
  }

  lemma MachineStepKeepsFingerprints(hash: string -> string, e: Edited, e': Edited)
    requires Inv(e.s) && FingerprintsTrue(hash, e) && MachineStep(hash, e, e')
    ensures FingerprintsTrue(hash, e')
  {
    var committed := GeoCommit(e.s, e'.s);
    assert committed ==> e.s.geo.GeoStamped?;
    hide Inv, Next, GeoStamp, GeoCommit, FingerprintOf;
    StepKeepsFingerprints(e.s, e'.s);
    RowsStayTrue(hash, e.s.w.rows, e'.s.w.rows, e.built, e.loaded, if committed then e.s.geo.row.fingerprint else None);
    hide RowsTrue, FingerprintsKept;
  }

  lemma {:induction false} EditedRunInvariant(hash: string -> string, run: seq<Edited>, k: nat)
    requires IsEditedRun(hash, run) && k < |run|
    ensures Inv(run[k].s) && FingerprintsTrue(hash, run[k])
  {
    if k == 0 {
      InitInv(run[0].s);
    } else {
      EditedRunInvariant(hash, run, k - 1);
      hide Inv, FingerprintOf;
      if MachineStep(hash, run[k - 1], run[k]) {
        NextPreserves(run[k - 1].s, run[k].s);
        MachineStepKeepsFingerprints(hash, run[k - 1], run[k]);
      } else {
        hide MachineStep, Next;
      }
    }
  }

  /**
   In any run with edits at any moment, a lookup with some inputs hits only a row that was built from exactly those
   inputs: under a collision-free hash no measurement is ever reused across an edit.
   */
  lemma HitWasBuiltFromSameInputs(hash: string -> string, run: seq<Edited>, k: nat, inputs: Inputs, lookupAt: int)
    requires CollisionFree(hash) && IsEditedRun(hash, run) && k < |run|
    requires CacheHit(run[k].s.w.rows, lookupAt, FingerprintOf(hash, inputs))
    ensures var i := LatestIndex(run[k].s.w.rows).value;
      && i in run[k].built && run[k].built[i] == inputs
      && run[k].s.w.rows[i].generatedAt >= lookupAt - 3_600_000_000
  {
    EditedRunInvariant(hash, run, k);
    hide IsEditedRun, Inv, LatestIndex, FingerprintOf;
    FingerprintsAgreeIff(hash, inputs, run[k].built[LatestIndex(run[k].s.w.rows).value]);
  }

  /** Two executions have the same fingerprint exactly when their jobs have the same address and selection. */
  lemma OrchestratorsAgreeIff(a: MeasurementOrchestrator, b: MeasurementOrchestrator)
    requires a.hash == b.hash && CollisionFree(a.hash)
    ensures a.Fingerprint() == b.Fingerprint() <==> a.job.address == b.job.address && a.job.selection == b.job.selection
  {
    hide FingerprintOf;
    FingerprintsAgreeIff(a.hash, Inputs(a.job.address, a.job.selection), Inputs(b.job.address, b.job.selection));
  }

  /** The step in which the code stamps its row is a step of the edited runs: the row carries the inputs loaded. */
  lemma StampIsEditedStep(o: MeasurementOrchestrator, p: Parts, e: Edited, e': Edited)
    requires e.loaded == Inputs(o.job.address, o.job.selection)
    requires GeoStamp(e.s, e'.s) && e'.s.geo.row == AssembledRow(p, o.Fingerprint(), e'.s.now) && e' == e.(s := e'.s)
    ensures MachineStep(o.hash, e, e')
  {
    hide FingerprintOf, HonestRow;
  }

  /** The code's own lookup never serves a row built from another address or another selection than its job's. */
  lemma LookupServesOwnInputs(o: MeasurementOrchestrator, run: seq<Edited>, k: nat)
    requires CollisionFree(o.hash) && IsEditedRun(o.hash, run) && k < |run|
    requires CacheHit(run[k].s.w.rows, o.lookupAt, o.Fingerprint())
    ensures var i := LatestIndex(run[k].s.w.rows).value;
      i in run[k].built && run[k].built[i].address == o.job.address && run[k].built[i].selection == o.job.selection
  {
    hide FingerprintOf, IsEditedRun, LatestIndex;
    HitWasBuiltFromSameInputs(o.hash, run, k, Inputs(o.job.address, o.job.selection), o.lookupAt);
  }

  // ------------------------------------------------------------ repeated calls

  /** Rows newer than row `m` are all fused. */
  predicate OnlyFusedSince(rows: seq<Row>, m: nat)
    requires m < |rows|
  {
    forall k :: 0 <= k < |rows| && rows[k].generatedAt > rows[m].generatedAt ==> Fused(rows[k])
  }

  lemma GeoAddsNothing(s: System, s': System)
    requires GeoNext(s, s') && !GeoCommit(s, s')
    ensures s'.w.rows == s.w.rows
  {
    hide HonestRow, Terminal, GeoCommit;
  }

  lemma FusAddsFused(s: System, s': System)
    requires FusNext(s, s') && (s.fus.FusStamped? ==> Fused(s.fus.row))
    ensures |s'.w.rows| == |s.w.rows| || (|s'.w.rows| == |s.w.rows| + 1 && Fused(s'.w.rows[|s.w.rows|]))
  {
    hide FusedRow, LatestIndex, Snapshot, Converged, SchemaValid, LidarAvailable;
  }

  /** Only a geometry commit adds a row that is not fused. */
  lemma StepAddsFused(s: System, s': System)
    requires Inv(s) && Next(s, s') && !GeoCommit(s, s')
    ensures |s'.w.rows| == |s.w.rows| || (|s'.w.rows| == |s.w.rows| + 1 && Fused(s'.w.rows[|s.w.rows|]))
  {
    assert s.fus.FusStamped? ==> Fused(s.fus.row);
    assert ProjNext(s, s') || ReportOpened(s, s') ==> s'.w.rows == s.w.rows;
    hide Inv, FusNext, GeoNext, ProjNext, ReportOpened, GeoCommit;
    if GeoNext(s, s') { GeoAddsNothing(s, s'); }
    if FusNext(s, s') { FusAddsFused(s, s'); }
  }

  lemma StepAddsOnlyFused(s: System, s': System, m: nat)
    requires Inv(s) && Next(s, s') && !GeoCommit(s, s')
    requires m < |s.w.rows| && OnlyFusedSince(s.w.rows, m)
    ensures m < |s'.w.rows| && OnlyWarningsGrew(s.w.rows[m], s'.w.rows[m]) && OnlyFusedSince(s'.w.rows, m)
  {
    hide Inv, Next, GeoCommit;
    StepGrowsHistory(s, s');
    StepAddsFused(s, s');
    assert OnlyWarningsGrew(s.w.rows[m], s'.w.rows[m]);
    forall k | 0 <= k < |s'.w.rows| && s'.w.rows[k].generatedAt > s'.w.rows[m].generatedAt
      ensures Fused(s'.w.rows[k])
    {
      if k < |s.w.rows| { assert OnlyWarningsGrew(s.w.rows[k], s'.w.rows[k]); }
    }
  }

  /** No geometry execution commits between the two states. */
  ghost predicate NoCommit(run: seq<System>, i: nat, j: nat)
    requires i <= j < |run|
  {
    forall k :: i < k <= j ==> !GeoCommit(run[k - 1], run[k])
  }

  lemma NoCommitUnfolds(run: seq<System>, i: nat, j: nat)
    requires i < j < |run| && NoCommit(run, i, j)
    ensures NoCommit(run, i, j - 1) && !GeoCommit(run[j - 1], run[j])
  {
    hide GeoCommit;
  }

  lemma {:induction false} OnlyFusedUntilCommit(run: seq<System>, i: nat, j: nat, m: nat)
    requires IsRun(run) && i <= j < |run| && NoCommit(run, i, j)
    requires m < |run[i].w.rows| && OnlyFusedSince(run[i].w.rows, m)
    ensures m < |run[j].w.rows| && OnlyWarningsGrew(run[i].w.rows[m], run[j].w.rows[m])
        && OnlyFusedSince(run[j].w.rows, m)
    decreases j
  {
    hide IsRun, NoCommit, Inv, Next, GeoCommit, OnlyFusedSince;
    if i == j {
    } else {
      RunStep(run, j);
      NoCommitUnfolds(run, i, j);
      OnlyFusedUntilCommit(run, i, j - 1, m);
      RunInvariant(run, j - 1);
      StepAddsOnlyFused(run[j - 1], run[j], m);
    }
  }

  /**
   Once a run has committed its row, a later call within the window and with unchanged inputs is a hit, whatever fusion
   and projection did in between, exactly unless a fused row, which carries no fingerprint, has become the latest.
   */
  lemma SecondCallHits(run: seq<System>, i: nat, j: nat, m: nat, fingerprint: string, lookupAt: int)
    requires IsRun(run) && i <= j < |run| && NoCommit(run, i, j)
    requires m < |run[i].w.rows| && OnlyFusedSince(run[i].w.rows, m)
    requires run[i].w.rows[m].fingerprint == Some(fingerprint)
    requires lookupAt - 3_600_000_000 <= run[i].w.rows[m].generatedAt
    ensures var latest := Snapshot(run[j].w.rows);
      latest.Some? && (CacheHit(run[j].w.rows, lookupAt, fingerprint) <==> !Fused(latest.value.row))
  {
    OnlyFusedUntilCommit(run, i, j, m);
    RunInvariant(run, j);
    var rows := run[j].w.rows;
    var latest := LatestIndex(rows).value;
    assert rows[latest].generatedAt >= rows[m].generatedAt;
    if latest != m {
      assert rows[latest].generatedAt != rows[m].generatedAt;
      var o := run[j].origins[latest];
      assert Refines(rows[latest], rows[o.prior], o.reply);
    }
    hide Inv, IsRun, Next, LatestIndex;
  }

  /** Every pipeline row already there is older than the one waiting to be committed. */
  predicate OlderThanPending(rows: seq<Row>, geo: GeoPc) {
    geo.GeoStamped? ==> forall k :: 0 <= k < |rows| && !Fused(rows[k]) ==> rows[k].generatedAt < geo.row.generatedAt
  }

  lemma StepKeepsPendingNewest(s: System, s': System)
    requires Inv(s) && Next(s, s') && OlderThanPending(s.w.rows, s.geo)
    ensures OlderThanPending(s'.w.rows, s'.geo)
  {
    StepGrowsHistory(s, s');
    assert StampsOk(s.w.rows, s.now);
    StepKeepsFingerprints(s, s');
    if s'.geo.GeoStamped? {
      StepAddsFused(s, s');
      assert s'.geo == s.geo || s'.geo.row.generatedAt > s.now;
      hide Inv, Next, GeoCommit;
      forall k | 0 <= k < |s'.w.rows| && !Fused(s'.w.rows[k])
        ensures s'.w.rows[k].generatedAt < s'.geo.row.generatedAt
      {
        assert OnlyWarningsGrew(s.w.rows[k], s'.w.rows[k]);
      }
    }
  }

  lemma {:induction false} PendingIsNewest(run: seq<System>, i: nat)
    requires IsRun(run) && i < |run|
    ensures OlderThanPending(run[i].w.rows, run[i].geo)
  {
    if i == 0 {
    } else {
      hide *;
      PendingIsNewest(run, i - 1);
      RunInvariant(run, i - 1);
      RunStep(run, i);
      StepKeepsPendingNewest(run[i - 1], run[i]);
    }
  }

  /** The row a run commits is such a row: whatever is newer than it is fused. */
  lemma CommittedRowIsNewestPipelineRow(run: seq<System>, i: nat)
    requires IsRun(run) && i + 1 < |run| && GeoCommit(run[i], run[i + 1])
    ensures |run[i].w.rows| < |run[i + 1].w.rows| && OnlyFusedSince(run[i + 1].w.rows, |run[i].w.rows|)
  {
    PendingIsNewest(run, i);
  }
}
