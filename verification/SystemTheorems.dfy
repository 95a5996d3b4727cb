/** What holds over whole runs of the measurement machine, under any interleaving of its executions. */
module SystemTheorems {
  import opened Wrappers
  import opened PipelineTypes
  import opened FusionRules
  import opened MeasurementAssembler
  import opened MeasurementSystem
  import opened SystemInvariants

  lemma RunStep(run: seq<System>, i: nat)
    requires IsRun(run) && 0 < i < |run|
    ensures Next(run[i - 1], run[i])
  {
    hide Next;
  }

  lemma {:induction false} RunInvariant(run: seq<System>, i: nat)
    requires IsRun(run) && i < |run|
    ensures Inv(run[i])
  {
    if i == 0 {
      InitInv(run[0]);
    } else {
      hide *;
      RunInvariant(run, i - 1);
      RunStep(run, i);
      NextPreserves(run[i - 1], run[i]);
    }
  }

  /**
   In every reachable state a ready job has a measurement, and an execution under way means the job is not terminal.
   */
  lemma ReadyHasMeasurement(run: seq<System>, i: nat)
    requires IsRun(run) && i < |run|
    ensures run[i].w.status.Ready? ==> run[i].w.rows != []
    ensures Working(run[i].geo) ==> !Terminal(run[i].w.status)
  {
    RunInvariant(run, i);
  }

  /** Every row that used imagery alone is capped and says why, whatever warnings were appended to it since. */
  lemma ImageryRowsStayHonest(run: seq<System>, i: nat, j: nat)
    requires IsRun(run) && i < |run| && j < |run[i].w.rows| && run[i].w.rows[j].source.Imagery?
    ensures var r := run[i].w.rows[j];
      && r.confidence <= 0.6
      && exists w :: w in r.warnings && ("lidar_missing: " <= w || "lidar_unavailable: " <= w)
  {
    RunInvariant(run, i);
    assert RowOk(run[i].w.rows[j]);
    hide Inv;
  }

  /** No warning is ever repeated on a row. */
  lemma WarningsAreDistinct(run: seq<System>, i: nat, j: nat)
    requires IsRun(run) && i < |run| && j < |run[i].w.rows|
    ensures var ws := run[i].w.rows[j].warnings; forall a, b :: 0 <= a < b < |ws| ==> ws[a] != ws[b]
  {
    RunInvariant(run, i);
    assert RowOk(run[i].w.rows[j]);
    hide Inv;
  }

  // ------------------------------------------------------------ fused history

  predicate StrictlyBetween(rows: seq<Row>, p: nat, older: Row, newer: Row) {
    p < |rows| && older.generatedAt < rows[p].generatedAt < newer.generatedAt
  }

  /** Between any two fused rows, in `generated_at` order, lies a pipeline row: no two adjacent rows are both fused. */
  lemma NoTwoFusedAdjacent(run: seq<System>, i: nat, a: nat, b: nat)
    requires IsRun(run) && i < |run|
    requires var rows := run[i].w.rows;
      a < |rows| && b < |rows| && Fused(rows[a]) && Fused(rows[b]) && rows[a].generatedAt < rows[b].generatedAt
    ensures var rows := run[i].w.rows;
      exists p: nat :: StrictlyBetween(rows, p, rows[a], rows[b]) && !Fused(rows[p])
  {
    RunInvariant(run, i);
    var rows, origins := run[i].w.rows, run[i].origins;
    var p := origins[b].prior;
    assert Refines(rows[b], rows[p], origins[b].reply);
    assert NoFusedBetween(rows, rows[p].generatedAt, rows[b].generatedAt);
    assert rows[p].generatedAt < rows[b].generatedAt && !Fused(rows[p]);
    hide Inv, IsRun;
    assert StrictlyBetween(rows, p, rows[a], rows[b]);
  }

  // ------------------------------------------------------- growth and statuses

  /** Row by row: nothing differs but warnings, and those were only added at the end. */
  lemma RowsOnlyGainWarnings(run: seq<System>, i: nat, j: nat, k: nat)
    requires IsRun(run) && i <= j < |run| && k < |run[i].w.rows|
    ensures k < |run[j].w.rows|
    ensures var r, r' := run[i].w.rows[k], run[j].w.rows[k];
      && r.warnings <= r'.warnings && r'.generatedAt == r.generatedAt && r'.fingerprint == r.fingerprint
      && r'.footprint == r.footprint && r'.roofOutline == r.roofOutline && r'.lidar == r.lidar && r'.facets == r.facets
      && r'.features == r.features && r'.totalAreaSqFt == r.totalAreaSqFt && r'.pitchRatio == r.pitchRatio
      && r'.source == r.source && r'.confidence == r.confidence && r'.provenance == r.provenance && r'.site == r.site
  {
    HistoryOnlyGrows(run, i, j);
    hide IsRun;
    assert OnlyWarningsGrew(run[i].w.rows[k], run[j].w.rows[k]);
  }

  /** The history only grows: rows are added at the end, and existing ones gain warnings and change in nothing else. */
  ghost predicate HistoryGrew(rows: seq<Row>, rows': seq<Row>) {
    |rows| <= |rows'| && forall k :: 0 <= k < |rows| ==> OnlyWarningsGrew(rows[k], rows'[k])
  }

  /** The rows are left alone, or one is added at the end. */
  predicate Appended(rows: seq<Row>, rows': seq<Row>) {
    rows' == rows || (|rows'| == |rows| + 1 && rows == rows'[..|rows|])
  }

  lemma GeoAppends(s: System, s': System)
    requires GeoNext(s, s')
    ensures Appended(s.w.rows, s'.w.rows)
  {
    hide HonestRow, Terminal;
  }

  lemma FusAppends(s: System, s': System)
    requires FusNext(s, s') && !FusWriteWarning(s, s')
    ensures Appended(s.w.rows, s'.w.rows)
  {
    hide FusedRow, LatestIndex, FusWriteWarning, Snapshot, Converged, SchemaValid, LidarAvailable;
  }

  /** A step leaves the rows alone, adds one at the end, or lengthens the warnings of one. */
  lemma StepGrowsHistory(s: System, s': System)
    requires Inv(s) && Next(s, s')
    ensures HistoryGrew(s.w.rows, s'.w.rows)
  {
    if FusWriteWarning(s, s') {
      WarningPreserves(s, s');
      hide Inv, FusNext, GeoNext, ProjNext;
    } else {
      hide Inv, FusNext, GeoNext, FusWriteWarning, OnlyWarningsGrew, HistoryGrew, GoodOverlay;
      assert ProjNext(s, s') || ReportOpened(s, s') ==> s'.w.rows == s.w.rows;
      hide ProjNext, ReportOpened;
      if GeoNext(s, s') { GeoAppends(s, s'); }
      if FusNext(s, s') { FusAppends(s, s'); }
      PrefixGrew(s.w.rows, s'.w.rows);
    }
  }

  lemma PrefixGrew(rows: seq<Row>, rows': seq<Row>)
    requires Appended(rows, rows')
    ensures HistoryGrew(rows, rows')
  {
    assert rows == rows'[..|rows|];
    assert forall k :: 0 <= k < |rows| ==> rows[k] == rows'[..|rows|][k];
  }

  lemma {:induction false} HistoryOnlyGrows(run: seq<System>, i: nat, j: nat)
    requires IsRun(run) && i <= j < |run|
    ensures HistoryGrew(run[i].w.rows, run[j].w.rows)
    decreases j
  {
    hide IsRun, Inv, Next;
    if i == j {
    } else {
      hide HistoryGrew, OnlyWarningsGrew;
      HistoryOnlyGrows(run, i, j - 1);
      RunInvariant(run, j - 1);
      RunStep(run, j);
      StepGrowsHistory(run[j - 1], run[j]);
      GrewTwice(run[i].w.rows, run[j - 1].w.rows, run[j].w.rows);
    }
  }

  lemma GrewTwice(a: seq<Row>, b: seq<Row>, c: seq<Row>)
    requires HistoryGrew(a, b) && HistoryGrew(b, c)
    ensures HistoryGrew(a, c)
  {
    forall k | 0 <= k < |a| ensures OnlyWarningsGrew(a[k], c[k]) {
      assert OnlyWarningsGrew(a[k], b[k]) && OnlyWarningsGrew(b[k], c[k]);
    }
  }

  /**
   Fusion and projection never touch the status, and only a geometry execution starting afresh re-opens a terminal
   job.
   */
  lemma StatusMoves(s: System, s': System)
    requires Inv(s) && Next(s, s')
    ensures FusNext(s, s') || ProjNext(s, s') ==> s'.w.status == s.w.status
    ensures Terminal(s.w.status) && s'.w.status != s.w.status ==> GeoBegin(s, s') && s'.w.status == Pending
  {
    if GeoNext(s, s') && !GeoBegin(s, s') && !GeoCacheHit(s, s') && !GeoMint(s, s') && !GeoMintRaises(s, s') {
      assert !Terminal(s.w.status);
    }
    hide Inv, HonestRow, FusedRow, LatestIndex, Warned;
  }

  /** No geometry execution starts afresh between the two states. */
  ghost predicate NoRerun(run: seq<System>, i: nat, j: nat)
    requires i <= j < |run|
  {
    forall k :: i < k <= j ==> !GeoBegin(run[k - 1], run[k])
  }

  lemma NoRerunUnfolds(run: seq<System>, i: nat, j: nat)
    requires i < j < |run| && NoRerun(run, i, j)
    ensures NoRerun(run, i, j - 1) && !GeoBegin(run[j - 1], run[j])
  {
    hide GeoBegin;
  }

  /** A ready or failed job stays exactly that until a geometry execution resets it. */
  lemma {:induction false} TerminalUntilRerun(run: seq<System>, i: nat, j: nat)
    requires IsRun(run) && i <= j < |run| && Terminal(run[i].w.status)
    requires NoRerun(run, i, j)
    ensures run[j].w.status == run[i].w.status
    decreases j
  {
    hide IsRun, NoRerun, Inv, Next, GeoBegin;
    if i == j {
    } else {
      RunStep(run, j);
      NoRerunUnfolds(run, i, j);
      TerminalUntilRerun(run, i, j - 1);
      RunInvariant(run, j - 1);
      StatusMoves(run[j - 1], run[j]);
    }
  }

  // ------------------------------------------------- where a fused row came from

  /**
   Only the commit of a fused row records an origin, and it records the base and the response the row was built from.
   */
  lemma OriginsMove(s: System, s': System)
    requires Next(s, s') && s'.origins != s.origins
    ensures FusCommit(s, s')
  {
    hide HonestRow, FusedRow, LatestIndex, Warned, GoodOverlay, Converged, SchemaValid, Terminal, LidarAvailable;
  }

  /** In the step after `run[t]`, the fusion execution committed what was to become row `j`, built from one response. */
  ghost predicate CommittedAt(run: seq<System>, t: nat, j: nat, o: Origin) {
    && t + 1 < |run| && FusCommit(run[t], run[t + 1]) && run[t].fus.FusStamped? && |run[t].w.rows| == j
    && o == Origin(run[t].fus.base.index, run[t].fus.reply)
  }

  lemma CommitRecords(run: seq<System>, t: nat, j: nat)
    requires t + 1 < |run| && FusCommit(run[t], run[t + 1]) && j in run[t + 1].origins
    requires j !in run[t].origins || run[t].origins[j] != run[t + 1].origins[j]
    ensures CommittedAt(run, t, j, run[t + 1].origins[j])
  {
  }

  lemma {:induction false} OriginsAreCommits(run: seq<System>, i: nat, j: nat) returns (t: nat)
    requires IsRun(run) && i < |run| && j in run[i].origins
    ensures t < i && CommittedAt(run, t, j, run[i].origins[j])
  {
    if i == 0 {
      assert false;
    } else {
      hide IsRun, Next, FusCommit;
      RunStep(run, i);
      if run[i].origins != run[i - 1].origins {
        OriginsMove(run[i - 1], run[i]);
      }
      if j in run[i - 1].origins && run[i - 1].origins[j] == run[i].origins[j] {
        t := OriginsAreCommits(run, i - 1, j);
      } else {
        t := i - 1;
        CommitRecords(run, t, j);
      }
    }
  }

  /** Row `j` is the row built in the step after `run[t]` from the pipeline row and the response held there. */
  ghost predicate BuiltAt(run: seq<System>, i: nat, j: nat, t: nat)
    requires i < |run| && j < |run[i].w.rows|
  {
    && t < i && run[t].fus.FusStamped? && FusCommit(run[t], run[t + 1]) && |run[t].w.rows| == j
    && var f, rows := run[t].fus, run[i].w.rows;
    && f.base.index < j && Converged(f.reply)
    && OnlyWarningsGrew(FusedRow(f.base.row, f.reply, f.session, f.row.generatedAt), rows[j])
    && OnlyWarningsGrew(f.base.row, rows[f.base.index])
    && Refines(rows[j], rows[f.base.index], f.reply)
  }

  /**
   Every fused row was committed by one step of the run, and is what `persist_fused_measurement` builds from the
   pipeline row and the response that step held: residual, transform and projection are that one response's, the other
   provenance is that row's, and confidence is at least that row's and at most 0.10 more. Since then it only gained
   warnings.
   */
  lemma FusedRowsHaveOneOrigin(run: seq<System>, i: nat, j: nat)
    requires IsRun(run) && i < |run| && j < |run[i].w.rows| && Fused(run[i].w.rows[j])
    ensures exists t: nat :: BuiltAt(run, i, j, t)
  {
    RunInvariant(run, i);
    var rows, o := run[i].w.rows, run[i].origins[j];
    assert o.prior < j && Refines(rows[j], rows[o.prior], o.reply);
    var t := OriginsAreCommits(run, i, j);
    var s, s' := run[t], run[t + 1];
    RunInvariant(run, t);
    assert s.fus.row == FusedRow(s.fus.base.row, s.fus.reply, s.fus.session, s.fus.row.generatedAt);
    assert InHistory(s.w.rows, s.fus.base);
    assert s'.w.rows[j] == s.fus.row && s'.w.rows[o.prior] == s.fus.base.row;
    HistoryOnlyGrows(run, t + 1, i);
    hide IsRun, Inv, Refines, FusedRow, OnlyWarningsGrew;
    assert BuiltAt(run, i, j, t);
  }

  /** No loose alignment is ever kept: every fused row stores a residual of at least zero and below half a metre. */
  lemma FusedRowsAreTight(run: seq<System>, i: nat, j: nat)
    requires IsRun(run) && i < |run| && j < |run[i].w.rows| && run[i].w.rows[j].source == DeviceFused
    ensures var p := run[i].w.rows[j].provenance;
      "fusion_icp_rmse_m" in p && p["fusion_icp_rmse_m"].Number? && 0.0 <= p["fusion_icp_rmse_m"].r < 0.5
  {
    RunInvariant(run, i);
    var rows, o := run[i].w.rows, run[i].origins[j];
    assert Refines(rows[j], rows[o.prior], o.reply);
    assert Lookup(rows[j].provenance, RMSE_KEY, Some(Number(o.reply.icpRmse.value)));
    hide IsRun, Inv, PipelineRow;
  }

  /** Every overlay is drawn with enough confidence and something to draw, or flagged and shows nothing. */
  lemma OverlaysStayHonest(run: seq<System>, i: nat, c: nat)
    requires IsRun(run) && i < |run| && c in run[i].w.overlays
    ensures var o := run[i].w.overlays[c];
      if o.lowPoseConfidence then
        && o.compositeRef.None? && o.svgRef.None? && o.occluded == []
        && (o.poseConfidence.Some? ==> o.poseConfidence.value < run[i].threshold)
      else o.compositeRef.Some? && o.poseConfidence.Some? && o.poseConfidence.value >= run[i].threshold
  {
    RunInvariant(run, i);
    assert GoodOverlay(run[i].w.overlays[c], run[i].threshold);
    hide Inv, IsRun;
  }

  // --------------------------------------------------------------- the report

  /** A mint ends by raising while the job has no report: only a failing store does that. */
  predicate MintLost(s: System, s': System) { GeoMintRaises(s, s') && !s.w.report }

  ghost predicate MintLostBefore(run: seq<System>, i: nat)
    requires i < |run|
  {
    exists k: nat :: k < i && MintLost(run[k], run[k + 1])
  }

  lemma ReportStep(s: System, s': System)
    requires Inv(s) && Next(s, s')
    ensures s.w.report ==> s'.w.report
    ensures s.w.rows == [] && s'.w.rows != [] ==> s'.geo.GeoMinting?
    ensures s.geo.GeoMinting? && !s'.geo.GeoMinting? ==> s'.w.report || MintLost(s, s')
  {
    assert s.fus.FusStamped? ==> s.w.rows != [];
    hide Inv, HonestRow, FusedRow, LatestIndex, GoodOverlay, Converged, SchemaValid, Terminal, LidarAvailable;
  }

  lemma StartsEmpty(run: seq<System>)
    requires IsRun(run)
    ensures run[0].w.rows == [] && !run[0].w.report
  {
    hide Next;
  }

  /**
   A job with a measurement has its report as soon as the mint after the commit has ended, unless a mint was lost to the
   store; an overtaken mint raises but leaves the report of the other call.
   */
  lemma {:induction false} MeasuredJobHasReport(run: seq<System>, i: nat)
    requires IsRun(run) && i < |run| && run[i].w.rows != []
    ensures run[i].w.report || run[i].geo.GeoMinting? || MintLostBefore(run, i)
  {
    hide *;
    StartsEmpty(run);
    RunStep(run, i);
    RunInvariant(run, i - 1);
    ReportStep(run[i - 1], run[i]);
    if run[i - 1].w.rows != [] {
      MeasuredJobHasReport(run, i - 1);
      if MintLost(run[i - 1], run[i]) {
        LostJustNow(run, i);
      } else if MintLostBefore(run, i - 1) {
        LostEarlier(run, i - 1, i);
      }
    }
  }

  lemma LostJustNow(run: seq<System>, i: nat)
    requires 0 < i < |run| && MintLost(run[i - 1], run[i])
    ensures MintLostBefore(run, i)
  {
    assert MintLost(run[i - 1], run[i - 1 + 1]);
    hide MintLost;
  }

  lemma LostEarlier(run: seq<System>, i: nat, j: nat)
    requires i <= j < |run| && MintLostBefore(run, i)
    ensures MintLostBefore(run, j)
  {
  }

  /** A report is found or created: by the pipeline's mint or by somebody opening it. */
  predicate Mints(s: System, s': System) { GeoMint(s, s') || ReportOpened(s, s') }

  ghost predicate MintedBefore(run: seq<System>, i: nat)
    requires i < |run|
  {
    exists k: nat :: k < i && Mints(run[k], run[k + 1])
  }

  lemma OnlyMintsReport(s: System, s': System)
    requires Next(s, s')
    ensures s'.w.report <==> s.w.report || Mints(s, s')
  {
    hide HonestRow, FusedRow, LatestIndex, GoodOverlay, Converged, SchemaValid, Terminal, LidarAvailable;
  }

  lemma MintedBeforeStep(run: seq<System>, i: nat)
    requires 0 < i < |run|
    ensures MintedBefore(run, i) <==> MintedBefore(run, i - 1) || Mints(run[i - 1], run[i])
  {
    hide Mints;
    if Mints(run[i - 1], run[i]) {
      assert Mints(run[i - 1], run[i - 1 + 1]);
    }
  }

  lemma {:induction false} ReportIffMinted(run: seq<System>, i: nat)
    requires IsRun(run) && i < |run|
    ensures run[i].w.report <==> MintedBefore(run, i)
  {
    hide Init, Next, IsRun, Mints;
    if i == 0 {
      StartsEmpty(run);
    } else {
      RunStep(run, i);
      OnlyMintsReport(run[i - 1], run[i]);
      ReportIffMinted(run, i - 1);
      MintedBeforeStep(run, i);
    }
  }

  /**
   A ready job whose mint has ended has a report if and only if no mint of it was lost to the store, or another one
   was made.
   */
  lemma ReadyJobHasReportIff(run: seq<System>, i: nat)
    requires IsRun(run) && i < |run| && run[i].w.status.Ready? && !run[i].geo.GeoMinting?
    ensures run[i].w.report <==> !MintLostBefore(run, i) || MintedBefore(run, i)
  {
    ReadyHasMeasurement(run, i);
    MeasuredJobHasReport(run, i);
    ReportIffMinted(run, i);
    hide IsRun, MintLostBefore, MintedBefore;
  }

  lemma Extend(run: seq<System>, s': System)
    requires IsRun(run) && Next(run[|run| - 1], s')
    ensures IsRun(run + [s'])
  {
    hide Next, Init;
  }

  /** The comment that a ready job always has a report is false: not before the mint, and not after a lost one. */
  lemma ReadyWithoutReport() returns (run: seq<System>)
    ensures IsRun(run) && |run| == 11
    ensures run[9].w.status.Ready? && run[9].geo.GeoMinting? && !run[9].w.report
    ensures run[10].w.status.Ready? && run[10].geo.GeoIdle? && !run[10].w.report && MintLost(run[9], run[10])
  {
    var lidar := Lidar(true, "LIDAR_AVAILABLE", Some("points"));
    var row := Row(1, Some("f"), [], [], Some(lidar), [], [], None, None, Fusion, 0.5, [], map[],
                   Site(None, Geocode(None, None, None), None));
    assert HonestRow(row) by { assert (0.5 * 10000.0).Floor == 5000; }
    var s := System(World(Pending, NoNote, [], map[], false), GeoIdle, FusIdle, map[], 0, 0.7);
    run := [s];
    hide HonestRow;
    run := StepOn(run, s.(geo := GeoRunning(0)));
    for n := 0 to |PROGRESS|
      invariant IsRun(run) && |run| == n + 2
      invariant run[n + 1] == s.(geo := GeoRunning(n), w := s.w.(status := if n == 0 then Pending else PROGRESS[n - 1]))
    {
      var last := run[n + 1];
      assert GeoAdvance(last, last.(geo := GeoRunning(n + 1), w := last.w.(status := PROGRESS[n])));
      run := StepOn(run, last.(geo := GeoRunning(n + 1), w := last.w.(status := PROGRESS[n])));
    }
    var running := run[7];
    var stamped := running.(geo := GeoStamped(row), now := 1);
    assert GeoStamp(running, stamped);
    run := StepOn(run, stamped);
    var committed := stamped.(geo := GeoMinting, w := stamped.w.(status := Ready, rows := [row]));
    assert stamped.w.rows + [row] == [row];
    assert GeoCommit(stamped, committed);
    run := StepOn(run, committed);
    assert GeoMintRaises(committed, committed.(geo := GeoIdle));
    run := StepOn(run, committed.(geo := GeoIdle));
  }

  lemma StepOn(run: seq<System>, s': System) returns (longer: seq<System>)
    requires IsRun(run) && GeoNext(run[|run| - 1], s')
    ensures IsRun(longer) && longer == run + [s']
  {
    Extend(run, s');
    longer := run + [s'];
  }
}
