/** The invariant of the measurement machine and the proof that every step keeps it. */
module SystemInvariants {
  import opened Wrappers
  import opened Rounding
  import opened PipelineTypes
  import opened FusionRules
  import opened MeasurementAssembler
  import opened MeasurementSystem

  // -------------------------------------------------------------- components

  predicate StatusOk(status: Status, rows: seq<Row>, geo: GeoPc) {
    && (status.Ready? ==> rows != [])
    && (Working(geo) ==> !Terminal(status))
    && (geo.GeoMinting? ==> status.Ready?)
    && (geo.GeoRunning? ==> geo.done <= |PROGRESS| && (geo.done > 0 ==> status == PROGRESS[geo.done - 1]))
  }

  /** Stamps in `rows` are pairwise distinct and not in the future. */
  predicate StampsOk(rows: seq<Row>, now: int) {
    && (forall i :: 0 <= i < |rows| ==> rows[i].generatedAt <= now)
    && (forall i, j :: 0 <= i < j < |rows| ==> rows[i].generatedAt != rows[j].generatedAt)
  }

  /** A stamp not yet committed is unused. */
  predicate StampUnused(stamp: int, rows: seq<Row>, now: int) {
    stamp <= now && forall i :: 0 <= i < |rows| ==> rows[i].generatedAt != stamp
  }

  predicate PendingStampsOk(rows: seq<Row>, geo: GeoPc, fus: FusPc, now: int) {
    && (geo.GeoStamped? ==> StampUnused(geo.row.generatedAt, rows, now))
    && (fus.FusStamped? ==> StampUnused(fus.row.generatedAt, rows, now))
    && (geo.GeoStamped? && fus.FusStamped? ==> geo.row.generatedAt != fus.row.generatedAt)
  }

  /** A pipeline row, except that its warnings may have been extended since. */
  predicate PipelineRow(r: Row) {
    && !Fused(r) && 0.0 <= r.confidence <= 1.0 && FourPlaces(r.confidence) && r.provenance.Keys !! FUSION_KEYS
    && (r.source.Imagery? ==> r.confidence <= IMAGERY_CONFIDENCE_CAP && exists w :: w in r.warnings && AboutLidar(w))
  }

  /** `r` refines `prior` by `reply`, and mixes in nothing from any other response. */
  predicate Refines(r: Row, prior: Row, reply: FuseReply) {
    && Fused(r) && PipelineRow(prior) && LidarAvailable(prior) && prior.generatedAt < r.generatedAt
    && Converged(reply) && SchemaValid(reply)
    && prior.confidence <= r.confidence
    && Min(1.0, prior.confidence + 0.05) <= r.confidence <= Min(1.0, prior.confidence + 0.1)
    && ProvenanceFrom(r.provenance, prior.provenance, reply)
    && r.footprint == reply.measurement.value.footprint.GetOr(prior.footprint)
    && r.roofOutline == reply.measurement.value.roofOutline.GetOr(prior.roofOutline)
    && r.facets == reply.measurement.value.facets && r.features == reply.measurement.value.features
    && r.totalAreaSqFt == reply.measurement.value.totalAreaSqFt && r.pitchRatio == reply.measurement.value.pitchRatio
    && r.lidar == prior.lidar && r.site == prior.site && r.fingerprint.None?
  }

  predicate RowOk(r: Row) { Distinct(r.warnings) && (Fused(r) || PipelineRow(r)) }

  predicate RowsOk(rows: seq<Row>) { forall i :: 0 <= i < |rows| ==> RowOk(rows[i]) }

  /** Every fused row has a recorded origin that it refines, and only fused rows have one. */
  predicate OriginsOk(rows: seq<Row>, origins: map<nat, Origin>) {
    && (forall j :: j in origins ==> j < |rows| && origins[j].prior < j)
    && (forall j :: 0 <= j < |rows| && Fused(rows[j]) ==> j in origins)
    && (forall j :: j in origins ==>
         j < |rows| && origins[j].prior < |rows| && Refines(rows[j], rows[origins[j].prior], origins[j].reply))
  }

  /** Every fused row older than `stamp` is older than `prior` too. */
  predicate NoFusedBetween(rows: seq<Row>, prior: int, stamp: int) {
    forall i :: 0 <= i < |rows| && Fused(rows[i]) && rows[i].generatedAt < stamp ==> rows[i].generatedAt < prior
  }

  predicate Separated(rows: seq<Row>, origins: map<nat, Origin>) {
    forall j :: j in origins && j < |rows| && origins[j].prior < |rows| ==>
      NoFusedBetween(rows, rows[origins[j].prior].generatedAt, rows[j].generatedAt)
  }

  predicate InHistory(rows: seq<Row>, p: Snap) { p.index < |rows| && rows[p.index] == p.row }

  /** Every fused row is older than `stamp`. */
  predicate FusedBefore(rows: seq<Row>, stamp: int) {
    forall i :: 0 <= i < |rows| && Fused(rows[i]) ==> rows[i].generatedAt < stamp
  }

  /** `p` is a current pipeline row younger than every fused row. */
  predicate FreshPrior(rows: seq<Row>, p: Snap) {
    InHistory(rows, p) && !Fused(p.row) && FusedBefore(rows, p.row.generatedAt)
  }

  predicate FusionOk(rows: seq<Row>, fus: FusPc) {
    match fus
    case FusIdle => true
    case FusRescue => true
    case FusChecked => var latest := Snapshot(rows); latest.Some? ==> !Fused(latest.value.row)
    case FusReady(None) => forall i :: 0 <= i < |rows| ==> !Fused(rows[i])
    case FusReady(Some(p)) => FreshPrior(rows, p)
    case FusStamped(p, reply, session, row) =>
      FreshPrior(rows, p) && Refines(row, p.row, reply) && row == FusedRow(p.row, reply, session, row.generatedAt)
    case FusWarning(target, _) => InHistory(rows, target)
  }

  predicate OverlaysOk(overlays: map<nat, Overlay>, threshold: real) {
    forall c :: c in overlays ==> GoodOverlay(overlays[c], threshold)
  }

  predicate Inv(s: System) {
    && StatusOk(s.w.status, s.w.rows, s.geo)
    && StampsOk(s.w.rows, s.now)
    && PendingStampsOk(s.w.rows, s.geo, s.fus, s.now)
    && RowsOk(s.w.rows)
    && (s.geo.GeoStamped? ==> HonestRow(s.geo.row))
    && OriginsOk(s.w.rows, s.origins)
    && Separated(s.w.rows, s.origins)
    && FusionOk(s.w.rows, s.fus)
    && OverlaysOk(s.w.overlays, s.threshold)
  }

  lemma InitInv(s: System)
    requires Init(s)
    ensures Inv(s)
  {
  }

  // ------------------------------------------------------ stamps and the clock

  /** A later clock reading is unused, and no earlier fact about stamps is lost. */
  lemma ClockAdvances(rows: seq<Row>, now: int, now': int)
    requires StampsOk(rows, now) && now <= now'
    ensures StampsOk(rows, now')
    ensures now < now' ==> StampUnused(now', rows, now')
    ensures forall stamp :: StampUnused(stamp, rows, now) ==> StampUnused(stamp, rows, now')
  {
  }

  lemma StampCommits(rows: seq<Row>, r: Row, now: int)
    requires StampsOk(rows, now) && StampUnused(r.generatedAt, rows, now)
    ensures StampsOk(rows + [r], now)
    ensures forall stamp :: StampUnused(stamp, rows, now) && stamp != r.generatedAt ==>
        StampUnused(stamp, rows + [r], now)
  {
  }

  lemma RowsOkAppend(rows: seq<Row>, r: Row)
    requires RowsOk(rows) && RowOk(r)
    ensures RowsOk(rows + [r])
  {
    hide RowOk;
  }

  // ---------------------------------------------------------- geometry steps

  lemma GeoPreserves(s: System, s': System)
    requires Inv(s) && GeoNext(s, s')
    ensures Inv(s')
  {
    hide RowsOk, OriginsOk, Separated, FusionOk, OverlaysOk, StampsOk, StampUnused, HonestRow;
    if GeoCommit(s, s') {
      GeoCommitPreserves(s, s');
    } else if GeoStamp(s, s') {
      ClockAdvances(s.w.rows, s.now, s'.now);
      assert s.fus.FusStamped? ==> s.fus.row.generatedAt <= s.now by { PendingStampsArePast(s); }
    }
  }

  lemma PendingStampsArePast(s: System)
    requires PendingStampsOk(s.w.rows, s.geo, s.fus, s.now)
    ensures s.fus.FusStamped? ==> s.fus.row.generatedAt <= s.now
    ensures s.geo.GeoStamped? ==> s.geo.row.generatedAt <= s.now
  {
  }

  lemma GeoCommitPreserves(s: System, s': System)
    requires Inv(s) && GeoCommit(s, s')
    ensures Inv(s')
  {
    var rows, r := s.w.rows, s.geo.row;
    assert RowOk(r) && !Fused(r);
    hide RowsOk, OriginsOk, Separated, FusionOk, OverlaysOk, StampsOk, StampUnused, HonestRow, RowOk;
    StampCommits(rows, r, s.now);
    RowsOkAppend(rows, r);
    OriginsKeptByPipelineRow(rows, r, s.origins);
    SeparatedKeptByPipelineRow(rows, r, s.origins);
    FusionKeptByPipelineRow(rows, r, s.fus);
  }

  lemma OriginsKeptByPipelineRow(rows: seq<Row>, r: Row, origins: map<nat, Origin>)
    requires OriginsOk(rows, origins) && !Fused(r)
    ensures OriginsOk(rows + [r], origins)
  {
    hide Refines;
  }

  lemma SeparatedKeptByPipelineRow(rows: seq<Row>, r: Row, origins: map<nat, Origin>)
    requires Separated(rows, origins) && OriginsOk(rows, origins) && !Fused(r)
    ensures Separated(rows + [r], origins)
  {
    hide Refines;
    forall j | j in origins
      ensures NoFusedBetween(rows + [r], rows[origins[j].prior].generatedAt, rows[j].generatedAt)
    {
      assert NoFusedBetween(rows, rows[origins[j].prior].generatedAt, rows[j].generatedAt);
    }
  }

  lemma FusionKeptByPipelineRow(rows: seq<Row>, r: Row, fus: FusPc)
    requires FusionOk(rows, fus) && !Fused(r)
    ensures FusionOk(rows + [r], fus)
  {
    hide Refines, LatestIndex;
    LatestAfterAppend(rows, r);
  }

  // ------------------------------------------------------------ fusion steps

  lemma FusCommitPreserves(s: System, s': System)
    requires Inv(s) && FusCommit(s, s')
    ensures Inv(s')
  {
    var rows, r, p := s.w.rows, s.fus.row, s.fus.base;
    assert RowOk(r);
    assert FreshPrior(rows, p) && Refines(r, p.row, s.fus.reply);
    hide RowsOk, OriginsOk, Separated, OverlaysOk, StampsOk, StampUnused, HonestRow, RowOk, Refines, FreshPrior;
    StampCommits(rows, r, s.now);
    RowsOkAppend(rows, r);
    OriginsGrow(rows, r, p, s.fus.reply, s.origins);
    SeparatedGrows(rows, r, p, s.fus.reply, s.origins);
  }

  lemma OriginsGrow(rows: seq<Row>, r: Row, p: Snap, reply: FuseReply, origins: map<nat, Origin>)
    requires OriginsOk(rows, origins) && FreshPrior(rows, p) && Refines(r, p.row, reply)
    ensures OriginsOk(rows + [r], origins[|rows| := Origin(p.index, reply)])
  {
    hide Refines;
  }

  lemma SeparatedGrows(rows: seq<Row>, r: Row, p: Snap, reply: FuseReply, origins: map<nat, Origin>)
    requires OriginsOk(rows, origins) && Separated(rows, origins) && FreshPrior(rows, p) && Refines(r, p.row, reply)
    ensures Separated(rows + [r], origins[|rows| := Origin(p.index, reply)])
  {
    var rows', origins' := rows + [r], origins[|rows| := Origin(p.index, reply)];
    assert p.row.generatedAt < r.generatedAt && !Fused(p.row);
    assert forall j :: j in origins ==> j < |rows| && origins[j].prior < |rows| && Fused(rows[j]);
    hide Refines, OriginsOk;
    forall j | j in origins' && j < |rows'| && origins'[j].prior < |rows'|
      ensures NoFusedBetween(rows', rows'[origins'[j].prior].generatedAt, rows'[j].generatedAt)
    {
      if j < |rows| {
        assert NoFusedBetween(rows, rows[origins[j].prior].generatedAt, rows[j].generatedAt);
      }
    }
  }

  lemma WarningPreserves(s: System, s': System)
    requires Inv(s) && FusWriteWarning(s, s')
    ensures Inv(s')
    ensures Grown(s.w.rows, s'.w.rows)
  {
    var rows, t, m := s.w.rows, s.fus.target, s.fus.message;
    assert rows[t.index] == t.row;
    if m !in t.row.warnings {
      OneRowGrows(rows, t, m);
    }
    GrownKeepsRows(s.w.rows, s'.w.rows, s.origins, s.now);
    hide RowsOk, OriginsOk, Separated, OverlaysOk, StampsOk, HonestRow, Grown;
  }

  /** Same rows, some with longer warning lists. */
  predicate Grown(rows: seq<Row>, rows': seq<Row>) {
    |rows'| == |rows| && forall i :: 0 <= i < |rows| ==> OnlyWarningsGrew(rows[i], rows'[i])
  }

  lemma OneRowGrows(rows: seq<Row>, t: Snap, m: string)
    requires InHistory(rows, t) && RowsOk(rows) && m !in t.row.warnings
    ensures var rows' := rows[t.index := t.row.(warnings := t.row.warnings + [m])];
      Grown(rows, rows') && forall i :: 0 <= i < |rows| ==> Distinct(rows'[i].warnings)
  {
    assert RowOk(t.row);
    assert forall i :: 0 <= i < |rows| ==> RowOk(rows[i]);
    hide PipelineRow;
  }

  lemma GrownRow(r: Row, r': Row)
    requires OnlyWarningsGrew(r, r')
    ensures (Fused(r) <==> Fused(r')) && r'.generatedAt == r.generatedAt
    ensures PipelineRow(r) ==> PipelineRow(r')
  {
    if PipelineRow(r) && r.source.Imagery? {
      var w :| w in r.warnings && AboutLidar(w);
      assert w in r'.warnings;
    }
  }

  lemma GrownRefinement(r: Row, r': Row, prior: Row, prior': Row, reply: FuseReply)
    requires OnlyWarningsGrew(r, r') && OnlyWarningsGrew(prior, prior') && Refines(r, prior, reply)
    ensures Refines(r', prior', reply)
  {
    GrownRow(prior, prior');
    hide PipelineRow, ProvenanceFrom;
  }

  lemma GrownKeepsRows(rows: seq<Row>, rows': seq<Row>, origins: map<nat, Origin>, now: int)
    requires Grown(rows, rows') && forall i :: 0 <= i < |rows| ==> Distinct(rows'[i].warnings)
    requires RowsOk(rows) && OriginsOk(rows, origins) && Separated(rows, origins) && StampsOk(rows, now)
    ensures RowsOk(rows') && OriginsOk(rows', origins) && Separated(rows', origins) && StampsOk(rows', now)
    ensures forall stamp :: StampUnused(stamp, rows, now) ==> StampUnused(stamp, rows', now)
  {
    forall i | 0 <= i < |rows|
      ensures (Fused(rows[i]) <==> Fused(rows'[i])) && rows'[i].generatedAt == rows[i].generatedAt && RowOk(rows'[i])
    {
      assert RowOk(rows[i]);
      GrownRow(rows[i], rows'[i]);
    }
    hide RowOk, Refines;
    assert OriginsOk(rows', origins) by { GrownKeepsOrigins(rows, rows', origins); }
    forall j | j in origins && j < |rows'| && origins[j].prior < |rows'|
      ensures NoFusedBetween(rows', rows'[origins[j].prior].generatedAt, rows'[j].generatedAt)
    {
      assert NoFusedBetween(rows, rows[origins[j].prior].generatedAt, rows[j].generatedAt);
    }
  }

  lemma GrownKeepsOrigins(rows: seq<Row>, rows': seq<Row>, origins: map<nat, Origin>)
    requires Grown(rows, rows') && OriginsOk(rows, origins)
    requires forall i :: 0 <= i < |rows| ==> (Fused(rows[i]) <==> Fused(rows'[i]))
    ensures OriginsOk(rows', origins)
  {
    hide Refines;
    forall j | j in origins ensures Refines(rows'[j], rows'[origins[j].prior], origins[j].reply) {
      GrownRefinement(rows[j], rows'[j], rows[origins[j].prior], rows'[origins[j].prior], origins[j].reply);
    }
  }

  lemma FusReadPreserves(s: System, s': System)
    requires Inv(s) && FusReadPrior(s, s')
    ensures Inv(s')
  {
    LatestIsFresh(s.w.rows, s.now);
    hide RowsOk, OriginsOk, Separated, OverlaysOk, StampsOk, HonestRow, FreshPrior, LatestIndex;
  }

  lemma LatestIsFresh(rows: seq<Row>, now: int)
    requires StampsOk(rows, now)
    ensures var latest := Snapshot(rows); latest.Some? && !Fused(latest.value.row) ==> FreshPrior(rows, latest.value)
    ensures Snapshot(rows).Some? ==> InHistory(rows, Snapshot(rows).value)
  {
    hide LatestIndex;
  }

  lemma FusStampPreserves(s: System, s': System)
    requires Inv(s) && FusStamp(s, s')
    ensures Inv(s')
  {
    var p := s'.fus.base;
    assert RowOk(s.w.rows[p.index]);
    assert FreshPrior(s.w.rows, p) && PipelineRow(p.row) && p.row.generatedAt <= s.now;
    StampRefines(p.row, s'.fus.reply, s'.fus.session, s'.now);
    ClockAdvances(s.w.rows, s.now, s'.now);
    PendingStampsArePast(s);
    hide RowsOk, OriginsOk, Separated, OverlaysOk, StampsOk, StampUnused, HonestRow, Refines, FusedConfidence,
        FusedProvenance, FreshPrior;
  }

  lemma StampRefines(prior: Row, reply: FuseReply, session: Session, now: int)
    requires PipelineRow(prior) && LidarAvailable(prior) && prior.generatedAt < now && Converged(reply)
        && SchemaValid(reply)
    ensures Refines(FusedRow(prior, reply, session, now), prior, reply)
  {
    FusedConfidenceBounds(prior.confidence, reply.icpRmse.value);
    ProvenanceIsFromOneReplyIff(prior.provenance, reply, session);
    hide FusedConfidence, FusedProvenance, ProvenanceFrom, PipelineRow;
  }

  /** The steps that read, decide or give up write no row. */
  lemma FusQuietPreserves(s: System, s': System)
    requires Inv(s)
    requires FusGuard(s, s') || FusDecideWarning(s, s') || FusAbandon(s, s') || FusNoteError(s, s')
        || FusExhausted(s, s')
    ensures Inv(s')
  {
    LatestIsFresh(s.w.rows, s.now);
    assert s.fus.FusReady? && s.fus.prior.Some? ==> InHistory(s.w.rows, s.fus.prior.value);
    hide RowsOk, OriginsOk, Separated, OverlaysOk, StampsOk, StatusOk, HonestRow, FreshPrior, InHistory, LatestIndex,
        StampUnused;
  }

  lemma FusPreserves(s: System, s': System)
    requires Inv(s) && FusNext(s, s')
    ensures Inv(s')
  {
    hide Inv, FusCommit, FusWriteWarning, FusReadPrior, FusStamp, FusGuard, FusDecideWarning, FusAbandon, FusNoteError,
        FusExhausted;
    if FusCommit(s, s') {
      FusCommitPreserves(s, s');
    } else if FusWriteWarning(s, s') {
      WarningPreserves(s, s');
    } else if FusReadPrior(s, s') {
      FusReadPreserves(s, s');
    } else if FusStamp(s, s') {
      FusStampPreserves(s, s');
    } else {
      FusQuietPreserves(s, s');
    }
  }

  // -------------------------------------------------------- projection steps

  lemma ProjPreserves(s: System, s': System)
    requires Inv(s) && ProjNext(s, s')
    ensures Inv(s')
  {
    hide RowsOk, OriginsOk, Separated, StampsOk, HonestRow, FusionOk, GoodOverlay;
  }

  lemma ReportPreserves(s: System, s': System)
    requires Inv(s) && ReportOpened(s, s')
    ensures Inv(s')
  {
  }

  lemma NextPreserves(s: System, s': System)
    requires Inv(s) && Next(s, s')
    ensures Inv(s')
  {
    hide Inv;
    if GeoNext(s, s') { GeoPreserves(s, s'); }
    if FusNext(s, s') { FusPreserves(s, s'); }
    if ProjNext(s, s') { ProjPreserves(s, s'); }
    if ReportOpened(s, s') { ReportPreserves(s, s'); }
  }
}
