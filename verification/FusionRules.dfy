/** The pure part of capture fusion: confidence, provenance and the fused row (`FusionOrchestrator`). */
module FusionRules {
  import opened Wrappers
  import opened Rounding
  import opened PipelineTypes

  const ICP_RMSE_FAIL_THRESHOLD := 0.5

  datatype FusedGeometry = FusedGeometry(
    footprint: Option<Polygon>,
    roofOutline: Option<Polygon>,
    facets: seq<Facet>,
    features: seq<Feature>,
    totalAreaSqFt: Option<real>,
    pitchRatio: Option<real>)

  /** A schema-valid `FuseCaptureResponse`. */
  datatype FuseReply = FuseReply(
    measurement: Option<FusedGeometry>,
    icpRmse: Option<real>,
    arkitToUtm: Option<seq<real>>,
    utmEpsg: Option<int>)

  /** The response schema bounds the residual below by zero. */
  predicate SchemaValid(reply: FuseReply) { reply.icpRmse.Some? ==> reply.icpRmse.value >= 0.0 }

  predicate Converged(reply: FuseReply) {
    reply.measurement.Some? && reply.icpRmse.Some? && reply.icpRmse.value < ICP_RMSE_FAIL_THRESHOLD
  }

  datatype Session = Session(id: string, meshRef: string)

  function FusedConfidence(prior: real, rmse: real): real {
    var bonus := Max(Min((0.5 - rmse) * 0.1, 0.15), 0.0);
    Round4(Clamp(prior + 0.05 + bonus, prior, 1.0))
  }

  function With(p: Provenance, key: string, value: Option<Value>): Provenance {
    if value.Some? then p[key := value.value] else p
  }

  function FusedProvenance(prior: Provenance, reply: FuseReply, session: Session): Provenance
    requires reply.icpRmse.Some?
  {
    var base := prior[RMSE_KEY := Number(reply.icpRmse.value)][SESSION_KEY := Text(session.id)]
                     [MESH_KEY := Text(session.meshRef)];
    var transform := match reply.arkitToUtm case None => None case Some(t) => Some(Floats(t));
    var epsg := match reply.utmEpsg case None => None case Some(e) => Some(Integer(e));
    With(With(base, TRANSFORM_KEY, transform), EPSG_KEY, epsg)
  }

  function FusedRow(prior: Row, reply: FuseReply, session: Session, now: int): Row
    requires Converged(reply)
  {
    var g := reply.measurement.value;
    Row(now, None, g.footprint.GetOr(prior.footprint), g.roofOutline.GetOr(prior.roofOutline), prior.lidar,
        g.facets, g.features, g.totalAreaSqFt, g.pitchRatio, DeviceFused,
        FusedConfidence(prior.confidence, reply.icpRmse.value), [],
        FusedProvenance(prior.provenance, reply, session), prior.site)
  }

  predicate Lookup(p: Provenance, key: string, value: Option<Value>) {
    if value.Some? then key in p && p[key] == value.value else key !in p
  }

  /** The stored residual, transform and projection all belong to `reply`; every other key is the prior's. */
  predicate ProvenanceFrom(p: Provenance, prior: Provenance, reply: FuseReply) {
    && reply.icpRmse.Some?
    && Lookup(p, RMSE_KEY, Some(Number(reply.icpRmse.value)))
    && Lookup(p, TRANSFORM_KEY, match reply.arkitToUtm case None => None case Some(t) => Some(Floats(t)))
    && Lookup(p, EPSG_KEY, match reply.utmEpsg case None => None case Some(e) => Some(Integer(e)))
    && p - FUSION_KEYS == prior - FUSION_KEYS
  }

  /**
   The merge never mixes two responses, if and only if the prior carries no transform or projection that this response
   leaves out; a pipeline row, which has no fusion keys, never does.
   */
  lemma ProvenanceIsFromOneReplyIff(prior: Provenance, reply: FuseReply, session: Session)
    requires reply.icpRmse.Some?
    ensures ProvenanceFrom(FusedProvenance(prior, reply, session), prior, reply) <==>
      (reply.arkitToUtm.None? ==> TRANSFORM_KEY !in prior) && (reply.utmEpsg.None? ==> EPSG_KEY !in prior)
    ensures var p := FusedProvenance(prior, reply, session);
      && p[RMSE_KEY] == Number(reply.icpRmse.value) && p[SESSION_KEY] == Text(session.id)
         && p[MESH_KEY] == Text(session.meshRef)
      && p - FUSION_KEYS == prior - FUSION_KEYS
  {
    var p := FusedProvenance(prior, reply, session);
    KeysDistinct();
    assert p - FUSION_KEYS == prior - FUSION_KEYS;
  }

  lemma KeysDistinct()
    ensures |RMSE_KEY| == 17 && |SESSION_KEY| == 17 && RMSE_KEY[7] == 'i' && SESSION_KEY[7] == 's'
    ensures |MESH_KEY| == 23 && |TRANSFORM_KEY| == 23 && MESH_KEY[7] == 'c' && TRANSFORM_KEY[7] == 'a'
    ensures |EPSG_KEY| == 15
  {
  }

  /** The value: prior plus 0.05 plus a tenth of what the residual is below half a metre, at most 1, to four places. */
  lemma FusedConfidenceValue(prior: real, rmse: real)
    requires 0.0 <= prior <= 1.0 && 0.0 <= rmse < 0.5
    ensures var raised := prior + 0.05 + 0.1 * (0.5 - rmse);
      var kept := if raised <= 1.0 then raised else 1.0;
      kept - 0.00005 < FusedConfidence(prior, rmse) <= kept + 0.00005
  {
    var raised := Clamp(prior + 0.05 + Max(Min((0.5 - rmse) * 0.1, 0.15), 0.0), prior, 1.0);
    hide Round4;
    Round4Properties(raised);
  }

  /** Confidence rises by at least 0.05 and at most 0.10, unless it reaches 1; a perfect fit earns the whole 0.10. */
  lemma FusedConfidenceBounds(prior: real, rmse: real)
    requires 0.0 <= prior <= 1.0 && FourPlaces(prior) && 0.0 <= rmse
    ensures var c := FusedConfidence(prior, rmse);
      && prior <= c && Min(1.0, prior + 0.05) <= c <= Min(1.0, prior + 0.1) && FourPlaces(c)
      && (rmse == 0.0 ==> c == Min(1.0, prior + 0.1))
  {
    var bonus := Max(Min((0.5 - rmse) * 0.1, 0.15), 0.0);
    assert 0.0 <= bonus <= 0.05;
    var raised := Clamp(prior + 0.05 + bonus, prior, 1.0);
    StepsAreFourPlaces(prior);
    assert FourPlaces(1.0);
    var low, high := Min(1.0, prior + 0.05), Min(1.0, prior + 0.1);
    assert low <= raised <= high && FourPlaces(low) && FourPlaces(high);
    assert rmse == 0.0 ==> raised == high;
    hide Round4, FourPlaces;
    Round4Between(raised, low, high);
    Round4Properties(raised);
  }

  /** Confidence never falls when the alignment is tighter. */
  lemma FusedConfidenceIsAntitone(prior: real, tight: real, loose: real)
    requires 0.0 <= prior <= 1.0 && tight <= loose
    ensures FusedConfidence(prior, loose) <= FusedConfidence(prior, tight)
  {
    var b, c := Max(Min((0.5 - tight) * 0.1, 0.15), 0.0), Max(Min((0.5 - loose) * 0.1, 0.15), 0.0);
    hide Round4;
    Round4Monotone(Clamp(prior + 0.05 + c, prior, 1.0), Clamp(prior + 0.05 + b, prior, 1.0));
  }

  lemma StepsAreFourPlaces(x: real)
    requires FourPlaces(x)
    ensures FourPlaces(x + 0.05) && FourPlaces(x + 0.1)
  {
    FloorOfSum((x * 10000.0).Floor + 500, 0.0);
    FloorOfSum((x * 10000.0).Floor + 1000, 0.0);
  }
}
