/** Stage replies, and the pure transforms that fold them into one measurement row (`MeasurementAssembler`). */
module MeasurementAssembler {
  import opened Wrappers
  import opened Rounding
  import opened PipelineTypes
  import opened FusionRules

  const IMAGERY_CONFIDENCE_CAP := 0.6

  /** How a sidecar call can fail; `CrashFault` is any exception outside `SidecarClient::Error`. */
  datatype Fault = SchemaFault | TimeoutFault | SidecarFault(className: string) | CrashFault

  datatype ResolveReply = ResolveReply(polygons: seq<Polygon>, parcel: Option<Polygon>, geocode: Geocode)
  datatype ImageryReply = ImageryReply(tileRef: string, warnings: seq<string>)
  datatype LidarReply = LidarReply(lidar: Lidar, utmZone: Option<int>, warnings: seq<string>)
  datatype RefineReply = RefineReply(polygon: Polygon, backend: string, warnings: seq<string>)
  datatype GeometryReply = GeometryReply(
    facets: seq<Facet>, confidence: Option<real>, totalAreaSqFt: Option<real>, pitchRatio: Option<real>,
    perimeterFt: Option<real>, source: string, warnings: seq<string>)

  const VLM_JOIN_TIMEOUT_SECONDS := 60

  datatype Detection = Detected(features: seq<Feature>) | DetectorRaised(message: string)

  /**
   How the detector thread behaves: what it yields, and for how long it runs, if it ever ends; and how long the
   foreground works between starting it and joining it or giving up.
   */
  datatype VlmScript = VlmScript(detection: Detection, runsFor: Option<nat>, foreground: nat)

  /** Report minting after the commit: done, overtaken by another mint between lookup and validation, or failed. */
  datatype MintEnd = Minted | Overtaken | MintFailed

  /** The environment's choices for one pipeline run. */
  datatype Script = Script(
    resolve: Result<ResolveReply, Fault>,
    imagery: Result<ImageryReply, Fault>,
    lidar: Result<LidarReply, Fault>,
    refine: Result<RefineReply, Fault>,
    geometry: Result<GeometryReply, Fault>,
    vlm: VlmScript,
    documentValid: bool,
    insertRaises: bool,
    mint: MintEnd,
    silenced: set<Status>)

  // ------------------------------------------------------------ degradation

  /** Class name of the rescued transport error. */
  function FaultName(f: Fault): string
    requires Absorbed(f)
  {
    if f.SidecarFault? then f.className else "SidecarClient::TimeoutError"
  }

  /** A stage failure the pipeline absorbs instead of failing the job. */
  predicate Absorbed(f: Fault) { f.TimeoutFault? || f.SidecarFault? }

  /** What the lidar stage hands on: the reply, or a LIDAR_MISSING stand-in flagged `degraded`. */
  datatype LidarOutcome = LidarOutcome(reply: LidarReply, degraded: bool)

  function LidarStandIn(f: Fault): LidarOutcome
    requires Absorbed(f)
  {
    LidarOutcome(LidarReply(Lidar(false, "LIDAR_MISSING", None), None, ["lidar_unavailable: " + FaultName(f)]), true)
  }

  /** Only the stand-in is ever flagged degraded. */
  ghost predicate StandInIfDegraded(o: LidarOutcome) {
    o.degraded ==> exists f :: Absorbed(f) && o == LidarStandIn(f)
  }

  function RefineStandIn(prior: Polygon, f: Fault): (Polygon, Option<string>, seq<string>)
    requires Absorbed(f)
  {
    (prior, None, ["outline_unrefined: " + FaultName(f)])
  }

  /** The warning recorded when the run takes the imagery path. */
  function LidarNote(o: LidarOutcome): string {
    if o.degraded then (if o.reply.warnings == [] then "" else o.reply.warnings[0])
    else "lidar_missing: " + (if o.reply.warnings == [] then o.reply.lidar.status else o.reply.warnings[0])
  }

  function FeaturesOf(d: Detection, inTime: bool): seq<Feature> {
    if inTime && d.Detected? then d.features else []
  }

  function NoteOf(d: Detection, inTime: bool): seq<string> {
    if !inTime then ["vlm_failed: detection timed out after 60s"]
    else if d.DetectorRaised? then ["vlm_failed: " + d.message]
    else []
  }

  /** The thread ends before the join that follows the foreground work gives up on it. */
  predicate InTime(v: VlmScript) {
    v.runsFor.Some? && v.runsFor.value <= v.foreground + VLM_JOIN_TIMEOUT_SECONDS
  }

  /** The features a run's join yields, and the warning it records. */
  function VlmFeatures(v: VlmScript): seq<Feature> { FeaturesOf(v.detection, InTime(v)) }

  function VlmNote(v: VlmScript): seq<string> { NoteOf(v.detection, InTime(v)) }

  // ---------------------------------------------------------------- assembly

  function CapAndRound(combined: real, lidarAvailable: bool): real {
    var capped := if lidarAvailable then combined else Min(combined, IMAGERY_CONFIDENCE_CAP);
    Round4(Clamp(capped, 0.0, 1.0))
  }

  /** Product of the stage confidences that are present; an empty product is 1. */
  function OverallConfidence(geocode: Option<real>, geometry: Option<real>, lidarAvailable: bool): real {
    CapAndRound(Times(geocode.GetOr(1.0), geometry.GetOr(1.0)), lidarAvailable)
  }

  /** `Array#uniq`: first occurrences, in order. */
  function Uniq(xs: seq<string>): (r: seq<string>)
    ensures Distinct(r)
    ensures forall x :: x in r <==> x in xs
  {
    if xs == [] then []
    else
      var n := |xs| - 1;
      var r := Uniq(xs[..n]);
      assert xs == xs[..n] + [xs[n]];
      if xs[n] in r then r else r + [xs[n]]
  }

  /** Where `x` first occurs. */
  function First(xs: seq<string>, x: string): (i: nat)
    requires x in xs
    ensures i < |xs| && xs[i] == x && x !in xs[..i]
  {
    var n := |xs| - 1;
    assert xs == xs[..n] + [xs[n]];
    if x in xs[..n] then
      var i := First(xs[..n], x);
      assert xs[..n][..i] == xs[..i];
      i
    else n
  }

  /** `uniq` keeps the first occurrence of each warning and their order. */
  lemma {:induction false} UniqKeepsOrder(xs: seq<string>, i: nat, j: nat)
    requires i < j < |Uniq(xs)|
    ensures First(xs, Uniq(xs)[i]) < First(xs, Uniq(xs)[j])
  {
    var n := |xs| - 1;
    var r := Uniq(xs[..n]);
    assert xs == xs[..n] + [xs[n]];
    assert r[i] in xs[..n];
    if j < |r| {
      UniqKeepsOrder(xs[..n], i, j);
    }
  }

  function BuildProvenance(backend: Option<string>, geometrySource: string): Provenance {
    var base := map["pipeline_schema_version" := Text("1"), "detector" := Text("openrouter"),
                    "geometry_source" := Text(geometrySource)];
    With(base, "sam2_backend", match backend case None => None case Some(b) => Some(Text(b)))
  }

  /** The parts of a run that reach the row. */
  datatype Parts = Parts(
    footprint: Polygon,
    resolve: ResolveReply,
    imagery: ImageryReply,
    lidar: LidarOutcome,
    outline: Polygon,
    backend: Option<string>,
    refineWarnings: seq<string>,
    geometry: GeometryReply,
    features: seq<Feature>,
    accumulated: seq<string>)

  function SourceOf(p: Parts): Source { if p.lidar.reply.lidar.available then Fusion else Imagery }

  /** A run without a point cloud has recorded why. */
  ghost predicate LidarNoted(p: Parts) {
    StandInIfDegraded(p.lidar) && (!p.lidar.reply.lidar.available ==> LidarNote(p.lidar) in p.accumulated)
  }

  function AssembledRow(p: Parts, fingerprint: string, now: int): Row {
    Row(now, Some(fingerprint), p.footprint, p.outline, Some(p.lidar.reply.lidar), p.geometry.facets, p.features,
        p.geometry.totalAreaSqFt, p.geometry.pitchRatio, SourceOf(p),
        OverallConfidence(p.resolve.geocode.confidence, p.geometry.confidence, SourceOf(p).Fusion?),
        Uniq(p.accumulated + p.imagery.warnings + p.refineWarnings + p.geometry.warnings),
        BuildProvenance(p.backend, p.geometry.source),
        Site(p.geometry.perimeterFt, p.resolve.geocode, p.resolve.parcel))
  }

  // ---------------------------------------------------------- what it promises

  predicate HasPrefix(s: string, prefix: string) { prefix <= s }

  /** Confidence is a four-place value in [0, 1]; without lidar it never reads above the cap. */
  lemma ConfidenceIsHonest(combined: real, lidarAvailable: bool)
    ensures var c := CapAndRound(combined, lidarAvailable);
      0.0 <= c <= 1.0 && FourPlaces(c) && (!lidarAvailable ==> c <= IMAGERY_CONFIDENCE_CAP)
  {
    var kept := Clamp(if lidarAvailable then combined else Min(combined, IMAGERY_CONFIDENCE_CAP), 0.0, 1.0);
    assert FourPlaces(0.0) && FourPlaces(1.0) && FourPlaces(0.6);
    hide Round4, FourPlaces;
    Round4Between(kept, 0.0, 1.0);
    Round4Properties(kept);
    if !lidarAvailable { Round4Between(kept, 0.0, 0.6); }
  }

  /** Confidence is the product of the confidences that are there, capped without lidar, to four places. */
  lemma ConfidenceNearProduct(geocode: Option<real>, geometry: Option<real>, lidarAvailable: bool)
    requires (geocode.Some? ==> 0.0 <= geocode.value <= 1.0) && (geometry.Some? ==> 0.0 <= geometry.value <= 1.0)
    ensures var product := Times(geocode.GetOr(1.0), geometry.GetOr(1.0));
      var kept := if lidarAvailable then product else Min(product, IMAGERY_CONFIDENCE_CAP);
      kept - 0.00005 < OverallConfidence(geocode, geometry, lidarAvailable) <= kept + 0.00005
  {
    var product := Times(geocode.GetOr(1.0), geometry.GetOr(1.0));
    ProductBelow(geocode.GetOr(1.0), geometry.GetOr(1.0));
    hide Times, Round4;
    Round4Properties(if lidarAvailable then product else Min(product, IMAGERY_CONFIDENCE_CAP));
  }

  lemma CapAndRoundBelow(combined: real, bound: real, lidarAvailable: bool)
    requires 0.0 <= combined <= bound
    ensures CapAndRound(combined, lidarAvailable) <= Round4(bound)
  {
    hide Round4;
    Round4Monotone(Clamp(if lidarAvailable then combined else Min(combined, IMAGERY_CONFIDENCE_CAP), 0.0, 1.0), bound);
  }

  /** A weak stage drags the whole number down: the result never exceeds either factor, up to rounding. */
  lemma ConfidenceBelowEachFactor(geocode: real, geometry: real, lidarAvailable: bool)
    requires 0.0 <= geocode <= 1.0 && 0.0 <= geometry <= 1.0
    ensures var c := OverallConfidence(Some(geocode), Some(geometry), lidarAvailable);
      c <= Round4(geocode) && c <= Round4(geometry)
  {
    ProductBelow(geocode, geometry);
    hide Round4, CapAndRound, Times;
    CapAndRoundBelow(Times(geocode, geometry), geocode, lidarAvailable);
    CapAndRoundBelow(Times(geocode, geometry), geometry, lidarAvailable);
  }

  lemma ProductBelow(a: real, b: real)
    requires 0.0 <= a <= 1.0 && 0.0 <= b <= 1.0
    ensures 0.0 <= Times(a, b) && Times(a, b) <= a && Times(a, b) <= b
  {
    TimesSign(a, b);
    TimesSign(a, 1.0 - b);
    TimesSign(b, 1.0 - a);
  }

  /** What every row the pipeline commits satisfies, whatever the stages answered. */
  predicate HonestRow(r: Row) {
    && !r.source.DeviceFused? && r.fingerprint.Some?
    && 0.0 <= r.confidence <= 1.0 && FourPlaces(r.confidence)
    && Distinct(r.warnings)
    && r.provenance.Keys !! FUSION_KEYS
    && (r.source.Fusion? <==> LidarAvailable(r))
    && (r.source.Imagery? ==> r.confidence <= IMAGERY_CONFIDENCE_CAP)
    && (r.source.Imagery? ==> exists w :: w in r.warnings && AboutLidar(w))
  }

  predicate AboutLidar(w: string) { HasPrefix(w, "lidar_missing: ") || HasPrefix(w, "lidar_unavailable: ") }

  lemma AssembledRowIsHonest(p: Parts, fingerprint: string, now: int)
    requires LidarNoted(p)
    ensures HonestRow(AssembledRow(p, fingerprint, now)) && AssembledRow(p, fingerprint, now).generatedAt == now
  {
    var r := AssembledRow(p, fingerprint, now);
    ConfidenceIsHonest(Times(p.resolve.geocode.confidence.GetOr(1.0), p.geometry.confidence.GetOr(1.0)),
                       SourceOf(p).Fusion?);
    NoFusionKeys(p.backend, p.geometry.source);
    if r.source.Imagery? {
      var note := LidarNote(p.lidar);
      assert note in r.warnings;
      if p.lidar.degraded {
        var f :| Absorbed(f) && p.lidar == LidarStandIn(f);
        assert note == "lidar_unavailable: " + FaultName(f);
        assert HasPrefix(note, "lidar_unavailable: ");
      } else {
        assert HasPrefix(note, "lidar_missing: ");
      }
    }
  }

  lemma NoFusionKeys(backend: Option<string>, geometrySource: string)
    ensures BuildProvenance(backend, geometrySource).Keys !! FUSION_KEYS
  {
    KeysDistinct();
    assert |"pipeline_schema_version"| == 23 && "pipeline_schema_version"[7] == 'e';
    assert |"detector"| == 8 && |"geometry_source"| == 15 && |"sam2_backend"| == 12;
    assert "geometry_source"[0] == 'g' && EPSG_KEY[0] == 'f';
  }
}
