/** The job, its measurement rows and its overlays, as the pipeline stores them. */
module PipelineTypes {
  import opened Wrappers

  datatype Status =
    | Pending
    | ResolvingAddress
    | FetchingImagery
    | FetchingLidar
    | RefiningOutline
    | DetectingFeatures
    | FittingPlanes
    | Ready
    | Failed

  predicate Terminal(s: Status) { s.Ready? || s.Failed? }

  /** What `last_error` was last set to. */
  datatype Note =
    | NoNote
    | ContractViolation
    | GeometricFailure(message: string)
    | StageTimedOut
    | StageFailed
    | Crashed
    | CrashedAttempt(n: nat)
    | FusionCrashed(n: nat)
    | ProjectionCrashed(n: nat)
    | ProjectionExhausted

  type Polygon = seq<(real, real)>

  datatype Facet = Facet(id: string)

  datatype Feature = Feature(name: string)

  datatype Geocode = Geocode(lon: Option<real>, lat: Option<real>, confidence: Option<real>)

  datatype Lidar = Lidar(available: bool, status: string, pointArrayRef: Option<string>)

  /** Columns a fused row copies unchanged from the row it refines. */
  datatype Site = Site(perimeterFt: Option<real>, geocode: Geocode, parcel: Option<Polygon>)

  datatype Source = Imagery | Fusion | DeviceFused

  datatype Value = Number(r: real) | Integer(n: int) | Text(s: string) | Floats(rs: seq<real>)

  type Provenance = map<string, Value>

  const RMSE_KEY := "fusion_icp_rmse_m"
  const SESSION_KEY := "fusion_session_id"
  const MESH_KEY := "fusion_capture_mesh_ref"
  const TRANSFORM_KEY := "fusion_arkit_to_utm_4x4"
  const EPSG_KEY := "fusion_utm_epsg"
  const FUSION_KEYS := {RMSE_KEY, SESSION_KEY, MESH_KEY, TRANSFORM_KEY, EPSG_KEY}

  datatype Row = Row(
    generatedAt: int,
    fingerprint: Option<string>,
    footprint: Polygon,
    roofOutline: Polygon,
    lidar: Option<Lidar>,
    facets: seq<Facet>,
    features: seq<Feature>,
    totalAreaSqFt: Option<real>,
    pitchRatio: Option<real>,
    source: Source,
    confidence: real,
    warnings: seq<string>,
    provenance: Provenance,
    site: Site)

  predicate LidarAvailable(r: Row) { r.lidar.Some? && r.lidar.value.available }

  datatype Overlay = Overlay(
    compositeRef: Option<string>,
    svgRef: Option<string>,
    poseConfidence: Option<real>,
    lowPoseConfidence: bool,
    occluded: seq<string>)

  /** The job row, its history and overlays, and whether it has a report. */
  datatype World = World(status: Status, lastError: Note, rows: seq<Row>, overlays: map<nat, Overlay>, report: bool)

  /** `latest_measurement`: the row with the greatest `generated_at`. */
  function LatestIndex(rows: seq<Row>): (i: Option<nat>)
    ensures i.None? <==> rows == []
    ensures i.Some? ==> i.value < |rows| && forall k :: 0 <= k < |rows| ==>
        rows[k].generatedAt <= rows[i.value].generatedAt
  {
    if rows == [] then None
    else
      var n := |rows| - 1;
      var i := LatestIndex(rows[..n]);
      assert forall k :: 0 <= k < n ==> rows[k] == rows[..n][k];
      if i.None? || rows[n].generatedAt >= rows[i.value].generatedAt then Some(n) else i
  }

  /** Adding a row either makes it the latest or changes nothing about which row is. */
  lemma LatestAfterAppend(rows: seq<Row>, r: Row)
    ensures LatestIndex(rows + [r]) == Some(|rows|) || LatestIndex(rows + [r]) == LatestIndex(rows)
  {
    assert (rows + [r])[..|rows|] == rows;
  }

  /** `r'` is `r` with, at most, warnings added at the end. */
  predicate OnlyWarningsGrew(r: Row, r': Row) {
    r' == r.(warnings := r'.warnings) && r.warnings <= r'.warnings
  }
}
