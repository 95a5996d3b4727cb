/** The rendered report and the object-store cache in front of it (`ReportPdf`). */
module ReportPdfCache {
  import opened Wrappers
  import opened MeasurementAssembler

  /** Thirty minutes, in microseconds. */
  const CACHE_WINDOW := 1_800_000_000

  /** One state of a measurement row; `visibleAt` is when the transaction that wrote it committed. */
  datatype Version = Version(generatedAt: int, updatedAt: int, visibleAt: int, contents: string)

  /** What fills the diagram: a rendered map, the static fallback, or nothing; the last two come with a warning. */
  datatype Diagram = Rendered(ref: string) | StaticMap | NoDiagram

  datatype Body = MapImage | Pdf(source: Version, diagram: Diagram)

  datatype Object = Object(body: Body, lastModified: int, degraded: bool)

  datatype PdfError = NoMeasurement | NoVertices | Unrescued | PrinterDown | StoreDown

  /** The environment of one render. */
  datatype RenderScript = RenderScript(
    mapRef: Result<string, Fault>,
    mapUrlMints: bool,
    staticMapAnswers: bool,
    fallbackStores: bool,
    fallbackUrlMints: bool,
    printerWorks: bool,
    pdfStores: bool)

  function PdfKey(job: string): string { "artifacts/" + job + "/report.pdf" }

  function FallbackKey(job: string): string { "artifacts/" + job + "/images/map-fallback.png" }

  lemma KeysDiffer(job: string)
    ensures PdfKey(job) != FallbackKey(job)
  {
    var n := |"artifacts/" + job + "/"|;
    assert PdfKey(job)[n] == 'r' && FallbackKey(job)[n] == 'i';
  }

  /** An object with this age and flag may be served for `latest` at `now`. */
  predicate Fresh(lastModified: int, degraded: bool, latest: Version, now: int) {
    lastModified >= now - CACHE_WINDOW && !degraded && !(latest.updatedAt > lastModified)
  }

  predicate Reusable(o: Option<Object>, latest: Version, now: int) {
    o.Some? && Fresh(o.value.lastModified, o.value.degraded, latest, now)
  }

  class ReportPdf {
    const job: string
    var objects: map<string, Object>

    constructor (job: string)
      ensures this.job == job && objects == map[]
    {
      this.job, objects := job, map[];
    }

    function Head(): Option<Object>
      reads this
    {
      if PdfKey(job) in objects then Some(objects[PdfKey(job)]) else None
    }

    method FreshCachedPdf(latest: Version, now: int) returns (hit: bool)
      ensures hit <==> Reusable(Head(), latest, now)
    {
      var head := Head();
      if head.None? {
        return false;
      }
      if head.value.lastModified < now - CACHE_WINDOW {
        return false;
      }
      if head.value.degraded {
        return false;
      }
      hit := !(latest.updatedAt > head.value.lastModified);
    }

    /**
     A sidecar failure, or a reference that cannot be signed, degrades to the static map; that failing, to no diagram.
     */
    method MapImage(s: RenderScript, putAt: int) returns (r: Result<Diagram, PdfError>)
      modifies this
      ensures s.mapRef == Failure(CrashFault) ==> r == Failure(Unrescued) && objects == old(objects)
      ensures s.mapRef != Failure(CrashFault) ==>
        r == Success(if s.mapRef.Success? && s.mapUrlMints then Rendered(s.mapRef.value)
                     else if s.staticMapAnswers && s.fallbackStores && s.fallbackUrlMints then StaticMap else NoDiagram)
      ensures forall key :: key != FallbackKey(job) ==>
        (key in objects <==> key in old(objects)) && (key in objects ==> objects[key] == old(objects)[key])
    {
      if s.mapRef.Success? && s.mapUrlMints {
        return Success(Rendered(s.mapRef.value));
      }
      if s.mapRef.Failure? && s.mapRef.error.CrashFault? {
        return Failure(Unrescued);
      }
      if !s.staticMapAnswers || !s.fallbackStores {
        return Success(NoDiagram);
      }
      objects := objects[FallbackKey(job) := Object(Body.MapImage, putAt, false)];
      r := Success(if s.fallbackUrlMints then StaticMap else NoDiagram);
    }

    /**
     A reusable PDF is served and nothing is written. Otherwise a render that succeeds replaces it, flagged degraded
     exactly when its diagram is not the rendered map, and one that raises leaves the cached PDF as it was. The new PDF
     is served again for the same row exactly if it is clean, for thirty minutes; a degraded one never is.
     */
    method Render(latest: Option<Version>, hasVertices: bool, s: RenderScript, now: int, putAt: int)
      returns (r: Result<string, PdfError>)
      modifies this
      ensures latest.None? ==> r == Failure(NoMeasurement)
      ensures latest.Some? && old(Reusable(Head(), latest.value, now)) ==>
          r == Success(PdfKey(job)) && objects == old(objects)
      ensures r.Failure? ==> Head() == old(Head())
      ensures r.Failure? && (r.error.NoMeasurement? || r.error.NoVertices?) ==> objects == old(objects)
      ensures r.Success? ==> latest.Some? && r.value == PdfKey(job) && Head().Some?
      ensures r.Success? <==>
        && latest.Some?
        && (old(Reusable(Head(), latest.value, now))
            || (hasVertices && s.mapRef != Failure(CrashFault) && s.printerWorks && s.pdfStores))
      ensures r.Success? && !old(Reusable(Head(), latest.value, now)) ==>
        && hasVertices && Head().value.body.Pdf? && Head().value.body.source == latest.value
           && Head().value.lastModified == putAt
        && (Head().value.degraded <==> !(s.mapRef.Success? && s.mapUrlMints))
      ensures r.Success? && !old(Reusable(Head(), latest.value, now)) ==>
        forall later :: Reusable(Head(), latest.value, later) <==>
          s.mapRef.Success? && s.mapUrlMints && latest.value.updatedAt <= putAt && later <= putAt + 1_800_000_000
    {
      KeysDiffer(job);
      if latest.None? {
        return Failure(NoMeasurement);
      }
      var hit := FreshCachedPdf(latest.value, now);
      if hit {
        return Success(PdfKey(job));
      }
      if !hasVertices {
        return Failure(NoVertices);
      }
      var diagram :- MapImage(s, putAt);
      if !s.printerWorks {
        return Failure(PrinterDown);
      }
      if !s.pdfStores {
        return Failure(StoreDown);
      }
      objects := objects[PdfKey(job) := Object(Pdf(latest.value, diagram), putAt, !diagram.Rendered?)];
      r := Success(PdfKey(job));
    }
  }

  // ------------------------------------------------- the cache over whole runs

  /** A render under way: when it read the latest row, and what it read. */
  datatype Flight = Flight(readAt: int, source: Version)

  /** The stored PDF with the history of the render that made it; the store stamps it no later than the put. */
  datatype Cached = Cached(lastModified: int, degraded: bool, readAt: int, putAt: int, source: Version)

  datatype State = State(rows: seq<Version>, pdf: Option<Cached>, flights: map<nat, Flight>, now: int)

  predicate IsLatest(rows: seq<Version>, i: nat) {
    i < |rows| && forall k :: 0 <= k < |rows| ==> rows[k].generatedAt <= rows[i].generatedAt
  }

  predicate CommitRow(s: State, s': State, v: Version) {
    && s.now < s'.now && v.visibleAt == s'.now && v.updatedAt <= s'.now
    && (forall k :: 0 <= k < |s.rows| ==> s.rows[k].generatedAt != v.generatedAt)
    && s' == s.(rows := s.rows + [v], now := s'.now)
  }

  predicate UpdateRow(s: State, s': State, i: nat, v: Version) {
    && s.now < s'.now && i < |s.rows| && v.visibleAt == s'.now && v.updatedAt <= s'.now
       && v.generatedAt == s.rows[i].generatedAt
    && s' == s.(rows := s.rows[i := v], now := s'.now)
  }

  predicate BeginRender(s: State, s': State, r: nat, i: nat) {
    s.now < s'.now && r !in s.flights && IsLatest(s.rows, i)
    && s' == s.(flights := s.flights[r := Flight(s'.now, s.rows[i])], now := s'.now)
  }

  predicate PutPdf(s: State, s': State, r: nat) {
    && s.now < s'.now && r in s.flights && s'.pdf.Some?
    && var o := s'.pdf.value;
    && o.readAt == s.flights[r].readAt && o.source == s.flights[r].source && o.putAt == s'.now
       && o.lastModified <= o.putAt
    && s' == s.(pdf := s'.pdf, flights := s.flights - {r}, now := s'.now)
  }

  ghost predicate Next(s: State, s': State) {
    || (exists v :: CommitRow(s, s', v))
    || (exists i: nat, v :: UpdateRow(s, s', i, v))
    || (exists r: nat, i: nat :: BeginRender(s, s', r, i))
    || (exists r: nat :: PutPdf(s, s', r))
  }

  ghost predicate IsRun(run: seq<State>) {
    && run != [] && run[0].rows == [] && run[0].pdf.None? && run[0].flights == map[]
    && forall k :: 0 < k < |run| ==> Next(run[k - 1], run[k])
  }

  /** `source` was the latest row at `readAt`, and any row that still looks as it did then is no newer. */
  predicate WasLatest(rows: seq<Version>, readAt: int, source: Version) {
    && source.visibleAt <= readAt
    && (exists i :: 0 <= i < |rows| && SameRow(rows[i], source, readAt))
    && forall k :: 0 <= k < |rows| && rows[k].visibleAt <= readAt ==> rows[k].generatedAt <= source.generatedAt
  }

  /** The row `source` was read from; unless rewritten since, it is still `source`. */
  predicate SameRow(row: Version, source: Version, readAt: int) {
    row.generatedAt == source.generatedAt && (row.visibleAt <= readAt ==> row == source)
  }

  predicate Inv(s: State) {
    && (forall i, j :: 0 <= i < j < |s.rows| ==> s.rows[i].generatedAt != s.rows[j].generatedAt)
    && (forall i :: 0 <= i < |s.rows| ==> s.rows[i].visibleAt <= s.now)
    && (forall r :: r in s.flights ==>
         s.flights[r].readAt <= s.now && WasLatest(s.rows, s.flights[r].readAt, s.flights[r].source))
    && (s.pdf.Some? ==>
          && s.pdf.value.lastModified <= s.pdf.value.putAt && s.pdf.value.readAt <= s.now
          && WasLatest(s.rows, s.pdf.value.readAt, s.pdf.value.source))
  }

  /** A later write cannot make an old reading wrong about the moment it was made. */
  lemma LaterWriteKeepsReading(rows: seq<Version>, rows': seq<Version>, readAt: int, source: Version)
    requires WasLatest(rows, readAt, source) && |rows| <= |rows'|
    requires forall k :: 0 <= k < |rows| ==>
        rows'[k] == rows[k] || (rows'[k].visibleAt > readAt && rows'[k].generatedAt == rows[k].generatedAt)
    requires forall k :: |rows| <= k < |rows'| ==> rows'[k].visibleAt > readAt
    ensures WasLatest(rows', readAt, source)
  {
    var i :| 0 <= i < |rows| && SameRow(rows[i], source, readAt);
    assert SameRow(rows'[i], source, readAt);
  }

  lemma WriteKeepsInv(s: State, s': State)
    requires Inv(s) && s.now < s'.now && s' == s.(rows := s'.rows, now := s'.now) && |s.rows| <= |s'.rows|
    requires forall k :: 0 <= k < |s.rows| ==>
      s'.rows[k] == s.rows[k] || (s'.rows[k].visibleAt == s'.now && s'.rows[k].generatedAt == s.rows[k].generatedAt)
    requires forall k :: |s.rows| <= k < |s'.rows| ==> s'.rows[k].visibleAt == s'.now
    requires forall i, j :: 0 <= i < j < |s'.rows| ==> s'.rows[i].generatedAt != s'.rows[j].generatedAt
    ensures Inv(s')
  {
    hide WasLatest;
    forall r | r in s.flights ensures WasLatest(s'.rows, s.flights[r].readAt, s.flights[r].source) {
      LaterWriteKeepsReading(s.rows, s'.rows, s.flights[r].readAt, s.flights[r].source);
    }
    if s.pdf.Some? {
      LaterWriteKeepsReading(s.rows, s'.rows, s.pdf.value.readAt, s.pdf.value.source);
    }
  }

  lemma BeginKeepsInv(s: State, s': State, r: nat, i: nat)
    requires Inv(s) && BeginRender(s, s', r, i)
    ensures Inv(s')
  {
    assert SameRow(s.rows[i], s.rows[i], s'.now);
    assert WasLatest(s.rows, s'.now, s.rows[i]);
    hide WasLatest, IsLatest;
  }

  lemma StepKeepsInv(s: State, s': State)
    requires Inv(s) && Next(s, s')
    ensures Inv(s')
  {
    hide Inv;
    if v :| CommitRow(s, s', v) {
      assert Inv(s') by { WriteDistinct(s, s'); WriteKeepsInv(s, s'); }
    } else if i: nat, v :| UpdateRow(s, s', i, v) {
      assert Inv(s') by { WriteDistinct(s, s'); WriteKeepsInv(s, s'); }
    } else if r: nat, i: nat :| BeginRender(s, s', r, i) {
      BeginKeepsInv(s, s', r, i);
    } else {
      var r: nat :| PutPdf(s, s', r);
      PutKeepsInv(s, s', r);
    }
  }

  lemma WriteDistinct(s: State, s': State)
    requires Inv(s) && ((exists v :: CommitRow(s, s', v)) || (exists i: nat, v :: UpdateRow(s, s', i, v)))
    ensures forall i, j :: 0 <= i < j < |s'.rows| ==> s'.rows[i].generatedAt != s'.rows[j].generatedAt
  {
    hide WasLatest;
  }

  lemma PutKeepsInv(s: State, s': State, r: nat)
    requires Inv(s) && PutPdf(s, s', r)
    ensures Inv(s')
  {
    hide WasLatest;
  }

  lemma {:induction false} RunInvariant(run: seq<State>, k: nat)
    requires IsRun(run) && k < |run|
    ensures Inv(run[k])
  {
    if k == 0 {
    } else {
      RunInvariant(run, k - 1);
      hide Inv, Next;
      assert Next(run[k - 1], run[k]);
      StepKeepsInv(run[k - 1], run[k]);
    }
  }

  /** `fresh_cached_pdf_url` serves the stored PDF for the latest row. */
  predicate Served(s: State, i: nat)
    requires i < |s.rows|
  {
    s.pdf.Some? && Fresh(s.pdf.value.lastModified, s.pdf.value.degraded, s.rows[i], s.now)
  }

  /**
   The stored PDF shows the current contents of the current latest row if and only if those were already visible when
   its render read the row, under any interleaving of writes and of slow, overlapping renders.
   */
  lemma CurrentIffVisibleWhenRead(run: seq<State>, k: nat, i: nat)
    requires IsRun(run) && k < |run| && IsLatest(run[k].rows, i) && run[k].pdf.Some?
    ensures run[k].pdf.value.source == run[k].rows[i] <==> run[k].rows[i].visibleAt <= run[k].pdf.value.readAt
  {
    RunInvariant(run, k);
    var rows, o := run[k].rows, run[k].pdf.value;
    var j :| 0 <= j < |rows| && SameRow(rows[j], o.source, o.readAt);
    assert rows[j].generatedAt <= rows[i].generatedAt;
    if rows[i].visibleAt <= o.readAt {
      assert rows[i].generatedAt <= o.source.generatedAt;
      assert i == j;
    }
  }

  /**
   The cache serves a stale PDF if and only if its own tests of age and flag pass, the row was stamped no later than the
   PDF, and the row's transaction had not committed when the render read the history.
   */
  lemma ServesStaleIff(run: seq<State>, k: nat, i: nat)
    requires IsRun(run) && k < |run| && IsLatest(run[k].rows, i) && run[k].pdf.Some?
    ensures var o, row := run[k].pdf.value, run[k].rows[i];
      Served(run[k], i) && o.source != row <==>
        && o.lastModified >= run[k].now - 1_800_000_000 && !o.degraded
        && row.updatedAt <= o.lastModified && o.readAt < row.visibleAt
  {
    CurrentIffVisibleWhenRead(run, k, i);
    hide IsRun, IsLatest;
  }

  /**
   So a served PDF is clean, at most thirty minutes old and current whenever the row's write, from stamp to commit, and
   the render, from read to put, did not overlap.
   */
  lemma ServedIsCurrent(run: seq<State>, k: nat, i: nat)
    requires IsRun(run) && k < |run| && IsLatest(run[k].rows, i) && Served(run[k], i)
    requires var o, row := run[k].pdf.value, run[k].rows[i]; row.visibleAt <= o.readAt || o.putAt < row.updatedAt
    ensures var o := run[k].pdf.value;
      o.source == run[k].rows[i] && !o.degraded && run[k].now - 1_800_000_000 <= o.lastModified
  {
    RunInvariant(run, k);
    ServesStaleIff(run, k, i);
    hide IsRun, WasLatest, IsLatest;
  }

  /** Such an overlap happens: a write during a slow render leaves a PDF with old contents that is served. */
  lemma SlowRenderServesStale() returns (run: seq<State>)
    ensures IsRun(run) && |run| == 5
    ensures var s := run[4];
      IsLatest(s.rows, 0) && Served(s, 0) && s.pdf.value.source.contents != s.rows[0].contents
  {
    var old_, new_ := Version(1, 1, 1, "old"), Version(1, 3, 3, "new");
    var s0 := State([], None, map[], 0);
    var s1 := State([old_], None, map[], 1);
    var s2 := State([old_], None, map[0 := Flight(2, old_)], 2);
    var s3 := State([new_], None, map[0 := Flight(2, old_)], 3);
    var s4 := State([new_], Some(Cached(4, false, 2, 4, old_)), map[], 4);
    assert CommitRow(s0, s1, old_);
    assert BeginRender(s1, s2, 0, 0);
    assert s3.rows == s2.rows[0 := new_];
    assert UpdateRow(s2, s3, 0, new_);
    assert s4.flights == s3.flights - {0};
    assert PutPdf(s3, s4, 0);
    run := [s0, s1, s2, s3, s4];
  }

  /** So does a row stamped before a render but committed after it. */
  lemma LateCommitServesStale() returns (run: seq<State>)
    ensures IsRun(run) && |run| == 5
    ensures var s := run[4];
      && IsLatest(s.rows, 1) && Served(s, 1) && s.pdf.value.putAt < s.rows[1].visibleAt
      && s.pdf.value.source.contents != s.rows[1].contents
  {
    var first, second := Version(1, 1, 1, "first"), Version(2, 2, 5, "second");
    var s0 := State([], None, map[], 0);
    var s1 := State([first], None, map[], 1);
    var s2 := State([first], None, map[0 := Flight(3, first)], 3);
    var s3 := State([first], Some(Cached(4, false, 3, 4, first)), map[], 4);
    var s4 := State([first, second], Some(Cached(4, false, 3, 4, first)), map[], 5);
    assert CommitRow(s0, s1, first);
    assert BeginRender(s1, s2, 0, 0);
    assert s3.flights == s2.flights - {0};
    assert PutPdf(s2, s3, 0);
    assert s4.rows == s3.rows + [second];
    assert CommitRow(s3, s4, second);
    run := [s0, s1, s2, s3, s4];
  }
}
