/** The capture-bundle manifest, its validator, and the upload keys derived from it. */
module SessionManifest {
  import opened Fingerprint

  /** Parsed JSON; a non-integer number keeps only its text. */
  datatype Json =
    | Null
    | Bool(b: bool)
    | Int(n: int)
    | Float(text: string)
    | Str(s: string)
    | Arr(items: seq<Json>)
    | Obj(fields: map<string, Json>)

  const MAX_CAPTURES := 8
  const GPS_FIELDS := ["latitude", "longitude", "altitude_m", "horizontal_accuracy_m", "vertical_accuracy_m"]

  datatype ManifestError =
    | NotAnObject
    | SessionIdMissing
    | VersionMissing
    | VersionUnsupported(version: string)
    | GpsNotAnObject
    | GpsIncomplete(missing: seq<string>)
    | CapturesMissing
    | TooManyCaptures(count: nat)
    | CaptureNotAnObject(position: nat)
    | BadCaptureIndex(position: nat)
    | DuplicateCaptureIndex(index: int)
    | PromptMissing(position: nat)
    | TimestampMissing(position: nat)
    | MeshMissing
    | MeshFilename
    | MeshFormat

  /** Hash lookup: a missing key reads as nil. */
  function Get(o: Json, key: string): Json {
    if o.Obj? && key in o.fields then o.fields[key] else Null
  }

  predicate Truthy(j: Json) { j != Null && j != Bool(false) }

  /**
   `to_s`, as far as the validator looks at it: only emptiness and the text before the first dot matter, so
   bare brackets stand in for rendered arrays and objects.
   */
  function Text(j: Json): string {
    match j
    case Null => ""
    case Bool(b) => if b then "true" else "false"
    case Int(n) => IntegerText(n)
    case Float(text) => text
    case Str(s) => s
    case Arr(_) => "[]"
    case Obj(_) => "{}"
  }

  predicate Whitespace(c: char) { c in {'\0', '\t', '\n', '\U{00000b}', '\U{00000c}', '\r', ' '} }

  /** `to_s.strip.empty?` */
  predicate Blank(j: Json) { forall i :: 0 <= i < |Text(j)| ==> Whitespace(Text(j)[i]) }

  /** The text before the first dot. */
  function Major(version: string): string {
    if version == "" || version[0] == '.' then "" else [version[0]] + Major(version[1..])
  }

  // ------------------------------------------------------- the declarative side

  predicate ValidIndex(capture: Json) {
    Get(capture, "capture_index").Int? && 0 <= Get(capture, "capture_index").n < MAX_CAPTURES
  }

  function Index(capture: Json): int { if ValidIndex(capture) then Get(capture, "capture_index").n else -1 }

  predicate CaptureOk(capture: Json) {
    capture.Obj? && ValidIndex(capture) && !Blank(Get(capture, "prompt_label")) && !Blank(Get(capture, "timestamp"))
  }

  ghost predicate CapturesOk(captures: seq<Json>) {
    && (forall i :: 0 <= i < |captures| ==> CaptureOk(captures[i]))
    && (forall i, j :: 0 <= i < j < |captures| ==> Index(captures[i]) != Index(captures[j]))
  }

  predicate GpsOk(gps: Json) {
    gps == Null || (gps.Obj? && forall i :: 0 <= i < |GPS_FIELDS| ==> Get(gps, GPS_FIELDS[i]) != Null)
  }

  predicate MeshOk(mesh: Json) {
    mesh.Obj? && Get(mesh, "filename") == Str("arkit_mesh.obj") && Get(mesh, "format") == Str("obj")
  }

  predicate VersionOk(version: Json) { !Blank(version) && Major(Text(version)) == "1" }

  /** What the ingest path may rely on. No length bound: it follows from the distinct indices. */
  ghost predicate WellFormed(manifest: Json) {
    && manifest.Obj?
    && !Blank(Get(manifest, "session_id"))
    && VersionOk(Get(manifest, "manifest_version"))
    && GpsOk(Get(manifest, "gps_origin"))
    && Get(manifest, "captures").Arr? && Get(manifest, "captures").items != []
    && CapturesOk(Get(manifest, "captures").items)
    && MeshOk(Get(manifest, "world_mesh"))
  }

  // ------------------------------------------------------- the same, spelled out

  /** Something is left of the text once whitespace is stripped. */
  ghost predicate Present(j: Json) {
    exists i :: 0 <= i < |Text(j)| && Text(j)[i] !in {'\0', '\t', '\n', '\U{00000b}', '\U{00000c}', '\r', ' '}
  }

  /** The major version is 1: the whole text, or what precedes its first dot. */
  lemma VersionOkIff(version: Json)
    ensures VersionOk(version) <==> Text(version) == "1" || "1." <= Text(version)
  {
    var t := Text(version);
    MajorIsOne(t);
    if t == "1" || "1." <= t { assert t[0] == '1' && !Whitespace(t[0]); }
  }

  lemma MajorIsOne(t: string)
    ensures Major(t) == "1" <==> t == "1" || "1." <= t
  {
    if |t| >= 1 && t[0] == '1' {
      assert Major(t) == ['1'] + Major(t[1..]);
      if |t| >= 2 {
        assert t[1..][0] == t[1];
        assert t[1] == '.' ==> "1." == t[..2];
      }
    }
  }

  /** One capture: an object with an integer index from 0 to 7, a prompt label and a timestamp. */
  ghost predicate CaptureSpelledOut(c: Json) {
    && c.Obj? && "capture_index" in c.fields && c.fields["capture_index"].Int? && 0 <= c.fields["capture_index"].n <= 7
    && Present(Get(c, "prompt_label")) && Present(Get(c, "timestamp"))
  }

  lemma CaptureOkIff(c: Json)
    ensures CaptureOk(c) <==> CaptureSpelledOut(c)
    ensures CaptureOk(c) ==> Index(c) == c.fields["capture_index"].n
  {
    PresentIff(Get(c, "prompt_label"));
    PresentIff(Get(c, "timestamp"));
    hide Present, Blank;
  }

  lemma PresentIff(j: Json)
    ensures Present(j) <==> !Blank(j)
  {
  }

  ghost predicate CapturesSpelledOut(captures: seq<Json>) {
    && (forall i :: 0 <= i < |captures| ==> CaptureSpelledOut(captures[i]))
    && (forall i, j :: 0 <= i < j < |captures| ==>
          captures[i].fields["capture_index"].n != captures[j].fields["capture_index"].n)
  }

  lemma CapturesOkIff(captures: seq<Json>)
    ensures CapturesOk(captures) <==> CapturesSpelledOut(captures)
  {
    forall c: Json
      ensures (CaptureOk(c) <==> CaptureSpelledOut(c)) && (CaptureOk(c) ==> Index(c) == c.fields["capture_index"].n)
    {
      CaptureOkIff(c);
    }
    hide CaptureOk, Index, Present;
  }

  /** The GPS origin is absent, or an object with all five coarse fields. */
  ghost predicate GpsSpelledOut(gps: Json) {
    || gps == Null
    || (gps.Obj? && Get(gps, "latitude") != Null && Get(gps, "longitude") != Null && Get(gps, "altitude_m") != Null
        && Get(gps, "horizontal_accuracy_m") != Null && Get(gps, "vertical_accuracy_m") != Null)
  }

  lemma GpsOkIff(gps: Json)
    ensures GpsOk(gps) <==> GpsSpelledOut(gps)
  {
    assert GPS_FIELDS[0] == "latitude" && GPS_FIELDS[1] == "longitude" && GPS_FIELDS[2] == "altitude_m"
        && GPS_FIELDS[3] == "horizontal_accuracy_m" && GPS_FIELDS[4] == "vertical_accuracy_m";
  }

  /** What a validated manifest is, field by field. */
  lemma WellFormedIff(m: Json)
    ensures WellFormed(m) <==>
      && m.Obj?
      && Present(Get(m, "session_id"))
      && (var version := Text(Get(m, "manifest_version")); version == "1" || "1." <= version)
      && GpsSpelledOut(Get(m, "gps_origin"))
      && (var captures := Get(m, "captures");
          captures.Arr? && captures.items != [] && CapturesSpelledOut(captures.items))
      && (var mesh := Get(m, "world_mesh");
          mesh.Obj? && Get(mesh, "filename") == Str("arkit_mesh.obj") && Get(mesh, "format") == Str("obj"))
  {
    PresentIff(Get(m, "session_id"));
    VersionOkIff(Get(m, "manifest_version"));
    GpsOkIff(Get(m, "gps_origin"));
    if Get(m, "captures").Arr? { CapturesOkIff(Get(m, "captures").items); }
    hide Present, Blank, VersionOk, GpsOk, GpsSpelledOut, CapturesOk, CapturesSpelledOut, Text;
  }

  // --------------------------------------------------------------- pigeonhole

  lemma {:induction false} DistinctBelow(xs: seq<int>, n: nat)
    requires forall i :: 0 <= i < |xs| ==> 0 <= xs[i] < n
    requires forall i, j :: 0 <= i < j < |xs| ==> xs[i] != xs[j]
    ensures |xs| <= n
  {
    var values := set i | 0 <= i < |xs| :: xs[i];
    DistinctSize(xs, values);
    SizeBelow(values, n);
  }

  lemma {:induction false} DistinctSize(xs: seq<int>, values: set<int>)
    requires values == set i | 0 <= i < |xs| :: xs[i]
    requires forall i, j :: 0 <= i < j < |xs| ==> xs[i] != xs[j]
    ensures |values| == |xs|
  {
    if xs != [] {
      var rest := xs[..|xs| - 1];
      var last := xs[|xs| - 1];
      var restValues := set i | 0 <= i < |rest| :: rest[i];
      DistinctSize(rest, restValues);
      forall v | v in values ensures v in restValues + {last} {
        var i :| 0 <= i < |xs| && xs[i] == v;
        if i < |rest| { assert rest[i] == v; }
      }
      forall v | v in restValues + {last} ensures v in values {
        if v in restValues {
          var i :| 0 <= i < |rest| && rest[i] == v;
          assert xs[i] == v;
        }
      }
      assert values == restValues + {last};
      assert last !in restValues;
    }
  }

  lemma {:induction false} SizeBelow(s: set<int>, n: nat)
    requires forall x :: x in s ==> 0 <= x < n
    ensures |s| <= n
  {
    if n == 0 {
      assert forall x :: x in s ==> 0 <= x < 0;
      assert forall x :: x !in s;
      assert s == {};
    } else {
      SizeBelow(s - {n - 1}, n - 1);
      if n - 1 in s { assert s == (s - {n - 1}) + {n - 1}; }
    }
  }

  /** Distinct indices in 0..7 leave room for at most eight captures. */
  lemma CapturesBounded(captures: seq<Json>)
    requires CapturesOk(captures)
    ensures |captures| <= 8
  {
    DistinctBelow(seq(|captures|, i requires 0 <= i < |captures| => Index(captures[i])), MAX_CAPTURES);
  }

  // ---------------------------------------------------------- the validator

  /** `SessionManifestValidator`: every check appends to one error list. */
  class Validator {
    var errors: seq<ManifestError>

    constructor ()
      ensures errors == []
    {
      errors := [];
    }

    /** Reports success exactly on the well-formed manifests. */
    method Call(manifest: Json) returns (valid: bool)
      requires errors == []
      modifies this
      ensures valid <==> errors == []
      ensures valid <==> WellFormed(manifest)
    {
      if !manifest.Obj? {
        errors := [NotAnObject];
        return false;
      }
      ValidateSessionId(manifest);
      ValidateVersion(manifest);
      ValidateGps(manifest);
      ValidateCaptures(manifest);
      ValidateMesh(manifest);
      valid := errors == [];
    }

    method ValidateSessionId(manifest: Json)
      modifies this
      ensures errors == old(errors) + if Blank(Get(manifest, "session_id")) then [SessionIdMissing] else []
    {
      if Blank(Get(manifest, "session_id")) {
        errors := errors + [SessionIdMissing];
      }
    }

    method ValidateVersion(manifest: Json)
      modifies this
      ensures old(errors) <= errors
      ensures errors == old(errors) <==> VersionOk(Get(manifest, "manifest_version"))
    {
      var version := Get(manifest, "manifest_version");
      if Blank(version) {
        errors := errors + [VersionMissing];
        return;
      }
      if Major(Text(version)) != "1" {
        errors := errors + [VersionUnsupported(Text(version))];
      }
    }

    method ValidateGps(manifest: Json)
      modifies this
      ensures old(errors) <= errors
      ensures errors == old(errors) <==> GpsOk(Get(manifest, "gps_origin"))
    {
      var gps := Get(manifest, "gps_origin");
      if gps == Null {
        return;
      }
      if !gps.Obj? {
        errors := errors + [GpsNotAnObject];
        return;
      }
      var missing: seq<string> := [];
      for i := 0 to |GPS_FIELDS|
        invariant missing == [] <==> forall k :: 0 <= k < i ==> Get(gps, GPS_FIELDS[k]) != Null
      {
        if Get(gps, GPS_FIELDS[i]) == Null {
          missing := missing + [GPS_FIELDS[i]];
        }
      }
      if missing != [] {
        errors := errors + [GpsIncomplete(missing)];
      }
    }

    method ValidateCaptures(manifest: Json)
      modifies this
      ensures old(errors) <= errors
      ensures errors == old(errors) <==>
        var captures := Get(manifest, "captures"); captures.Arr? && captures.items != [] && CapturesOk(captures.items)
    {
      var captures := Get(manifest, "captures");
      if !captures.Arr? || !(exists i :: 0 <= i < |captures.items| && Truthy(captures.items[i])) {
        errors := errors + [CapturesMissing];
        assert captures.Arr? && captures.items != [] ==> !CaptureOk(captures.items[0]) by {
          assert captures.Arr? && captures.items != [] ==> !Truthy(captures.items[0]);
        }
        return;
      }
      if |captures.items| > MAX_CAPTURES {
        errors := errors + [TooManyCaptures(|captures.items|)];
      }
      ValidateEachCapture(captures.items);
      if CapturesOk(captures.items) { CapturesBounded(captures.items); }
    }

    method ValidateEachCapture(captures: seq<Json>)
      modifies this
      ensures old(errors) <= errors
      ensures errors == old(errors) <==> CapturesOk(captures)
    {
      var seen: set<int> := {};
      for position := 0 to |captures|
        invariant old(errors) <= errors
        invariant forall i :: 0 <= i < position && ValidIndex(captures[i]) && captures[i].Obj? ==>
            Index(captures[i]) in seen
        invariant forall x :: x in seen ==> exists i :: 0 <= i < position && Index(captures[i]) == x
        invariant errors == old(errors) <==> CapturesOk(captures[..position])
      {
        CapturesOkStep(captures, position);
        var capture := captures[position];
        if !capture.Obj? {
          errors := errors + [CaptureNotAnObject(position)];
          continue;
        }
        var idx := Index(capture);
        if ValidIndex(capture) {
          if idx in seen {
            errors := errors + [DuplicateCaptureIndex(idx)];
          }
          seen := seen + {idx};
        } else {
          errors := errors + [BadCaptureIndex(position)];
        }
        if Blank(Get(capture, "prompt_label")) {
          errors := errors + [PromptMissing(position)];
        }
        if Blank(Get(capture, "timestamp")) {
          errors := errors + [TimestampMissing(position)];
        }
      }
      assert captures[..|captures|] == captures;
    }

    method ValidateMesh(manifest: Json)
      modifies this
      ensures old(errors) <= errors
      ensures errors == old(errors) <==> MeshOk(Get(manifest, "world_mesh"))
    {
      var mesh := Get(manifest, "world_mesh");
      if !mesh.Obj? {
        errors := errors + [MeshMissing];
        return;
      }
      if Get(mesh, "filename") != Str("arkit_mesh.obj") {
        errors := errors + [MeshFilename];
      }
      if Get(mesh, "format") != Str("obj") {
        errors := errors + [MeshFormat];
      }
    }
  }

  lemma CapturesOkStep(captures: seq<Json>, n: nat)
    requires n < |captures|
    ensures CapturesOk(captures[..n + 1]) <==>
      CapturesOk(captures[..n]) && CaptureOk(captures[n]) && forall i :: 0 <= i < n ==>
          Index(captures[i]) != Index(captures[n])
  {
    var longer, shorter := captures[..n + 1], captures[..n];
    assert forall i :: 0 <= i < n ==> longer[i] == shorter[i] == captures[i];
    assert longer[n] == captures[n];
  }

  // ------------------------------------------------------------- upload keys

  function PaddedIndex(n: nat): string
    requires n < MAX_CAPTURES
  {
    ['0', "01234567"[n]]
  }

  function UploadKey(job: string, basename: string): string { "uploads/" + job + "/" + basename }

  function PhotoName(n: nat): string requires n < MAX_CAPTURES { "photo_" + PaddedIndex(n) + ".jpg" }

  function DepthName(n: nat): string requires n < MAX_CAPTURES { "depth_" + PaddedIndex(n) + ".png" }

  /** Every key a bundle can write: the manifest, the mesh, and a photo and a depth map for each capture. */
  function BundleKeys(job: string, indices: seq<nat>): (keys: seq<string>)
    requires forall i :: 0 <= i < |indices| ==> indices[i] < MAX_CAPTURES
    ensures |keys| == 2 + 2 * |indices|
  {
    [UploadKey(job, "session.json"), UploadKey(job, "arkit_mesh.obj")]
    + seq(|indices|, i requires 0 <= i < |indices| => UploadKey(job, PhotoName(indices[i])))
    + seq(|indices|, i requires 0 <= i < |indices| => UploadKey(job, DepthName(indices[i])))
  }

  lemma SameJobKeys(job: string, a: string, b: string)
    ensures UploadKey(job, a) == UploadKey(job, b) ==> a == b
  {
    var prefix := "uploads/" + job + "/";
    assert a == UploadKey(job, a)[|prefix|..] && b == UploadKey(job, b)[|prefix|..];
  }

  lemma NamesDiffer(m: nat, n: nat)
    requires m < MAX_CAPTURES && n < MAX_CAPTURES
    ensures m != n ==> PhotoName(m) != PhotoName(n) && DepthName(m) != DepthName(n)
    ensures PhotoName(m) != DepthName(n)
    ensures PhotoName(m) != "session.json" && PhotoName(m) != "arkit_mesh.obj"
    ensures DepthName(m) != "session.json" && DepthName(m) != "arkit_mesh.obj"
  {
    assert PhotoName(m)[0] == 'p' && DepthName(m)[0] == 'd' && DepthName(n)[0] == 'd';
    assert PhotoName(m)[7] == "01234567"[m] && PhotoName(n)[7] == "01234567"[n];
    assert DepthName(m)[7] == "01234567"[m] && DepthName(n)[7] == "01234567"[n];
  }

  /** No two blobs of one bundle are written under the same key. */
  lemma BundleKeysDistinct(job: string, indices: seq<nat>)
    requires forall i :: 0 <= i < |indices| ==> indices[i] < MAX_CAPTURES
    requires forall i, j :: 0 <= i < j < |indices| ==> indices[i] != indices[j]
    ensures var keys := BundleKeys(job, indices); forall i, j :: 0 <= i < j < |keys| ==> keys[i] != keys[j]
  {
    var keys, n := BundleKeys(job, indices), |indices|;
    forall i, j | 0 <= i < j < |keys| ensures keys[i] != keys[j] {
      KeyBasename(job, indices, i);
      KeyBasename(job, indices, j);
      SameJobKeys(job, Basename(indices, i), Basename(indices, j));
      BasenamesDiffer(indices, i, j);
    }
  }

  function Basename(indices: seq<nat>, i: nat): string
    requires forall k :: 0 <= k < |indices| ==> indices[k] < MAX_CAPTURES
    requires i < 2 + 2 * |indices|
  {
    if i == 0 then "session.json"
    else if i == 1 then "arkit_mesh.obj"
    else if i - 2 < |indices| then PhotoName(indices[i - 2])
    else DepthName(indices[i - 2 - |indices|])
  }

  lemma KeyBasename(job: string, indices: seq<nat>, i: nat)
    requires forall k :: 0 <= k < |indices| ==> indices[k] < MAX_CAPTURES
    requires i < 2 + 2 * |indices|
    ensures BundleKeys(job, indices)[i] == UploadKey(job, Basename(indices, i))
  {
  }

  lemma BasenamesDiffer(indices: seq<nat>, i: nat, j: nat)
    requires forall k :: 0 <= k < |indices| ==> indices[k] < MAX_CAPTURES
    requires forall k, l :: 0 <= k < l < |indices| ==> indices[k] != indices[l]
    requires i < j < 2 + 2 * |indices|
    ensures Basename(indices, i) != Basename(indices, j)
  {
    hide PhotoName, DepthName;
    var n := |indices|;
    if j >= 2 {
      var b := if j - 2 < n then indices[j - 2] else indices[j - 2 - n];
      var a := if i < 2 then 0 else if i - 2 < n then indices[i - 2] else indices[i - 2 - n];
      NamesDiffer(a, b);
      NamesDiffer(b, a);
    } else {
      assert "session.json"[0] != "arkit_mesh.obj"[0];
    }
  }

  /** The capture indices of a well-formed manifest, in manifest order. */
  function CaptureIndices(manifest: Json): (indices: seq<nat>)
    requires WellFormed(manifest)
    ensures |indices| == |Get(manifest, "captures").items| <= MAX_CAPTURES
    ensures forall i :: 0 <= i < |indices| ==>
      indices[i] < MAX_CAPTURES && Get(Get(manifest, "captures").items[i], "capture_index") == Int(indices[i])
    ensures forall i, j :: 0 <= i < j < |indices| ==> indices[i] != indices[j]
  {
    var captures := Get(manifest, "captures").items;
    CapturesBounded(captures);
    seq(|captures|, i requires 0 <= i < |captures| && CaptureOk(captures[i]) => Index(captures[i]))
  }

  /** A manifest that validates never makes two of its blobs collide in storage. */
  lemma ValidManifestKeysDistinct(manifest: Json, job: string)
    requires WellFormed(manifest)
    ensures var keys := BundleKeys(job, CaptureIndices(manifest));
      forall i, j :: 0 <= i < j < |keys| ==> keys[i] != keys[j]
  {
    BundleKeysDistinct(job, CaptureIndices(manifest));
  }
}
