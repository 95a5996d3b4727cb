/** What the published counts say about the detections as they were given, by their positions in the input. */
module ReportTheorems {
  import opened Wrappers
  import opened BoxOverlap
  import opened DetectionScorer
  import opened MatchingTheorems

  /** Scored earlier: higher confidence, a missing one counting as 0.0, or as high and given first. */
  ghost predicate Sooner(preds: seq<Detection>, p: nat, q: nat)
    requires p < |preds| && q < |preds|
  {
    var c := if preds[p].confidence.Some? then preds[p].confidence.value else 0.0;
    var d := if preds[q].confidence.Some? then preds[q].confidence.value else 0.0;
    c > d || (c == d && p < q)
  }

  /** The loop may pair prediction `p` with box `g`: same label, IoU at least the threshold and above zero. */
  ghost predicate Pairable(preds: seq<Detection>, gts: seq<Detection>, threshold: real, kind: string, p: nat, g: nat) {
    && p < |preds| && g < |gts| && preds[p].kind == kind && gts[g].kind == kind
    && Iou(preds[p].box, gts[g].box) >= threshold && Iou(preds[p].box, gts[g].box) > 0.0
  }

  ghost predicate HoldsAsGood(preds: seq<Detection>, gts: seq<Detection>, m: map<nat, nat>, p: nat, g: nat)
    requires p < |preds| && g < |gts|
  {
    exists h :: h in m && h < |gts| && m[h] == p && Iou(preds[p].box, gts[g].box) <= Iou(preds[p].box, gts[h].box)
  }

  /**
   `m` matches boxes to predictions of one label, by their input positions: only pairable ones, each once, and nobody is
   left wanting, for a pair missed leaves the prediction with a box as good or the box with a prediction scored earlier.
   */
  ghost predicate StableMatching(preds: seq<Detection>, gts: seq<Detection>, threshold: real, kind: string,
                                 m: map<nat, nat>) {
    && (forall g :: g in m ==> Pairable(preds, gts, threshold, kind, m[g], g))
    && Injective(m)
    && NobodyWanting(preds, gts, threshold, kind, m)
  }

  ghost predicate Injective(m: map<nat, nat>) { forall g, h :: g in m && h in m && m[g] == m[h] ==> g == h }

  ghost predicate NobodyWanting(preds: seq<Detection>, gts: seq<Detection>, threshold: real, kind: string,
                                m: map<nat, nat>) {
    forall p: nat, g: nat :: Pairable(preds, gts, threshold, kind, p, g) ==>
      HoldsAsGood(preds, gts, m, p, g) || (g in m && m[g] < |preds| && Sooner(preds, m[g], p))
  }

  // ------------------------------------------------------------- one class

  /** `sel` is what filtering `dets` by the label leaves, and `at` where it came from. */
  ghost predicate Selected(dets: seq<Detection>, kind: string, sel: seq<Detection>, at: seq<nat>) {
    Positions(dets, kind, at) && |at| == |sel| && forall i :: 0 <= i < |at| ==> sel[i] == dets[at[i]]
  }

  /** Stability within the class: what `GreedyIsStable` says of every eligible pair. */
  ghost predicate ClassStable(ps: seq<Detection>, gs: seq<Detection>, threshold: real, m: map<nat, nat>) {
    forall p: nat, g: nat :: p < |ps| && g < |gs| && Eligible(Overlaps(ps, gs), threshold, p, g) ==>
      Content(Overlaps(ps, gs), m, p, g) || (g in m && m[g] < |ps| && Before(ps, m[g], p))
  }

  lemma GreedyIsClassStable(ps: seq<Detection>, gs: seq<Detection>, threshold: real)
    ensures ClassStable(ps, gs, threshold, ClassMatch(ps, gs, threshold))
  {
    forall p: nat, g: nat | p < |ps| && g < |gs| && Eligible(Overlaps(ps, gs), threshold, p, g)
      ensures var m := ClassMatch(ps, gs, threshold);
        Content(Overlaps(ps, gs), m, p, g) || (g in m && m[g] < |ps| && Before(ps, m[g], p))
    {
      GreedyIsStable(ps, gs, threshold, p, g);
    }
    hide ClassMatch, Before, Content, Eligible;
  }

  // -------------------------------------------------------------- renaming

  /** Renaming through increasing positions keeps the number of members. */
  lemma {:induction false} ImageSize(keys: set<nat>, at: seq<nat>)
    requires forall k :: k in keys ==> k < |at|
    requires forall i, j :: 0 <= i < j < |at| ==> at[i] < at[j]
    ensures |set k | k in keys :: at[k]| == |keys|
  {
    if keys == {} {
    } else {
      var k :| k in keys;
      ImageSize(keys - {k}, at);
      assert (set i | i in keys :: at[i]) == (set i | i in keys - {k} :: at[i]) + {at[k]};
    }
  }

  /** A class matching, renamed from positions within the label to positions in the input. */
  ghost function Renamed(m: map<nat, nat>, atP: seq<nat>, atG: seq<nat>): map<nat, nat>
    requires forall g :: g in m ==> g < |atG| && m[g] < |atP|
    requires forall i, j :: 0 <= i < j < |atG| ==> atG[i] < atG[j]
  {
    map g | g in m :: atG[g] := atP[m[g]]
  }

  lemma RenamedAt(m: map<nat, nat>, atP: seq<nat>, atG: seq<nat>, i: nat)
    requires forall h :: h in m ==> h < |atG| && m[h] < |atP|
    requires forall k, l :: 0 <= k < l < |atG| ==> atG[k] < atG[l]
    requires i in m
    ensures atG[i] in Renamed(m, atP, atG) && Renamed(m, atP, atG)[atG[i]] == atP[m[i]]
  {
  }

  lemma PairableIffEligible(preds: seq<Detection>, gts: seq<Detection>, threshold: real, kind: string,
                            ps: seq<Detection>, gs: seq<Detection>, atP: seq<nat>, atG: seq<nat>, i: nat, j: nat)
    requires Selected(preds, kind, ps, atP) && Selected(gts, kind, gs, atG) && i < |atP| && j < |atG|
    ensures Pairable(preds, gts, threshold, kind, atP[i], atG[j]) <==> Eligible(Overlaps(ps, gs), threshold, i, j)
    ensures Overlaps(ps, gs)(i, j) == Iou(preds[atP[i]].box, gts[atG[j]].box)
  {
    hide Iou;
  }

  lemma BeforeIsSooner(preds: seq<Detection>, kind: string, ps: seq<Detection>, atP: seq<nat>, i: nat, j: nat)
    requires Selected(preds, kind, ps, atP) && i < |atP| && j < |atP| && Before(ps, i, j)
    ensures Sooner(preds, atP[i], atP[j])
  {
  }

  /** A pair the renamed matching misses was missed in the class for the same reason. */
  lemma RenamedPairIsStable(preds: seq<Detection>, gts: seq<Detection>, threshold: real, kind: string,
                            ps: seq<Detection>, gs: seq<Detection>, atP: seq<nat>, atG: seq<nat>,
                            inner: map<nat, nat>, i: nat, j: nat)
    requires Selected(preds, kind, ps, atP) && Selected(gts, kind, gs, atG) && i < |atP| && j < |atG|
    requires forall g :: g in inner ==> g < |atG| && inner[g] < |atP|
    requires ClassStable(ps, gs, threshold, inner) && Pairable(preds, gts, threshold, kind, atP[i], atG[j])
    ensures var m := Renamed(inner, atP, atG);
      || HoldsAsGood(preds, gts, m, atP[i], atG[j])
      || (atG[j] in m && m[atG[j]] < |preds| && Sooner(preds, m[atG[j]], atP[i]))
  {
    assert forall k, l :: 0 <= k < l < |atG| ==> atG[k] < atG[l];
    assert forall k :: 0 <= k < |atG| ==> atG[k] < |gts|;
    assert forall k :: 0 <= k < |atP| ==> atP[k] < |preds|;
    PairableIffEligible(preds, gts, threshold, kind, ps, gs, atP, atG, i, j);
    assert i < |ps| && j < |gs|;
    hide Iou, Overlaps, Before, Sooner, Pairable, Selected, Positions, Renamed, Eligible;
    if Content(Overlaps(ps, gs), inner, i, j) {
      var h :| h in inner && inner[h] == i && Overlaps(ps, gs)(i, j) <= Overlaps(ps, gs)(i, h);
      PairableIffEligible(preds, gts, threshold, kind, ps, gs, atP, atG, i, h);
      RenamedAt(inner, atP, atG, h);
    } else {
      BeforeIsSooner(preds, kind, ps, atP, inner[j], i);
      RenamedAt(inner, atP, atG, j);
    }
  }

  lemma Preimage(m: map<nat, nat>, atP: seq<nat>, atG: seq<nat>, g: nat) returns (i: nat)
    requires forall h :: h in m ==> h < |atG| && m[h] < |atP|
    requires forall k, l :: 0 <= k < l < |atG| ==> atG[k] < atG[l]
    requires g in Renamed(m, atP, atG)
    ensures i in m && atG[i] == g && Renamed(m, atP, atG)[g] == atP[m[i]]
  {
    i :| i in m && atG[i] == g;
  }

  lemma RenamedSize(m: map<nat, nat>, atP: seq<nat>, atG: seq<nat>)
    requires forall g :: g in m ==> g < |atG| && m[g] < |atP|
    requires forall i, j :: 0 <= i < j < |atG| ==> atG[i] < atG[j]
    ensures |Renamed(m, atP, atG)| == |m|
  {
    ImageSize(m.Keys, atG);
    assert Renamed(m, atP, atG).Keys == set g | g in m.Keys :: atG[g];
  }

  lemma PositionOf(dets: seq<Detection>, kind: string, sel: seq<Detection>, at: seq<nat>, p: nat) returns (i: nat)
    requires Selected(dets, kind, sel, at) && p < |dets| && dets[p].kind == kind
    ensures i < |at| && at[i] == p
  {
    assert p in at;
    i :| i < |at| && at[i] == p;
  }

  lemma RenamedIsPairable(preds: seq<Detection>, gts: seq<Detection>, threshold: real, kind: string,
                          ps: seq<Detection>, gs: seq<Detection>, atP: seq<nat>, atG: seq<nat>,
                          inner: map<nat, nat>, g: nat)
    requires Selected(preds, kind, ps, atP) && Selected(gts, kind, gs, atG)
    requires IsMatching(Overlaps(ps, gs), threshold, |gs|, inner)
    requires forall h :: h in inner ==> h < |atG| && inner[h] < |atP|
    requires g in Renamed(inner, atP, atG)
    ensures Pairable(preds, gts, threshold, kind, Renamed(inner, atP, atG)[g], g)
  {
    hide Iou, Overlaps, Eligible, Renamed, Pairable;
    var i := Preimage(inner, atP, atG, g);
    PairableIffEligible(preds, gts, threshold, kind, ps, gs, atP, atG, inner[i], i);
  }

  lemma RenamedIsInjective(m: map<nat, nat>, atP: seq<nat>, atG: seq<nat>)
    requires Injective(m) && forall k :: k in m ==> k < |atG| && m[k] < |atP|
    requires forall k, l :: 0 <= k < l < |atG| ==> atG[k] < atG[l]
    requires forall k, l :: 0 <= k < l < |atP| ==> atP[k] < atP[l]
    ensures Injective(Renamed(m, atP, atG))
  {
    hide Renamed;
    var r := Renamed(m, atP, atG);
    forall g, h | g in r && h in r && r[g] == r[h] ensures g == h {
      var i := Preimage(m, atP, atG, g);
      var j := Preimage(m, atP, atG, h);
      assert m[i] == m[j];
    }
  }

  lemma NobodyWantingAfterRenaming(preds: seq<Detection>, gts: seq<Detection>, threshold: real, kind: string,
                                   ps: seq<Detection>, gs: seq<Detection>, atP: seq<nat>, atG: seq<nat>,
                                   inner: map<nat, nat>)
    requires Selected(preds, kind, ps, atP) && Selected(gts, kind, gs, atG) && ClassStable(ps, gs, threshold, inner)
    requires forall g :: g in inner ==> g < |atG| && inner[g] < |atP|
    ensures NobodyWanting(preds, gts, threshold, kind, Renamed(inner, atP, atG))
  {
    var m := Renamed(inner, atP, atG);
    hide Iou, Sooner, HoldsAsGood, Renamed, Selected, ClassStable, Positions;
    forall p: nat, g: nat | Pairable(preds, gts, threshold, kind, p, g)
      ensures HoldsAsGood(preds, gts, m, p, g) || (g in m && m[g] < |preds| && Sooner(preds, m[g], p))
    {
      var i := PositionOf(preds, kind, ps, atP, p);
      var j := PositionOf(gts, kind, gs, atG, g);
      RenamedPairIsStable(preds, gts, threshold, kind, ps, gs, atP, atG, inner, i, j);
    }
  }

  lemma RenamedIsStable(preds: seq<Detection>, gts: seq<Detection>, threshold: real, kind: string,
                        ps: seq<Detection>, gs: seq<Detection>, atP: seq<nat>, atG: seq<nat>, inner: map<nat, nat>)
    requires Selected(preds, kind, ps, atP) && Selected(gts, kind, gs, atG)
    requires IsMatching(Overlaps(ps, gs), threshold, |gs|, inner) && ClassStable(ps, gs, threshold, inner)
    requires forall g :: g in inner ==> g < |atG| && inner[g] < |atP|
    ensures StableMatching(preds, gts, threshold, kind, Renamed(inner, atP, atG))
  {
    assert forall k, l :: 0 <= k < l < |atG| ==> atG[k] < atG[l];
    assert forall k, l :: 0 <= k < l < |atP| ==> atP[k] < atP[l];
    assert Injective(inner);
    hide Iou, Overlaps, Eligible, Renamed, Selected, ClassStable, Positions, Pairable, IsMatching, Injective,
         NobodyWanting;
    RenamedIsInjective(inner, atP, atG);
    NobodyWantingAfterRenaming(preds, gts, threshold, kind, ps, gs, atP, atG, inner);
    var m := Renamed(inner, atP, atG);
    forall g | g in m ensures Pairable(preds, gts, threshold, kind, m[g], g) {
      RenamedIsPairable(preds, gts, threshold, kind, ps, gs, atP, atG, inner, g);
    }
  }

  /** What a label's true positives are: the size of a stable matching between the input's own detections. */
  lemma TruePositivesAreStableMatching(preds: seq<Detection>, gts: seq<Detection>, threshold: real, kind: string)
    returns (m: map<nat, nat>)
    ensures StableMatching(preds, gts, threshold, kind, m)
    ensures LabelScore(preds, gts, threshold, kind).tp == |m| as real
  {
    var ps, gs := WithLabel(preds, kind), WithLabel(gts, kind);
    var inner := ClassMatch(ps, gs, threshold);
    assert LabelScore(preds, gts, threshold, kind).tp == |inner| as real;
    hide WithLabel, ClassMatch, Iou, LabelScore, StableMatching, ClassStable, IsMatching, IsMaximal, Renamed;
    var atP := WithLabelKeepsPositions(preds, kind);
    var atG := WithLabelKeepsPositions(gts, kind);
    GreedyIsMatching(ps, gs, threshold);
    GreedyIsClassStable(ps, gs, threshold);
    assert Selected(preds, kind, ps, atP) && Selected(gts, kind, gs, atG);
    assert forall i, j :: 0 <= i < j < |atG| ==> atG[i] < atG[j];
    assert forall g :: g in inner ==> g < |atG| && inner[g] < |atP| by { InnerBounds(ps, gs, threshold); }
    hide Selected, Positions;
    RenamedIsStable(preds, gts, threshold, kind, ps, gs, atP, atG, inner);
    RenamedSize(inner, atP, atG);
    m := Renamed(inner, atP, atG);
  }

  lemma InnerBounds(ps: seq<Detection>, gs: seq<Detection>, threshold: real)
    ensures var m := ClassMatch(ps, gs, threshold); forall g :: g in m ==> g < |gs| && m[g] < |ps|
  {
    GreedyIsMatching(ps, gs, threshold);
    hide ClassMatch, Eligible, IsMaximal;
  }
}
