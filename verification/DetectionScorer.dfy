/**
 Per-class precision / recall / F1 by confidence-ordered greedy IoU matching
 (`precision_recall_f1`). The functions are the specification; the methods carry
 the source's loops and are proved equal to them.
 */
module DetectionScorer {
  import opened Wrappers
  import opened BoxOverlap

  datatype Detection = Detection(kind: string, box: Box, confidence: Option<real>)

  datatype Score = Score(precision: real, recall: real, f1: real, tp: real, fp: real, fn: real)

  // ------------------------------------------------------------------ order

  /** `d.get("confidence", 0.0)` */
  function Confidence(d: Detection): real { d.confidence.GetOr(0.0) }

  /** Position `p` is scored before position `q`: higher confidence first, input order on a tie. */
  predicate Before(preds: seq<Detection>, p: nat, q: nat)
    requires p < |preds| && q < |preds|
  {
    Confidence(preds[p]) > Confidence(preds[q]) || (Confidence(preds[p]) == Confidence(preds[q]) && p < q)
  }

  ghost predicate Permutation(order: seq<nat>, n: nat) {
    && (forall i :: 0 <= i < |order| ==> order[i] < n)
    && (forall p :: 0 <= p < n ==> p in order)
    && (forall i, j :: 0 <= i < j < |order| ==> order[i] != order[j])
  }

  ghost predicate Ordered(preds: seq<Detection>, order: seq<nat>) {
    && (forall i :: 0 <= i < |order| ==> order[i] < |preds|)
    && forall i, j :: 0 <= i < j < |order| ==> Before(preds, order[i], order[j])
  }

  /** How many leading positions of `order` are scored before `p`. */
  function Rank(preds: seq<Detection>, order: seq<nat>, p: nat): (c: nat)
    requires p < |preds| && forall i :: 0 <= i < |order| ==> order[i] < |preds|
    ensures c <= |order|
    ensures forall i :: 0 <= i < c ==> Before(preds, order[i], p)
    ensures c < |order| ==> !Before(preds, order[c], p)
  {
    if order == [] || !Before(preds, order[0], p) then 0 else 1 + Rank(preds, order[1..], p)
  }

  /** `order` with `p` put after everything scored before it. */
  function Inserted(preds: seq<Detection>, order: seq<nat>, p: nat): (r: seq<nat>)
    requires p < |preds| && forall i :: 0 <= i < |order| ==> order[i] < p
    ensures |r| == |order| + 1 && forall i :: 0 <= i < |r| ==> r[i] <= p
  {
    var c := Rank(preds, order, p);
    order[..c] + [p] + order[c..]
  }

  /** The positions of the first `n` predictions in scoring order: Python's stable `sorted(..., reverse=True)`. */
  function ConfidenceOrder(preds: seq<Detection>, n: nat): (r: seq<nat>)
    requires n <= |preds|
    ensures |r| == n && forall i :: 0 <= i < n ==> r[i] < n
  {
    if n == 0 then [] else Inserted(preds, ConfidenceOrder(preds, n - 1), n - 1)
  }

  lemma InsertKeepsOrder(preds: seq<Detection>, order: seq<nat>, p: nat)
    requires p < |preds| && Ordered(preds, order)
    requires forall i :: 0 <= i < |order| ==> order[i] < p
    ensures Ordered(preds, Inserted(preds, order, p))
  {
    hide Confidence;
    var c := Rank(preds, order, p);
    var r := order[..c] + [p] + order[c..];
    forall i | c <= i < |order| ensures Before(preds, p, order[i]) {
      if c < i { assert Before(preds, order[c], order[i]); }
    }
    forall i, j | 0 <= i < j < |r| ensures Before(preds, r[i], r[j]) {
      if i < c && c < j { assert Before(preds, order[i], order[j - 1]); }
    }
  }

  lemma {:induction false} ConfidenceOrderIsOrdered(preds: seq<Detection>, n: nat)
    requires n <= |preds|
    ensures Ordered(preds, ConfidenceOrder(preds, n))
  {
    if n == 0 {
      assert Ordered(preds, []);
    }
    hide Ordered, Inserted;
    if n > 0 {
      ConfidenceOrderIsOrdered(preds, n - 1);
      InsertKeepsOrder(preds, ConfidenceOrder(preds, n - 1), n - 1);
    }
  }

  lemma {:induction false} ConfidenceOrderIsComplete(preds: seq<Detection>, n: nat, p: nat)
    requires p < n <= |preds|
    ensures p in ConfidenceOrder(preds, n)
  {
    hide Before, Confidence;
    var order := ConfidenceOrder(preds, n - 1);
    var c := Rank(preds, order, n - 1);
    if p < n - 1 {
      ConfidenceOrderIsComplete(preds, n - 1, p);
      assert order == order[..c] + order[c..];
    } else {
      assert (order[..c] + [n - 1] + order[c..])[c] == p;
    }
  }

  /**
   Scoring order visits every prediction exactly once, by falling confidence, a missing one counting as 0.0, and in
   input order among equals.
   */
  lemma ConfidenceOrderIsPermutation(preds: seq<Detection>)
    ensures Permutation(ConfidenceOrder(preds, |preds|), |preds|)
    ensures Ordered(preds, ConfidenceOrder(preds, |preds|))
    ensures var order := ConfidenceOrder(preds, |preds|);
      forall i, j :: 0 <= i < j < |order| ==>
        var c := if preds[order[i]].confidence.Some? then preds[order[i]].confidence.value else 0.0;
        var d := if preds[order[j]].confidence.Some? then preds[order[j]].confidence.value else 0.0;
        c > d || (c == d && order[i] < order[j])
  {
    ConfidenceOrderIsOrdered(preds, |preds|);
    forall p: nat | p < |preds| ensures p in ConfidenceOrder(preds, |preds|) {
      ConfidenceOrderIsComplete(preds, |preds|, p);
    }
  }

  // --------------------------------------------------------------- matching

  /** IoU of prediction `p` with ground-truth box `g`. */
  type Weights = (nat, nat) -> real

  function Overlaps(preds: seq<Detection>, gts: seq<Detection>): Weights {
    (p: nat, g: nat) => if p < |preds| && g < |gts| then Iou(preds[p].box, gts[g].box) else 0.0
  }

  /** A pair the loop may match: `iou >= threshold`, and above the initial `best_iou` of 0. */
  predicate Eligible(w: Weights, threshold: real, p: nat, g: nat) {
    w(p, g) >= threshold && w(p, g) > 0.0
  }

  predicate Free(w: Weights, threshold: real, taken: set<nat>, p: nat, g: nat) {
    g !in taken && Eligible(w, threshold, p, g)
  }

  /** `best` is the first box of highest IoU among the free eligible ones below `n`. */
  ghost predicate IsBest(w: Weights, threshold: real, taken: set<nat>, p: nat, n: nat, best: Option<nat>) {
    match best
    case None => forall g :: 0 <= g < n ==> !Free(w, threshold, taken, p, g)
    case Some(b) =>
      && b < n && Free(w, threshold, taken, p, b)
      && (forall g :: 0 <= g < n && Free(w, threshold, taken, p, g) ==> w(p, g) <= w(p, b))
      && (forall g :: 0 <= g < b && Free(w, threshold, taken, p, g) ==> w(p, g) < w(p, b))
  }

  function BestFree(w: Weights, threshold: real, taken: set<nat>, p: nat, n: nat): (best: Option<nat>)
    ensures best.Some? ==> best.value < n && best.value !in taken
  {
    if n == 0 then None
    else
      var best := BestFree(w, threshold, taken, p, n - 1);
      if Free(w, threshold, taken, p, n - 1) && (best.None? || w(p, n - 1) > w(p, best.value))
      then Some(n - 1) else best
  }

  lemma {:induction false} BestFreeIsBest(w: Weights, threshold: real, taken: set<nat>, p: nat, n: nat)
    ensures IsBest(w, threshold, taken, p, n, BestFree(w, threshold, taken, p, n))
  {
    if n > 0 {
      BestFreeIsBest(w, threshold, taken, p, n - 1);
    }
  }

  /**
   The holder of each matched box after the first `k` predictions in `order`; its keys are the source's `matched_gt`.
   */
  function Match(w: Weights, threshold: real, n: nat, order: seq<nat>, k: nat): map<nat, nat>
    requires k <= |order|
  {
    if k == 0 then map[]
    else
      var before := Match(w, threshold, n, order, k - 1);
      match BestFree(w, threshold, before.Keys, order[k - 1], n)
      case None => before
      case Some(g) => before[g := order[k - 1]]
  }

  function WithLabel(dets: seq<Detection>, kind: string): seq<Detection> {
    if dets == [] then []
    else
      var n := |dets| - 1;
      WithLabel(dets[..n], kind) + if dets[n].kind == kind then [dets[n]] else []
  }

  /** `at` lists, in increasing order, exactly the positions of `dets` with the label. */
  ghost predicate Positions(dets: seq<Detection>, kind: string, at: seq<nat>) {
    && (forall i :: 0 <= i < |at| ==> at[i] < |dets| && dets[at[i]].kind == kind)
    && (forall i, j :: 0 <= i < j < |at| ==> at[i] < at[j])
    && (forall p: nat :: p < |dets| && dets[p].kind == kind ==> p in at)
  }

  lemma PositionsExtend(dets: seq<Detection>, kind: string, before: seq<nat>)
    requires dets != [] && Positions(dets[..|dets| - 1], kind, before)
    ensures var n := |dets| - 1; Positions(dets, kind, before + if dets[n].kind == kind then [n] else [])
  {
    var n := |dets| - 1;
    var at := before + if dets[n].kind == kind then [n] else [];
    forall i | 0 <= i < |at| ensures at[i] < |dets| && dets[at[i]].kind == kind {
      if i < |before| { assert dets[..n][before[i]].kind == kind; }
    }
    forall p: nat | p < |dets| && dets[p].kind == kind ensures p in at {
      if p < n {
        assert dets[..n][p].kind == kind;
        assert p in before;
      } else {
        assert at[|before|] == n;
      }
    }
  }

  /** Filtering keeps exactly the positions with the label, each once and in input order. */
  lemma {:induction false} WithLabelKeepsPositions(dets: seq<Detection>, kind: string) returns (at: seq<nat>)
    ensures Positions(dets, kind, at) && |at| == |WithLabel(dets, kind)|
    ensures forall i :: 0 <= i < |at| ==> WithLabel(dets, kind)[i] == dets[at[i]]
  {
    if dets == [] {
      at := [];
    } else {
      var n := |dets| - 1;
      var before := WithLabelKeepsPositions(dets[..n], kind);
      PositionsExtend(dets, kind, before);
      at := before + if dets[n].kind == kind then [n] else [];
      forall i | 0 <= i < |at| ensures WithLabel(dets, kind)[i] == dets[at[i]] {
        if i < |before| { assert WithLabel(dets[..n], kind)[i] == dets[..n][before[i]]; }
      }
      hide Positions;
    }
  }

  lemma LabelSetExtends(dets: seq<Detection>, kind: string)
    requires dets != []
    ensures var n := |dets| - 1;
      (set p: nat | p < |dets| && dets[p].kind == kind)
        == (set p: nat | p < n && dets[..n][p].kind == kind) + if dets[n].kind == kind then {n} else {}
  {
    var n := |dets| - 1;
    assert forall p: nat :: p < n ==> dets[..n][p] == dets[p];
  }

  /** As many detections as there are positions with the label. */
  lemma {:induction false} WithLabelCounts(dets: seq<Detection>, kind: string)
    ensures |WithLabel(dets, kind)| == |set p: nat | p < |dets| && dets[p].kind == kind|
  {
    if dets == [] {
    } else {
      var n := |dets| - 1;
      WithLabelCounts(dets[..n], kind);
      LabelSetExtends(dets, kind);
    }
  }

  /** The full matching for one class: ground-truth box to the prediction holding it. */
  function ClassMatch(preds: seq<Detection>, gts: seq<Detection>, threshold: real): map<nat, nat> {
    Match(Overlaps(preds, gts), threshold, |gts|, ConfidenceOrder(preds, |preds|), |preds|)
  }

  function TruePositives(preds: seq<Detection>, gts: seq<Detection>, threshold: real): nat {
    |ClassMatch(preds, gts, threshold)|
  }

  function Ratio(part: int, whole: int): real {
    if whole > 0 then part as real / whole as real else 0.0
  }

  function HarmonicMean(p: real, r: real): real {
    if p + r > 0.0 then 2.0 * p * r / (p + r) else 0.0
  }

  function ScoreOf(tp: int, predCount: int, gtCount: int): Score {
    var fp, fn := predCount - tp, gtCount - tp;
    var precision, recall := Ratio(tp, tp + fp), Ratio(tp, tp + fn);
    Score(precision, recall, HarmonicMean(precision, recall), tp as real, fp as real, fn as real)
  }

  function LabelScore(preds: seq<Detection>, gts: seq<Detection>, threshold: real, kind: string): Score {
    var p, g := WithLabel(preds, kind), WithLabel(gts, kind);
    ScoreOf(TruePositives(p, g, threshold), |p|, |g|)
  }

  function Labels(dets: seq<Detection>): set<string> { set d | d in dets :: d.kind }

  // ---------------------------------------------------------------- loops

  /** The innermost loop: scan the ground truth for the best unused box for prediction `p`. */
  method FindBest(preds: seq<Detection>, p: nat, gts: seq<Detection>, threshold: real, matched: set<nat>)
    returns (bestIdx: int)
    requires p < |preds|
    ensures bestIdx ==
      match BestFree(Overlaps(preds, gts), threshold, matched, p, |gts|) case None => -1 case Some(g) => g
  {
    ghost var w := Overlaps(preds, gts);
    var bestIou := 0.0;
    bestIdx := -1;
    for gi := 0 to |gts|
      invariant bestIdx == match BestFree(w, threshold, matched, p, gi) case None => -1 case Some(g) => g
      invariant bestIou == if bestIdx < 0 then 0.0 else w(p, bestIdx)
    {
      if gi in matched {
        continue;
      }
      var iou := Iou(preds[p].box, gts[gi].box);
      assert iou == w(p, gi);
      if iou >= threshold && iou > bestIou {
        bestIou, bestIdx := iou, gi;
      }
    }
  }

  lemma MatchUnfolds(w: Weights, threshold: real, n: nat, order: seq<nat>, k: nat)
    requires k < |order|
    ensures Match(w, threshold, n, order, 0).Keys == {}
    ensures var before := Match(w, threshold, n, order, k);
      Match(w, threshold, n, order, k + 1).Keys ==
        match BestFree(w, threshold, before.Keys, order[k], n)
        case None => before.Keys
        case Some(g) => before.Keys + {g}
  {
  }

  /** The greedy loop over one class's predictions, highest confidence first. */
  method CountMatches(preds: seq<Detection>, gts: seq<Detection>, threshold: real) returns (tp: nat, matched: set<nat>)
    ensures matched == ClassMatch(preds, gts, threshold).Keys
    ensures tp == TruePositives(preds, gts, threshold) == |matched|
  {
    hide Iou, BestFree, Confidence;
    ghost var w := Overlaps(preds, gts);
    var order := ConfidenceOrder(preds, |preds|);
    matched, tp := {}, 0;
    for k := 0 to |order|
      invariant matched == Match(w, threshold, |gts|, order, k).Keys
      invariant tp == |matched|
    {
      hide *;
      MatchUnfolds(w, threshold, |gts|, order, k);
      var best := FindBest(preds, order[k], gts, threshold, matched);
      if best >= 0 {
        assert best !in matched;
        matched := matched + {best};
        tp := tp + 1;
      }
    }
  }

  /** One class's entry of the report. */
  method ScoreClass(preds: seq<Detection>, gts: seq<Detection>, threshold: real) returns (score: Score)
    ensures score == ScoreOf(TruePositives(preds, gts, threshold), |preds|, |gts|)
  {
    var tp, _ := CountMatches(preds, gts, threshold);
    var fp, fn := |preds| - tp, |gts| - tp;
    var precision, recall := Ratio(tp, tp + fp), Ratio(tp, tp + fn);
    score := Score(precision, recall, HarmonicMean(precision, recall), tp as real, fp as real, fn as real);
  }

  /** An entry of the report is its label's score, and its counts add up to the detections with that label. */
  ghost predicate EntryOk(preds: seq<Detection>, gts: seq<Detection>, threshold: real, kind: string, s: Score) {
    && s == LabelScore(preds, gts, threshold, kind)
    && s.tp + s.fp == |set p: nat | p < |preds| && preds[p].kind == kind| as real
    && s.tp + s.fn == |set g: nat | g < |gts| && gts[g].kind == kind| as real
  }

  lemma EntryCounts(preds: seq<Detection>, gts: seq<Detection>, threshold: real, kind: string)
    ensures EntryOk(preds, gts, threshold, kind, LabelScore(preds, gts, threshold, kind))
  {
    WithLabelCounts(preds, kind);
    WithLabelCounts(gts, kind);
    hide WithLabel, TruePositives, Ratio, HarmonicMean;
  }

  ghost predicate HasLabel(dets: seq<Detection>, kind: string) {
    exists p :: 0 <= p < |dets| && dets[p].kind == kind
  }

  lemma LabelsAre(dets: seq<Detection>)
    ensures forall kind :: kind in Labels(dets) <==> HasLabel(dets, kind)
  {
  }

  /** The whole report: one score for every label on either side. */
  method PrecisionRecallF1(preds: seq<Detection>, gts: seq<Detection>, threshold: real)
    returns (out: map<string, Score>)
    ensures forall kind :: kind in out <==> HasLabel(preds, kind) || HasLabel(gts, kind)
    ensures forall kind :: kind in out ==> EntryOk(preds, gts, threshold, kind, out[kind])
  {
    hide ScoreOf, TruePositives, WithLabel, Labels, EntryOk, HasLabel;
    out := map[];
    var kinds := Labels(preds) + Labels(gts);
    while kinds != {}
      invariant out.Keys + kinds == Labels(preds) + Labels(gts)
      invariant forall kind :: kind in out ==> EntryOk(preds, gts, threshold, kind, out[kind])
      decreases |kinds|
    {
      var kind :| kind in kinds;
      var score := ScoreClass(WithLabel(preds, kind), WithLabel(gts, kind), threshold);
      EntryCounts(preds, gts, threshold, kind);
      out := out[kind := score];
      kinds := kinds - {kind};
    }
    LabelsAre(preds);
    LabelsAre(gts);
  }
}
