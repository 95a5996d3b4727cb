/** What the greedy matcher guarantees, for every input, threshold and confidence assignment. */
module MatchingTheorems {
  import opened Wrappers
  import opened BoxOverlap
  import opened DetectionScorer

  // -------------------------------------------------------- a valid matching

  /** Every held box is eligible for its holder, and no prediction holds two boxes. */
  ghost predicate IsMatching(w: Weights, threshold: real, n: nat, m: map<nat, nat>) {
    && (forall g :: g in m ==> g < n && Eligible(w, threshold, m[g], g))
    && (forall g, h :: g in m && h in m && m[g] == m[h] ==> g == h)
  }

  /** Every holder is one of the predictions processed so far. */
  ghost predicate HoldersAmong(m: map<nat, nat>, processed: seq<nat>) {
    forall g :: g in m ==> m[g] in processed
  }

  lemma MatchExtends(w: Weights, threshold: real, n: nat, before: map<nat, nat>, processed: seq<nat>, p: nat, g: nat)
    requires IsMatching(w, threshold, n, before) && HoldersAmong(before, processed) && p !in processed
    requires g < n && g !in before && Eligible(w, threshold, p, g)
    ensures IsMatching(w, threshold, n, before[g := p]) && HoldersAmong(before[g := p], processed + [p])
  {
    assert (processed + [p])[|processed|] == p;
    hide Eligible;
  }

  lemma {:induction false} MatchIsMatching(w: Weights, threshold: real, n: nat, order: seq<nat>, k: nat)
    requires k <= |order| && Distinct(order)
    ensures var m := Match(w, threshold, n, order, k);
      IsMatching(w, threshold, n, m) && |m| <= k && HoldersAmong(m, order[..k])
  {
    if k > 0 {
      var p, before := order[k - 1], Match(w, threshold, n, order, k - 1);
      var best := BestFree(w, threshold, before.Keys, p, n);
      MatchIsMatching(w, threshold, n, order, k - 1);
      BestFreeIsBest(w, threshold, before.Keys, p, n);
      assert order[..k] == order[..k - 1] + [p] && p !in order[..k - 1];
      assert HoldersAmong(before, order[..k]);
      if best.Some? {
        assert Free(w, threshold, before.Keys, p, best.value);
        MatchExtends(w, threshold, n, before, order[..k - 1], p, best.value);
      }
    }
    hide BestFree, IsMatching, HoldersAmong;
  }

  // --------------------------------------------------------------- stability

  /** Prediction `p` holds some box that it overlaps at least as well as `g`. */
  ghost predicate Content(w: Weights, m: map<nat, nat>, p: nat, g: nat) {
    exists h :: h in m && m[h] == p && w(p, g) <= w(p, h)
  }

  /** Every eligible box of `p` is one it has no reason to prefer, or is held by one of `earlier`. */
  ghost predicate StableFor(w: Weights, threshold: real, n: nat, m: map<nat, nat>, earlier: seq<nat>, p: nat) {
    forall g: nat :: g < n && Eligible(w, threshold, p, g) ==> Content(w, m, p, g) || (g in m && m[g] in earlier)
  }

  lemma StableForExtends(w: Weights, threshold: real, n: nat, m: map<nat, nat>, m': map<nat, nat>, 
                         earlier: seq<nat>, p: nat)
    requires StableFor(w, threshold, n, m, earlier, p)
    requires forall h :: h in m ==> h in m' && m'[h] == m[h]
    ensures StableFor(w, threshold, n, m', earlier, p)
  {
    forall g: nat | g < n && Eligible(w, threshold, p, g)
      ensures Content(w, m', p, g) || (g in m' && m'[g] in earlier)
    {
      if Content(w, m, p, g) {
        var h :| h in m && m[h] == p && w(p, g) <= w(p, h);
        assert h in m' && m'[h] == p;
      }
    }
  }

  lemma StableForNewest(w: Weights, threshold: real, n: nat, m: map<nat, nat>, earlier: seq<nat>, p: nat)
    requires forall g :: g in m ==> m[g] in earlier
    ensures var m' := match BestFree(w, threshold, m.Keys, p, n) case None => m case Some(g) => m[g := p];
      StableFor(w, threshold, n, m', earlier, p)
  {
    BestFreeIsBest(w, threshold, m.Keys, p, n);
    var best := BestFree(w, threshold, m.Keys, p, n);
    var m' := match best case None => m case Some(g) => m[g := p];
    forall g: nat | g < n && Eligible(w, threshold, p, g)
      ensures Content(w, m', p, g) || (g in m' && m'[g] in earlier)
    {
      if g !in m {
        assert Free(w, threshold, m.Keys, p, g);
        assert m'[best.value] == p;
      }
    }
  }

  lemma {:induction false} MatchIsStable(w: Weights, threshold: real, n: nat, order: seq<nat>, k: nat, i: nat)
    requires i < k <= |order| && Distinct(order)
    ensures StableFor(w, threshold, n, Match(w, threshold, n, order, k), order[..i], order[i])
  {
    hide StableFor, IsMatching, Distinct, BestFree, Eligible;
    var before, after := Match(w, threshold, n, order, k - 1), Match(w, threshold, n, order, k);
    MatchIsMatching(w, threshold, n, order, k - 1);
    if i == k - 1 {
      StableForNewest(w, threshold, n, before, order[..i], order[i]);
    } else {
      MatchIsStable(w, threshold, n, order, k - 1, i);
      StableForExtends(w, threshold, n, before, after, order[..i], order[i]);
    }
  }

  /**
   No justified envy: whenever a prediction misses an eligible box it would prefer to what it holds
   (or holds nothing), that box is held by a different prediction scored before it.
   */
  lemma GreedyIsStable(preds: seq<Detection>, gts: seq<Detection>, threshold: real, p: nat, g: nat)
    requires p < |preds| && g < |gts| && Eligible(Overlaps(preds, gts), threshold, p, g)
    ensures var m := ClassMatch(preds, gts, threshold);
      || Content(Overlaps(preds, gts), m, p, g)
      || (g in m && m[g] < |preds| && Before(preds, m[g], p))
  {
    var w, order, m := Overlaps(preds, gts), ConfidenceOrder(preds, |preds|), ClassMatch(preds, gts, threshold);
    ConfidenceOrderIsPermutation(preds);
    assert p in order;
    var i :| 0 <= i < |order| && order[i] == p;
    MatchIsStable(w, threshold, |gts|, order, |preds|, i);
    if !Content(w, m, p, g) {
      var j :| 0 <= j < i && order[j] == m[g];
      assert Before(preds, order[j], order[i]);
    }
  }

  /** No eligible pair is left with both its box free and its prediction unmatched. */
  ghost predicate IsMaximal(preds: seq<Detection>, gts: seq<Detection>, threshold: real, m: map<nat, nat>) {
    forall p: nat, g: nat :: p < |preds| && g < |gts| && Eligible(Overlaps(preds, gts), threshold, p, g) ==>
      g in m || exists h :: h in m && m[h] == p
  }

  /**
   The matching behind the published counts: holders and boxes are real, eligible for each other and used once, and no
   eligible pair could still be added.
   */
  lemma GreedyIsMatching(preds: seq<Detection>, gts: seq<Detection>, threshold: real)
    ensures var m := ClassMatch(preds, gts, threshold);
      && IsMatching(Overlaps(preds, gts), threshold, |gts|, m)
      && (forall g :: g in m ==> m[g] < |preds|)
      && |m| == TruePositives(preds, gts, threshold) <= |preds|
      && TruePositives(preds, gts, threshold) <= |gts|
      && IsMaximal(preds, gts, threshold, m)
  {
    var w, order := Overlaps(preds, gts), ConfidenceOrder(preds, |preds|);
    forall p: nat, g: nat | p < |preds| && g < |gts| && Eligible(w, threshold, p, g)
      ensures g in ClassMatch(preds, gts, threshold)
           || exists h :: h in ClassMatch(preds, gts, threshold) && ClassMatch(preds, gts, threshold)[h] == p
    {
      GreedyIsStable(preds, gts, threshold, p, g);
    }
    ConfidenceOrderIsPermutation(preds);
    MatchIsMatching(w, threshold, |gts|, order, |order|);
    assert order[..|order|] == order;
    BelowSize(ClassMatch(preds, gts, threshold).Keys, |gts|);
  }

  // --------------------------------------------------------- half-optimality

  /** A competing matching: eligible pairs, no prediction and no box used twice. */
  ghost predicate IsPairing(preds: seq<Detection>, gts: seq<Detection>, threshold: real, pairs: set<(nat, nat)>) {
    && (forall e :: e in pairs ==> e.0 < |preds| && e.1 < |gts| && Eligible(Overlaps(preds, gts), threshold, e.0, e.1))
    && (forall e, f :: e in pairs && f in pairs && (e.0 == f.0 || e.1 == f.1) ==> e == f)
  }

  /** Pairs with distinct keys, all keys in `bound`, number at most `|bound|`. */
  lemma {:induction false} AtMostOnePer(pairs: set<(nat, nat)>, key: ((nat, nat)) -> nat, bound: set<nat>)
    requires forall e :: e in pairs ==> key(e) in bound
    requires forall e, f :: e in pairs && f in pairs && key(e) == key(f) ==> e == f
    ensures |pairs| <= |bound|
    decreases |pairs|
  {
    if pairs != {} {
      var e :| e in pairs;
      AtMostOnePer(pairs - {e}, key, bound - {key(e)});
    }
  }

  /** The box held by prediction `p`. */
  ghost function BoxOf(m: map<nat, nat>, p: nat): (g: nat)
    requires p in m.Values
    ensures g in m && m[g] == p
  {
    var g :| g in m && m[g] == p; g
  }

  /** At most one pair of a pairing per prediction that the greedy matching serves. */
  lemma ServedPredictions(pairs: set<(nat, nat)>, m: map<nat, nat>)
    requires forall e, f :: e in pairs && f in pairs && e.0 == f.0 ==> e == f
    requires forall e :: e in pairs ==> e.0 in m.Values
    ensures |pairs| <= |m|
  {
    var key := (e: (nat, nat)) => if e.0 in m.Values then BoxOf(m, e.0) else 0;
    AtMostOnePer(pairs, key, m.Keys);
  }

  /** No pairing of eligible detections, however chosen, is more than twice the size of the greedy one. */
  lemma GreedyIsHalfOptimal(preds: seq<Detection>, gts: seq<Detection>, threshold: real, pairs: set<(nat, nat)>)
    requires IsPairing(preds, gts, threshold, pairs)
    ensures |pairs| <= 2 * TruePositives(preds, gts, threshold)
  {
    hide Iou, BestFree, Match;
    var m := ClassMatch(preds, gts, threshold);
    var byBox := set e | e in pairs && e.1 in m;
    var byPred := set e | e in pairs && e.1 !in m;
    AtMostOnePer(byBox, (e: (nat, nat)) => e.1, m.Keys);
    forall e | e in byPred ensures e.0 in m.Values {
      GreedyIsStable(preds, gts, threshold, e.0, e.1);
    }
    ServedPredictions(byPred, m);
    assert pairs == byPred + byBox;
  }

  // ------------------------------------------------- raising the threshold

  /** A run at a higher threshold never takes a box that the lower-threshold run leaves free. */
  lemma {:induction false} TakenShrinks(w: Weights, low: real, high: real, n: nat, order: seq<nat>, k: nat)
    requires low <= high && k <= |order|
    ensures Match(w, high, n, order, k).Keys <= Match(w, low, n, order, k).Keys
  {
    if k > 0 {
      TakenShrinks(w, low, high, n, order, k - 1);
      SamePick(w, low, high, Match(w, low, n, order, k - 1).Keys, Match(w, high, n, order, k - 1).Keys,
               order[k - 1], n);
    }
  }

  /** If the stricter run picks a box still free in the laxer run, the laxer run picks that same box. */
  lemma SamePick(w: Weights, low: real, high: real, takenLow: set<nat>, takenHigh: set<nat>, p: nat, n: nat)
    requires low <= high && takenHigh <= takenLow
    ensures var a, b := BestFree(w, low, takenLow, p, n), BestFree(w, high, takenHigh, p, n);
      b.Some? && b.value !in takenLow ==> a == b
  {
    var a, b := BestFree(w, low, takenLow, p, n), BestFree(w, high, takenHigh, p, n);
    BestFreeIsBest(w, low, takenLow, p, n);
    BestFreeIsBest(w, high, takenHigh, p, n);
    if b.Some? && b.value !in takenLow {
      assert Free(w, low, takenLow, p, b.value);
      assert Free(w, high, takenHigh, p, a.value);
    }
  }

  /** Raising the threshold shrinks the matched set and lowers true positives, precision, recall and F1. */
  lemma ThresholdMonotone(preds: seq<Detection>, gts: seq<Detection>, low: real, high: real, kind: string)
    requires low <= high
    ensures var p, g := WithLabel(preds, kind), WithLabel(gts, kind);
      ClassMatch(p, g, high).Keys <= ClassMatch(p, g, low).Keys
    ensures var a, b := LabelScore(preds, gts, low, kind), LabelScore(preds, gts, high, kind);
      b.tp <= a.tp && b.precision <= a.precision && b.recall <= a.recall && b.f1 <= a.f1 && b.fp >= a.fp && b.fn >= a.fn
  {
    var p, g := WithLabel(preds, kind), WithLabel(gts, kind);
    TakenShrinks(Overlaps(p, g), low, high, |g|, ConfidenceOrder(p, |p|), |p|);
    GreedyIsMatching(p, g, low);
    GreedyIsMatching(p, g, high);
    SubsetSize(ClassMatch(p, g, high).Keys, ClassMatch(p, g, low).Keys);
    ScoreMonotone(TruePositives(p, g, high), TruePositives(p, g, low), |p|, |g|);
  }

  lemma SubsetSize(a: set<nat>, b: set<nat>)
    requires a <= b
    ensures |a| <= |b|
  {
    assert b == a + (b - a);
  }

  // ------------------------------------------------------------ the numbers

  lemma {:induction false} BelowSize(s: set<nat>, n: nat)
    requires forall x :: x in s ==> x < n
    ensures |s| <= n
    decreases n
  {
    if n > 0 {
      BelowSize(s - {n - 1}, n - 1);
      if n - 1 in s { assert s == (s - {n - 1}) + {n - 1}; }
    } else {
      assert s == {};
    }
  }

  lemma RatioValue(part: int, whole: int)
    requires 0 <= part <= whole
    ensures 0.0 <= Ratio(part, whole) <= 1.0
    ensures Ratio(part, whole) * whole as real == part as real
    ensures part > 0 ==> Ratio(part, whole) > 0.0
  {
    if whole > 0 {
      assert (part as real / whole as real) * whole as real == part as real;
    }
  }

  /** The harmonic mean of precision and recall collapses to 2tp / (2tp + fp + fn). */
  lemma F1ClosedForm(tp: int, predCount: int, gtCount: int)
    requires 0 <= tp <= predCount && tp <= gtCount
    ensures ScoreOf(tp, predCount, gtCount).f1 * (predCount + gtCount) as real == 2.0 * tp as real
    ensures predCount + gtCount == 2 * tp + (predCount - tp) + (gtCount - tp)
  {
    var p, r := Ratio(tp, predCount), Ratio(tp, gtCount);
    RatioValue(tp, predCount);
    RatioValue(tp, gtCount);
    if tp > 0 {
      hide HarmonicMean;
      HarmonicValue(p, r, tp as real, predCount as real, gtCount as real);
    } else {
      assert p == 0.0 && r == 0.0;
    }
  }

  lemma HarmonicValue(p: real, r: real, tp: real, n: real, g: real)
    requires p > 0.0 && r > 0.0 && tp > 0.0 && n > 0.0 && g > 0.0
    requires p * n == tp && r * g == tp
    ensures HarmonicMean(p, r) * (n + g) == 2.0 * tp
  {
    var h := HarmonicMean(p, r);
    assert h * (p + r) == 2.0 * p * r;
    calc {
      (h * (n + g)) * (p * r);
      h * (n * p) * r + h * (g * r) * p;
      h * tp * r + h * tp * p;
      tp * (h * (p + r));
      (2.0 * tp) * (p * r);
    }
    CancelRight(h * (n + g), 2.0 * tp, p * r);
  }

  lemma CancelRight(a: real, b: real, c: real)
    requires a * c == b * c && c > 0.0
    ensures a == b
  {
    assert (a - b) * c == 0.0;
  }

  lemma ScoreMonotone(less: int, more: int, predCount: int, gtCount: int)
    requires 0 <= less <= more <= predCount && more <= gtCount
    ensures var a, b := ScoreOf(less, predCount, gtCount), ScoreOf(more, predCount, gtCount);
      a.tp <= b.tp && a.precision <= b.precision && a.recall <= b.recall && a.f1 <= b.f1 && a.fp >= b.fp && a.fn >= b.fn
  {
    hide Ratio, HarmonicMean;
    RatioMonotone(less, more, predCount);
    RatioMonotone(less, more, gtCount);
    F1ClosedForm(less, predCount, gtCount);
    F1ClosedForm(more, predCount, gtCount);
    var n := (predCount + gtCount) as real;
    if n > 0.0 {
      var a, b := ScoreOf(less, predCount, gtCount).f1, ScoreOf(more, predCount, gtCount).f1;
      assert a * n == 2.0 * less as real && b * n == 2.0 * more as real;
      ScaleOrder(a, b, n);
    }
  }

  lemma ScaleOrder(a: real, b: real, n: real)
    requires n > 0.0 && a * n <= b * n
    ensures a <= b
  {
    assert (b - a) * n >= 0.0;
  }

  lemma RatioMonotone(less: int, more: int, whole: int)
    requires 0 <= less <= more <= whole
    ensures Ratio(less, whole) <= Ratio(more, whole)
  {
    if whole > 0 { DivideOrder(less as real, more as real, whole as real); }
  }

  lemma DivideOrder(a: real, b: real, n: real)
    requires n > 0.0 && a <= b
    ensures a / n <= b / n
  {
    assert (a / n) * n <= (b / n) * n;
    ScaleOrder(a / n, b / n, n);
  }

  /** Counts add up to the class sizes, the rates lie in [0, 1], and F1 is 2tp / (2tp + fp + fn). */
  ghost predicate Consistent(s: Score, predCount: int, gtCount: int) {
    && s.tp >= 0.0 && s.fp >= 0.0 && s.fn >= 0.0
    && s.tp + s.fp == predCount as real && s.tp + s.fn == gtCount as real
    && 0.0 <= s.precision <= 1.0 && 0.0 <= s.recall <= 1.0 && 0.0 <= s.f1 <= 1.0
    && s.precision * predCount as real == s.tp && (predCount == 0 ==> s.precision == 0.0)
    && s.recall * gtCount as real == s.tp && (gtCount == 0 ==> s.recall == 0.0)
    && (predCount == gtCount == 0 ==> s.f1 == 0.0)
    && s.f1 * (2.0 * s.tp + s.fp + s.fn) == 2.0 * s.tp
  }

  lemma F1Bounded(tp: int, predCount: int, gtCount: int)
    requires 0 <= tp <= predCount && tp <= gtCount
    ensures 0.0 <= ScoreOf(tp, predCount, gtCount).f1 <= 1.0
    ensures predCount == gtCount == 0 ==> ScoreOf(tp, predCount, gtCount).f1 == 0.0
  {
    var f1, n := ScoreOf(tp, predCount, gtCount).f1, (predCount + gtCount) as real;
    assert predCount == gtCount == 0 ==> f1 == 0.0;
    hide ScoreOf;
    F1ClosedForm(tp, predCount, gtCount);
    ShareOf(f1, 2.0 * tp as real, n);
  }

  lemma ShareOf(x: real, part: real, whole: real)
    requires x * whole == part && 0.0 <= part <= whole
    ensures whole > 0.0 ==> 0.0 <= x <= 1.0
  {
    if whole > 0.0 {
      ScaleOrder(x, 1.0, whole);
      ScaleOrder(0.0, x, whole);
    }
  }

  lemma ScoreIsConsistent(tp: int, predCount: int, gtCount: int)
    requires 0 <= tp <= predCount && tp <= gtCount
    ensures Consistent(ScoreOf(tp, predCount, gtCount), predCount, gtCount)
  {
    var s := ScoreOf(tp, predCount, gtCount);
    assert predCount == 0 ==> s.precision == 0.0;
    assert gtCount == 0 ==> s.recall == 0.0;
    F1Bounded(tp, predCount, gtCount);
    hide Ratio, HarmonicMean;
    RatioValue(tp, predCount);
    RatioValue(tp, gtCount);
    F1ClosedForm(tp, predCount, gtCount);
    assert 2.0 * s.tp + s.fp + s.fn == (predCount + gtCount) as real;
  }

  lemma ReportIsConsistent(preds: seq<Detection>, gts: seq<Detection>, threshold: real, kind: string)
    ensures Consistent(LabelScore(preds, gts, threshold, kind),
                       |set p: nat | p < |preds| && preds[p].kind == kind|,
                       |set g: nat | g < |gts| && gts[g].kind == kind|)
  {
    WithLabelCounts(preds, kind);
    WithLabelCounts(gts, kind);
    var p, g := WithLabel(preds, kind), WithLabel(gts, kind);
    GreedyIsMatching(p, g, threshold);
    ScoreIsConsistent(TruePositives(p, g, threshold), |p|, |g|);
  }
}
