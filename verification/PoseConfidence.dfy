/** The per-photo pose score and its extrinsics gate (`ProjectionPoseConfidence`). */
module PoseConfidence {
  import opened Wrappers
  import opened Rounding

  /** An element of the stored extrinsics array; NaN, infinities and non-numbers are all `Unusable`. */
  datatype Entry = Finite(value: real) | Unusable

  datatype Extrinsics = NotAnArray | Entries(m: seq<Entry>)

  const DEFAULT_THRESHOLD := 0.7
  const RMSE_CEILING_M := 0.5
  const MAX_TRANSLATION_M := 1000.0
  const ORTHONORMAL_TOLERANCE := 0.05

  datatype Vec3 = Vec3(x: real, y: real, z: real)

  function Dot(a: Vec3, b: Vec3): real { a.x * b.x + a.y * b.y + a.z * b.z }

  /** Column `c` of the rotation block of a row-major 4x4 matrix. */
  function Column(m: seq<real>, c: nat): Vec3
    requires |m| == 16 && c < 4
  {
    Vec3(m[c], m[4 + c], m[8 + c])
  }

  /** `norm` is the Euclidean norm of `v`; stated, not computed, because the reals here have no square root. */
  ghost predicate IsNorm(norm: real, v: Vec3) {
    norm >= 0.0 && norm * norm == Dot(v, v)
  }

  /** `(norm - 1).abs <= 0.05`, written on the squared norm. */
  predicate UnitLength(v: Vec3) {
    0.9025 <= Dot(v, v) <= 1.1025
  }

  predicate NearlyOrthogonal(a: Vec3, b: Vec3) {
    -ORTHONORMAL_TOLERANCE <= Dot(a, b) <= ORTHONORMAL_TOLERANCE
  }

  /** `rotation_orthonormal?`: columns of norm about 1, pairwise dot products about 0. */
  predicate RotationOrthonormal(m: seq<real>)
    requires |m| == 16
  {
    var a, b, c := Column(m, 0), Column(m, 1), Column(m, 2);
    && UnitLength(a) && UnitLength(b) && UnitLength(c)
    && NearlyOrthogonal(a, b) && NearlyOrthogonal(a, c) && NearlyOrthogonal(b, c)
  }

  predicate TranslationPlausible(m: seq<real>)
    requires |m| == 16
  {
    Dot(Column(m, 3), Column(m, 3)) <= MAX_TRANSLATION_M * MAX_TRANSLATION_M
  }

  predicate AllFinite(e: Extrinsics) {
    e.Entries? && |e.m| == 16 && forall i :: 0 <= i < 16 ==> e.m[i].Finite?
  }

  function Values(e: Extrinsics): (m: seq<real>)
    requires AllFinite(e)
    ensures |m| == 16 && forall i :: 0 <= i < 16 ==> m[i] == e.m[i].value
  {
    seq(16, i requires 0 <= i < 16 && AllFinite(e) => e.m[i].value)
  }

  predicate ExtrinsicsSane(e: Extrinsics) {
    AllFinite(e) && RotationOrthonormal(Values(e)) && TranslationPlausible(Values(e))
  }

  function ResidualTerm(rmse: real): real {
    1.0 - 0.6 * Clamp(rmse / RMSE_CEILING_M, 0.0, 1.0)
  }

  function Score(icpRmse: Option<real>, extrinsics: Extrinsics): real {
    if icpRmse.None? || !ExtrinsicsSane(extrinsics) then 0.0
    else Round4(Clamp(ResidualTerm(icpRmse.value), 0.0, 1.0))
  }

  predicate Acceptable(score: Option<real>, threshold: real) {
    score.Some? && score.value >= threshold
  }

  // -------------------------------------------------- square-root-free tests

  /** The squared tests decide exactly what the source decides on the norms themselves. */
  lemma NormTestsAgree(norm: real, v: Vec3)
    requires IsNorm(norm, v)
    ensures UnitLength(v) <==> -ORTHONORMAL_TOLERANCE <= norm - 1.0 <= ORTHONORMAL_TOLERANCE
    ensures Dot(v, v) <= MAX_TRANSLATION_M * MAX_TRANSLATION_M <==> norm <= MAX_TRANSLATION_M
  {
    SquareOrder(0.95, norm);
    SquareOrder(norm, 1.05);
    SquareOrder(norm, MAX_TRANSLATION_M);
  }

  lemma SquareOrder(a: real, b: real)
    requires a >= 0.0 && b >= 0.0
    ensures a * a <= b * b <==> a <= b
  {
    assert b * b - a * a == (b - a) * (b + a);
    if a < b { TimesSign(b - a, b + a); }
    if b < a { TimesSign(a - b, a + b); }
  }

  function Sq(x: real): real { x * x }

  lemma Square(x: real)
    ensures Sq(x) >= 0.0 && (x != 0.0 ==> Sq(x) > 0.0)
  {
    if x >= 0.0 {
      TimesSign(x, x);
    } else {
      TimesSign(-x, -x);
      assert Sq(x) == Times(-x, -x);
    }
  }

  // --------------------------------------------------------- near-isometry

  /** The rotation block applied to `v`. */
  function Rotate(m: seq<real>, v: Vec3): Vec3
    requires |m| == 16
  {
    Vec3(m[0] * v.x + m[1] * v.y + m[2] * v.z,
         m[4] * v.x + m[5] * v.y + m[6] * v.z,
         m[8] * v.x + m[9] * v.y + m[10] * v.z)
  }

  lemma SquareOfSum(p: real, q: real, r: real, x: real, y: real, z: real)
    ensures (p * x + q * y + r * z) * (p * x + q * y + r * z)
         == (p * p) * (x * x) + (q * q) * (y * y) + (r * r) * (z * z)
          + 2.0 * (p * q) * (x * y) + 2.0 * (p * r) * (x * z) + 2.0 * (q * r) * (y * z)
  {
    var s := p * x + q * y + r * z;
    assert s * s == (p * x) * s + (q * y) * s + (r * z) * s;
    assert (p * x) * s == (p * p) * (x * x) + (p * q) * (x * y) + (p * r) * (x * z);
    assert (q * y) * s == (p * q) * (x * y) + (q * q) * (y * y) + (q * r) * (y * z);
    assert (r * z) * s == (p * r) * (x * z) + (q * r) * (y * z) + (r * r) * (z * z);
  }

  /** |Rv|^2 through the Gram entries of the columns. */
  lemma RotatedLength(m: seq<real>, v: Vec3)
    requires |m| == 16
    ensures var a, b, c := Column(m, 0), Column(m, 1), Column(m, 2);
      Dot(Rotate(m, v), Rotate(m, v))
        == Dot(a, a) * (v.x * v.x) + Dot(b, b) * (v.y * v.y) + Dot(c, c) * (v.z * v.z)
         + 2.0 * Dot(a, b) * (v.x * v.y) + 2.0 * Dot(a, c) * (v.x * v.z) + 2.0 * Dot(b, c) * (v.y * v.z)
  {
    SquareOfSum(m[0], m[1], m[2], v.x, v.y, v.z);
    SquareOfSum(m[4], m[5], m[6], v.x, v.y, v.z);
    SquareOfSum(m[8], m[9], m[10], v.x, v.y, v.z);
    Collect3(m[0] * m[0], m[4] * m[4], m[8] * m[8], v.x * v.x);
    Collect3(m[1] * m[1], m[5] * m[5], m[9] * m[9], v.y * v.y);
    Collect3(m[2] * m[2], m[6] * m[6], m[10] * m[10], v.z * v.z);
    Collect3(2.0 * (m[0] * m[1]), 2.0 * (m[4] * m[5]), 2.0 * (m[8] * m[9]), v.x * v.y);
    Collect3(2.0 * (m[0] * m[2]), 2.0 * (m[4] * m[6]), 2.0 * (m[8] * m[10]), v.x * v.z);
    Collect3(2.0 * (m[1] * m[2]), 2.0 * (m[5] * m[6]), 2.0 * (m[9] * m[10]), v.y * v.z);
  }

  lemma Collect3(p: real, q: real, r: real, t: real)
    ensures p * t + q * t + r * t == (p + q + r) * t
  {
  }

  /** A cross term of coefficient at most 0.05 costs at most 0.05 of the two squares. */
  lemma CrossTerm(d: real, x: real, y: real)
    requires -0.05 <= d <= 0.05
    ensures -0.05 * (Sq(x) + Sq(y)) <= Times(2.0 * d, Times(x, y)) <= 0.05 * (Sq(x) + Sq(y))
  {
    assert Sq(x - y) == Sq(x) + Sq(y) - 2.0 * Times(x, y);
    assert Sq(x + y) == Sq(x) + Sq(y) + 2.0 * Times(x, y);
    Square(x - y);
    Square(x + y);
    ScaledInterval(2.0 * d, Times(x, y), Sq(x) + Sq(y));
  }

  lemma ScaledInterval(d: real, u: real, q: real)
    requires -0.1 <= d <= 0.1 && -q <= 2.0 * u <= q
    ensures -0.05 * q <= Times(d, u) <= 0.05 * q
  {
    if u >= 0.0 {
      TimesSign(0.1 - d, u);
      TimesSign(d + 0.1, u);
    } else {
      TimesSign(0.1 - d, -u);
      TimesSign(d + 0.1, -u);
    }
  }

  lemma DiagonalTerm(s: real, q: real)
    requires 0.9025 <= s <= 1.1025 && q >= 0.0
    ensures 0.9025 * q <= Times(s, q) <= 1.1025 * q
  {
    TimesSign(s - 0.9025, q);
    TimesSign(1.1025 - s, q);
  }

  lemma QuadraticForm(p: real, q: real, r: real, d: real, e: real, f: real, x: real, y: real, z: real)
    requires 0.9025 <= p <= 1.1025 && 0.9025 <= q <= 1.1025 && 0.9025 <= r <= 1.1025
    requires -0.05 <= d <= 0.05 && -0.05 <= e <= 0.05 && -0.05 <= f <= 0.05
    ensures 0.8025 * (Sq(x) + Sq(y) + Sq(z))
         <= Times(p, Sq(x)) + Times(q, Sq(y)) + Times(r, Sq(z))
          + Times(2.0 * d, Times(x, y)) + Times(2.0 * e, Times(x, z)) + Times(2.0 * f, Times(y, z))
         <= 1.2025 * (Sq(x) + Sq(y) + Sq(z))
  {
    hide Sq, Times;
    Square(x);
    Square(y);
    Square(z);
    DiagonalTerm(p, Sq(x));
    DiagonalTerm(q, Sq(y));
    DiagonalTerm(r, Sq(z));
    CrossTerm(d, x, y);
    CrossTerm(e, x, z);
    CrossTerm(f, y, z);
  }

  /** Every pose the gate accepts stretches every vector by a factor within [sqrt 0.8025, sqrt 1.2025]. */
  lemma AcceptedPoseIsNearIsometry(m: seq<real>, v: Vec3)
    requires |m| == 16 && RotationOrthonormal(m)
    ensures 0.8025 * Dot(v, v) <= Dot(Rotate(m, v), Rotate(m, v)) <= 1.2025 * Dot(v, v)
  {
    var a, b, c := Column(m, 0), Column(m, 1), Column(m, 2);
    RotatedLength(m, v);
    assert Dot(v, v) == Sq(v.x) + Sq(v.y) + Sq(v.z);
    QuadraticForm(Dot(a, a), Dot(b, b), Dot(c, c), Dot(a, b), Dot(a, c), Dot(b, c), v.x, v.y, v.z);
  }

  function Minus(a: Vec3, b: Vec3): Vec3 { Vec3(a.x - b.x, a.y - b.y, a.z - b.z) }

  /** Hence the rotation block of an accepted pose is injective: no two directions are collapsed. */
  lemma AcceptedPoseIsInvertible(m: seq<real>, u: Vec3, v: Vec3)
    requires |m| == 16 && RotationOrthonormal(m)
    ensures Rotate(m, u) == Rotate(m, v) ==> u == v
  {
    var d := Minus(u, v);
    AcceptedPoseIsNearIsometry(m, d);
    assert Rotate(m, d) == Minus(Rotate(m, u), Rotate(m, v));
    if Rotate(m, u) == Rotate(m, v) {
      ZeroLength(d);
    }
  }

  lemma ZeroLength(d: Vec3)
    ensures Dot(d, d) <= 0.0 ==> d == Vec3(0.0, 0.0, 0.0)
  {
    Square(d.x);
    Square(d.y);
    Square(d.z);
    assert Dot(d, d) == Sq(d.x) + Sq(d.y) + Sq(d.z);
  }

  // ----------------------------------------------------------- the threshold

  /**
   At the default threshold a photo is drawable exactly when its pose passes the gate and the session
   residual is at most 0.30005 / 1.2 m, i.e. a little over 0.25004 m.
   */
  lemma DrawableIffTightFit(icpRmse: Option<real>, extrinsics: Extrinsics)
    ensures Acceptable(Some(Score(icpRmse, extrinsics)), DEFAULT_THRESHOLD)
      <==> icpRmse.Some? && ExtrinsicsSane(extrinsics) && 1.2 * icpRmse.value <= 0.30005
  {
    if icpRmse.Some? && ExtrinsicsSane(extrinsics) {
      var rmse := icpRmse.value;
      ResidualRange(rmse);
      RoundsUpToThreshold(ResidualTerm(rmse));
    }
  }

  lemma ResidualRange(rmse: real)
    ensures 0.4 <= ResidualTerm(rmse) <= 1.0
    ensures ResidualTerm(rmse) >= 0.69995 <==> 1.2 * rmse <= 0.30005
  {
    assert rmse / RMSE_CEILING_M == 2.0 * rmse;
  }

  lemma RoundsUpToThreshold(x: real)
    requires 0.4 <= x <= 1.0
    ensures Round4(x) >= 0.7 <==> x >= 0.69995
  {
    var n := (x * 10000.0 + 0.5).Floor;
    assert Round4(x) * 10000.0 == n as real;
    assert n >= 7000 <==> x * 10000.0 + 0.5 >= 7000.0;
  }

  /** The score lies in [0, 1] and never rises as the residual grows. */
  lemma ScoreIsAntitone(tight: real, loose: real, extrinsics: Extrinsics)
    requires tight <= loose
    ensures 0.0 <= Score(Some(loose), extrinsics) <= Score(Some(tight), extrinsics) <= 1.0
  {
    ResidualRange(tight);
    ResidualRange(loose);
    assert tight / RMSE_CEILING_M == 2.0 * tight && loose / RMSE_CEILING_M == 2.0 * loose;
    if ExtrinsicsSane(extrinsics) {
      Round4Monotone(ResidualTerm(loose), ResidualTerm(tight));
      Round4Between(ResidualTerm(tight), 0.0, 1.0);
      Round4Properties(ResidualTerm(loose));
    }
  }

  /** The value of the score: 1 - 1.2 rmse down to 0.4 for a sane pose, and 0 for any other or without a residual. */
  lemma ScoreValue(icpRmse: Option<real>, extrinsics: Extrinsics)
    ensures icpRmse.None? || !ExtrinsicsSane(extrinsics) ==> Score(icpRmse, extrinsics) == 0.0
    ensures icpRmse.Some? && ExtrinsicsSane(extrinsics) ==>
      var rmse := if icpRmse.value < 0.0 then 0.0 else if icpRmse.value > 0.5 then 0.5 else icpRmse.value;
      1.0 - 1.2 * rmse - 0.00005 < Score(icpRmse, extrinsics) <= 1.0 - 1.2 * rmse + 0.00005
  {
    if icpRmse.Some? {
      ResidualValue(icpRmse.value);
      ResidualRange(icpRmse.value);
      hide Round4, ResidualTerm, ExtrinsicsSane;
      Round4Properties(ResidualTerm(icpRmse.value));
    }
  }

  lemma ResidualValue(rmse: real)
    ensures var kept := if rmse < 0.0 then 0.0 else if rmse > 0.5 then 0.5 else rmse;
            ResidualTerm(rmse) == 1.0 - 1.2 * kept
  {
  }

  /**
   The gate in the source's own terms: all sixteen entries usable, the three rotation columns of norm within 0.05 of 1
   and of pairwise dot product within 0.05 of 0, and the translation of norm at most 1000.
   */
  lemma SaneIff(m: seq<real>, n0: real, n1: real, n2: real, nt: real)
    requires |m| == 16
    requires SumOfSquares(n0, m[0], m[4], m[8]) && SumOfSquares(n1, m[1], m[5], m[9])
    requires SumOfSquares(n2, m[2], m[6], m[10]) && SumOfSquares(nt, m[3], m[7], m[11])
    ensures ExtrinsicsSane(Entries(seq(16, i requires 0 <= i < 16 => Finite(m[i])))) <==>
      && -0.05 <= n0 - 1.0 <= 0.05 && -0.05 <= n1 - 1.0 <= 0.05 && -0.05 <= n2 - 1.0 <= 0.05
      && -0.05 <= Products(m[0], m[4], m[8], m[1], m[5], m[9]) <= 0.05
      && -0.05 <= Products(m[0], m[4], m[8], m[2], m[6], m[10]) <= 0.05
      && -0.05 <= Products(m[1], m[5], m[9], m[2], m[6], m[10]) <= 0.05
      && nt <= 1000.0
  {
    var e := Entries(seq(16, i requires 0 <= i < 16 => Finite(m[i])));
    assert Values(e) == m;
    var a, b, c, t := Column(m, 0), Column(m, 1), Column(m, 2), Column(m, 3);
    assert a == Vec3(m[0], m[4], m[8]) && b == Vec3(m[1], m[5], m[9]);
    assert c == Vec3(m[2], m[6], m[10]) && t == Vec3(m[3], m[7], m[11]);
    assert ExtrinsicsSane(e) <==> RotationOrthonormal(m) && TranslationPlausible(m);
    hide ExtrinsicsSane, Column, Dot, UnitLength, Products, SumOfSquares, Values;
    NormGate(n0, a);
    NormGate(n1, b);
    NormGate(n2, c);
    NormGate(nt, t);
    DotIs(a, b);
    DotIs(a, c);
    DotIs(b, c);
  }

  ghost predicate SumOfSquares(norm: real, x: real, y: real, z: real) {
    norm >= 0.0 && norm * norm == x * x + y * y + z * z
  }

  ghost function Products(a: real, b: real, c: real, x: real, y: real, z: real): real { a * x + b * y + c * z }

  lemma DotIs(a: Vec3, b: Vec3)
    ensures Dot(a, b) == Products(a.x, a.y, a.z, b.x, b.y, b.z)
  {
  }

  lemma NormGate(norm: real, v: Vec3)
    requires SumOfSquares(norm, v.x, v.y, v.z)
    ensures UnitLength(v) <==> -0.05 <= norm - 1.0 <= 0.05
    ensures Dot(v, v) <= MAX_TRANSLATION_M * MAX_TRANSLATION_M <==> norm <= 1000.0
  {
    assert IsNorm(norm, v);
    hide UnitLength, Dot;
    NormTestsAgree(norm, v);
  }

  /** An entry that is not a finite number, or a wrong count of them, fails the gate. */
  lemma UnusableIsNotSane(e: Extrinsics)
    ensures ExtrinsicsSane(e) ==> e.Entries? && |e.m| == 16 && forall i :: 0 <= i < 16 ==> e.m[i].Finite?
  {
  }
}
