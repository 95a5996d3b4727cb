/** The pre-hash text of the input fingerprint: `len:address|len:selection`. */
module Fingerprint {

  function Digit(d: nat): char
    requires d < 10
  {
    "0123456789"[d]
  }

  predicate IsDigit(c: char) { '0' <= c <= '9' }

  /** Decimal text of a natural number. */
  function Decimal(n: nat): (s: string)
    ensures |s| > 0 && forall i :: 0 <= i < |s| ==> IsDigit(s[i])
  {
    if n < 10 then [Digit(n)] else Decimal(n / 10) + [Digit(n % 10)]
  }

  /** `Integer#to_s`. */
  function IntegerText(n: int): string {
    if n < 0 then "-" + Decimal(-n) else Decimal(n)
  }

  /** One length-prefixed field. */
  function Field(s: string): string { Decimal(|s|) + ":" + s }

  function Encode(address: string, selection: string): string {
    Field(address) + "|" + Field(selection)
  }

  lemma {:induction false} DecimalInjective(m: nat, n: nat)
    ensures Decimal(m) == Decimal(n) ==> m == n
  {
    if Decimal(m) == Decimal(n) {
      LastDigit(m);
      LastDigit(n);
      if m >= 10 && n >= 10 {
        DecimalInjective(m / 10, n / 10);
      } else {
        TwoDigits(m);
        TwoDigits(n);
      }
    }
  }

  lemma LastDigit(n: nat)
    ensures var s := Decimal(n); s[|s| - 1] == Digit(n % 10) && (n >= 10 ==> s[..|s| - 1] == Decimal(n / 10))
  {
  }

  lemma TwoDigits(n: nat)
    ensures |Decimal(n)| == 1 <==> n < 10
  {
  }

  lemma IntegerTextInjective(m: int, n: int)
    ensures IntegerText(m) == IntegerText(n) ==> m == n
  {
    if IntegerText(m) == IntegerText(n) {
      assert m < 0 ==> IntegerText(m)[0] == '-' && IntegerText(m)[1..] == Decimal(-m);
      assert n < 0 ==> IntegerText(n)[0] == '-' && IntegerText(n)[1..] == Decimal(-n);
      if m < 0 && n < 0 { DecimalInjective(-m, -n); }
      if m >= 0 && n >= 0 { DecimalInjective(m, n); }
    }
  }

  /** A digit run ended by a colon can be read off the front of any text, whatever follows. */
  lemma PrefixDetermined(d: string, e: string, s: string, t: string)
    requires forall i :: 0 <= i < |d| ==> IsDigit(d[i])
    requires forall i :: 0 <= i < |e| ==> IsDigit(e[i])
    requires d + ":" + s == e + ":" + t
    ensures d == e && s == t
  {
    var u := d + ":" + s;
    assert u[|d|] == ':' && u[|e|] == ':';
    assert forall i :: 0 <= i < |d| ==> u[i] == d[i] && u[i] != ':';
    assert forall i :: 0 <= i < |e| ==> u[i] == e[i] && u[i] != ':';
    assert |d| == |e|;
    assert d == u[..|d|] && s == u[|d| + 1..] && e == u[..|e|] && t == u[|e| + 1..];
  }

  lemma Associate(x: string, y: string, z: string)
    ensures (x + y) + z == x + (y + z)
  {
  }

  lemma EncodeStartsWithLength(a: string, s: string)
    ensures Encode(a, s) == Decimal(|a|) + ":" + (a + "|" + Field(s))
  {
    var length := Decimal(|a|) + ":";
    Associate(length, a, "|");
    Associate(length, a + "|", Field(s));
    hide Decimal;
  }

  /** Field contents may hold digits, colons and pipes: the encoding still splits in only one way. */
  lemma EncodeInjective(a: string, s: string, b: string, t: string)
    requires Encode(a, s) == Encode(b, t)
    ensures a == b && s == t
  {
    hide Encode, Decimal;
    var restA, restB := a + "|" + Field(s), b + "|" + Field(t);
    EncodeStartsWithLength(a, s);
    EncodeStartsWithLength(b, t);
    PrefixDetermined(Decimal(|a|), Decimal(|b|), restA, restB);
    DecimalInjective(|a|, |b|);
    assert a == restA[..|a|] && b == restB[..|b|];
    assert Field(s) == restA[|a| + 1..] && Field(t) == restB[|b| + 1..];
    PrefixDetermined(Decimal(|s|), Decimal(|t|), s, t);
  }

  /** The text hashed for a job: its address and its integer polygon selection. */
  function JobText(address: string, selection: int): string {
    Encode(address, IntegerText(selection))
  }

  /** The inputs that determine what the pipeline measures. */
  datatype Inputs = Inputs(address: string, selection: int)

  function FingerprintOf(hash: string -> string, x: Inputs): string { hash(JobText(x.address, x.selection)) }

  ghost predicate CollisionFree(hash: string -> string) {
    forall x, y :: hash(x) == hash(y) ==> x == y
  }

  /** The text of a job with a nine-character address and the first building selected. */
  lemma JobTextExample()
    ensures JobText("1 Main St", 0) == "9:1 Main St|1:0"
  {
    assert IntegerText(0) == "0" && Decimal(9) == "9" && Decimal(1) == "1";
  }

  lemma JobTextInjective(a: string, s: int, b: string, t: int)
    requires JobText(a, s) == JobText(b, t)
    ensures a == b && s == t
  {
    EncodeInjective(a, IntegerText(s), b, IntegerText(t));
    IntegerTextInjective(s, t);
  }

  /** Under a collision-free hash two fingerprints are equal exactly when address and selection both are. */
  lemma FingerprintsAgreeIff(hash: string -> string, x: Inputs, y: Inputs)
    requires CollisionFree(hash)
    ensures FingerprintOf(hash, x) == FingerprintOf(hash, y) <==> x.address == y.address && x.selection == y.selection
  {
    hide JobText;
    if FingerprintOf(hash, x) == FingerprintOf(hash, y) {
      JobTextInjective(x.address, x.selection, y.address, y.selection);
    }
  }
}
