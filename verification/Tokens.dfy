/** The opaque page token as a union codec over wire values.

Base64 and JSON text are taken as a round trip: a token is absent, undecodable, or some wire value. What JSON does
to a value is modelled: a number comes back as the nearest float64. */
module Tokens {
  import opened Wrappers
  import opened Filters
  import opened Arithmetic

  datatype Error = InvalidInput(message: string) | Internal(message: string)

  // ---------- numbers through float64 ----------

  const TWO53 := 0x20_0000_0000_0000

  /** The spacing of float64 values around a magnitude is 2 to this power, for integers. */
  function Exponent(a: nat): nat {
    if a < TWO53 then 0 else 1 + Exponent(a / 2)
  }

  function RoundMagnitude(a: nat): nat {
    var unit := Pow2(Exponent(a));
    var q, r := a / unit, a % unit;
    if 2 * r < unit || (2 * r == unit && q % 2 == 0) then q * unit else (q + 1) * unit
  }

  /** The integer's nearest float64, ties to even. */
  function Float64(n: int): int {
    if n >= 0 then RoundMagnitude(n) else 0 - RoundMagnitude(-n)
  }

  /** Whether float64 holds the integer exactly. */
  predicate IsFloat64(n: int) {
    var a := if n >= 0 then n else -n;
    a % Pow2(Exponent(a)) == 0
  }

  lemma RoundIsExact(a: nat)
    ensures RoundMagnitude(a) == a <==> a % Pow2(Exponent(a)) == 0
  {
    var unit := Pow2(Exponent(a));
    var q, r := a / unit, a % unit;
    assert a == q * unit + r;
    assert (q + 1) * unit == q * unit + unit;
  }

  lemma Float64IsExact(n: int)
    ensures Float64(n) == n <==> IsFloat64(n)
  {
    RoundIsExact(if n >= 0 then n else -n);
  }

  /** Magnitudes up to 2^53 are exact; 2^53 + 1 is the first that is not. */
  lemma SmallIntegersAreExact(n: int)
    ensures -TWO53 <= n <= TWO53 ==> IsFloat64(n)
    ensures !IsFloat64(TWO53 + 1)
  {
    assert Exponent(TWO53) == 1 + Exponent(TWO53 / 2);
    assert Exponent(TWO53 + 1) == 1 + Exponent((TWO53 + 1) / 2);
    assert Pow2(1) == 2 * Pow2(0);
  }

  // ---------- the token ----------

  datatype KeysetCursor = KeysetCursor(sortValues: seq<Value>, id: string, fingerprint: string)
  datatype PageToken = PageToken(keyset: Option<KeysetCursor>, offsetPage: int)

  /** The token string: empty, undecodable, or the encoding of a wire value. */
  datatype Token = NoToken | Malformed | Encoded(wire: PageToken)

  /** What a scalar looks like after JSON: text and booleans as they were, a number as a float64. */
  function JsonScalar(v: Value): Value {
    match v
    case Num(n) => Num(Float64(n))
    case Text(_) => v
    case Bool(_) => v
    case _ => Null // not a token scalar; the minting code never sends one
  }

  function JsonScalars(vs: seq<Value>): (r: seq<Value>)
    ensures |r| == |vs| && forall i | 0 <= i < |vs| :: r[i] == JsonScalar(vs[i])
  {
    seq(|vs|, i requires 0 <= i < |vs| => JsonScalar(vs[i]))
  }

  function EncodeToken(tok: PageToken): Token {
    match tok.keyset
    case Some(_) => Encoded(tok.(offsetPage := 0))
    case None => Encoded(tok)
  }

  function DecodeToken(token: Token): Result<PageToken, Error> {
    match token
    case NoToken => Ok(PageToken(None, 1))
    case Malformed => Err(InvalidInput("malformed page token"))
    case Encoded(w) =>
      match w.keyset
      case Some(k) => Ok(PageToken(Some(k.(sortValues := JsonScalars(k.sortValues))), 0))
      case None => Ok(PageToken(None, w.offsetPage))
  }

  const TWO31 := 0x8000_0000

  /** Go's conversion to int32. */
  function Int32(n: int): int {
    (n + TWO31) % (2 * TWO31) - TWO31
  }

  /** An offset page survives the token, and the union never mixes its two arms. */
  lemma OffsetTokenRoundTrip(page: int)
    ensures DecodeToken(EncodeToken(PageToken(None, Int32(page)))) == Ok(PageToken(None, page)) <==>
              -TWO31 <= page < TWO31
  {
  }
}
