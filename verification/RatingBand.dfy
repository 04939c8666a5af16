/** computeRatingBand of internal/queue/client.go. */
module RatingBand {
  import opened Model

  const SKILL_BAND_WIDTH := 300
  const SKILL_BAND_MIN := 1000
  const SKILL_BAND_MAX := 2400

  /** Decimal digits, as fmt's %d prints a natural number. */
  function Decimal(n: nat): string {
    var digit := [Digit(n % 10)];
    if n < 10 then digit else Decimal(n / 10) + digit
  }

  function Digit(d: nat): char
    requires d < 10
  {
    "0123456789"[d]
  }

  function Clamp(rating: int32): (r: int)
    ensures SKILL_BAND_MIN <= r <= SKILL_BAND_MAX
  {
    if rating as int < SKILL_BAND_MIN then SKILL_BAND_MIN
    else if rating as int > SKILL_BAND_MAX then SKILL_BAND_MAX
    else rating as int
  }

  function Lower(rating: int32): (lower: int)
    ensures lower in {1000, 1300, 1600, 1900, 2200}
    ensures lower <= Clamp(rating) < lower + SKILL_BAND_WIDTH
  {
    SKILL_BAND_MIN + (Clamp(rating) - SKILL_BAND_MIN) / SKILL_BAND_WIDTH * SKILL_BAND_WIDTH
  }

  function Upper(rating: int32): int {
    var upper := Lower(rating) + SKILL_BAND_WIDTH;
    if upper > SKILL_BAND_MAX then SKILL_BAND_MAX else upper
  }

  function ComputeRatingBand(rating: int32): string {
    Decimal(Lower(rating)) + "-" + Decimal(Upper(rating))
  }

  predicate InRange(rating: int32) {
    SKILL_BAND_MIN <= rating as int <= SKILL_BAND_MAX
  }

  lemma DecimalOfBound(n: nat)
    requires n in {1000, 1300, 1600, 1900, 2200, 2400}
    ensures |Decimal(n)| == 4
    ensures Decimal(n)[0] == Digit(n / 1000)
    ensures Decimal(n)[1] == Digit(n / 100 % 10)
  {
    DecimalPrefix(n);
    DecimalPrefix(n / 10);
    DecimalPrefix(n / 100);
    assert n / 10 / 10 == n / 100 && n / 100 / 10 == n / 1000;
  }

  lemma DecimalPrefix(n: nat)
    requires n >= 10
    ensures |Decimal(n)| == |Decimal(n / 10)| + 1
    ensures Decimal(n)[..|Decimal(n / 10)|] == Decimal(n / 10)
    ensures Decimal(n)[|Decimal(n / 10)|] == Digit(n % 10)
    ensures n < 100 ==> |Decimal(n / 10)| == 1 && Decimal(n / 10)[0] == Digit(n / 10)
  {
  }

  lemma BandDigits(rating: int32)
    ensures |ComputeRatingBand(rating)| >= 2
    ensures ComputeRatingBand(rating)[0] == Digit(Lower(rating) / 1000)
    ensures ComputeRatingBand(rating)[1] == Digit(Lower(rating) / 100 % 10)
  {
    DecimalOfBound(Lower(rating));
  }

  /** The printed key names the band: equal keys mean equal bands. */
  lemma BandNamesLower(a: int32, b: int32)
    ensures ComputeRatingBand(a) == ComputeRatingBand(b) <==> Lower(a) == Lower(b)
  {
    if ComputeRatingBand(a) == ComputeRatingBand(b) {
      BandDigits(a);
      BandDigits(b);
      DigitsNameBound(Lower(a), Lower(b));
    }
  }

  lemma DigitsNameBound(x: nat, y: nat)
    requires x in {1000, 1300, 1600, 1900, 2200} && y in {1000, 1300, 1600, 1900, 2200}
    requires Digit(x / 1000) == Digit(y / 1000)
    requires Digit(x / 100 % 10) == Digit(y / 100 % 10)
    ensures x == y
  {
  }

  /** Two ratings of one band inside the configured range differ by at most 299. */
  lemma BandSpread(a: int32, b: int32)
    requires ComputeRatingBand(a) == ComputeRatingBand(b)
    requires InRange(a) && InRange(b)
    ensures Abs(a as int - b as int) <= 299
  {
    BandNamesLower(a, b);
  }

  /** The clamp makes the lowest and the highest band endless, so that over all ratings the
      bound of 299 holds in the band of k if and only if k is in neither of them. */
  lemma BandSpreadIff(k: int32)
    ensures (forall a, b :: ComputeRatingBand(a) == ComputeRatingBand(k) == ComputeRatingBand(b) ==> Abs(a as int - b as int) <= 299)
      <==> 1300 <= k < 2200
  {
    if 1300 <= k < 2200 {
      forall a, b | ComputeRatingBand(a) == ComputeRatingBand(k) == ComputeRatingBand(b)
        ensures Abs(a as int - b as int) <= 299
      {
        BandNamesLower(a, k);
        BandNamesLower(b, k);
      }
    } else {
      ClampedBandsAreWide();
      var a: int32, b: int32 := if k < 1300 then 0 else 2200, if k < 1300 then 1299 else 1_000_000;
      BandNamesLower(a, k);
      BandNamesLower(b, k);
      assert Abs(a as int - b as int) > 299;
    }
  }

  lemma ClampedBandsAreWide()
    ensures Lower(0) == Lower(1299) == 1000
    ensures Lower(2200) == Lower(1_000_000) == 2200
    ensures forall k: int32 :: k < 1300 ==> Lower(k) == 1000
    ensures forall k: int32 :: k >= 2200 ==> Lower(k) == 2200
  {
  }

  /** The five names. */
  lemma BandTable(k: int32)
    ensures ComputeRatingBand(k) ==
      if k < 1300 then "1000-1300"
      else if k < 1600 then "1300-1600"
      else if k < 1900 then "1600-1900"
      else if k < 2200 then "1900-2200"
      else "2200-2400"
  {
    hide Decimal, Lower, Upper;
    BoundsOf(k);
    if k < 1300 {
      BandName(1000, 1300);
    } else if k < 1600 {
      BandName(1300, 1600);
    } else if k < 1900 {
      BandName(1600, 1900);
    } else if k < 2200 {
      BandName(1900, 2200);
    } else {
      BandName(2200, 2400);
    }
  }

  /** A bound as it is written. */
  function Written(bound: int): string {
    if bound == 1000 then "1000" else if bound == 1300 then "1300" else if bound == 1600 then "1600"
    else if bound == 1900 then "1900" else if bound == 2200 then "2200" else "2400"
  }

  lemma BandName(lower: nat, upper: nat)
    requires lower in {1000, 1300, 1600, 1900, 2200} && upper == if lower == 2200 then 2400 else lower + 300
    ensures Decimal(lower) + "-" + Decimal(upper) ==
      if lower == 1000 then "1000-1300"
      else if lower == 1300 then "1300-1600"
      else if lower == 1600 then "1600-1900"
      else if lower == 1900 then "1900-2200"
      else "2200-2400"
  {
    hide Decimal;
    DecimalIsWritten(lower);
    DecimalIsWritten(upper);
  }

  lemma DecimalIsWritten(bound: nat)
    requires bound in {1000, 1300, 1600, 1900, 2200, 2400}
    ensures Decimal(bound) == Written(bound)
  {
    hide Decimal;
    var hundreds := bound / 100;
    OneDigit(hundreds / 10);
    NextDigit(hundreds / 10, hundreds % 10);
    NextDigit(hundreds, 0);
    NextDigit(10 * hundreds, 0);
    assert Decimal(bound) == [Digit(hundreds / 10), Digit(hundreds % 10), '0', '0'];
  }

  lemma BoundsOf(k: int32)
    ensures Lower(k) == if k < 1300 then 1000 else if k < 1600 then 1300 else if k < 1900 then 1600 else if k < 2200 then 1900 else 2200
    ensures Upper(k) == if k < 1300 then 1300 else if k < 1600 then 1600 else if k < 1900 then 1900 else if k < 2200 then 2200 else 2400
  {
  }

  lemma OneDigit(d: nat)
    requires d < 10
    ensures Decimal(d) == [Digit(d)]
  {
    hide Digit;
    assert d % 10 == d;

  }

  lemma NextDigit(n: nat, d: nat)
    requires n > 0 && d < 10
    ensures Decimal(10 * n + d) == Decimal(n) + [Digit(d)]
  {
  }

  /** Between two ratings of a band every rating has that band; the keys split the
      range into consecutive intervals. */
  lemma BandsAreIntervals(a: int32, b: int32, c: int32)
    requires a <= b <= c
    requires ComputeRatingBand(a) == ComputeRatingBand(c)
    ensures ComputeRatingBand(b) == ComputeRatingBand(a)
  {
    BandNamesLower(a, c);
    BandNamesLower(a, b);
  }
}
