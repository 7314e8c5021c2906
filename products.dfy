/** Small per-product tables of geedar_lib/geedar.py: the spectral-band
    dictionary, the quality-assurance bit fields and their masks, the
    acquisition-time rule, and the product identifier inside a processing code. */
module Products {
  import opened Registry
  import opened PyText

  // ---------------------------------------------------------- spectral bands

  /** The comprehension over `commonBands`: names whose index is not negative. */
  function CommonBandsDict(spec: ProductSpec): map<string, string>
    requires WellIndexed(spec)
  {
    map k | k in spec.commonBands && spec.commonBands[k] >= 0 :: spec.bandList[spec.commonBands[k]]
  }

  function SpectralBandsList(spec: ProductSpec): (r: seq<string>)
    requires WellIndexed(spec)
    ensures |r| == |spec.spectralBandInds|
  {
    seq(|spec.spectralBandInds|, i requires 0 <= i < |spec.spectralBandInds| => spec.bandList[spec.spectralBandInds[i]])
  }

  /** `getSpectralBands`: common names mapped to real band names, merged with
      every spectral band mapped to itself, the latter winning on a clash. */
  function GetSpectralBands(spec: ProductSpec): (r: map<string, string>)
    requires WellIndexed(spec)
    ensures forall k :: k in r <==> (k in spec.commonBands && spec.commonBands[k] >= 0) || k in SpectralBandsList(spec)
    ensures forall k :: k in SpectralBandsList(spec) ==> r[k] == k
    ensures forall k :: k in spec.commonBands && spec.commonBands[k] >= 0 && k !in SpectralBandsList(spec) ==>
      r[k] == spec.bandList[spec.commonBands[k]]
  {
    var spectral := SpectralBandsList(spec);
    CommonBandsDict(spec) + map b | b in spectral :: b
  }

  /** Every value of the dictionary is one of the product's band names. */
  lemma {:induction false} SpectralBandValues(spec: ProductSpec)
    requires WellIndexed(spec)
    ensures forall k :: k in GetSpectralBands(spec) ==> GetSpectralBands(spec)[k] in spec.bandList
  {
    var r := GetSpectralBands(spec);
    forall k | k in r ensures r[k] in spec.bandList {
      if k in SpectralBandsList(spec) {
        var i :| 0 <= i < |SpectralBandsList(spec)| && SpectralBandsList(spec)[i] == k;
        assert spec.bandList[spec.spectralBandInds[i]] == k;
      }
    }
  }

  // --------------------------------------------------------------- QA masks

  /** One bit field of a quality layer and the test applied to its value. */
  datatype BitField = BitField(layer: string, startBit: nat, endBit: nat, test: string)

  datatype QaPlan = NoQaMask | QaMask(fields: seq<BitField>) | QaLayerIndexError

  predicate IsModis(productID: int) { 100 <= productID < 120 }

  /** The bit-field table of `qaMask_collection`. A product without a quality
      layer, or not in the table, is left unmasked; a table entry that reads a
      second layer the registry does not list raises IndexError. */
  function QaFields(productID: int, qaLayer: seq<string>): (r: QaPlan)
    ensures qaLayer == [] ==> r == NoQaMask
    ensures r.QaMask? ==> forall i :: 0 <= i < |r.fields| ==>
      r.fields[i].startBit <= r.fields[i].endBit < 16 && r.fields[i].layer in qaLayer
  {
    if qaLayer == [] then NoQaMask
    else if IsModis(productID) then
      QaMask([BitField(qaLayer[0], 0, 2, "b(0) == 0"), BitField(qaLayer[0], 6, 7, "b(0) < 2"),
              BitField(qaLayer[0], 8, 9, "b(0) == 0")])
    else if productID == 201 then QaMask([BitField(qaLayer[0], 0, 7, "b(0) >= 4 && b(0) <= 7")])
    else if productID == 202 then QaMask([BitField(qaLayer[0], 10, 11, "b(0) == 0")])
    else if productID in {301, 302} then QaMask([BitField(qaLayer[0], 3, 5, "b(0) == 0")])
    else if productID == 303 then
      if |qaLayer| < 2 then QaLayerIndexError
      else QaMask([BitField(qaLayer[0], 3, 5, "b(0) == 0"), BitField(qaLayer[1], 6, 7, "b(0) <= 1")])
    else if productID in {311, 312, 313} then QaMask([BitField(qaLayer[0], 1, 5, "b(0) == 0")])
    else if productID in {314, 315} then
      if |qaLayer| < 2 then QaLayerIndexError
      else QaMask([BitField(qaLayer[0], 1, 5, "b(0) == 0"), BitField(qaLayer[1], 6, 7, "b(0) <= 1")])
    else if productID in {151, 152} then
      if |qaLayer| < 2 then QaLayerIndexError
      else QaMask([BitField(qaLayer[0], 2, 4, "b(0) == 0"), BitField(qaLayer[1], 3, 7, "b(0) == 0")])
    else NoQaMask
  }

  function Pow2(n: nat): (r: nat)
    ensures r >= 1
  {
    if n == 0 then 1 else 2 * Pow2(n - 1)
  }

  /** The `bitToInt` accumulation: for each field, the sum of 2^j over its bits. */
  method MaskValues(fields: seq<BitField>) returns (maskVals: seq<nat>)
    requires forall i :: 0 <= i < |fields| ==> fields[i].startBit <= fields[i].endBit
    ensures |maskVals| == |fields|
    ensures forall i :: 0 <= i < |fields| ==>
      maskVals[i] == Pow2(fields[i].endBit + 1) - Pow2(fields[i].startBit)
  {
    maskVals := [];
    var i := 0;
    while i < |fields|
      invariant 0 <= i <= |fields| && |maskVals| == i
      invariant forall k :: 0 <= k < i ==>
        maskVals[k] == Pow2(fields[k].endBit + 1) - Pow2(fields[k].startBit)
    {
      var bitToInt: nat := 0;
      var j := fields[i].startBit;
      while j < fields[i].endBit + 1
        invariant fields[i].startBit <= j <= fields[i].endBit + 1
        invariant bitToInt == Pow2(j) - Pow2(fields[i].startBit)
      {
        Pow2Monotone(fields[i].startBit, j + 1);
        bitToInt := bitToInt + Pow2(j);
        j := j + 1;
      }
      maskVals := maskVals + [bitToInt];
      i := i + 1;
    }
  }

  lemma {:induction false} Pow2Monotone(a: nat, b: nat)
    requires a <= b
    ensures Pow2(a) <= Pow2(b)
    decreases b
  {
    if a < b { Pow2Monotone(a, b - 1); }
  }

  /** The MODIS masks are 7, 192 and 768. */
  method ModisMasks(layer: string) returns (maskVals: seq<nat>)
    ensures maskVals == [7, 192, 768]
  {
    var plan := QaFields(101, [layer]);
    assert Pow2(3) == 8 && Pow2(6) == 64 && Pow2(8) == 256 && Pow2(10) == 1024 by {
      assert Pow2(1) == 2 && Pow2(2) == 4 && Pow2(4) == 16 && Pow2(5) == 32;
      assert Pow2(7) == 128 && Pow2(9) == 512;
    }
    maskVals := MaskValues(plan.fields);
  }

  /** `x & y` on non-negative integers. */
  function BitAnd(x: nat, y: nat): nat
  {
    if x == 0 || y == 0 then 0 else 2 * BitAnd(x / 2, y / 2) + (if x % 2 == 1 && y % 2 == 1 then 1 else 0)
  }

  lemma {:induction false} AndLowOnes(x: nat, k: nat)
    ensures BitAnd(x, Pow2(k) - 1) == x % Pow2(k)
  {
    if k > 0 {
      AndLowOnes(x / 2, k - 1);
      LowOnesStep(x, k);
    } else {
      LemmaModUnique(x, 1, x, 0);
    }
  }

  /** One more low bit: from the claim for x / 2 and k - 1 to x and k. */
  lemma {:induction false} LowOnesStep(x: nat, k: nat)
    requires k > 0 && BitAnd(x / 2, Pow2(k - 1) - 1) == (x / 2) % Pow2(k - 1)
    ensures BitAnd(x, Pow2(k) - 1) == x % Pow2(k)
  {
    var p := Pow2(k - 1);
    assert BitAnd(x, Pow2(k) - 1) == 2 * BitAnd(x / 2, p - 1) + x % 2 by {
      assert Pow2(k) - 1 == 2 * (p - 1) + 1;
      AndOdd(x, p - 1);
    }
    DivModPow2(x, k);
  }

  /** x % 2^k == 2 * ((x / 2) % 2^(k-1)) + x % 2. */
  lemma {:induction false} DivModPow2(x: nat, k: nat)
    requires k > 0
    ensures x % Pow2(k) == 2 * ((x / 2) % Pow2(k - 1)) + x % 2
  {
    var p := Pow2(k - 1);
    var q := (x / 2) / p;
    var r := (x / 2) % p;
    assert x / 2 == q * p + r;
    assert x == 2 * (x / 2) + x % 2;
    assert x == q * (2 * p) + (2 * r + x % 2);
    LemmaModUnique(x, 2 * p, q, 2 * r + x % 2);
  }

  /** Quotient and remainder are determined by `x == q * m + r` with `0 <= r < m`. */
  lemma {:induction false} LemmaModUnique(x: int, m: int, q: int, r: int)
    requires m > 0 && 0 <= r < m && x == q * m + r
    ensures x % m == r && x / m == q
  {
    var q', r' := x / m, x % m;
    assert x == q' * m + r';
    var d := q' - q;
    assert d * m == r - r';
    if d > 0 {
      MulAtLeast(d, m);
    } else if d < 0 {
      MulAtLeast(-d, m);
    }
  }

  lemma {:induction false} MulAtLeast(d: int, m: int)
    requires d >= 1 && m > 0
    ensures d * m >= m
  {
  }

  lemma {:induction false} AndShiftedMask(x: nat, s: nat, e: nat)
    requires s <= e
    ensures Pow2(s) <= Pow2(e + 1)
    ensures BitAnd(x, Pow2(e + 1) - Pow2(s)) == Pow2(s) * ((x / Pow2(s)) % Pow2(e - s + 1))
    decreases s
  {
    Pow2Monotone(s, e + 1);
    if s == 0 {
      assert x / Pow2(s) == x;
      AndLowOnes(x, e + 1);
    } else {
      assert BitAnd(x / 2, Pow2(e) - Pow2(s - 1)) == Pow2(s - 1) * (((x / 2) / Pow2(s - 1)) % Pow2(e - s + 1)) by {
        AndShiftedMask(x / 2, s - 1, e - 1);
      }
      Pow2Monotone(s - 1, e);
      ShiftedMaskStep(x, s, e);
    }
  }

  /** One more zero bit at the bottom of the mask: from x / 2 with the field
      one lower to x. */
  lemma {:induction false} ShiftedMaskStep(x: nat, s: nat, e: nat)
    requires 0 < s <= e && Pow2(s - 1) <= Pow2(e)
    requires BitAnd(x / 2, Pow2(e) - Pow2(s - 1)) == Pow2(s - 1) * (((x / 2) / Pow2(s - 1)) % Pow2(e - s + 1))
    ensures BitAnd(x, Pow2(e + 1) - Pow2(s)) == Pow2(s) * ((x / Pow2(s)) % Pow2(e - s + 1))
  {
    var p := Pow2(s - 1);
    var w := Pow2(e - s + 1);
    assert BitAnd(x, Pow2(e + 1) - Pow2(s)) == 2 * BitAnd(x / 2, Pow2(e) - p) by {
      assert Pow2(e + 1) - Pow2(s) == 2 * (Pow2(e) - p);
      AndDoubled(x, Pow2(e) - p);
    }
    assert (x / 2) / p == x / Pow2(s) by { DivDiv(x, p); }
    MulAssoc(2, p, (x / Pow2(s)) % w);
  }

  lemma {:induction false} MulAssoc(a: int, b: int, c: int)
    ensures a * (b * c) == (a * b) * c
  {
  }

  /** An odd mask keeps the lowest bit and shifts the rest. */
  lemma {:induction false} AndOdd(x: nat, m: nat)
    ensures BitAnd(x, 2 * m + 1) == 2 * BitAnd(x / 2, m) + x % 2
  {
    LemmaModUnique(2 * m + 1, 2, m, 1);
  }

  /** Doubling the mask shifts the selected bits up by one. */
  lemma {:induction false} AndDoubled(x: nat, m: nat)
    ensures BitAnd(x, 2 * m) == 2 * BitAnd(x / 2, m)
  {
    LemmaModUnique(2 * m, 2, m, 0);
  }

  lemma {:induction false} DivDiv(x: nat, p: nat)
    requires p > 0
    ensures (x / 2) / p == x / (2 * p)
  {
    var q := x / (2 * p);
    var r := x % (2 * p);
    assert x == q * (2 * p) + r;
    assert x == 2 * (q * p + r / 2) + r % 2;
    LemmaModUnique(x, 2, q * p + r / 2, r % 2);
    LemmaModUnique(x / 2, p, q, r / 2);
  }

  /** `(x & mask) >> startBit` is the value of bits startBit..endBit of `x`. */
  lemma {:induction false} MaskExtractsBits(x: nat, s: nat, e: nat)
    requires s <= e
    ensures Pow2(s) <= Pow2(e + 1)
    ensures BitAnd(x, Pow2(e + 1) - Pow2(s)) / Pow2(s) == (x / Pow2(s)) % Pow2(e - s + 1)
  {
    Pow2Monotone(s, e + 1);
    var m := Pow2(s);
    var v := (x / m) % Pow2(e - s + 1);
    assert BitAnd(x, Pow2(e + 1) - m) == m * v by { AndShiftedMask(x, s, e); }
    assert (m * v) / m == v by {
      assert m * v == v * m + 0;
      LemmaModUnique(m * v, m, v, 0);
    }
  }

  // ---------------------------------------------------------- image time

  datatype ImgTime = FixedTime(hhmm: string) | FromImage

  /** How `imageProcessing` sets `img_time`: a fixed overpass time for the MODIS
      products, the image's own time otherwise. */
  function ImgTimeOf(productID: int): (r: ImgTime)
    ensures r.FixedTime? <==> productID in {101, 102, 103, 104, 105, 106, 107, 111, 112, 113, 114, 115, 116, 117}
    ensures r.FixedTime? ==> r.hhmm in {"10:30", "13:30", "12:00"}
  {
    if productID in [101, 103, 105, 111, 113, 115] then FixedTime("10:30")
    else if productID in [102, 104, 106, 112, 114, 116] then FixedTime("13:30")
    else if productID in [107, 117] then FixedTime("12:00")
    else FromImage
  }

  // ------------------------------------------------------ code -> product

  function Pow10(n: nat): (r: nat)
    ensures r >= 1
  {
    if n == 0 then 1 else 10 * Pow10(n - 1)
  }

  /** `int(str(code)[0:3])`: the product identifier of a processing code. */
  function ProductOfCode(code: nat): nat
  {
    var s := DecimalString(code);
    DigitsValue(s[..if |s| < 3 then |s| else 3])
  }

  lemma {:induction false} DecimalStringLength(n: nat, k: nat)
    requires n >= Pow10(k)
    ensures |DecimalString(n)| > k
  {
    if k > 0 {
      DecimalStringLength(n / 10, k - 1);
    }
  }

  lemma {:induction false} LeadingThree(n: nat)
    requires n >= 100
    ensures ProductOfCode(n) == if n < 1000 then n else ProductOfCode(n / 10)
  {
    var s := DecimalString(n);
    if n < 1000 {
      DecimalStringLength(n, 2);
      assert |s| == 3 by { ShortDecimal(n); }
      assert s[..3] == s;
      DigitsRoundTrip(n);
    } else {
      DecimalStringLength(n / 10, 2);
      assert s == DecimalString(n / 10) + [DigitChar(n % 10)];
      assert s[..3] == DecimalString(n / 10)[..3];
    }
  }

  /** Dropping the last digit of p * 10t + rest leaves p * t + rest / 10. */
  lemma {:induction false} DropLastDigit(p: nat, t: nat, rest: nat)
    requires 100 <= p && t >= 1 && rest < 10 * t
    ensures p * (10 * t) + rest >= 1000
    ensures (p * (10 * t) + rest) / 10 == p * t + rest / 10 && rest / 10 < t
  {
    var n := p * (10 * t) + rest;
    MulAtLeast(t, 10 * p);
    assert p * (10 * t) == (10 * p) * t;
    var q := p * t + rest / 10;
    assert n == q * 10 + rest % 10;
    LemmaModUnique(n, 10, q, rest % 10);
    LemmaModUnique(rest, 10, rest / 10, rest % 10);
  }

  lemma {:induction false} ShortDecimal(n: nat)
    requires 100 <= n < 1000
    ensures |DecimalString(n)| == 3
  {
    var m := n / 10;
    assert 10 <= m < 100;
    assert m / 10 < 10;
    assert |DecimalString(m / 10)| == 1;
    assert |DecimalString(m)| == 2;
  }

  /** A code laid out as a three-digit product followed by k more digits
      (the `PPP SS RR A` layout has k = 5) gives back its product. */
  lemma {:induction false} ProductOfLaidOutCode(p: nat, k: nat, rest: nat)
    requires 100 <= p < 1000 && rest < Pow10(k)
    ensures ProductOfCode(p * Pow10(k) + rest) == p
  {
    if k == 0 {
      LeadingThree(p * Pow10(k) + rest);
    } else {
      ProductOfLaidOutCode(p, k - 1, rest / 10);
      LaidOutStep(p, k, rest);
    }
  }

  /** Dropping the last digit of a laid-out code keeps its leading three. */
  lemma {:induction false} LaidOutStep(p: nat, k: nat, rest: nat)
    requires 100 <= p < 1000 && k > 0 && rest < Pow10(k)
    ensures ProductOfCode(p * Pow10(k) + rest) == ProductOfCode(p * Pow10(k - 1) + rest / 10)
  {
    var t := Pow10(k - 1);
    var n := p * Pow10(k) + rest;
    assert n == p * (10 * t) + rest;
    DropLastDigit(p, t, rest);
    LeadingThree(n);
  }
}
