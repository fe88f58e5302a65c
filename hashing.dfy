/** The two `hashStringToHue` variants: the map pages fold every UTF-16
    code unit into `h = (h << 5) - h + code` and truncate with `h |= 0`;
    the officials page does the same fold without the truncation, so only
    the operand of `<<` goes through ToInt32. */
module Hashing {
  import opened Js

  /** The rolling polynomial the fold computes, over unbounded integers:
      sum of u[i] * 31^(|u|-1-i). */
  function Poly31(u: seq<CodeUnit>): int {
    if u == [] then 0 else 31 * Poly31(u[..|u| - 1]) + u[|u| - 1]
  }

  /** The accumulator of the map pages after every code unit of `u`. */
  function Hash32(u: seq<CodeUnit>): (h: int)
    ensures IsInt32(h)
  {
    if u == [] then 0
    else
      var h := Hash32(u[..|u| - 1]);
      ToInt32(ShiftLeft5(h) - h + u[|u| - 1])
  }

  /** One step of the truncated fold is ToInt32(31 * h + code). */
  lemma Hash32Step(h: int, c: int)
    ensures ToInt32(ShiftLeft5(h) - h + c) == ToInt32(31 * h + c)
  {
    var s := ShiftLeft5(h);
    var q := (s - 32 * h) / TwoTo32;
    assert s - 32 * h == q * TwoTo32;
    assert (s - h + c) - (31 * h + c) == q * TwoTo32;
    ToInt32Congruent(s - h + c, 31 * h + c);
  }

  /** Folding one more code unit into congruent accumulators keeps them
      congruent. */
  lemma StepCongruent(p: int, h: int, c: int)
    requires (p - h) % TwoTo32 == 0
    ensures ToInt32(31 * p + c) == ToInt32(31 * h + c)
  {
    var q := (p - h) / TwoTo32;
    assert p - h == q * TwoTo32;
    assert (31 * p + c) - (31 * h + c) == (31 * q) * TwoTo32;
    ToInt32Congruent(31 * p + c, 31 * h + c);
  }

  /** After every step the accumulator is ToInt32 of the exact polynomial. */
  lemma {:induction false} Hash32IsTruncatedPoly(u: seq<CodeUnit>)
    ensures Hash32(u) == ToInt32(Poly31(u))
  {
    if u != [] {
      var init, c := u[..|u| - 1], u[|u| - 1];
      Hash32IsTruncatedPoly(init);
      var h, p := Hash32(init), Poly31(init);
      Hash32Step(h, c);
      StepCongruent(p, h, c);
    }
  }

  /** `Math.abs(h) % 360` on the truncated accumulator. */
  function TruncatedHue(s: string): (hue: int)
    ensures 0 <= hue < 360
  {
    Abs(Hash32(Utf16(s))) % 360
  }

  /** `hashStringToHue` of the two map pages, as the loop runs it. */
  method HashStringToHue(s: string) returns (hue: int)
    ensures hue == TruncatedHue(s)
    ensures 0 <= hue < 360
  {
    var units := Utf16(s);
    var h := 0;
    var i := 0;
    while i < |units|
      invariant 0 <= i <= |units|
      invariant h == Hash32(units[..i])
    {
      assert units[..i + 1][..i] == units[..i];
      h := ShiftLeft5(h) - h + units[i];
      h := ToInt32(h);  // h |= 0
      i := i + 1;
    }
    assert units[..|units|] == units;
    hue := Abs(h) % 360;
  }

  // ---------------------------------------------------------------------
  // The officials page: no truncation of the accumulator

  /** The accumulator of the officials page after every code unit of `u`:
      `hash = code + ((hash << 5) - hash)`. The model is exact while the
      Number stays below 2^53 in magnitude (see UntruncatedIsExact). Each
      code unit adds at most 2^31 + 2^16 to its magnitude. */
  function HashUntruncated(u: seq<CodeUnit>): (h: int)
    ensures Abs(h) <= |u| * 0x8001_0000
  {
    if u == [] then 0
    else
      var h := HashUntruncated(u[..|u| - 1]);
      u[|u| - 1] + (ShiftLeft5(h) - h)
  }

  /** The untruncated accumulator agrees with the truncated one modulo 2^32. */
  lemma {:induction false} UntruncatedAgreesModulo32(u: seq<CodeUnit>)
    ensures ToInt32(HashUntruncated(u)) == Hash32(u)
  {
    if u != [] {
      var init, c := u[..|u| - 1], u[|u| - 1];
      UntruncatedAgreesModulo32(init);
      var x, h := HashUntruncated(init), Hash32(init);
      // ToInt32(x) == h, so the shift sees the same operand in both folds
      ToInt32OfInt32(h);
      assert ShiftLeft5(x) == ShiftLeft5(h);
      var s := ShiftLeft5(h);
      var q := (x - ToInt32(x)) / TwoTo32;
      assert x - h == q * TwoTo32;
      assert (s - h + c) - (c + (s - x)) == q * TwoTo32;
      ToInt32Congruent(s - h + c, c + (s - x));
    }
  }

  /** So for every string of up to four million code units the accumulator
      stays within 2^53, where Number arithmetic on integers is exact. */
  lemma UntruncatedIsExact(u: seq<CodeUnit>)
    requires |u| <= 4_000_000
    ensures Abs(HashUntruncated(u)) <= 0x20_0000_0000_0000
  {
    var h := HashUntruncated(u);
    assert Abs(h) <= |u| * 0x8001_0000;
  }

  /** `Math.abs(hash % 360)` on the untruncated accumulator. */
  function UntruncatedHue(s: string): (hue: int)
    ensures 0 <= hue < 360
    ensures hue == Abs(HashUntruncated(Utf16(s))) % 360
  {
    Abs(Remainder(HashUntruncated(Utf16(s)), 360))
  }

  /** `hashStringToHue` of the officials page, as the loop runs it. */
  method HashStringToHueUntruncated(s: string) returns (hue: int)
    ensures hue == UntruncatedHue(s)
    ensures 0 <= hue < 360
  {
    var units := Utf16(s);
    var hash := 0;
    var i := 0;
    while i < |units|
      invariant 0 <= i <= |units|
      invariant hash == HashUntruncated(units[..i])
    {
      assert units[..i + 1][..i] == units[..i];
      hash := units[i] + (ShiftLeft5(hash) - hash);
      i := i + 1;
    }
    assert units[..|units|] == units;
    hue := Abs(Remainder(hash, 360));
  }

  /** The two variants agree on every string whose untruncated accumulator
      stays a 32-bit integer. */
  lemma HuesAgreeWithoutOverflow(s: string)
    requires IsInt32(HashUntruncated(Utf16(s)))
    ensures UntruncatedHue(s) == TruncatedHue(s)
  {
    var u := Utf16(s);
    UntruncatedAgreesModulo32(u);
    ToInt32OfInt32(HashUntruncated(u));
  }

  /** The code units of the party name "NARC-Kenya". */
  const NarcKenya: seq<CodeUnit> := [78, 65, 82, 67, 45, 75, 101, 110, 121, 97]

  lemma NarcKenyaCodeUnits()
    ensures Utf16("NARC-Kenya") == NarcKenya
  {
    var s: string := "NARC-Kenya";
    assert forall i :: 0 <= i < |s| ==> (s[i] as int) < 0x1_0000;
    var u := Utf16(s);
    assert u[0] == 78 && u[1] == 65 && u[2] == 82 && u[3] == 67 && u[4] == 45;
    assert u[5] == 75 && u[6] == 101 && u[7] == 110 && u[8] == 121 && u[9] == 97;
  }

  lemma UntruncatedExtend(p: seq<CodeUnit>, c: CodeUnit, h: int, next: int)
    requires HashUntruncated(p) == h && c + (ShiftLeft5(h) - h) == next
    ensures HashUntruncated(p + [c]) == next
  {
    assert (p + [c])[..|p|] == p;
  }

  /** The officials page's accumulator on "NARC-Kenya": it leaves the 32-bit
      range at the seventh code unit and again at the last. */
  lemma NarcKenyaUntruncated()
    ensures HashUntruncated(NarcKenya) == 2201818195
  {
    var p0: seq<CodeUnit> := [];
    var p1 := p0 + [78];
    UntruncatedExtend(p0, 78, 0, 78);
    var p2 := p1 + [65];
    UntruncatedExtend(p1, 65, 78, 2483);
    var p3 := p2 + [82];
    UntruncatedExtend(p2, 82, 2483, 77055);
    var p4 := p3 + [67];
    UntruncatedExtend(p3, 67, 77055, 2388772);
    var p5 := p4 + [45];
    UntruncatedExtend(p4, 45, 2388772, 74051977);
    var p6 := p5 + [75];
    UntruncatedExtend(p5, 75, 74051977, -1999355934);
    var p7 := p6 + [101];
    UntruncatedExtend(p6, 101, -1999355934, 2444475587);
    var p8 := p7 + [110];
    UntruncatedExtend(p7, 110, 2444475587, -1530668021);
    var p9 := p8 + [121];
    UntruncatedExtend(p8, 121, -1530668021, -206068274);
    var p10 := p9 + [97];
    UntruncatedExtend(p9, 97, -206068274, 2201818195);
    assert p10 == NarcKenya;
  }

  /** The map pages' accumulator on "NARC-Kenya" is the officials page's
      one brought back into 32 bits. */
  lemma NarcKenyaTruncated()
    ensures Hash32(NarcKenya) == -2093149101
  {
    UntruncatedAgreesModulo32(NarcKenya);
    NarcKenyaUntruncated();
    assert ToInt32(2201818195) == -2093149101;
  }

  /** The map pages give the party name "NARC-Kenya" hue 21 ... */
  lemma NarcKenyaTruncatedHue()
    ensures TruncatedHue("NARC-Kenya") == 21
  {
    NarcKenyaCodeUnits();
    NarcKenyaTruncated();
    assert Abs(-2093149101) == 2093149101;
    assert 2093149101 % 360 == 21;
  }

  /** ... and the officials page hue 235. */
  lemma NarcKenyaUntruncatedHue()
    ensures UntruncatedHue("NARC-Kenya") == 235
  {
    NarcKenyaCodeUnits();
    NarcKenyaUntruncated();
  }

  /** So the two variants do not agree on every string. */
  lemma HuesDivergeOnNarcKenya()
    ensures TruncatedHue("NARC-Kenya") != UntruncatedHue("NARC-Kenya")
  {
    NarcKenyaTruncatedHue();
    NarcKenyaUntruncatedHue();
  }
}
