/** The JavaScript value semantics the pages rely on: optional strings and
    `||`, ToInt32 and `<<`, the truncating `%`, `Math.abs`, the UTF-16 view
    of a string (`.length`, `charCodeAt`), ASCII `toLowerCase`, `includes`,
    `split(" ")[0]` and `trim`. */
module Js {

  /** A value that may be `undefined` or `null`. */
  datatype Option<+T> = None | Some(value: T)

  /** The outcome of evaluating an expression that may throw a TypeError
      (reading a property of `null` or `undefined`). */
  datatype Eval<+T> = Returns(value: T) | ThrowsTypeError

  // ---------------------------------------------------------------------
  // Truthiness of optional strings

  /** An optional string is truthy when it is present and not "". */
  predicate Truthy(s: Option<string>) {
    s.Some? && s.value != ""
  }

  /** `a || b` where `a` may be absent or empty and `b` is a string. */
  function Or(a: Option<string>, b: string): (r: string)
    ensures Truthy(a) ==> r == a.value
    ensures !Truthy(a) ==> r == b
  {
    if Truthy(a) then a.value else b
  }

  // ---------------------------------------------------------------------
  // 32-bit integers

  const TwoTo31: int := 0x8000_0000
  const TwoTo32: int := 0x1_0000_0000

  predicate IsInt32(x: int) {
    -TwoTo31 <= x < TwoTo31
  }

  /** ToInt32 (section 7.1.6 of ECMA-262) of an integral Number: the unique
      signed 32-bit integer congruent to `x` modulo 2^32. */
  function ToInt32(x: int): (r: int)
    ensures IsInt32(r)
    ensures (x - r) % TwoTo32 == 0
  {
    var m := x % TwoTo32;
    if m >= TwoTo31 then m - TwoTo32 else m
  }

  /** ToInt32 leaves a signed 32-bit integer unchanged. */
  lemma ToInt32OfInt32(x: int)
    requires IsInt32(x)
    ensures ToInt32(x) == x
  {
  }

  /** Congruent integers have the same ToInt32. */
  lemma ToInt32Congruent(x: int, y: int)
    requires (x - y) % TwoTo32 == 0
    ensures ToInt32(x) == ToInt32(y)
  {
    assert x % TwoTo32 == y % TwoTo32;
  }

  /** `x << 5` (section 13.9.1 of ECMA-262): the operand goes through
      ToInt32 and the shifted value is truncated back to 32 bits. */
  function ShiftLeft5(x: int): (r: int)
    ensures IsInt32(r)
    ensures (r - 32 * x) % TwoTo32 == 0
  {
    var v := ToInt32(x);
    assert (32 * v - 32 * x) % TwoTo32 == 0 by {
      var q := (x - v) / TwoTo32;
      assert x - v == q * TwoTo32;
      assert 32 * v - 32 * x == (-32 * q) * TwoTo32;
    }
    ToInt32(32 * v)
  }

  function Abs(x: int): (r: nat)
    ensures r == x || r == -x
  {
    if x < 0 then -x else x
  }

  /** JavaScript `a % b` on integral Numbers: the remainder of truncating
      division, which takes the sign of the dividend. */
  function Remainder(a: int, b: int): (r: int)
    requires b > 0
    ensures Abs(r) == Abs(a) % b
    ensures a >= 0 ==> r >= 0
    ensures a < 0 ==> r <= 0
  {
    if a >= 0 then a % b else -((-a) % b)
  }

  // ---------------------------------------------------------------------
  // Strings as UTF-16 code units

  type CodeUnit = x: int | 0 <= x < 0x1_0000

  /** The UTF-16 encoding of one character: itself below U+10000, else a
      surrogate pair. */
  function CodeUnitsOf(c: char): (u: seq<CodeUnit>)
    ensures 1 <= |u| <= 2
    ensures |u| == 1 <==> (c as int) < 0x1_0000
    ensures |u| == 1 ==> u[0] == c as int
    ensures |u| == 2 ==> 0xD800 <= u[0] < 0xDC00 <= u[1] < 0xE000
  {
    var v := c as int;
    if v < 0x1_0000 then [v]
    else [0xD800 + (v - 0x1_0000) / 0x400, 0xDC00 + (v - 0x1_0000) % 0x400]
  }

  /** The code units a JavaScript string holds: `s.length` is `|Utf16(s)|`
      and `s.charCodeAt(i)` is `Utf16(s)[i]`. */
  function Utf16(s: string): (u: seq<CodeUnit>)
    ensures |s| <= |u| <= 2 * |s|
    ensures (forall i :: 0 <= i < |s| ==> (s[i] as int) < 0x1_0000) ==>
              |u| == |s| && forall i :: 0 <= i < |s| ==> u[i] == s[i] as int
  {
    if s == [] then [] else Utf16(s[..|s| - 1]) + CodeUnitsOf(s[|s| - 1])
  }

  // ---------------------------------------------------------------------
  // String operations

  function LowerChar(c: char): char {
    if 'A' <= c <= 'Z' then (c as int + 32) as char else c
  }

  /** `toLowerCase`, restricted to the ASCII letters. */
  function Lower(s: string): (r: string)
    ensures |r| == |s|
    ensures forall i :: 0 <= i < |s| ==> r[i] == LowerChar(s[i])
  {
    seq(|s|, i requires 0 <= i < |s| => LowerChar(s[i]))
  }

  predicate StartsWith(s: string, prefix: string) {
    |prefix| <= |s| && s[..|prefix|] == prefix
  }

  /** `t` occurs in `s` starting at index `i`. */
  predicate OccursAt(s: string, t: string, i: int) {
    0 <= i && i + |t| <= |s| && s[i..i + |t|] == t
  }

  /** `s.includes(t)`. */
  predicate Includes(s: string, t: string)
    decreases |s|
  {
    StartsWith(s, t) || (|s| > 0 && Includes(s[1..], t))
  }

  lemma {:induction false} IncludesGivesOccurrence(s: string, t: string)
    requires Includes(s, t)
    ensures exists i :: OccursAt(s, t, i)
    decreases |s|
  {
    if StartsWith(s, t) {
      assert OccursAt(s, t, 0);
    } else {
      IncludesGivesOccurrence(s[1..], t);
      var i :| OccursAt(s[1..], t, i);
      assert s[1..][i..i + |t|] == s[i + 1..i + 1 + |t|];
      assert OccursAt(s, t, i + 1);
    }
  }

  lemma {:induction false} OccurrenceGivesIncludes(s: string, t: string, i: int)
    requires OccursAt(s, t, i)
    ensures Includes(s, t)
    decreases i
  {
    if i == 0 {
      assert StartsWith(s, t);
    } else {
      assert s[1..][i - 1..i - 1 + |t|] == s[i..i + |t|];
      OccurrenceGivesIncludes(s[1..], t, i - 1);
    }
  }

  /** `includes` holds exactly when `t` occurs at some index of `s`. */
  lemma IncludesIffOccurs(s: string, t: string)
    ensures Includes(s, t) <==> exists i :: OccursAt(s, t, i)
  {
    if Includes(s, t) {
      IncludesGivesOccurrence(s, t);
    }
    forall i | OccursAt(s, t, i) ensures Includes(s, t) {
      OccurrenceGivesIncludes(s, t, i);
    }
  }

  /** Every string includes the empty string. */
  lemma IncludesEmpty(s: string)
    ensures Includes(s, "")
  {
    assert StartsWith(s, "");
  }

  /** `s.split(" ")[0]`: the text before the first space. */
  function FirstSegment(s: string): (r: string)
    ensures StartsWith(s, r)
    ensures forall i :: 0 <= i < |r| ==> r[i] != ' '
    ensures |r| < |s| ==> s[|r|] == ' '
  {
    if s == [] || s[0] == ' ' then [] else [s[0]] + FirstSegment(s[1..])
  }

  /** A string without spaces is its own first segment. */
  lemma FirstSegmentOfWord(s: string)
    requires forall i :: 0 <= i < |s| ==> s[i] != ' '
    ensures FirstSegment(s) == s
  {
    var r := FirstSegment(s);
    assert |r| == |s|;
    assert s[..|r|] == s;
  }

  /** Lowering twice is lowering once. */
  lemma LowerIdempotent(s: string)
    ensures Lower(Lower(s)) == Lower(s)
  {
  }

  /** The characters `trim` removes: WhiteSpace and LineTerminator
      (sections 12.2 and 12.3 of ECMA-262; the Zs category written out). */
  predicate IsWhiteSpace(c: char) {
    || c == '\t' || c == '\n' || c == '\U{000B}' || c == '\U{000C}' || c == '\r'
    || c == ' ' || c == '\U{00A0}' || c == '\U{1680}'
    || ('\U{2000}' <= c <= '\U{200A}')
    || c == '\U{2028}' || c == '\U{2029}' || c == '\U{202F}' || c == '\U{205F}'
    || c == '\U{3000}' || c == '\U{FEFF}'
  }

  /** Every character of `s` is white space (so `!s.trim()`). */
  predicate IsBlank(s: string) {
    forall i :: 0 <= i < |s| ==> IsWhiteSpace(s[i])
  }

  function TrimStart(s: string): (r: string)
    ensures |r| <= |s| && r == s[|s| - |r|..]
    ensures IsBlank(s[..|s| - |r|])
    ensures r != [] ==> !IsWhiteSpace(r[0])
  {
    if s != [] && IsWhiteSpace(s[0]) then
      var r := TrimStart(s[1..]);
      assert s[..|s| - |r|] == [s[0]] + s[1..][..|s| - 1 - |r|];
      r
    else s
  }

  function TrimEnd(s: string): (r: string)
    ensures |r| <= |s| && r == s[..|r|]
    ensures IsBlank(s[|r|..])
    ensures r != [] ==> !IsWhiteSpace(r[|r| - 1])
  {
    if s != [] && IsWhiteSpace(s[|s| - 1]) then TrimEnd(s[..|s| - 1]) else s
  }

  /** `s.trim()`. */
  function Trim(s: string): string {
    TrimEnd(TrimStart(s))
  }

  /** `s.trim()` is the empty (falsy) string exactly when `s` is blank. */
  lemma TrimEmptyIffBlank(s: string)
    ensures Trim(s) == "" <==> IsBlank(s)
  {
  }
}
