/** Text primitives the statement pipeline relies on: the character-wise
    lower-case mapping behind case-insensitive matching, substring search,
    and the decimal notation accepted when a text cell is read as a number. */
module Text {
  import opened Wrappers

  /** Simple lower-case mapping of one character. It covers Basic Latin,
      Latin-1, Latin Extended-A (except U+0130, whose lower case is two
      characters), the Vietnamese horn letters U+01A0 and U+01AF, and the
      whole Latin Extended Additional block where Vietnamese tone-marked
      capitals live. Every other character maps to itself. */
  function Lower(c: char): (d: char)
    ensures !('A' <= d <= 'Z')
    ensures 'a' <= c <= 'z' ==> d == c
    // an ASCII capital becomes its own small letter; every other ASCII
    // character is kept, and nothing outside ASCII is folded into it
    ensures 'A' <= c <= 'Z' ==> d as int == c as int + 32
    ensures c as int < 128 && !('A' <= c <= 'Z') ==> d == c
    ensures c as int >= 128 ==> d as int >= 128
  {
    var n := c as int;
    if 'A' <= c <= 'Z' then (n + 32) as char
    else if 0xC0 <= n <= 0xDE && n != 0xD7 then (n + 0x20) as char
    else if ((0x100 <= n <= 0x12F || 0x132 <= n <= 0x137 || 0x14A <= n <= 0x177) && n % 2 == 0)
         || ((0x139 <= n <= 0x148 || 0x179 <= n <= 0x17E) && n % 2 == 1)
    then (n + 1) as char
    else if n == 0x178 then 0xFF as char
    else if n == 0x1A0 || n == 0x1AF then (n + 1) as char
    else if n == 0x1E9E then 0xDF as char
    else if (0x1E00 <= n <= 0x1E95 || 0x1EA0 <= n <= 0x1EFF) && n % 2 == 0 then (n + 1) as char
    else c
  }

  /** A lower-cased character is left alone by a second lowering. */
  lemma LowerIdempotent(c: char)
    ensures Lower(Lower(c)) == Lower(c)
  {
  }

  /** Case folding of a whole string, one character at a time. */
  function Fold(s: string): (f: string)
    ensures |f| == |s|
    ensures forall i :: 0 <= i < |s| ==> f[i] == Lower(s[i])
  {
    seq(|s|, i requires 0 <= i < |s| => Lower(s[i]))
  }

  /** Folding is idempotent: a folded string is already in folded form. */
  lemma FoldIdempotent(s: string)
    ensures Fold(Fold(s)) == Fold(s)
  {
    forall i | 0 <= i < |s|
      ensures Fold(Fold(s))[i] == Fold(s)[i]
    {
      LowerIdempotent(s[i]);
    }
  }

  /** `needle` occurs in `hay` starting at position `i`. */
  predicate OccursAt(hay: string, needle: string, i: int)
  {
    0 <= i && i + |needle| <= |hay| && hay[i..i + |needle|] == needle
  }

  /** Reference definition of substring containment. */
  ghost predicate IsSubstring(needle: string, hay: string)
  {
    exists i :: OccursAt(hay, needle, i)
  }

  /** Left-to-right search for `needle` at positions `from` and later. */
  function ContainsFrom(hay: string, needle: string, from: nat): (b: bool)
    requires from <= |hay|
    ensures b <==> exists i :: from <= i && OccursAt(hay, needle, i)
    decreases |hay| - from
  {
    if from + |needle| > |hay| then false
    else if hay[from..from + |needle|] == needle then (assert OccursAt(hay, needle, from); true)
    else ContainsFrom(hay, needle, from + 1)
  }

  /** Substring containment, decided by search. */
  function Contains(hay: string, needle: string): (b: bool)
    ensures b <==> IsSubstring(needle, hay)
  {
    ContainsFrom(hay, needle, 0)
  }

  /** A string contains every string that is spliced into it. */
  lemma ContainsSplice(prefix: string, needle: string, suffix: string)
    ensures Contains(prefix + needle + suffix, needle)
  {
    var hay := prefix + needle + suffix;
    assert hay[|prefix|..|prefix| + |needle|] == needle;
    assert OccursAt(hay, needle, |prefix|);
  }

  // ---------------------------------------------------------------------
  // Decimal notation

  predicate IsDigit(c: char)
  {
    '0' <= c <= '9'
  }

  predicate AllDigits(s: string)
  {
    forall i :: 0 <= i < |s| ==> IsDigit(s[i])
  }

  function DigitValue(c: char): nat
    requires IsDigit(c)
  {
    (c as int) - ('0' as int)
  }

  /** Value of a digit string read most significant digit first. */
  function DigitsValue(s: string): nat
    requires AllDigits(s)
    decreases |s|
  {
    if |s| == 0 then 0 else DigitsValue(s[..|s| - 1]) * 10 + DigitValue(s[|s| - 1])
  }

  function Pow10(n: nat): (p: nat)
    ensures p >= 1
  {
    if n == 0 then 1 else 10 * Pow10(n - 1)
  }

  /** Position of the first '.' at or after `from`, or `|s|` when there is none. */
  function DotPosition(s: string, from: nat): (k: nat)
    requires from <= |s|
    ensures from <= k <= |s|
    ensures k < |s| ==> s[k] == '.'
    ensures forall j :: from <= j < k ==> s[j] != '.'
    decreases |s| - from
  {
    if from == |s| then |s|
    else if s[from] == '.' then from
    else DotPosition(s, from + 1)
  }

  /** `n` divided by ten `k` times, that is `n / 10^k` (see
      `ScaledIsQuotient`). */
  function Scaled(n: int, k: nat): real
    decreases k
  {
    if k == 0 then n as real else Scaled(n, k - 1) / 10.0
  }

  lemma {:induction false} ScaledIsQuotient(n: int, k: nat)
    ensures Scaled(n, k) == n as real / Pow10(k) as real
    decreases k
  {
    if k > 0 {
      ScaledIsQuotient(n, k - 1);
      var p := Pow10(k - 1) as real;
      assert Pow10(k) as real == 10.0 * p;
      assert (n as real / p) / 10.0 == n as real / (10.0 * p);
    }
  }

  lemma {:induction false} ScaledNonNegative(n: int, k: nat)
    requires n >= 0
    ensures Scaled(n, k) >= 0.0
    decreases k
  {
    if k > 0 {
      ScaledNonNegative(n, k - 1);
    }
  }

  /** Scaling distributes over whole multiples of `10^k`. */
  lemma {:induction false} ScaledSplit(q: int, r: int, k: nat)
    ensures Scaled(q * Pow10(k) + r, k) == q as real + Scaled(r, k)
    decreases k
  {
    if k > 0 {
      var p := Pow10(k - 1);
      assert q * Pow10(k) == (q * 10) * p;
      ScaledSplit(q * 10, r, k - 1);
    }
  }

  lemma {:induction false} ScaledNegated(n: int, k: nat)
    ensures Scaled(-n, k) == -Scaled(n, k)
    decreases k
  {
    if k > 0 {
      ScaledNegated(n, k - 1);
    }
  }

  /** Plain unsigned decimal notation, stated on its own terms: a nonempty
      digit string, or digit strings on both sides of a single point with
      at least one digit between them ("12", "12.5", ".5", "12."). */
  predicate IsPlainUnsigned(s: string)
  {
    (|s| > 0 && AllDigits(s))
    || exists k :: 0 <= k < |s| && s[k] == '.' && AllDigits(s[..k]) && AllDigits(s[k + 1..]) && |s| > 1
  }

  /** Plain decimal notation: plain unsigned notation, optionally after a
      leading '+' or '-'. */
  predicate IsPlainDecimal(s: string)
  {
    IsPlainUnsigned(s) || (|s| > 0 && (s[0] == '+' || s[0] == '-') && IsPlainUnsigned(s[1..]))
  }

  /** Value of a whole part and a fraction part, each a (possibly empty)
      digit string, with at least one digit between them. */
  function ParseParts(whole: string, frac: string): (r: Option<real>)
    ensures r.Some? <==> AllDigits(whole) && AllDigits(frac) && |whole| + |frac| > 0
    ensures r.Some? ==> r.value >= 0.0
  {
    if AllDigits(whole) && AllDigits(frac) && |whole| + |frac| > 0 then
      ScaledNonNegative(DigitsValue(frac), |frac|);
      Some(DigitsValue(whole) as real + Scaled(DigitsValue(frac), |frac|))
    else None
  }

  /** The text before the first '.' (all of `s` when there is none). */
  function WholePart(s: string): string
  {
    s[..DotPosition(s, 0)]
  }

  /** The text after the first '.' (empty when there is none). */
  function FractionPart(s: string): string
  {
    var k := DotPosition(s, 0);
    if k < |s| then s[k + 1..] else ""
  }

  /** Unsigned decimal: digits, optionally followed by '.' and more digits,
      with at least one digit in total ("12", "12.5", ".5", "12."). */
  function ParseUnsigned(s: string): (r: Option<real>)
    ensures r.Some? <==> IsPlainUnsigned(s)
    ensures r.Some? ==> r.value >= 0.0
    ensures r.Some? ==> exists i :: 0 <= i < |s| && IsDigit(s[i])
    ensures r.Some? ==> forall i :: 0 <= i < |s| ==> IsDigit(s[i]) || s[i] == '.'
  {
    var r := ParseParts(WholePart(s), FractionPart(s));
    PartsGrammar(s);
    if r.Some? then
      UnsignedShape(s);
      r
    else r
  }

  /** Splitting at the first '.' accepts exactly plain unsigned notation. */
  lemma PartsGrammar(s: string)
    ensures ParseParts(WholePart(s), FractionPart(s)).Some? <==> IsPlainUnsigned(s)
  {
    var k := DotPosition(s, 0);
    if k == |s| {
      assert WholePart(s) == s;
      assert forall j :: 0 <= j < |s| ==> s[j] != '.';
    } else {
      assert s[k] == '.' && !IsDigit(s[k]);
      if ParseParts(WholePart(s), FractionPart(s)).Some? {
        assert s[..k] == WholePart(s) && s[k + 1..] == FractionPart(s);
      }
      forall k' | 0 <= k' < |s| && s[k'] == '.' && AllDigits(s[..k'])
        ensures k' == k
      {
        assert forall j :: 0 <= j < k' ==> s[j] == s[..k'][j];
      }
    }
  }

  /** Text without a digit is not plain unsigned notation. */
  lemma NoDigitNotUnsigned(s: string)
    requires forall i :: 0 <= i < |s| ==> !IsDigit(s[i])
    ensures !IsPlainUnsigned(s)
  {
    if |s| > 0 {
      assert !IsDigit(s[0]);
    }
    forall k | 0 <= k < |s| && |s| > 1
      ensures !AllDigits(s[..k]) || !AllDigits(s[k + 1..])
    {
      if k > 0 {
        assert s[..k][0] == s[0];
      } else {
        assert s[k + 1..][0] == s[1];
      }
    }
  }

  /** Text without a digit is not plain decimal notation: a lone sign or
      point, or any mix of them, is no number. */
  lemma NoDigitNotDecimal(s: string)
    requires forall i :: 0 <= i < |s| ==> !IsDigit(s[i])
    ensures !IsPlainDecimal(s)
  {
    NoDigitNotUnsigned(s);
    if |s| > 0 {
      assert forall i :: 0 <= i < |s[1..]| ==> s[1..][i] == s[i + 1];
      NoDigitNotUnsigned(s[1..]);
    }
  }

  /** Text holding two points is not plain unsigned notation. */
  lemma TwoPointsNotUnsigned(s: string, i: nat, j: nat)
    requires i < j < |s| && s[i] == '.' && s[j] == '.'
    ensures !IsPlainUnsigned(s)
  {
    assert !IsDigit(s[i]);
    forall k | 0 <= k < |s| && s[k] == '.'
      ensures !AllDigits(s[..k]) || !AllDigits(s[k + 1..])
    {
      if k <= i {
        assert s[k + 1..][j - k - 1] == s[j];
      } else {
        assert s[..k][i] == s[i];
      }
    }
  }

  /** Text starting with a sign is not plain unsigned notation. */
  lemma SignedIsNotUnsigned(s: string)
    requires |s| > 0 && (s[0] == '+' || s[0] == '-')
    ensures !IsPlainUnsigned(s)
  {
    forall k | 0 < k <= |s|
      ensures !AllDigits(s[..k])
    {
      assert s[..k][0] == s[0];
    }
  }

  /** When both parts around the first '.' are digit strings, every
      character is a digit or that point, and one at least is a digit. */
  lemma UnsignedShape(s: string)
    requires ParseParts(WholePart(s), FractionPart(s)).Some?
    ensures exists i :: 0 <= i < |s| && IsDigit(s[i])
    ensures forall i :: 0 <= i < |s| ==> IsDigit(s[i]) || s[i] == '.'
  {
    var k := DotPosition(s, 0);
    var whole := WholePart(s);
    var frac := FractionPart(s);
    forall i | 0 <= i < |s|
      ensures IsDigit(s[i]) || s[i] == '.'
    {
      if i < k {
        assert s[i] == whole[i];
      } else if k < i {
        assert s[i] == frac[i - k - 1];
      }
    }
    if |whole| > 0 {
      assert IsDigit(s[0]) by { assert s[0] == whole[0]; }
    } else {
      assert IsDigit(s[k + 1]) by { assert s[k + 1] == frac[0]; }
    }
  }

  /** Characters that can appear in a plain decimal number. */
  predicate IsNumberChar(c: char)
  {
    IsDigit(c) || c == '.' || c == '+' || c == '-'
  }

  /** A plain decimal number with an optional leading sign; `None` for any
      text that is not one. Text is only ever read as a number when it holds
      a digit and nothing but digits, a point and a leading sign. */
  function ParseDecimal(s: string): (r: Option<real>)
    ensures r.Some? <==> IsPlainDecimal(s)
    ensures r.Some? ==> exists i :: 0 <= i < |s| && IsDigit(s[i])
    ensures r.Some? ==> forall i :: 0 <= i < |s| ==> IsNumberChar(s[i])
    ensures r.Some? && |s| > 0 && s[0] == '-' ==> r.value <= 0.0
    ensures r.Some? && (|s| == 0 || s[0] != '-') ==> r.value >= 0.0
  {
    if |s| > 0 && (s[0] == '-' || s[0] == '+') then
      SignedIsNotUnsigned(s);
      match ParseUnsigned(s[1..])
      case None => None
      case Some(v) =>
        SignedShape(s);
        Some(if s[0] == '-' then -v else v)
    else ParseUnsigned(s)
  }

  /** A sign followed by an unsigned number holds a digit and nothing but
      number characters. */
  lemma SignedShape(s: string)
    requires |s| > 0 && (s[0] == '-' || s[0] == '+') && ParseUnsigned(s[1..]).Some?
    ensures exists i :: 0 <= i < |s| && IsDigit(s[i])
    ensures forall i :: 0 <= i < |s| ==> IsNumberChar(s[i])
  {
    var t := s[1..];
    assert forall i :: 1 <= i < |s| ==> s[i] == t[i - 1];
    var j :| 0 <= j < |t| && IsDigit(t[j]);
    assert IsDigit(s[j + 1]);
  }

  function DigitChar(d: nat): (c: char)
    requires d < 10
    ensures IsDigit(c) && DigitValue(c) == d
  {
    ('0' as int + d) as char
  }

  /** Decimal rendering of a natural number, without leading zeros. */
  function RenderNat(n: nat): (s: string)
    ensures |s| > 0
    decreases n
  {
    if n < 10 then [DigitChar(n)] else RenderNat(n / 10) + [DigitChar(n % 10)]
  }

  /** Decimal rendering of an integer, with a '-' sign when negative. */
  function RenderInt(n: int): string
  {
    if n < 0 then "-" + RenderNat(-n) else RenderNat(n)
  }

  /** The `k` lowest decimal digits of `m`, with leading zeros. */
  function PadDigits(m: nat, k: nat): (s: string)
    ensures |s| == k
    decreases k
  {
    if k == 0 then "" else PadDigits(m / 10, k - 1) + [DigitChar(m % 10)]
  }

  /** `m` with its `k` lowest decimal digits dropped. */
  function DropDigits(m: nat, k: nat): nat
    decreases k
  {
    if k == 0 then m else DropDigits(m / 10, k - 1)
  }

  /** Fixed-point rendering of the natural number `m / 10^k`: the whole part,
      a point, and exactly `k` fraction digits. */
  function FixedDigits(m: nat, k: nat): string
  {
    RenderNat(DropDigits(m, k)) + "." + PadDigits(m, k)
  }

  /** Fixed-point rendering of `n / 10^k` with exactly `k` digits after the
      point ("12.50" for n = 1250, k = 2), with a '-' sign when negative. */
  function RenderFixed(n: int, k: nat): string
  {
    if n < 0 then "-" + FixedDigits(-n, k) else FixedDigits(n, k)
  }

  lemma {:induction false} PadDigitsAreDigits(m: nat, k: nat)
    ensures AllDigits(PadDigits(m, k))
    decreases k
  {
    if k > 0 {
      PadDigitsAreDigits(m / 10, k - 1);
      var s := PadDigits(m, k);
      assert s[..k - 1] == PadDigits(m / 10, k - 1);
      assert forall i :: 0 <= i < k - 1 ==> s[i] == s[..k - 1][i];
    }
  }

  /** The dropped digits and the padded low digits together make up `m`. */
  lemma {:induction false} PadDigitsValue(m: nat, k: nat)
    ensures AllDigits(PadDigits(m, k))
    ensures DropDigits(m, k) * Pow10(k) + DigitsValue(PadDigits(m, k)) == m
    decreases k
  {
    PadDigitsAreDigits(m, k);
    if k > 0 {
      PadDigitsValue(m / 10, k - 1);
      var s := PadDigits(m, k);
      assert s[..k - 1] == PadDigits(m / 10, k - 1);
      var low := DigitsValue(PadDigits(m / 10, k - 1));
      assert DigitsValue(s) == low * 10 + m % 10;
      ShiftDigit(DropDigits(m / 10, k - 1), Pow10(k - 1), low, m % 10);
    }
  }

  /** Appending one digit `d` to both the number and its low part. */
  lemma ShiftDigit(q: int, p: int, low: int, d: int)
    ensures q * (10 * p) + (low * 10 + d) == (q * p + low) * 10 + d
  {
  }

  lemma {:induction false} RenderNatDigits(n: nat)
    ensures AllDigits(RenderNat(n))
    ensures DigitsValue(RenderNat(n)) == n
    decreases n
  {
    if n >= 10 {
      RenderNatDigits(n / 10);
      var s := RenderNat(n);
      assert s[..|s| - 1] == RenderNat(n / 10);
    }
  }

  /** Reading back the rendering of any integer gives that integer. */
  lemma ParseRenderInt(n: int)
    ensures ParseDecimal(RenderInt(n)) == Some(n as real)
  {
    var m: nat := if n < 0 then -n else n;
    RenderNatDigits(m);
    var sign := if n < 0 then "-" else "";
    ParsePlainWhole(sign, RenderNat(m));
    assert RenderInt(n) == sign + RenderNat(m);
  }

  /** A digit string, a point and a digit string read as whole part plus
      fraction. */
  lemma ParseUnsignedParts(whole: string, frac: string)
    requires AllDigits(whole)
    ensures WholePart(whole + "." + frac) == whole
    ensures FractionPart(whole + "." + frac) == frac
  {
    var text := whole + "." + frac;
    var d := DotPosition(text, 0);
    assert d == |whole| by {
      assert text[|whole|] == '.';
      assert forall j :: 0 <= j < |whole| ==> text[j] == whole[j];
    }
    assert text[..d] == whole;
    assert text[d + 1..] == frac;
  }

  /** Text whose parts around the first '.' are `whole` and `frac` reads
      as those parts do. */
  lemma ParseByParts(t: string, whole: string, frac: string)
    requires WholePart(t) == whole && FractionPart(t) == frac
    ensures ParseUnsigned(t) == ParseParts(whole, frac)
  {
  }

  lemma ParseWholeAndFraction(q: nat, frac: string)
    requires AllDigits(frac)
    ensures ParseUnsigned(RenderNat(q) + "." + frac).Some?
    ensures ParseUnsigned(RenderNat(q) + "." + frac).value
            == q as real + Scaled(DigitsValue(frac), |frac|)
  {
    var whole := RenderNat(q);
    RenderNatDigits(q);
    ParseUnsignedParts(whole, frac);
    ParseByParts(whole + "." + frac, whole, frac);
    RenderedParts(q, frac);
  }

  lemma RenderedParts(q: nat, frac: string)
    requires AllDigits(frac)
    ensures ParseParts(RenderNat(q), frac) == Some(q as real + Scaled(DigitsValue(frac), |frac|))
  {
    RenderNatDigits(q);
  }

  /** A fixed-point rendering reads back as its whole part plus its
      fraction digits scaled down. */
  lemma ParseFixedParts(m: nat, k: nat)
    ensures AllDigits(PadDigits(m, k))
    ensures ParseUnsigned(FixedDigits(m, k)).Some?
    ensures ParseUnsigned(FixedDigits(m, k)).value
            == DropDigits(m, k) as real + Scaled(DigitsValue(PadDigits(m, k)), k)
  {
    var q := DropDigits(m, k);
    var frac := PadDigits(m, k);
    assert FixedDigits(m, k) == RenderNat(q) + "." + frac;
    PadDigitsAreDigits(m, k);
    ParseWholeAndFraction(q, frac);
  }

  /** The whole part plus the scaled fraction digits is `m` scaled. */
  lemma FixedPartsValue(m: nat, k: nat)
    ensures AllDigits(PadDigits(m, k))
    ensures DropDigits(m, k) as real + Scaled(DigitsValue(PadDigits(m, k)), k) == Scaled(m, k)
  {
    PadDigitsValue(m, k);
    ScaledSplit(DropDigits(m, k), DigitsValue(PadDigits(m, k)), k);
  }

  lemma ParseUnsignedFixed(m: nat, k: nat)
    ensures ParseUnsigned(FixedDigits(m, k)).Some?
    ensures ParseUnsigned(FixedDigits(m, k)).value == Scaled(m, k)
  {
    ParseFixedParts(m, k);
    FixedPartsValue(m, k);
  }

  /** A fixed-point rendering starts with a digit. */
  lemma FixedDigitsLead(m: nat, k: nat)
    ensures |FixedDigits(m, k)| > 0 && IsDigit(FixedDigits(m, k)[0])
  {
    var whole := RenderNat(DropDigits(m, k));
    RenderNatDigits(DropDigits(m, k));
    assert FixedDigits(m, k)[0] == whole[0];
  }

  /** Reading back a fixed-point rendering gives the number it renders:
      the text of `n / 10^k` with `k` digits after the point reads as
      exactly `n / 10^k`. */
  lemma ParseRenderFixed(n: int, k: nat)
    ensures ParseDecimal(RenderFixed(n, k)).Some?
    ensures ParseDecimal(RenderFixed(n, k)).value == n as real / Pow10(k) as real
  {
    var m: nat := if n < 0 then -n else n;
    var t := FixedDigits(m, k);
    ParseUnsignedFixed(m, k);
    if n < 0 {
      assert ("-" + t)[1..] == t;
      ScaledNegated(n, k);
    } else {
      FixedDigitsLead(m, k);
    }
    ScaledIsQuotient(n, k);
  }

  /** A plain digit string reads as the number it spells. */
  lemma ParseDigits(s: string)
    ensures |s| > 0 && AllDigits(s) ==> ParseDecimal(s).Some?
    ensures |s| > 0 && AllDigits(s) ==> ParseDecimal(s).value == DigitsValue(s) as real
  {
    if |s| > 0 && AllDigits(s) {
      ParseDigitString(s);
    }
  }

  lemma ParseDigitString(s: string)
    requires |s| > 0 && AllDigits(s)
    ensures ParseDecimal(s).Some?
    ensures ParseDecimal(s).value == DigitsValue(s) as real
  {
    var k := DotPosition(s, 0);
    assert forall j :: 0 <= j < |s| ==> s[j] != '.';
    assert k == |s|;
    assert WholePart(s) == s;
    ParseByParts(s, s, "");
  }

  /** Digit strings around a point read as whole part plus scaled fraction. */
  lemma ParseUnsignedPoint(w: string, f: string)
    requires AllDigits(w) && AllDigits(f) && |w| + |f| > 0
    ensures ParseUnsigned(w + "." + f).Some?
    ensures ParseUnsigned(w + "." + f).value == DigitsValue(w) as real + Scaled(DigitsValue(f), |f|)
  {
    ParseUnsignedParts(w, f);
    ParseByParts(w + "." + f, w, f);
  }

  /** A nonempty digit string without a point reads as its digits. */
  lemma ParseUnsignedWhole(w: string)
    requires |w| > 0 && AllDigits(w)
    ensures ParseUnsigned(w).Some?
    ensures ParseUnsigned(w).value == DigitsValue(w) as real
  {
    assert forall j :: 0 <= j < |w| ==> w[j] != '.';
    assert DotPosition(w, 0) == |w|;
    assert WholePart(w) == w;
    ParseByParts(w, w, "");
  }

  /** An optional sign in front of unsigned text: none and '+' keep its
      value, '-' negates it. */
  lemma ParseWithSign(sign: string, t: string, v: real)
    requires sign == "" || sign == "+" || sign == "-"
    requires |t| > 0 && t[0] != '+' && t[0] != '-'
    requires ParseUnsigned(t).Some? && ParseUnsigned(t).value == v
    ensures ParseDecimal(sign + t).Some?
    ensures ParseDecimal(sign + t).value == if sign == "-" then -v else v
  {
    if sign != "" {
      assert (sign + t)[1..] == t;
    } else {
      assert sign + t == t;
    }
  }

  /** The value of plain notation with a point: plus or minus the whole
      digits plus the fraction digits over `10^|f|`. */
  lemma ParsePlainPoint(sign: string, w: string, f: string)
    requires sign == "" || sign == "+" || sign == "-"
    requires AllDigits(w) && AllDigits(f) && |w| + |f| > 0
    ensures ParseDecimal(sign + (w + "." + f)).Some?
    ensures var v := DigitsValue(w) as real + Scaled(DigitsValue(f), |f|);
            ParseDecimal(sign + (w + "." + f)).value == if sign == "-" then -v else v
  {
    var t := w + "." + f;
    ParseUnsignedPoint(w, f);
    assert t[0] == if |w| > 0 then w[0] else '.';
    ParseWithSign(sign, t, DigitsValue(w) as real + Scaled(DigitsValue(f), |f|));
  }

  /** The value of plain notation without a point: plus or minus its
      digits. */
  lemma ParsePlainWhole(sign: string, w: string)
    requires sign == "" || sign == "+" || sign == "-"
    requires |w| > 0 && AllDigits(w)
    ensures ParseDecimal(sign + w).Some?
    ensures ParseDecimal(sign + w).value == if sign == "-" then -(DigitsValue(w) as real) else DigitsValue(w) as real
  {
    ParseUnsignedWhole(w);
    ParseWithSign(sign, w, DigitsValue(w) as real);
  }
}
