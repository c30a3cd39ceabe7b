/**
 The amount parser and printer (apps/web/src/lib/amount.ts) and the second printer in
 apps/web/src/pages/Send.tsx. The parser is specified by exact rational arithmetic:
 an input text denotes a numerator over a power of ten, and the result is the half-up
 quotient. Numbers are unbounded, as BigInt is.
 */
module Amount {
  import opened Wrappers
  import opened Arith
  import opened Text

  const PEPEW_DECIMALS := 8

  datatype AmountError = BadDecimals | Empty | Negative | Malformed

  // ---------- Half-up rounding ----------

  /** num / den rounded to the nearest integer, ties upwards (HalfUpNearest). */
  function HalfUpDiv(num: int, den: nat): (a: nat)
    requires den > 0 && 2 * num + den >= 0
    decreases 2 * num + den
  {
    if 2 * num < den then 0 else 1 + HalfUpDiv(num - den, den)
  }

  function Distance(a: int, b: int): nat {
    if a <= b then b - a else a - b
  }

  lemma {:induction false} HalfUpBounds(num: int, den: nat)
    requires den > 0 && 2 * num + den >= 0
    ensures 2 * (HalfUpDiv(num, den) * den) <= 2 * num + den < 2 * (HalfUpDiv(num, den) * den) + 2 * den
    decreases 2 * num + den
  {
    if 2 * num >= den {
      HalfUpBounds(num - den, den);
      MulAdd(1, HalfUpDiv(num - den, den), den);
    }
  }

  lemma HalfUpIs(num: nat, den: nat, a: nat)
    requires den > 0
    requires 2 * (a * den) <= 2 * num + den < 2 * (a * den) + 2 * den
    ensures HalfUpDiv(num, den) == a
  {
    HalfUpBounds(num, den);
    var b := HalfUpDiv(num, den);
    if a < b {
      MulGap(a, b, den);
    } else if b < a {
      MulGap(b, a, den);
    }
  }

  /** HalfUpDiv is the half-up rounding: no other multiple of the divisor is nearer, and of two nearest it is the larger. */
  lemma HalfUpNearest(num: nat, den: nat, b: nat)
    requires den > 0
    ensures Distance(num, HalfUpDiv(num, den) * den) <= Distance(num, b * den)
    ensures Distance(num, HalfUpDiv(num, den) * den) == Distance(num, b * den) ==> b <= HalfUpDiv(num, den)
  {
    HalfUpBounds(num, den);
    var a := HalfUpDiv(num, den);
    if b < a {
      MulGap(b, a, den);
    } else if b > a {
      MulGap(a, b, den);
    }
  }

  /** Rounding may be decided on quotient and remainder, as the printer does. */
  lemma HalfUpBySplit(num: nat, den: nat)
    requires den > 0
    ensures HalfUpDiv(num, den) == if (num % den) * 2 >= den then num / den + 1 else num / den
  {
    var q, r := num / den, num % den;
    assert num == q * den + r;
    if r * 2 >= den {
      MulAdd(q, 1, den);
      HalfUpIs(num, den, q + 1);
    } else {
      HalfUpIs(num, den, q);
    }
  }

  lemma HalfUpExact(a: nat, den: nat)
    requires den > 0
    ensures HalfUpDiv(a * den, den) == a
  {
    HalfUpIs(a * den, den, a);
  }

  lemma HalfUpScale(num: nat, den: nat, k: nat)
    requires den > 0 && k > 0
    ensures den * k > 0 && num * k >= 0 && HalfUpDiv(num * k, den * k) == HalfUpDiv(num, den)
  {
    var a := HalfUpDiv(num, den);
    HalfUpBounds(num, den);
    hide HalfUpDiv;
    ScaleBounds(a * den, num, den, k);
    MulAssoc(a, den, k);
    HalfUpIs(num * k, den * k, a);
  }

  lemma ScaleBounds(x: nat, num: nat, den: nat, k: nat)
    requires k > 0 && 2 * x <= 2 * num + den < 2 * x + 2 * den
    ensures 2 * (x * k) <= 2 * (num * k) + den * k < 2 * (x * k) + 2 * (den * k)
  {
  }

  // ---------- Parsing ----------

  predicate IsComma(c: char) {
    c == ','
  }

  function Normalized(input: string): string {
    Remove(Remove(Trim(input), IsComma), IsSpace)
  }

  function WholePart(s: string): string {
    s[..IndexOf(s, '.')]
  }

  function FractionPart(s: string): string {
    var dot := IndexOf(s, '.');
    if dot == |s| then "" else s[dot + 1..]
  }

  /** The pattern ^\d+(\.\d+)?$ */
  predicate IsDecimal(s: string) {
    && Digits(WholePart(s)) && WholePart(s) != ""
    && Digits(FractionPart(s)) && (IndexOf(s, '.') < |s| ==> FractionPart(s) != "")
  }

  /** A decimal text denotes Numerator(s) / 10^|FractionPart(s)|. */
  function Numerator(s: string): nat
    requires IsDecimal(s)
  {
    ToNat(WholePart(s)) * Pow10(|FractionPart(s)|) + ToNat(FractionPart(s))
  }

  /** The denoted number in units of 10^-decimals, half-up rounded; with no decimals the fraction is cut off instead. */
  function AtomicValue(s: string, decimals: nat): nat
    requires IsDecimal(s)
  {
    if decimals == 0 then ToNat(WholePart(s))
    else HalfUpDiv(Numerator(s) * Pow10(decimals), Pow10(|FractionPart(s)|))
  }

  function Parse(input: string, decimals: int): Result<nat, AmountError> {
    var s := Normalized(input);
    if decimals < 0 then Err(BadDecimals)
    else if s == "" then Err(Empty)
    else if '-' in s then Err(Negative)
    else if !IsDecimal(s) then Err(Malformed)
    else Ok(AtomicValue(s, decimals))
  }

  method ParsePepewToAtomic(input: string, decimals: int := PEPEW_DECIMALS) returns (r: Result<nat, AmountError>)
    ensures r == Parse(input, decimals)
  {
    if decimals < 0 {
      return Err(BadDecimals);
    }
    var normalized := Normalized(input);
    if normalized == "" {
      return Err(Empty);
    }
    if '-' in normalized {
      return Err(Negative);
    }
    if !IsDecimal(normalized) {
      return Err(Malformed);
    }
    hide *;
    var atomic := ReadDecimal(normalized, decimals);
    return Ok(atomic);
  }

  /** The parser's digit arithmetic (cut, pad, look at one rounding digit) computes the half-up quotient. */
  method ReadDecimal(normalized: string, decimals: nat) returns (atomic: int)
    requires IsDecimal(normalized)
    ensures atomic == AtomicValue(normalized, decimals)
  {
    hide Pow10, HalfUpDiv, ToNat, WholePart, FractionPart, AtomicValue, Numerator, PadEnd;
    var whole, fracRaw := WholePart(normalized), FractionPart(normalized);
    var base := Pow10(decimals);
    atomic := ToNat(whole) * base;
    if decimals > 0 {
      DigitArithmetic(normalized, decimals);
      var fracTake := if |fracRaw| <= decimals then fracRaw else fracRaw[..decimals];
      var fracPadded := PadEnd(fracTake, decimals);
      atomic := atomic + ToNat(fracPadded);
      if |fracRaw| > decimals {
        if DigitValue(fracRaw[decimals]) >= 5 {
          atomic := atomic + 1;
        }
      }
    } else {
      WholeOnly(normalized);
    }
  }

  lemma WholeOnly(s: string)
    requires IsDecimal(s)
    ensures AtomicValue(s, 0) == ToNat(WholePart(s)) * Pow10(0)
  {
  }

  /** Cutting or padding the fraction and looking at the first digit cut off gives the half-up value. */
  lemma DigitArithmetic(s: string, decimals: nat)
    requires IsDecimal(s) && decimals > 0
    ensures var frac := FractionPart(s);
            var taken := PadEnd(if |frac| <= decimals then frac else frac[..decimals], decimals);
            Digits(taken) && AtomicValue(s, decimals)
            == ToNat(WholePart(s)) * Pow10(decimals) + ToNat(taken)
               + if |frac| > decimals && DigitValue(frac[decimals]) >= 5 then 1 else 0
  {
    hide Pow10, HalfUpDiv, ToNat, WholePart, FractionPart, AtomicValue, Numerator;
    var frac := FractionPart(s);
    if |frac| <= decimals {
      PadValue(frac, decimals);
      ShortFraction(s, decimals);
    } else {
      LongFraction(s, decimals);
    }
  }

  /** A fraction that fits is padded: the value is exact. */
  lemma ShortFraction(s: string, decimals: nat)
    requires IsDecimal(s) && decimals > 0 && |FractionPart(s)| <= decimals
    ensures AtomicValue(s, decimals)
         == ToNat(WholePart(s)) * Pow10(decimals) + ToNat(FractionPart(s)) * Pow10(decimals - |FractionPart(s)|)
  {
    hide Pow10, HalfUpDiv, ToNat, WholePart, FractionPart;
    var n := |FractionPart(s)|;
    Pow10Add(n, decimals - n);
    ExactHalfUp(ToNat(WholePart(s)), ToNat(FractionPart(s)), Pow10(n), Pow10(decimals - n));
  }

  lemma ExactHalfUp(w: nat, f: nat, p: nat, k: nat)
    requires p > 0
    ensures (w * p + f) * (p * k) >= 0 && HalfUpDiv((w * p + f) * (p * k), p) == w * (p * k) + f * k
  {
    hide HalfUpDiv;
    ExactScale(w, f, p, k);
    HalfUpExact(w * (p * k) + f * k, p);
  }

  lemma ExactScale(w: nat, f: nat, p: nat, k: nat)
    ensures (w * p + f) * (p * k) == (w * (p * k) + f * k) * p
  {
  }

  /** A longer fraction is cut, and the first digit cut off decides the rounding. */
  lemma LongFraction(s: string, decimals: nat)
    requires IsDecimal(s) && 0 < decimals < |FractionPart(s)|
    ensures AtomicValue(s, decimals)
         == ToNat(WholePart(s)) * Pow10(decimals) + ToNat(FractionPart(s)[..decimals])
            + if DigitValue(FractionPart(s)[decimals]) >= 5 then 1 else 0
  {
    hide Pow10, HalfUpDiv, ToNat, WholePart, FractionPart;
    var frac := FractionPart(s);
    var k := |frac| - decimals;
    var head, tail := frac[..decimals], frac[decimals..];
    assert frac == head + tail;
    ToNatConcat(head, tail);
    ToNatBound(tail);
    Pow10Add(decimals, k);
    RoundingDigit(tail);
    LongHalfUp(ToNat(WholePart(s)), Pow10(decimals), ToNat(head), Pow10(k), ToNat(tail));
  }

  lemma LongHalfUp(w: nat, p: nat, h: nat, t: nat, v: nat)
    requires p > 0 && v < t
    ensures p * t > 0 && (w * (p * t) + (h * t + v)) * p >= 0
    ensures HalfUpDiv((w * (p * t) + (h * t + v)) * p, p * t) == w * p + h + if 2 * v >= t then 1 else 0
  {
    hide HalfUpDiv;
    Shift(w, p, h, t);
    HalfUpScale(w * (p * t) + (h * t + v), t, p);
    RoundedRest(w * p + h, v, t);
  }

  lemma Shift(w: nat, p: nat, h: nat, t: nat)
    ensures w * (p * t) + h * t == (w * p + h) * t
  {
  }

  lemma RoundedRest(kept: nat, rest: nat, den: nat)
    requires rest < den
    ensures HalfUpDiv(kept * den + rest, den) == kept + if 2 * rest >= den then 1 else 0
  {
    hide HalfUpDiv;
    if 2 * rest >= den {
      MulAdd(kept, 1, den);
      HalfUpIs(kept * den + rest, den, kept + 1);
    } else {
      HalfUpIs(kept * den + rest, den, kept);
    }
  }

  /** A digit text is at least half of its power of ten exactly when its first digit is 5 or more. */
  lemma RoundingDigit(tail: string)
    requires Digits(tail) && tail != ""
    ensures 2 * ToNat(tail) >= Pow10(|tail|) <==> DigitValue(tail[0]) >= 5
  {
    var rest := tail[1..];
    assert tail == tail[..1] + rest;
    ToNatConcat(tail[..1], rest);
    ToNatBound(rest);
    var v, p := DigitValue(tail[0]), Pow10(|rest|);
    assert ToNat(tail[..1]) == v by {
      assert tail[..1][..0] == [];
    }
    if v >= 5 {
      MulMono(5, v, p);
    } else {
      MulMono(v, 4, p);
    }
  }

  /** What a text may hold without a change of its meaning: commas and blanks, anywhere. */
  predicate IsFiller(c: char) {
    c == ',' || IsSpace(c)
  }

  lemma {:induction false} RemoveTwice(s: string)
    ensures Remove(Remove(s, IsComma), IsSpace) == Remove(s, IsFiller)
  {
    RemoveHead(s, IsComma);
    RemoveHead(s, IsFiller);
    RemoveHead("", IsSpace);
    hide Remove, IsSpace;
    if s != "" {
      RemoveTwice(s[1..]);
      var rest := Remove(s[1..], IsComma);
      if IsComma(s[0]) {
        assert Remove(s, IsComma) == rest && Remove(s, IsFiller) == Remove(s[1..], IsFiller);
      } else {
        RemoveHead([s[0]] + rest, IsSpace);
        assert ([s[0]] + rest)[1..] == rest;
      }
    }
  }

  lemma {:induction false} FillerGone(s: string)
    requires Blank(s)
    ensures Remove(s, IsFiller) == ""
  {
    if s != "" {
      FillerGone(s[1..]);
    }
  }

  /** Normalising takes the commas and the blanks out, and nothing else. */
  lemma NormalizedIs(input: string)
    ensures Normalized(input) == Remove(input, IsFiller)
  {
    hide Remove, Trim, IsSpace, Blank;
    var before, after := TrimSplit(input);
    RemoveTwice(Trim(input));
    RemoveConcat(before + Trim(input), after, IsFiller);
    RemoveConcat(before, Trim(input), IsFiller);
    FillerGone(before);
    FillerGone(after);
    assert Remove(before, IsFiller) + Remove(Trim(input), IsFiller) + Remove(after, IsFiller) == Remove(Trim(input), IsFiller);
  }

  /** The text is a whole number, or a whole number, a point and some further digits. */
  predicate DecimalParts(s: string, whole: string, fraction: string) {
    && Digits(whole) && whole != "" && Digits(fraction)
    && s == whole + if fraction == "" then "" else "." + fraction
  }

  /** The pattern of a decimal, and the rational that it denotes: its digits as one number over a power of ten. */
  lemma DecimalIff(s: string)
    ensures IsDecimal(s) <==> exists whole, fraction :: DecimalParts(s, whole, fraction)
    ensures forall whole, fraction :: DecimalParts(s, whole, fraction) ==>
              && WholePart(s) == whole && FractionPart(s) == fraction
              && Digits(whole + fraction) && IsDecimal(s) && Numerator(s) == ToNat(whole + fraction)
  {
    hide IsDecimal, WholePart, FractionPart, Numerator, DecimalParts, ToNat, Digits;
    if IsDecimal(s) {
      DecimalHasParts(s);
    }
    forall whole, fraction | DecimalParts(s, whole, fraction)
      ensures WholePart(s) == whole && FractionPart(s) == fraction
      ensures Digits(whole + fraction) && IsDecimal(s) && Numerator(s) == ToNat(whole + fraction)
    {
      PartsDenote(s, whole, fraction);
    }
  }

  lemma DecimalHasParts(s: string)
    requires IsDecimal(s)
    ensures DecimalParts(s, WholePart(s), FractionPart(s))
  {
    hide IndexOf;
    var dot := IndexOf(s, '.');
    if dot < |s| {
      assert s == s[..dot] + ("." + s[dot + 1..]);
    } else {
      assert s == s[..dot] + "";
    }
  }

  lemma PartsDenote(s: string, whole: string, fraction: string)
    requires DecimalParts(s, whole, fraction)
    ensures WholePart(s) == whole && FractionPart(s) == fraction
    ensures Digits(whole + fraction) && IsDecimal(s) && Numerator(s) == ToNat(whole + fraction)
  {
    hide Pow10, ToNat, WholePart, FractionPart, IsDecimal, Digits;
    PrintedParts(whole, fraction);
    ToNatConcat(whole, fraction);
  }

  /** a units of 10^-decimals are nearest to digits / 10^places, and the larger of two nearest. */
  predicate Nearest(a: nat, digits: nat, places: nat, decimals: nat) {
    2 * (a * Pow10(places)) <= 2 * (digits * Pow10(decimals)) + Pow10(places) < 2 * (a * Pow10(places)) + 2 * Pow10(places)
  }

  /**
   The parser, for every text: without its commas and blanks it must be a decimal, and then the result is the number
   it denotes, rounded half-up to units of 10^-decimals, or cut off when there are no decimals.
   */
  lemma ParseMeaning(input: string, decimals: nat)
    ensures Parse(input, decimals).Ok? <==> exists whole, fraction :: DecimalParts(Remove(input, IsFiller), whole, fraction)
    ensures forall whole, fraction :: DecimalParts(Remove(input, IsFiller), whole, fraction) ==>
              && Parse(input, decimals).Ok? && Digits(whole + fraction)
              && if decimals == 0 then Parse(input, decimals).value == ToNat(whole)
                 else Nearest(Parse(input, decimals).value, ToNat(whole + fraction), |fraction|, decimals)
    ensures Remove(input, IsFiller) == "" ==> Parse(input, decimals) == Err(Empty)
    ensures '-' in Remove(input, IsFiller) ==> Parse(input, decimals) == Err(Negative)
  {
    hide Pow10, ToNat, Remove, Trim, IsDecimal, WholePart, FractionPart, HalfUpDiv, IsFiller, Numerator;
    var s := Remove(input, IsFiller);
    NormalizedIs(input);
    hide Normalized;
    DecimalIff(s);
    forall whole, fraction | DecimalParts(s, whole, fraction)
      ensures s != "" && '-' !in s
      ensures decimals > 0 ==> Nearest(AtomicValue(s, decimals), ToNat(whole + fraction), |fraction|, decimals)
    {
      if decimals > 0 {
        HalfUpBounds(Numerator(s) * Pow10(decimals), Pow10(|fraction|));
      }
    }
  }

  /** Without decimals the parser truncates: it rounds half-up exactly when the first fraction digit is below 5. */
  lemma NoDecimalsTruncates(s: string)
    requires IsDecimal(s)
    ensures AtomicValue(s, 0) == HalfUpDiv(Numerator(s), Pow10(|FractionPart(s)|))
       <==> FractionPart(s) == "" || DigitValue(FractionPart(s)[0]) < 5
  {
    hide Pow10, HalfUpDiv, ToNat, WholePart, FractionPart;
    var frac := FractionPart(s);
    ToNatBound(frac);
    RoundedRest(ToNat(WholePart(s)), ToNat(frac), Pow10(|frac|));
    if frac == "" {
      EmptyValue(frac);
    } else {
      RoundingDigit(frac);
    }
  }

  /** "0.5" without decimals is 0, although half-up rounding gives 1. */
  lemma NoDecimalsExample()
    ensures Parse("0.5", 0) == Ok(0)
    ensures IsDecimal("0.5") && HalfUpDiv(Numerator("0.5"), Pow10(|FractionPart("0.5")|)) == 1
  {
    hide Pow10, HalfUpDiv, Trim, Remove;
    var s := "0.5";
    IndexOfJoin("0", '.', "5");
    assert "0" + ['.'] + "5" == s;
    PlainNormalized(s);
    assert WholePart(s) == "0" && FractionPart(s) == "5";
    Pow10Small();
    HalfUpIs(5, 10, 1);
  }

  // ---------- Printing ----------

  /** A missing option takes its default. */
  datatype FormatOptions = FormatOptions(
    group: Option<bool>,
    trimTrailingZeros: Option<bool>,
    minFractionDigits: Option<int>,
    maxFractionDigits: Option<int>)

  function OrElse<T>(o: Option<T>, default: T): T {
    if o.Some? then o.value else default
  }

  function Clamp(value: int, low: int, high: int): (r: int)
    ensures low <= high ==> low <= r <= high
  {
    var atLeast := if value < low then low else value;
    if high < atLeast then high else atLeast
  }

  function MaxFraction(decimals: nat, opts: FormatOptions): (m: nat)
    ensures m <= decimals
  {
    Clamp(OrElse(opts.maxFractionDigits, decimals), 0, decimals)
  }

  function MinFraction(decimals: nat, opts: FormatOptions): (m: nat)
    ensures m <= MaxFraction(decimals, opts)
  {
    Clamp(OrElse(opts.minFractionDigits, 0), 0, MaxFraction(decimals, opts))
  }

  /** A comma goes into every inner position that a multiple of three digits follows. */
  function GroupFrom(s: string, i: nat): string
    requires i <= |s|
    decreases |s| - i
  {
    if i == |s| then ""
    else (if i > 0 && (|s| - i) % 3 == 0 then "," else "") + [s[i]] + GroupFrom(s, i + 1)
  }

  function GroupThousands(s: string): string {
    GroupFrom(s, 0)
  }

  /** Drops trailing zeros while more than `low` digits are left. */
  function TrimZerosTo(s: string, low: nat): string {
    if |s| > low && s[|s| - 1] == '0' then TrimZerosTo(s[..|s| - 1], low) else s
  }

  /** The printed fraction of `rest` units of 10^-max. */
  function FractionDigits(rest: nat, max: nat, min: nat, trim: bool): string {
    if max == 0 then ""
    else
      var digits := PadStart(ToDecimal(rest), max);
      if trim then TrimZerosTo(digits, min) else digits
  }

  /** `rounded` units of 10^-max as text. */
  function Render(rounded: nat, max: nat, min: nat, trim: bool, group: bool): string {
    hide Pow10;
    var wholeRaw := ToDecimal(rounded / Pow10(max));
    var whole := if group then GroupThousands(wholeRaw) else wholeRaw;
    var fraction := FractionDigits(rounded % Pow10(max), max, min, trim);
    if fraction == "" then whole else whole + "." + fraction
  }

  function Format(atomic: nat, decimals: nat, opts: FormatOptions): string {
    var max := MaxFraction(decimals, opts);
    Render(HalfUpDiv(atomic, Pow10(decimals - max)), max, MinFraction(decimals, opts),
           OrElse(opts.trimTrailingZeros, true), OrElse(opts.group, true))
  }

  /** The printer's trimming loop. */
  method TrimFraction(digits: string, min: nat) returns (fraction: string)
    ensures fraction == TrimZerosTo(digits, min)
    ensures |digits| >= min ==> |fraction| >= min
  {
    fraction := digits;
    while |fraction| > min && fraction[|fraction| - 1] == '0'
      invariant |digits| >= min ==> |fraction| >= min
      invariant TrimZerosTo(fraction, min) == TrimZerosTo(digits, min)
    {
      fraction := fraction[..|fraction| - 1];
    }
  }

  /** The printer's steps: its final padding never has anything to pad. */
  method FormatAtomicToPepew(atomic: int, decimals: int, opts: FormatOptions) returns (r: Result<string, AmountError>)
    ensures decimals < 0 ==> r == Err(BadDecimals)
    ensures decimals >= 0 && atomic < 0 ==> r == Err(Negative)
    ensures decimals >= 0 && atomic >= 0 ==> r == Ok(Format(atomic, decimals, opts))
  {
    hide Pow10, HalfUpDiv, ToNat, MaxFraction, MinFraction, GroupThousands, TrimZerosTo, PadStart, ToDecimal;
    if decimals < 0 {
      return Err(BadDecimals);
    }
    if atomic < 0 {
      return Err(Negative);
    }
    var group := OrElse(opts.group, true);
    var trimTrailingZeros := OrElse(opts.trimTrailingZeros, true);
    var max := MaxFraction(decimals, opts);
    var min := MinFraction(decimals, opts);
    Pow10Small();
    var rounded := atomic;
    if max < decimals {
      var divisor := Pow10(decimals - max);
      var quotient, remainder := atomic / divisor, atomic % divisor;
      rounded := if remainder * 2 >= divisor then quotient + 1 else quotient;
      HalfUpBySplit(atomic, divisor);
    } else {
      HalfUpExact(atomic, 1);
    }
    assert rounded == HalfUpDiv(atomic, Pow10(decimals - max));
    var displayBase := Pow10(max);
    DivMod(rounded, displayBase);
    var wholeRaw := if max > 0 then ToDecimal(rounded / displayBase) else ToDecimal(rounded);
    var fraction := if max > 0 then PadStart(ToDecimal(rounded % displayBase), max) else "";
    if max > 0 {
      PadStartLength(rounded % displayBase, max);
      if trimTrailingZeros {
        fraction := TrimFraction(fraction, min);
      }
      if |fraction| < min {
        fraction := PadEnd(fraction, min);
      }
    }
    var whole := if group then GroupThousands(wholeRaw) else wholeRaw;
    if fraction == "" {
      return Ok(whole);
    }
    return Ok(whole + "." + fraction);
  }

  lemma PadStartLength(rest: nat, max: nat)
    requires max > 0 && rest < Pow10(max)
    ensures |PadStart(ToDecimal(rest), max)| == max
  {
  }

  /** The amount that a print at `max` fraction digits shows: the nearest multiple of 10^(decimals - max). */
  function Shown(atomic: nat, decimals: nat, max: nat): nat
    requires max <= decimals
  {
    HalfUpDiv(atomic, Pow10(decimals - max)) * Pow10(decimals - max)
  }

  /** Grouping cuts the digits into threes from the right. */
  lemma GroupByThousands(s: string)
    ensures |s| <= 3 ==> GroupThousands(s) == s
    ensures |s| > 3 ==> GroupThousands(s) == GroupThousands(s[..|s| - 3]) + "," + s[|s| - 3..]
  {
    hide GroupFrom;
    if |s| > 3 {
      GroupSplit(s, 0);
      GroupTail(s, |s| - 3);
    } else {
      GroupTail(s, 0);
    }
  }

  lemma {:induction false} GroupTail(s: string, i: nat)
    requires i <= |s| <= i + 3
    ensures GroupFrom(s, i) == (if i > 0 && i + 3 == |s| then "," else "") + s[i..]
    decreases |s| - i
  {
    if i < |s| {
      GroupTail(s, i + 1);
      assert s[i..] == [s[i]] + s[i + 1..];
    }
  }

  lemma PeriodThree(n: nat)
    ensures (n + 3) % 3 == n % 3
  {
  }

  lemma {:induction false} GroupSplit(s: string, i: nat)
    requires |s| > 3 && i <= |s| - 3
    ensures GroupFrom(s, i) == GroupFrom(s[..|s| - 3], i) + GroupFrom(s, |s| - 3)
    decreases |s| - i
  {
    hide GroupFrom;
    var t := s[..|s| - 3];
    GroupStep(s, i);
    GroupStep(t, i);
    if i < |t| {
      GroupSplit(s, i + 1);
      SameHead(s, i);
    }
  }

  /** Three digits more do not change where the commas stand. */
  lemma SameHead(s: string, i: nat)
    requires i + 3 < |s|
    ensures var t := s[..|s| - 3];
            (if i > 0 && (|s| - i) % 3 == 0 then "," else "") + [s[i]] == (if i > 0 && (|t| - i) % 3 == 0 then "," else "") + [t[i]]
  {
    PeriodThree(|s| - 3 - i);
  }

  lemma GroupStep(s: string, i: nat)
    requires i <= |s|
    ensures GroupFrom(s, i) == if i == |s| then "" else ((if i > 0 && (|s| - i) % 3 == 0 then "," else "") + [s[i]]) + GroupFrom(s, i + 1)
  {
  }

  lemma {:induction false} GroupRemoved(s: string, i: nat)
    requires i <= |s| && ',' !in s
    ensures Remove(GroupFrom(s, i), IsComma) == s[i..]
    decreases |s| - i
  {
    hide GroupFrom, Remove;
    RemoveHead("", IsComma);
    if i == |s| {
      GroupStep(s, i);
    } else {
      var head := GroupHead(s, i);
      GroupRemoved(s, i + 1);
      RemoveConcat(head, GroupFrom(s, i + 1), IsComma);
      HeadRemoved(head, s[i]);
      assert s[i..] == [s[i]] + s[i + 1..];
    }
  }

  lemma GroupHead(s: string, i: nat) returns (head: string)
    requires i < |s|
    ensures GroupFrom(s, i) == head + GroupFrom(s, i + 1) && (head == [s[i]] || head == [',', s[i]])
  {
    hide GroupFrom;
    GroupStep(s, i);
    head := (if i > 0 && (|s| - i) % 3 == 0 then "," else "") + [s[i]];
  }

  lemma HeadRemoved(head: string, c: char)
    requires c != ',' && (head == [c] || head == [',', c])
    ensures Remove(head, IsComma) == [c]
  {
    assert [',', c][1..] == [c] && [c][1..] == "";
  }

  lemma {:induction false} GroupChars(s: string, i: nat)
    requires i <= |s|
    ensures forall j :: 0 <= j < |GroupFrom(s, i)| ==> GroupFrom(s, i)[j] == ',' || GroupFrom(s, i)[j] in s
    decreases |s| - i
  {
    if i < |s| {
      GroupChars(s, i + 1);
    }
  }

  lemma PlainNormalized(s: string)
    requires forall i :: 0 <= i < |s| ==> s[i] != ',' && !IsSpace(s[i])
    ensures Normalized(s) == s
  {
    TrimNothing(s);
    RemoveNothing(s, IsComma);
    RemoveNothing(s, IsSpace);
  }

  /** Normalising a print undoes the grouping. */
  lemma PrintNormalized(whole: string, group: bool, tail: string)
    requires Digits(whole)
    requires forall i :: 0 <= i < |tail| ==> IsDigit(tail[i]) || tail[i] == '.'
    ensures Normalized((if group then GroupThousands(whole) else whole) + tail) == whole + tail
  {
    hide Remove, Trim;
    var w := if group then GroupThousands(whole) else whole;
    GroupChars(whole, 0);
    TrimNothing(w + tail);
    RemoveConcat(w, tail, IsComma);
    RemoveNothing(tail, IsComma);
    if group {
      GroupRemoved(whole, 0);
    } else {
      RemoveNothing(w, IsComma);
    }
    RemoveNothing(whole + tail, IsSpace);
  }

  lemma {:induction false} TrimZerosValue(s: string, low: nat)
    requires Digits(s)
    ensures Digits(TrimZerosTo(s, low)) && |TrimZerosTo(s, low)| <= |s|
    ensures PadEnd(TrimZerosTo(s, low), |s|) == s
  {
    if |s| > low && s[|s| - 1] == '0' {
      TrimZerosValue(s[..|s| - 1], low);
      assert s == s[..|s| - 1] + ['0'];
    }
  }

  /** The printed fraction still denotes `rest`, however it is trimmed. */
  lemma FractionValue(rest: nat, max: nat, min: nat, trim: bool)
    requires rest < Pow10(max)
    ensures var f := FractionDigits(rest, max, min, trim);
            Digits(f) && |f| <= max && ToNat(f) * Pow10(max - |f|) == rest
  {
    if max > 0 {
      var digits := PadStart(ToDecimal(rest), max);
      PadStartLength(rest, max);
      PadValue(ToDecimal(rest), max);
      TrimZerosValue(digits, min);
      PadValue(FractionDigits(rest, max, min, trim), max);
      assert PadEnd(digits, max) == digits;
    }
  }

  /**
   Printing then parsing gives the half-up nearest multiple of 10^(decimals - max), for every option.
   At full precision (max == decimals) it is the identity.
   */
  lemma PrintParse(atomic: nat, decimals: nat, opts: FormatOptions)
    ensures Parse(Format(atomic, decimals, opts), decimals) == Ok(Shown(atomic, decimals, MaxFraction(decimals, opts)))
    ensures MaxFraction(decimals, opts) == decimals ==> Parse(Format(atomic, decimals, opts), decimals) == Ok(atomic)
  {
    hide Pow10, HalfUpDiv, Parse, Render;
    var max := MaxFraction(decimals, opts);
    RenderParse(HalfUpDiv(atomic, Pow10(decimals - max)), decimals, max, MinFraction(decimals, opts),
                OrElse(opts.trimTrailingZeros, true), OrElse(opts.group, true));
    Pow10Small();
    if max == decimals {
      HalfUpExact(atomic, 1);
    }
  }

  lemma RenderParse(rounded: nat, decimals: nat, max: nat, min: nat, trim: bool, group: bool)
    requires max <= decimals
    ensures Parse(Render(rounded, max, min, trim, group), decimals) == Ok(rounded * Pow10(decimals - max))
  {
    hide Pow10, HalfUpDiv, ToNat, FractionDigits, Normalized, GroupThousands, AtomicValue, IsDecimal, WholePart, FractionPart;
    var base := Pow10(max);
    DivMod(rounded, base);
    var w, rest := rounded / base, rounded % base;
    var whole, f := ToDecimal(w), FractionDigits(rest, max, min, trim);
    FractionValue(rest, max, min, trim);
    var tail := if f == "" then "" else "." + f;
    PrintNormalized(whole, group, tail);
    assert Render(rounded, max, min, trim, group) == (if group then GroupThousands(whole) else whole) + tail;
    PrintedParts(whole, f);
    PrintedValue(whole + tail, decimals, max, w, rest);
  }

  /** A well-formed text with these parts denotes w * 10^max + rest units of 10^-max. */
  lemma PrintedValue(s: string, decimals: nat, max: nat, w: nat, rest: nat)
    requires IsDecimal(s) && max <= decimals && |FractionPart(s)| <= max
    requires ToNat(WholePart(s)) == w && ToNat(FractionPart(s)) * Pow10(max - |FractionPart(s)|) == rest
    ensures AtomicValue(s, decimals) == (w * Pow10(max) + rest) * Pow10(decimals - max)
  {
    hide Pow10, HalfUpDiv, ToNat, FractionPart, WholePart;
    var n, cut := |FractionPart(s)|, Pow10(decimals - max);
    Pow10Add(max, decimals - max);
    Pow10Small();
    if decimals > 0 {
      ShortFraction(s, decimals);
      Pow10Add(max - n, decimals - max);
      assert decimals - n == (max - n) + (decimals - max);
      Recombine(w, Pow10(max), cut, ToNat(FractionPart(s)), Pow10(max - n), rest);
    } else {
      assert FractionPart(s) == "";
      EmptyValue(FractionPart(s));
    }
  }

  lemma EmptyValue(s: string)
    requires s == ""
    ensures ToNat(s) == 0
  {
  }

  lemma Recombine(w: nat, base: nat, cut: nat, f: nat, k: nat, rest: nat)
    requires f * k == rest
    ensures w * (base * cut) + f * (k * cut) == (w * base + rest) * cut
  {
  }

  lemma PrintedParts(whole: string, f: string)
    requires Digits(whole) && whole != "" && Digits(f)
    ensures var s := whole + if f == "" then "" else "." + f;
            s != "" && '-' !in s && IsDecimal(s) && WholePart(s) == whole && FractionPart(s) == f
  {
    var s := whole + if f == "" then "" else "." + f;
    assert '.' !in whole;
    IndexOfJoin(whole, '.', f);
    if f == "" {
      assert s == whole;
    } else {
      assert s == whole + ['.'] + f;
      assert s[|whole| + 1..] == f;
    }
  }

  lemma {:induction false} ToDecimalCanonical(n: nat)
    ensures |ToDecimal(n)| > 1 ==> ToDecimal(n)[0] != '0'
    ensures n > 0 ==> ToDecimal(n)[0] != '0'
  {
    hide ToNat;
    if n >= 10 {
      ToDecimalCanonical(n / 10);
    }
  }

  lemma {:induction false} TrimZerosEnd(s: string, low: nat)
    ensures var r := TrimZerosTo(s, low);
            (|s| >= low ==> |r| >= low) && (|r| > low ==> r[|r| - 1] != '0')
  {
    if |s| > low && s[|s| - 1] == '0' {
      TrimZerosEnd(s[..|s| - 1], low);
    }
  }

  /** An option that is missing takes its default, and one that is out of range the nearest value in range. */
  predicate InRange(option: Option<int>, default: int, low: int, high: int, value: int) {
    var given := if option.Some? then option.value else default;
    && (given < low ==> value == low) && (given > high ==> value == high) && (low <= given <= high ==> value == given)
  }

  /**
   The form of a print, for every option: a whole number without superfluous zeros, grouped unless that is switched
   off; between the smallest and the largest number of fraction digits, the largest when trimming is switched off,
   and otherwise none more than needed. Together with PrintParse this leaves one text for each amount.
   */
  lemma PrintForm(atomic: nat, decimals: nat, opts: FormatOptions) returns (whole: string, fraction: string)
    ensures Format(atomic, decimals, opts)
            == (if opts.group == Some(false) then whole else GroupThousands(whole)) + (if fraction == "" then "" else "." + fraction)
    ensures Digits(whole) && whole != "" && (|whole| > 1 ==> whole[0] != '0') && Digits(fraction)
    ensures var max, min := MaxFraction(decimals, opts), MinFraction(decimals, opts);
            && InRange(opts.maxFractionDigits, decimals, 0, decimals, max) && InRange(opts.minFractionDigits, 0, 0, max, min)
            && min <= |fraction| <= max
            && if opts.trimTrailingZeros == Some(false) then |fraction| == max else |fraction| > min ==> fraction[|fraction| - 1] != '0'
  {
    hide Pow10, HalfUpDiv, ToNat, GroupThousands, ToDecimal;
    var max, min := MaxFraction(decimals, opts), MinFraction(decimals, opts);
    var rounded := HalfUpDiv(atomic, Pow10(decimals - max));
    var rest := rounded % Pow10(max);
    whole := ToDecimal(rounded / Pow10(max));
    fraction := FractionDigits(rest, max, min, OrElse(opts.trimTrailingZeros, true));
    ToDecimalCanonical(rounded / Pow10(max));
    FractionValue(rest, max, min, OrElse(opts.trimTrailingZeros, true));
    if max > 0 {
      PadStartLength(rest, max);
      TrimZerosEnd(PadStart(ToDecimal(rest), max), min);
    }
  }

  /** What a print shows is monotone in the amount, and showing it again changes nothing. */
  lemma ShownMonotoneIdempotent(a: nat, b: nat, decimals: nat, max: nat)
    requires max <= decimals
    ensures a <= b ==> Shown(a, decimals, max) <= Shown(b, decimals, max)
    ensures Shown(Shown(a, decimals, max), decimals, max) == Shown(a, decimals, max)
  {
    hide Pow10, HalfUpDiv;
    var den := Pow10(decimals - max);
    HalfUpExact(HalfUpDiv(a, den), den);
    if a <= b {
      HalfUpMonotone(a, b, den);
      MulMono(HalfUpDiv(a, den), HalfUpDiv(b, den), den);
    }
  }

  lemma HalfUpMonotone(a: nat, b: nat, den: nat)
    requires den > 0 && a <= b
    ensures HalfUpDiv(a, den) <= HalfUpDiv(b, den)
  {
  }

  // ---------- The printer of the send page ----------

  function FormatAtomicAsPepew(value: int): string {
    var sign := if value < 0 then "-" else "";
    var abs := if value < 0 then -value else value;
    var frac := StripTrailingZeros(PadStart(ToDecimal(abs % 100000000), 8));
    sign + ToDecimal(abs / 100000000) + if frac != "" then "." + frac else ""
  }

  const UNGROUPED := FormatOptions(Some(false), None, None, None)

  lemma {:induction false} StripIsTrim(s: string)
    ensures StripTrailingZeros(s) == TrimZerosTo(s, 0)
  {
    if s != "" && s[|s| - 1] == '0' {
      StripIsTrim(s[..|s| - 1]);
    }
  }

  /** The two printers agree, so the second one is read back exactly too; a negative amount never parses. */
  lemma SecondPrinterAgrees(value: int)
    ensures value >= 0 ==> FormatAtomicAsPepew(value) == Format(value, PEPEW_DECIMALS, UNGROUPED)
    ensures value >= 0 ==> Parse(FormatAtomicAsPepew(value), PEPEW_DECIMALS) == Ok(value)
    ensures value < 0 ==> Parse(FormatAtomicAsPepew(value), PEPEW_DECIMALS) == Err(Negative)
  {
    var abs := if value < 0 then -value else value;
    hide Pow10, HalfUpDiv, ToNat, ToDecimal, Parse;
    Pow10Small();
    var whole, rest := abs / 100000000, abs % 100000000;
    StripIsTrim(PadStart(ToDecimal(rest), 8));
    HalfUpExact(abs, 1);
    FractionValue(rest, 8, 0, true);
    var f := FractionDigits(rest, 8, 0, true);
    assert FormatAtomicAsPepew(abs) == Format(abs, PEPEW_DECIMALS, UNGROUPED);
    PrintParse(abs, PEPEW_DECIMALS, UNGROUPED);
    if value < 0 {
      var s := ToDecimal(whole) + if f == "" then "" else "." + f;
      assert FormatAtomicAsPepew(value) == "-" + s;
      NegativePrint(s);
    }
  }

  lemma NegativePrint(s: string)
    requires forall i :: 0 <= i < |s| ==> s[i] != ',' && !IsSpace(s[i])
    ensures Parse("-" + s, PEPEW_DECIMALS) == Err(Negative)
  {
  }
}
