/**
 Decimal text: the JavaScript string operations that the amount parser, the coin
 selector and the id normalisers share, with their numeric meaning.
 */
module Text {
  /** The regular-expression class \d. */
  predicate IsDigit(c: char) {
    '0' <= c <= '9'
  }

  /** White space as String.prototype.trim and the class \s define it. */
  predicate IsSpace(c: char) {
    || c in "\t\n\r "
    || c in ['\U{000B}', '\U{000C}', '\U{00A0}', '\U{1680}', '\U{2028}', '\U{2029}', '\U{202F}', '\U{205F}', '\U{3000}', '\U{FEFF}']
    || '\U{2000}' <= c <= '\U{200A}'
  }

  /** The text consists of digits only; it may be empty. */
  predicate Digits(s: string) {
    forall i :: 0 <= i < |s| ==> IsDigit(s[i])
  }

  function Pow10(n: nat): (p: nat)
    ensures p >= 1
  {
    if n == 0 then 1 else 10 * Pow10(n - 1)
  }

  function DigitValue(c: char): nat
    requires IsDigit(c)
  {
    c as int - '0' as int
  }

  function DigitChar(d: nat): char
    requires d < 10
  {
    ('0' as int + d) as char
  }

  /** The number that a digit text denotes, as BigInt(text) reads it. */
  function ToNat(s: string): nat
    requires Digits(s)
  {
    if s == [] then 0 else 10 * ToNat(s[..|s| - 1]) + DigitValue(s[|s| - 1])
  }

  /** BigInt.prototype.toString for non-negative numbers: it reads back as the same number. */
  function ToDecimal(n: nat): (s: string)
    ensures s != [] && Digits(s) && ToNat(s) == n
  {
    if n < 10 then [DigitChar(n)] else ToDecimal(n / 10) + [DigitChar(n % 10)]
  }

  function Zeros(n: nat): (s: string)
    ensures |s| == n && Digits(s)
  {
    seq(n, i => '0')
  }

  function PadStart(s: string, width: nat): string {
    if |s| >= width then s else Zeros(width - |s|) + s
  }

  function PadEnd(s: string, width: nat): string {
    if |s| >= width then s else s + Zeros(width - |s|)
  }

  /** Drops every trailing '0', as replace(/0+$/, "") does. */
  function StripTrailingZeros(s: string): string {
    if s != [] && s[|s| - 1] == '0' then StripTrailingZeros(s[..|s| - 1]) else s
  }

  /** Drops leading '0's as long as a digit follows, as replace(/^0+(?=\d)/, "") does. */
  function StripLeadingZeros(s: string): string {
    if |s| > 1 && s[0] == '0' && IsDigit(s[1]) then StripLeadingZeros(s[1..]) else s
  }

  function TrimStart(s: string): string {
    if s != [] && IsSpace(s[0]) then TrimStart(s[1..]) else s
  }

  function TrimEnd(s: string): string {
    if s != [] && IsSpace(s[|s| - 1]) then TrimEnd(s[..|s| - 1]) else s
  }

  function Trim(s: string): string {
    TrimEnd(TrimStart(s))
  }

  /** Removes every character that satisfies `drop`, as a global replace by "" does. */
  function Remove(s: string, drop: char -> bool): string {
    if s == [] then [] else (if drop(s[0]) then [] else [s[0]]) + Remove(s[1..], drop)
  }

  /** toUpperCase on ASCII letters and on U+0131 and U+017F, the other letters whose capitals are ASCII letters. */
  function UpperChar(c: char): char {
    if 'a' <= c <= 'z' then (c as int - 32) as char else if c == '\U{0131}' then 'I' else if c == '\U{017F}' then 'S' else c
  }

  /** toLowerCase, likewise; U+212A is the Kelvin sign. */
  function LowerChar(c: char): char {
    if 'A' <= c <= 'Z' then (c as int + 32) as char else if c == '\U{212A}' then 'k' else c
  }

  function Mapped(s: string, f: char -> char): (r: string)
    ensures |r| == |s| && forall i :: 0 <= i < |s| ==> r[i] == f(s[i])
  {
    seq(|s|, i requires 0 <= i < |s| => f(s[i]))
  }

  function Upper(s: string): string {
    Mapped(s, UpperChar)
  }

  function Lower(s: string): string {
    Mapped(s, LowerChar)
  }

  /** The position of the first `c`, or the length when there is none. */
  function IndexOf(s: string, c: char): (i: nat)
    ensures i <= |s|
    ensures forall j :: 0 <= j < i ==> s[j] != c
    ensures i < |s| ==> s[i] == c
  {
    if s == [] || s[0] == c then 0 else 1 + IndexOf(s[1..], c)
  }

  lemma {:induction false} Pow10Add(a: nat, b: nat)
    ensures Pow10(a + b) == Pow10(a) * Pow10(b)
  {
    if a > 0 {
      Pow10Add(a - 1, b);
      assert Pow10(a + b) == 10 * (Pow10(a - 1) * Pow10(b));
    }
  }

  lemma Pow10Small()
    ensures Pow10(0) == 1 && Pow10(1) == 10 && Pow10(2) == 100 && Pow10(8) == 100000000
  {
  }

  lemma LastDigit(s: string)
    requires Digits(s)
    ensures ToNat(s) == if s == [] then 0 else 10 * ToNat(s[..|s| - 1]) + DigitValue(s[|s| - 1])
  {
  }

  lemma {:induction false} ToNatConcat(a: string, b: string)
    requires Digits(a) && Digits(b)
    ensures Digits(a + b)
    ensures ToNat(a + b) == ToNat(a) * Pow10(|b|) + ToNat(b)
  {
    LastDigit(a + b);
    LastDigit(b);
    hide ToNat;
    if b == [] {
      assert a + b == a;
    } else {
      var b' := b[..|b| - 1];
      ToNatConcat(a, b');
      assert (a + b)[..|a + b| - 1] == a + b';
      assert (a + b)[|a + b| - 1] == b[|b'|];
      TenTimes(ToNat(a), Pow10(|b'|));
    }
  }

  lemma TenTimes(x: nat, p: nat)
    ensures 10 * (x * p) == x * (10 * p)
  {
  }

  lemma {:induction false} ToNatBound(s: string)
    requires Digits(s)
    ensures ToNat(s) < Pow10(|s|)
  {
    if s != [] {
      ToNatBound(s[..|s| - 1]);
    }
  }

  lemma {:induction false} ToNatZeros(n: nat)
    ensures ToNat(Zeros(n)) == 0
  {
    if n > 0 {
      ToNatZeros(n - 1);
      assert Zeros(n)[..n - 1] == Zeros(n - 1);
    }
  }

  /** Padding on the left keeps the number; padding on the right multiplies it. */
  lemma PadValue(s: string, width: nat)
    requires Digits(s)
    ensures Digits(PadStart(s, width)) && ToNat(PadStart(s, width)) == ToNat(s)
    ensures |s| <= width ==> Digits(PadEnd(s, width)) && |PadEnd(s, width)| == width
    ensures |s| <= width ==> ToNat(PadEnd(s, width)) == ToNat(s) * Pow10(width - |s|)
  {
    hide ToNat;
    if |s| < width {
      ToNatZeros(width - |s|);
      ToNatConcat(Zeros(width - |s|), s);
      ToNatConcat(s, Zeros(width - |s|));
    }
  }

  lemma {:induction false} StripLeadingZerosValue(s: string)
    requires Digits(s)
    ensures Digits(StripLeadingZeros(s)) && ToNat(StripLeadingZeros(s)) == ToNat(s)
    ensures s != [] ==> StripLeadingZeros(s) != []
  {
    if |s| > 1 && s[0] == '0' && IsDigit(s[1]) {
      StripLeadingZerosValue(s[1..]);
      ToNatConcat(s[..1], s[1..]);
      assert s == s[..1] + s[1..];
      assert s[..1] == Zeros(1);
      ToNatZeros(1);
    }
  }

  lemma RemoveHead(s: string, drop: char -> bool)
    ensures Remove(s, drop) == if s == [] then [] else (if drop(s[0]) then [] else [s[0]]) + Remove(s[1..], drop)
  {
  }

  lemma {:induction false} RemoveConcat(a: string, b: string, drop: char -> bool)
    ensures Remove(a + b, drop) == Remove(a, drop) + Remove(b, drop)
  {
    RemoveHead(a, drop);
    RemoveHead(a + b, drop);
    hide Remove;
    if a == [] {
      assert a + b == b;
    } else {
      RemoveConcat(a[1..], b, drop);
      assert (a + b)[0] == a[0] && (a + b)[1..] == a[1..] + b;
    }
  }

  lemma {:induction false} RemoveNothing(s: string, drop: char -> bool)
    requires forall i :: 0 <= i < |s| ==> !drop(s[i])
    ensures Remove(s, drop) == s
  {
    if s != [] {
      RemoveNothing(s[1..], drop);
    }
  }

  lemma TrimNothing(s: string)
    requires forall i :: 0 <= i < |s| ==> !IsSpace(s[i])
    ensures Trim(s) == s
  {
  }

  predicate Blank(s: string) {
    forall i :: 0 <= i < |s| ==> IsSpace(s[i])
  }

  lemma {:induction false} TrimStartPadding(before: string, s: string)
    requires Blank(before) && s != [] && !IsSpace(s[0])
    ensures TrimStart(before + s) == s
  {
    hide IsSpace;
    if before == [] {
      assert before + s == s;
    } else {
      assert (before + s)[0] == before[0] && (before + s)[1..] == before[1..] + s;
      TrimStartPadding(before[1..], s);
    }
  }

  lemma {:induction false} TrimEndPadding(s: string, after: string)
    requires Blank(after) && s != [] && !IsSpace(s[|s| - 1])
    ensures TrimEnd(s + after) == s
  {
    hide IsSpace;
    if after == [] {
      assert s + after == s;
    } else {
      var all, last := s + after, |after| - 1;
      assert all[|all| - 1] == after[last] && all[..|all| - 1] == s + after[..last];
      TrimEndPadding(s, after[..last]);
    }
  }

  lemma TrimPadding(before: string, s: string, after: string)
    requires Blank(before) && Blank(after) && s != [] && !IsSpace(s[0]) && !IsSpace(s[|s| - 1])
    ensures Trim(before + s + after) == s
  {
    hide IsSpace, Blank;
    assert before + s + after == before + (s + after);
    TrimStartPadding(before, s + after);
    TrimEndPadding(s, after);
  }

  /** Trimming cuts blanks off at both ends and nothing else. */
  lemma TrimSplit(s: string) returns (before: string, after: string)
    ensures s == before + Trim(s) + after && Blank(before) && Blank(after)
  {
    hide IsSpace, Blank;
    before := TrimStartSplit(s);
    after := TrimEndSplit(TrimStart(s));
    assert before + (Trim(s) + after) == before + Trim(s) + after;
  }

  lemma {:induction false} TrimStartSplit(s: string) returns (before: string)
    ensures s == before + TrimStart(s) && Blank(before)
  {
    before := "";
    if s != [] && IsSpace(s[0]) {
      before := TrimStartSplit(s[1..]);
      before := [s[0]] + before;
    }
  }

  lemma {:induction false} TrimEndSplit(s: string) returns (after: string)
    ensures s == TrimEnd(s) + after && Blank(after)
  {
    after := "";
    if s != [] && IsSpace(s[|s| - 1]) {
      after := TrimEndSplit(s[..|s| - 1]);
      after := after + [s[|s| - 1]];
    }
  }

  // ---------- Spellings ----------

  /** The character l, which is no capital letter, or the capital of it; the Kelvin sign counts as a capital k. */
  predicate SmallOrCapital(c: char, l: char) {
    c == l || ('a' <= l <= 'z' && c as int + 32 == l as int) || (l == 'k' && c == '\U{212A}')
  }

  /** The character u, which is no small letter, or the small letter of it. */
  predicate CapitalOrSmall(c: char, u: char) {
    || c == u
    || ('A' <= u <= 'Z' && c as int == u as int + 32)
    || (u == 'I' && c == '\U{0131}')
    || (u == 'S' && c == '\U{017F}')
  }

  /** A name as the code writes it: visible ASCII characters other than capital letters. */
  predicate SmallName(name: string) {
    name != "" && forall i :: 0 <= i < |name| ==> '!' <= name[i] <= '@' || '[' <= name[i] <= '~'
  }

  /** From position i on, the text is the name in small or capital letters; the rest of it is blank. */
  predicate SpellsAt(text: string, i: nat, name: string) {
    && i + |name| <= |text|
    && Blank(text[..i]) && Blank(text[i + |name|..])
    && forall k :: 0 <= k < |name| ==> SmallOrCapital(text[i + k], name[k])
  }

  /** The text is the name, whatever the letter case and the blanks around it. */
  ghost predicate Spells(text: string, name: string) {
    exists i :: SpellsAt(text, i, name)
  }

  lemma LowerIs(s: string, name: string)
    requires SmallName(name)
    ensures Lower(s) == name <==> |s| == |name| && forall k :: 0 <= k < |s| ==> SmallOrCapital(s[k], name[k])
  {
    if |s| == |name| {
      assert forall k :: 0 <= k < |s| ==> (LowerChar(s[k]) == name[k] <==> SmallOrCapital(s[k], name[k]));
    }
  }

  /** Trimming and lowering a text gives a name exactly when the text spells it. */
  lemma LowerTrimIs(text: string, name: string)
    requires SmallName(name)
    ensures Lower(Trim(text)) == name <==> Spells(text, name)
  {
    hide Lower, Trim, SpellsAt, SmallName;
    if Lower(Trim(text)) == name {
      var before, after := TrimSplit(text);
      MiddleSpells(text, before, Trim(text), after, name);
    }
    if i: nat :| SpellsAt(text, i, name) {
      SpelledTrims(text, i, name);
    }
  }

  lemma MiddleSpells(text: string, before: string, middle: string, after: string, name: string)
    requires SmallName(name) && text == before + middle + after && Blank(before) && Blank(after) && Lower(middle) == name
    ensures SpellsAt(text, |before|, name)
  {
    hide Lower, SmallOrCapital, Blank, SmallName;
    LowerIs(middle, name);
    assert text[..|before|] == before && text[|before| + |name|..] == after;
  }

  lemma SpelledTrims(text: string, i: nat, name: string)
    requires SmallName(name) && SpellsAt(text, i, name)
    ensures Lower(Trim(text)) == name
  {
    hide Lower, Trim, SmallOrCapital, Blank, IsSpace;
    var middle := text[i..i + |name|];
    assert text == text[..i] + middle + text[i + |name|..];
    SpelledSolid(middle[0], name[0]);
    SpelledSolid(middle[|name| - 1], name[|name| - 1]);
    TrimPadding(text[..i], middle, text[i + |name|..]);
    LowerIs(middle, name);
  }

  lemma SpelledSolid(c: char, l: char)
    requires SmallOrCapital(c, l) && ('!' <= l <= '@' || '[' <= l <= '~')
    ensures !IsSpace(c)
  {
  }

  lemma UpperIs(s: string, name: string)
    requires forall i :: 0 <= i < |name| ==> !('a' <= name[i] <= 'z') && name[i] != '\U{0131}' && name[i] != '\U{017F}'
    ensures Upper(s) == name <==> |s| == |name| && forall k :: 0 <= k < |s| ==> CapitalOrSmall(s[k], name[k])
  {
    if |s| == |name| {
      assert forall k :: 0 <= k < |s| ==> (UpperChar(s[k]) == name[k] <==> CapitalOrSmall(s[k], name[k]));
    }
  }

  lemma {:induction false} StripZeros(s: string, n: nat)
    requires s != [] && s[|s| - 1] != '0'
    ensures StripTrailingZeros(s + Zeros(n)) == s
  {
    if n == 0 {
      assert s + Zeros(0) == s;
    } else {
      assert (s + Zeros(n))[..|s| + n - 1] == s + Zeros(n - 1);
      StripZeros(s, n - 1);
    }
  }

  /** Splitting at the first occurrence gives back the parts of a join. */
  lemma IndexOfJoin(a: string, c: char, b: string)
    requires c !in a
    ensures IndexOf(a + [c] + b, c) == |a|
    ensures IndexOf(a, c) == |a|
  {
    var s := a + [c] + b;
    assert s[|a|] == c;
    assert forall j :: 0 <= j < |a| ==> s[j] == a[j];
  }
}
