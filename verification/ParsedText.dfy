/** What the integer parser makes of a text, by the places of its digits. */
module ParsedText {
  import opened Words
  import opened WordAlgebra
  import opened IntText

  // ----- Digits at their places -----

  function Power(base: int, k: nat): int {
    if k == 0 then 1 else base * Power(base, k - 1)
  }

  /** Every digit times the base to its place, the last place being 0. */
  function Places(digits: seq<int>, base: int): int {
    if digits == [] then 0 else digits[0] * Power(base, |digits| - 1) + Places(digits[1..], base)
  }

  /** Wrapping early makes no difference. */
  lemma WrapEarly(x: int, p: int, y: int)
    ensures Wrap(Wrap(x) * p + y) == Wrap(x * p + y)
  {
    hide Wrap;
    WrapTurns(x);
    assert x * p == Wrap(x) * p + (Turns(x) * p) * TWO64;
    WrapAgain(x * p + y, Wrap(x) * p + y, Turns(x) * p);
  }

  lemma Shifted(r: int, base: int, d: int, p: int, rest: int)
    ensures (r * base + d) * p + rest == r * (base * p) + (d * p + rest)
  {
  }

  // ----- Decimal digits in any base -----

  lemma StepMeans(r: Word, base: Word, c: Byte)
    ensures ValueStep(r, base, c) == Wrap(r * base + (c - 48))
  {
    hide Wrap;
    WrapEarly(r * base, 1, c);
    WrapEarly(r * base + c, 1, -48);
  }

  lemma {:induction false} ValueMeans(text: seq<Byte>, digits: seq<int>, base: Word, r: Word)
    requires |text| == |digits| && forall i :: 0 <= i < |text| ==> digits[i] + 48 == text[i]
    ensures Value(text, base, r) == Wrap(r * Power(base, |text|) + Places(digits, base))
    decreases |text|
  {
    hide Wrap, ValueStep;
    if text == [] {
      WrapOfWord(r);
    } else {
      var next := ValueStep(r, base, text[0]);
      var p := Power(base, |text| - 1);
      StepMeans(r, base, text[0]);
      ValueMeans(text[1..], digits[1..], base, next);
      WrapEarly(r * base + digits[0], p, Places(digits[1..], base));
      Shifted(r, base, digits[0], p, Places(digits[1..], base));
    }
  }

  /** The letter behind a number that is not decimal. */
  function Letter(base: int): seq<Byte> {
    if base == 8 then [111] else if base == 16 then [104] else []
  }

  predicate AreDigits(text: seq<Byte>) {
    forall i :: 0 <= i < |text| ==> 48 <= text[i] <= 57
  }

  function DigitsOf(text: seq<Byte>): (ds: seq<int>)
    ensures |ds| == |text|
  {
    seq(|text|, i requires 0 <= i < |text| => (text[i] as int) - 48)
  }

  lemma LetterDecides(t: seq<Byte>, base: Word)
    requires (base == 8 || base == 10 || base == 16) && t != [] && 48 <= t[|t| - 1] <= 57
    ensures var s := t + Letter(base); BaseOf(s[|s| - 1]) == base && |t| == if base == 10 then |s| else |s| - 1
  {
  }

  /** Digits of any number, with or without a sign, and the letter of their base: the text means the
      sum of the digits at their places, wrapped around; leading zeros do no harm. */
  lemma NumberMeans(text: seq<Byte>, base: Word)
    requires (base == 8 || base == 10 || base == 16) && text != [] && AreDigits(text)
    ensures var v := Wrap(Places(DigitsOf(text), base));
      && Parse(text + Letter(base)) == v
      && Parse([43] + text + Letter(base)) == v
      && Parse([45] + text + Letter(base)) == Wrap(0 - v)
  {
    hide Parse, Value, Wrap, Places, Letter, DigitsOf, AreDigits;
    FromZero(text, base);
    UnsignedNumber(text, base);
    SignedNumber(43, text, base);
    SignedNumber(45, text, base);
  }

  lemma FromZero(text: seq<Byte>, base: Word)
    ensures Value(text, base, 0) == Wrap(Places(DigitsOf(text), base))
  {
    hide Value, Wrap, Places, Power;
    ValueMeans(text, DigitsOf(text), base, 0);
    assert 0 * Power(base, |text|) == 0;
  }

  lemma UnsignedNumber(text: seq<Byte>, base: Word)
    requires (base == 8 || base == 10 || base == 16) && text != [] && AreDigits(text)
    ensures Parse(text + Letter(base)) == Value(text, base, 0)
  {
    hide Parse, Value, BaseOf, Letter;
    NumberParts(text, base);
    LetterDecides(text, base);
    Unsigned(text, base);
  }

  lemma SignedNumber(sign: Byte, text: seq<Byte>, base: Word)
    requires sign == 43 || sign == 45
    requires (base == 8 || base == 10 || base == 16) && text != [] && AreDigits(text)
    ensures Parse([sign] + text + Letter(base))
      == if sign == 45 then Wrap(0 - Value(text, base, 0)) else Value(text, base, 0)
  {
    hide Parse, Value, BaseOf, Wrap, Letter;
    NumberParts(text, base);
    LetterDecides([sign] + text, base);
    Signed(sign, text, base);
  }

  lemma NumberParts(text: seq<Byte>, base: Word)
    requires text != [] && AreDigits(text)
    ensures (text + Letter(base))[0..|text|] == text
    ensures forall c: Byte :: ([c] + text + Letter(base))[1..|text| + 1] == text
  {
  }

  /** No hexadecimal prefix. */
  lemma NoPrefixHere(t: seq<Byte>, base: Word)
    requires t != [] && forall i :: 1 <= i < |t| ==> 48 <= t[i] <= 57
    ensures var s := t + Letter(base); |s| > 1 ==> ToLower(s[1]) != LETTER_X
  {
  }

  lemma Unsigned(text: seq<Byte>, base: Word)
    requires (base == 8 || base == 10 || base == 16) && text != [] && AreDigits(text)
    requires var s := text + Letter(base);
      BaseOf(s[|s| - 1]) == base && |text| == (if base == 10 then |s| else |s| - 1) && s[0..|text|] == text
    ensures Parse(text + Letter(base)) == Value(text, base, 0)
  {
    hide Value, HexValue, BaseOf, ToLower, Wrap;
    NoPrefixHere(text, base);
  }

  lemma Signed(sign: Byte, text: seq<Byte>, base: Word)
    requires sign == 43 || sign == 45
    requires (base == 8 || base == 10 || base == 16) && text != [] && AreDigits(text)
    requires var s := [sign] + text + Letter(base);
      && BaseOf(s[|s| - 1]) == base && |text| + 1 == (if base == 10 then |s| else |s| - 1)
      && s[1..|text| + 1] == text
    ensures Parse([sign] + text + Letter(base))
      == if sign == 45 then Wrap(0 - Value(text, base, 0)) else Value(text, base, 0)
  {
    hide Value, HexValue, BaseOf, ToLower, Wrap;
    NoPrefixHere([sign] + text, base);
  }

  // ----- The hexadecimal prefix -----

  /** The character stands for the digit: 0 to 9, a to f or A to F; letters behind f and F stand for the
      low four bits of their number. */
  predicate Writes(c: Byte, digit: int) {
    || (48 <= c <= 57 && digit == c - 48)
    || (97 <= c <= 122 && digit == (10 + (c - 97)) % 16)
    || (65 <= c <= 90 && digit == (10 + (c - 65)) % 16)
  }

  predicate IsAlphanumeric(c: Byte) {
    48 <= c <= 57 || 97 <= c <= 122 || 65 <= c <= 90
  }

  lemma {:induction false} OrBelow(u: nat, v: nat, k: nat)
    requires Pow2(k) > 0 && u % Pow2(k) == 0 && v < Pow2(k)
    ensures BitsOp(BitOr, u, v) == u + v
    decreases k
  {
    if k == 0 {
      BitsWithZero(u);
    } else {
      Pow2Positive(k - 1);
      HalfMultiple(u, Pow2(k - 1));
      OrBelow(u / 2, v / 2, k - 1);
      BitsHalf(BitOr, u, v);
      assert u == 2 * (u / 2) && v == 2 * (v / 2) + v % 2;
    }
  }

  lemma HalfMultiple(u: nat, p: int)
    requires p > 0 && u % (2 * p) == 0
    ensures u % 2 == 0 && (u / 2) % p == 0
  {
    var q := u / (2 * p);
    assert u == q * (2 * p);
    assert q * (2 * p) == 2 * (q * p);
    Unique(u, 2, q * p, 0);
    Unique(q * p, p, q, 0);
  }

  /** A digit shifted in. */
  lemma HexStepMeans(r: Word, digit: nat)
    ensures HexStep(r, digit) == Wrap(r * 16 + digit % 16)
  {
    hide Wrap, Pow2, BitsOp;
    PowerOfFour();
    var u := Bits(Wrap(r * 16));
    SixteenStays(r);
    OrBelow(u, digit % 16, 4);
    BitsWrap(Wrap(r * 16), digit % 16);
    WrapEarly(r * 16, 1, digit % 16);
  }

  lemma PowerOfFour()
    ensures Pow2(4) == 16
  {
  }

  lemma SixteenStays(r: Word)
    ensures Bits(Wrap(r * 16)) % 16 == 0
  {
  }

  lemma BitsWrap(a: Word, d: nat)
    requires d < 16
    ensures Bits(d) == d && Wrap(Bits(a) + d) == Wrap(a + d)
  {
    if a < 0 {
      WrapAgain(Bits(a) + d, a + d, 1);
    }
  }

  lemma HexDigitMeans(c: Byte)
    ensures HexDigit(c).Some? <==> IsAlphanumeric(c)
    ensures forall d: int :: Writes(c, d) ==> HexDigit(c).Some? && HexDigit(c).value % 16 == d
  {
  }

  lemma {:induction false} HexValueMeans(text: seq<Byte>, digits: seq<int>, r: Word)
    requires |text| == |digits| && forall i :: 0 <= i < |text| ==> Writes(text[i], digits[i])
    ensures HexValue(text, r) == Wrap(r * Power(16, |text|) + Places(digits, 16))
    decreases |text|
  {
    hide Wrap, HexStep, HexDigit, Writes;
    if text == [] {
      WrapOfWord(r);
    } else {
      HexDigitMeans(text[0]);
      assert Writes(text[0], digits[0]);
      var next := HexStep(r, HexDigit(text[0]).value);
      var p := Power(16, |text| - 1);
      HexStepMeans(r, HexDigit(text[0]).value);
      HexValueMeans(text[1..], digits[1..], next);
      WrapEarly(r * 16 + digits[0], p, Places(digits[1..], 16));
      Shifted(r, 16, digits[0], p, Places(digits[1..], 16));
    }
  }

  lemma {:induction false} HexValueFails(text: seq<Byte>, k: nat, r: Word)
    requires k < |text| && !IsAlphanumeric(text[k])
    ensures HexValue(text, r) == -1
    decreases |text|
  {
    hide HexStep, HexDigit, IsAlphanumeric;
    HexDigitMeans(text[0]);
    if k > 0 && HexDigit(text[0]).Some? {
      HexValueFails(text[1..], k - 1, HexStep(r, HexDigit(text[0]).value));
    }
  }

  /** Behind 0x a text means its digits at their places in base 16, wrapped around, and -1 when there is
      another character than digits and letters. */
  lemma HexMeans(text: seq<Byte>, digits: seq<int>)
    requires |text| == |digits| && forall i :: 0 <= i < |text| ==> Writes(text[i], digits[i])
    ensures Parse([48, 120] + text) == Wrap(Places(digits, 16))
  {
    hide HexValue, Wrap, Places, Writes;
    HexValueMeans(text, digits, 0);
    Prefixed(text);
  }

  lemma HexFails(text: seq<Byte>, k: nat)
    requires k < |text| && !IsAlphanumeric(text[k])
    ensures Parse([48, 120] + text) == -1
  {
    hide HexValue, IsAlphanumeric;
    HexValueFails(text, k, 0);
    Prefixed(text);
  }

  lemma Prefixed(text: seq<Byte>)
    ensures Parse([48, 120] + text) == HexValue(text, 0)
  {
    hide HexValue;
    var s := [48, 120] + text;
    assert s[2..] == text;
    assert SkipWhitespace(s, 0) == 0;
  }

  // ----- What may stand before a number -----

  /** A space, tab, line feed or carriage return before any text. */
  lemma SpaceIsNothing(c: Byte, s: seq<Byte>)
    requires c == 32 || c == 9 || c == 10 || c == 13
    ensures Parse([c] + s) == Parse(s)
  {
    hide ParseAt, SkipWhitespace;
    SkipsOne(c, s, 0);
    SkipsFirst([c] + s);
    var i := SkipWhitespace(s, 0);
    if i < |s| {
      SameBehind(c, s, i);
    }
  }

  lemma SameBehind(c: Byte, s: seq<Byte>, i: nat)
    requires i < |s|
    ensures ParseAt([c] + s, i + 1) == ParseAt(s, i)
  {
    hide Value, HexValue, BaseOf, ToLower, Wrap;
    var t := [c] + s;
    assert t[|t| - 1] == s[|s| - 1] && t[i + 1] == s[i];
    if |s| > i + 1 {
      assert t[i + 2] == s[i + 1];
      SliceBehind(c, s, i + 2, |s|);
    }
    var len := if BaseOf(s[|s| - 1]) == 10 then |s| else |s| - 1;
    var start := if s[i] == PLUS || s[i] == MINUS then i + 1 else i;
    if start < len {
      SliceBehind(c, s, start, len);
    }
  }

  lemma SkipsFirst(t: seq<Byte>)
    requires t != [] && IsWhitespace(t[0])
    ensures SkipWhitespace(t, 0) == SkipWhitespace(t, 1)
  {
  }

  lemma {:induction false} SkipsOne(c: Byte, s: seq<Byte>, i: nat)
    requires i <= |s|
    ensures SkipWhitespace([c] + s, i + 1) == SkipWhitespace(s, i) + 1
    decreases |s| - i
  {
    if i < |s| && IsWhitespace(s[i]) {
      SkipsOne(c, s, i + 1);
    }
  }

  lemma SliceBehind(c: Byte, s: seq<Byte>, i: nat, j: nat)
    requires i <= j <= |s|
    ensures ([c] + s)[i + 1..j + 1] == s[i..j]
    ensures j == |s| ==> ([c] + s)[i + 1..] == s[i..]
  {
    assert forall k :: 0 <= k < j - i ==> ([c] + s)[i + 1..j + 1][k] == s[i..j][k];
  }

  /** A plus before a digit that begins no prefix; the printer's digits from 10 to 15 are characters below 64. */
  lemma PlusIsNothing(s: seq<Byte>)
    requires s != [] && 48 <= s[0] < 64 && !(|s| > 1 && s[0] == 48 && s[1] == 120)
    ensures Parse([43] + s) == Parse(s)
  {
    hide Value, HexValue, BaseOf, Wrap;
    var t := [43] + s;
    assert t[|t| - 1] == s[|s| - 1];
    SliceBehind(43, s, 0, |s|);
    SliceBehind(43, s, 0, |s| - 1);
    assert SkipWhitespace(t, 0) == 0 && SkipWhitespace(s, 0) == 0;
    DigitIsDecimal(s);
    if |s| > 1 {
      CapitalsDoNotCount(s[1], LETTER_X);
    }
  }

  lemma DigitIsDecimal(s: seq<Byte>)
    requires |s| == 1 ==> 48 <= s[0] < 64
    ensures |s| == 1 ==> BaseOf(s[0]) == 10
  {
  }

  /** Printed numbers with a space or a plus before them. */
  lemma PrintedThenParsed(n: Word, base: Word, c: Byte)
    requires ParsedBase(base)
    requires c == 32 || c == 9 || c == 10 || c == 13 || (c == 43 && n >= 0)
    ensures Parse([c] + (Text(n, base) + Suffix(base))) == n
  {
    hide Parse, Text;
    var s := Text(n, base) + Suffix(base);
    PrintParse(n, base);
    if c == 43 {
      PrintedStart(n, base);
      PlusIsNothing(s);
    } else {
      SpaceIsNothing(c, s);
    }
  }

  lemma PrintedStart(n: Word, base: Word)
    requires ParsedBase(base) && n >= 0
    ensures var s := Text(n, base) + Suffix(base);
      s != [] && 48 <= s[0] < 64 && !(|s| > 1 && s[0] == 48 && s[1] == 120)
  {
    hide Digits, Characters, Reversed;
    if n > 0 {
      TextShape(n, base);
    }
  }

  // ----- The printer -----

  lemma {:induction false} PlacesAppend(digits: seq<int>, d: int, base: int)
    ensures Places(digits + [d], base) == Places(digits, base) * base + d
    decreases |digits|
  {
    if digits == [] {
      assert digits + [d] == [d] && [d][1..] == [];
    } else {
      assert (digits + [d])[0] == digits[0] && (digits + [d])[1..] == digits[1..] + [d];
      PlacesAppend(digits[1..], d, base);
      var p := Power(base, |digits| - 1);
      assert Power(base, |digits|) == base * p;
      assert digits[0] * (base * p) == (digits[0] * p) * base;
    }
  }

  /** The printer's characters are digits of the number: their places add up to it, in any base whose
      digits fit a character. */
  lemma {:induction false} PrintedPlaces(m: int, base: int)
    requires 2 <= base <= 49
    ensures Places(DigitsOf(Reversed(Characters(Digits(m, base)))), base) == m
    decreases Magnitude(m)
  {
    hide Digits, Characters, Places, TruncDiv, TruncMod, Character, DigitsOf;
    if m == 0 {
      NoDigits(base);
      NothingPlaced(base);
    } else {
      CharactersStep(m, base);
      DigitsStep(m, base);
      DivideSmaller(m, base);
      var q, d := TruncDiv(m, base), TruncMod(m, base);
      var rest := Characters(Digits(q, base));
      assert ([Character(d)] + rest)[1..] == rest;
      PrintedPlaces(q, base);
      PlacesAppend(DigitsOf(Reversed(rest)), d, base);
      DigitBehind(Reversed(rest), d);
    }
  }

  lemma NothingPlaced(base: int)
    ensures Places(DigitsOf(Reversed(Characters([]))), base) == 0
  {
  }

  lemma DigitBehind(text: seq<Byte>, d: int)
    requires -49 < d < 49
    ensures DigitsOf(text + [Character(d)]) == DigitsOf(text) + [d]
  {
  }

  /** A printed number: its digits, most significant first, behind a minus when it is negative. */
  lemma PrintedMeans(n: Word, base: int)
    requires 2 <= base <= 49 && n != 0
    ensures var text := if n < 0 then Text(n, base)[1..] else Text(n, base);
      && (n < 0 ==> Text(n, base) != [] && Text(n, base)[0] == 45)
      && Wrap(if n < 0 then 0 - Places(DigitsOf(text), base) else Places(DigitsOf(text), base)) == n
  {
    hide Digits, Characters, Places, DigitsOf, Reversed;
    PrintedNonZero(n);
    PrintedPlaces(Printed(n), base);
    var c := Characters(Digits(Printed(n), base));
    if n < 0 {
      ReversedAppends(c, MINUS);
      assert Text(n, base) == [MINUS] + Reversed(c);
      assert Text(n, base)[1..] == Reversed(c);
    } else {
      assert c + [] == c;
      WrapOfWord(n);
    }
  }
}
