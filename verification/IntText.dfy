/** The runtime's integer printer and parser. */
module IntText {
  import opened Words

  type Byte = x: int | 0 <= x < 256

  const STRING_CAPACITY: nat := 16
  const INT_BUFFER_CAPACITY: nat := 33

  const ZERO: Byte := 48
  const MINUS: Byte := 45
  const PLUS: Byte := 43
  const TERMINATOR: Byte := 0

  const LEAST: int := -0x8000_0000_0000_0000

  function Magnitude(n: int): nat {
    if n < 0 then -n else n
  }

  /** Remainder and quotient of a division rounding toward zero, whose quotient is smaller. */
  lemma DivideSmaller(n: int, base: int)
    requires base >= 2 && n != 0
    ensures n == TruncDiv(n, base) * base + TruncMod(n, base)
    ensures 2 * Magnitude(TruncDiv(n, base)) <= Magnitude(n)
    ensures -base < TruncMod(n, base) < base
    ensures TruncDiv(n, base) < 0 ==> n < 0
    ensures TruncDiv(n, base) > 0 ==> n > 0
    ensures (n < 0 ==> TruncMod(n, base) <= 0) && (n > 0 ==> TruncMod(n, base) >= 0)
  {
    if n >= 0 {
      PositiveQuotient(n, base);
    } else {
      PositiveQuotient(0 - n, base);
      OppositeQuotient(n, base);
    }
  }

  lemma PositiveQuotient(m: nat, base: int)
    requires base >= 2
    ensures m == TruncDiv(m, base) * base + TruncMod(m, base)
    ensures 0 <= 2 * TruncDiv(m, base) <= m && 0 <= TruncMod(m, base) < base
  {
    var q, r := m / base, m % base;
    EuclidSplits(m, base, q, r);
  }

  lemma EuclidSplits(m: nat, base: int, q: int, r: int)
    requires base >= 2 && q == m / base && r == m % base
    ensures m == q * base + r == base * q + r && 0 <= q && 2 * q <= m && 0 <= r < base
  {
    assert q * base == q * 2 + q * (base - 2);
  }

  lemma OppositeQuotient(n: int, base: int)
    requires base >= 2 && n < 0
    ensures TruncDiv(n, base) == 0 - TruncDiv(0 - n, base) && TruncMod(n, base) == 0 - TruncMod(0 - n, base)
    ensures TruncDiv(n, base) * base == 0 - TruncDiv(0 - n, base) * base
  {
    var q := (0 - n) / base;
    Opposite(q, base);
  }

  lemma Opposite(q: int, base: int)
    ensures base * (0 - q) == 0 - q * base == (0 - q) * base == 0 - base * q
  {
  }

  /** The remainders the printer takes, the last digit first. They are negative for negative numbers. */
  function Digits(n: int, base: int): seq<int>
    requires base >= 2
    decreases Magnitude(n)
  {
    if n == 0 then []
    else
      DivideSmaller(n, base);
      [TruncMod(n, base)] + Digits(TruncDiv(n, base), base)
  }

  /** A digit as a character: it is stored in one byte. */
  function Character(digit: int): Byte {
    (digit + ZERO) % 256
  }

  function Characters(digits: seq<int>): seq<Byte> {
    if digits == [] then [] else [Character(digits[0])] + Characters(digits[1..])
  }

  function Reversed(s: seq<Byte>): seq<Byte> {
    if s == [] then [] else Reversed(s[1..]) + [s[0]]
  }

  /** What the printer divides: the magnitude, except that the least integer has no positive one. */
  function Printed(number: Word): Word {
    if number < 0 then Wrap(0 - number) else number
  }

  function Text(number: Word, base: int): seq<Byte>
    requires base >= 2
  {
    if number == 0 then [ZERO]
    else Reversed(Characters(Digits(Printed(number), base)) + if number < 0 then [MINUS] else [])
  }

  // ----- The buffer -----

  lemma {:induction false} CharactersLength(digits: seq<int>)
    ensures |Characters(digits)| == |digits|
    decreases |digits|
  {
    if digits != [] {
      CharactersLength(digits[1..]);
    }
  }

  lemma {:induction false} ReversedLength(s: seq<Byte>)
    ensures |Reversed(s)| == |s|
    decreases |s|
  {
    if s != [] {
      ReversedLength(s[1..]);
    }
  }

  lemma {:induction false} DigitsAtMost(n: int, base: int, k: nat)
    requires base >= 2 && Magnitude(n) < Pow2(k)
    ensures |Digits(n, base)| <= k
    decreases k
  {
    if n != 0 {
      DivideSmaller(n, base);
      if k > 0 {
        DigitsAtMost(TruncDiv(n, base), base, k - 1);
      }
    }
  }

  /** A power of two has one binary digit more than its exponent. */
  lemma {:induction false} BinaryDigits(k: nat)
    ensures |Digits(0 - Pow2(k), 2)| == k + 1
    decreases k
  {
    Pow2Positive(k);
    if k > 0 {
      assert TruncDiv(0 - Pow2(k), 2) == 0 - Pow2(k - 1);
      BinaryDigits(k - 1);
    } else {
      assert TruncDiv(-1, 2) == 0;
    }
  }

  lemma LeastPower()
    ensures Pow2(63) == -LEAST && Pow2(62) == -LEAST / 2
  {
    assert Pow2(8) == 0x100;
    assert Pow2(16) == 0x1_0000;
    assert Pow2(24) == 0x100_0000;
    assert Pow2(32) == 0x1_0000_0000;
    assert Pow2(40) == 0x100_0000_0000;
    assert Pow2(48) == 0x1_0000_0000_0000;
    assert Pow2(56) == 0x100_0000_0000_0000;
  }

  lemma DigitCount(number: Word, base: int)
    requires base >= 2
    ensures |Digits(Printed(number), base)| <= 63 <==> !(number == LEAST && base == 2)
    ensures |Digits(Printed(number), base)| <= 64
  {
    hide Digits, Pow2, Wrap, TruncDiv, Printed;
    LeastPower();
    if number != LEAST {
      PrintedMagnitude(number);
      DigitsAtMost(Printed(number), base, 63);
    } else if base == 2 {
      LeastPrinted();
      BinaryDigits(63);
    } else {
      LeastPrinted();
      DigitsStep(LEAST, base);
      ThirdAtMost(base);
      DigitsAtMost(TruncDiv(LEAST, base), base, 62);
    }
  }

  lemma DigitsStep(n: int, base: int)
    requires base >= 2 && n != 0
    ensures Digits(n, base) == [TruncMod(n, base)] + Digits(TruncDiv(n, base), base)
    ensures Magnitude(TruncDiv(n, base)) < Magnitude(n)
    ensures LEAST <= n < -LEAST ==> LEAST <= TruncDiv(n, base) < -LEAST
  {
    hide TruncMod, TruncDiv;
    DivideSmaller(n, base);
  }

  lemma PrintedMagnitude(number: Word)
    requires number != LEAST
    ensures Printed(number) == Magnitude(number) < -LEAST
  {
  }

  lemma LeastPrinted()
    ensures Printed(LEAST) == LEAST
  {
  }

  lemma ThirdAtMost(base: int)
    requires base >= 3
    ensures Magnitude(TruncDiv(LEAST, base)) < -LEAST / 2
  {
    var m := -LEAST;
    var q, r := m / base, m % base;
    assert m == q * base + r;
    assert q * base == q * 3 + q * (base - 3);
  }

  /** The capacity the string constructor settles on: 16 doubled until it suffices. */
  function Capacity(least: nat, capacity: nat): (r: nat)
    requires capacity > 0
    ensures r >= capacity && r >= least
    decreases least - capacity
  {
    if least > capacity then Capacity(least, capacity * 2) else capacity
  }

  /** Small strings get 16 bytes; larger ones 16 doubled as often as needed and no more. */
  lemma CapacityMeans(least: nat)
    ensures var c := Capacity(least, STRING_CAPACITY);
      && least <= c && (least <= 16 ==> c == 16) && (least > 16 ==> c < 2 * least)
      && exists k: nat :: c == 16 * Pow2(k)
  {
    CapacityDoubles(least, 0);
  }

  lemma {:induction false} CapacityDoubles(least: nat, k: nat)
    requires k > 0 ==> 8 * Pow2(k) < least
    requires 16 * Pow2(k) > 0
    ensures var c := Capacity(least, 16 * Pow2(k));
      && least <= c && (c > 16 * Pow2(k) ==> c < 2 * least) && (exists j: nat :: c == 16 * Pow2(j))
      && (least <= 16 * Pow2(k) ==> c == 16 * Pow2(k))
    decreases if least > 16 * Pow2(k) then least - 16 * Pow2(k) else 0
  {
    Pow2Positive(k);
    if least > 16 * Pow2(k) {
      CapacityDoubles(least, k + 1);
    }
  }

  /** Digits, sign and terminator fit the bytes allocated for a printed integer, for every integer and
      base but one: the least integer in base 2 needs one byte more. */
  lemma TextFits(number: Word, base: int)
    requires base >= 2
    ensures Capacity(INT_BUFFER_CAPACITY, STRING_CAPACITY) + 1 == 65
    ensures |Text(number, base)| + 1 <= 65 <==> !(number == LEAST && base == 2)
  {
    assert Capacity(INT_BUFFER_CAPACITY, STRING_CAPACITY) == Capacity(33, 32) == 64;
    DigitCount(number, base);
    TextLength(number, base);
  }

  lemma TextLength(number: Word, base: int)
    requires base >= 2
    ensures |Text(number, base)| ==
      if number == 0 then 1 else |Digits(Printed(number), base)| + if number < 0 then 1 else 0
  {
    var digits := Digits(Printed(number), base);
    CharactersLength(digits);
    ReversedLength(Characters(digits) + if number < 0 then [MINUS] else []);
  }

  // ----- The printer -----

  class KiString {
    const data: array<Byte>
    const capacity: nat
    var length: nat

    constructor (least: nat)
      ensures fresh(data) && capacity == Capacity(least, STRING_CAPACITY) && data.Length == capacity + 1 && length == 0
    {
      var newCapacity := STRING_CAPACITY;
      while least > newCapacity
        invariant newCapacity > 0 && Capacity(least, newCapacity) == Capacity(least, STRING_CAPACITY)
        decreases least - newCapacity
      {
        newCapacity := newCapacity * 2;
      }
      data := new Byte[newCapacity + 1];
      length := 0;
      capacity := newCapacity;
    }

    predicate Valid()
      reads this
    {
      length < data.Length
    }

    function Contents(): seq<Byte>
      requires Valid()
      reads this, data
    {
      data[..length]
    }

    method Reverse()
      requires Valid()
      modifies data
      ensures Contents() == Reversed(old(Contents())) && data[length..] == old(data[length..])
    {
      ReversedMeans(Contents());
      if length <= 1 {
        return;
      }
      var count := length - 1;
      var start := 0;
      while start < count
        invariant start + count == length - 1 && 0 <= start <= count + 1
        invariant forall k :: 0 <= k < data.Length && (start <= k <= count || k >= length) ==> data[k] == old(data[k])
        invariant forall k :: 0 <= k < length && !(start <= k <= count) ==> data[k] == old(data[length - 1 - k])
      {
        var temp := data[start];
        data[start] := data[count];
        data[count] := temp;
        start := start + 1;
        count := count - 1;
      }
    }
  }

  lemma {:induction false} ReversedMeans(s: seq<Byte>)
    ensures |Reversed(s)| == |s| && forall k :: 0 <= k < |s| ==> Reversed(s)[k] == s[|s| - 1 - k]
    decreases |s|
  {
    if s != [] {
      ReversedMeans(s[1..]);
    }
  }

  lemma {:induction false} CharactersAppend(a: seq<int>, b: seq<int>)
    ensures Characters(a + b) == Characters(a) + Characters(b)
    decreases |a|
  {
    if a == [] {
      assert a + b == b;
    } else {
      assert (a + b)[0] == a[0] && (a + b)[1..] == a[1..] + b;
      CharactersAppend(a[1..], b);
    }
  }

  lemma CharactersStep(n: int, base: int)
    requires base >= 2 && n != 0
    ensures Characters(Digits(n, base))
      == [Character(TruncMod(n, base))] + Characters(Digits(TruncDiv(n, base), base))
    ensures |Digits(n, base)| == 1 + |Digits(TruncDiv(n, base), base)|
  {
    hide TruncMod, TruncDiv, Digits;
    DigitsStep(n, base);
    var digits := Digits(n, base);
    assert digits[0] == TruncMod(n, base) && digits[1..] == Digits(TruncDiv(n, base), base);
  }

  lemma NoDigits(base: int)
    requires base >= 2
    ensures Digits(0, base) == [] && Characters(Digits(0, base)) == []
  {
  }

  method IntToString(n: Word, base: int) returns (str: KiString)
    requires base >= 2 && !(n == LEAST && base == 2)
    ensures fresh(str) && fresh(str.data) && str.Valid()
    ensures str.Contents() == Text(n, base) && str.data[str.length] == TERMINATOR
  {
    hide Digits, Characters, Reversed, Character, TruncMod, TruncDiv, Wrap, Capacity;
    TextFits(n, base);
    TextLength(n, base);
    str := new KiString(INT_BUFFER_CAPACITY);
    CapacityIs();
    if n == 0 {
      str.data[0] := ZERO;
      str.data[1] := TERMINATOR;
      str.length := 1;
      return;
    }
    var number: Word := n;
    var len := 0;
    var isNegative := false;
    if number < 0 {
      isNegative := true;
      number := Wrap(0 - number);
    }
    ghost var all := Characters(Digits(number, base));
    CharactersLength(Digits(number, base));
    len := PrintDigits(str, number, base);
    if isNegative {
      str.data[len] := MINUS;
      len := len + 1;
    }
    str.data[len] := TERMINATOR;
    str.length := len;
    assert str.Contents() == all + if isNegative then [MINUS] else [];
    str.Reverse();
  }

  lemma CapacityIs()
    ensures Capacity(INT_BUFFER_CAPACITY, STRING_CAPACITY) == 64
  {
    assert Capacity(INT_BUFFER_CAPACITY, STRING_CAPACITY) == Capacity(33, 32) == 64;
  }

  /** The loop that stores the digits, the last one first. */
  method PrintDigits(str: KiString, n: Word, base: int) returns (len: nat)
    requires base >= 2 && |Digits(n, base)| <= str.data.Length
    modifies str.data
    ensures len == |Digits(n, base)| && str.data[..len] == Characters(Digits(n, base))
  {
    hide Digits, Characters, Character, TruncMod, TruncDiv;
    len := 0;
    var number := n;
    assert str.data[..0] == [];
    while number != 0
      invariant len + |Digits(number, base)| == |Digits(n, base)|
      invariant str.data[..len] + Characters(Digits(number, base)) == Characters(Digits(n, base))
      decreases Magnitude(number)
    {
      CharactersStep(number, base);
      DigitsStep(number, base);
      ghost var before := str.data[..len];
      var digit := TruncMod(number, base);
      str.data[len] := Character(digit);
      Moved(before, Character(digit), Characters(Digits(TruncDiv(number, base), base)));
      assert str.data[..len + 1] == before + [Character(digit)];
      len := len + 1;
      number := TruncDiv(number, base);
    }
    NoDigits(base);
  }

  lemma Moved(a: seq<Byte>, c: Byte, b: seq<Byte>)
    ensures a + [c] + b == a + ([c] + b)
  {
  }

  // ----- The parser -----

  const LETTER_H: Byte := 104
  const LETTER_O: Byte := 111
  const LETTER_X: Byte := 120

  predicate IsWhitespace(c: Byte) {
    c == 32 || c == 10 || c == 9 || c == 13
  }

  /** The code takes 48 from a capital letter, which gives no letter at all. */
  function ToLower(c: Byte): Byte {
    if 65 <= c <= 90 then c - 48 else c
  }

  /** So prefixes and suffixes count in small letters only. */
  lemma CapitalsDoNotCount(c: Byte, letter: Byte)
    requires letter == LETTER_H || letter == LETTER_O || letter == LETTER_X
    ensures ToLower(c) == letter <==> c == letter
  {
  }

  function SkipWhitespace(s: seq<Byte>, i: nat): (r: nat)
    requires i <= |s|
    ensures i <= r <= |s|
    decreases |s| - i
  {
    if i < |s| && IsWhitespace(s[i]) then SkipWhitespace(s, i + 1) else i
  }

  function HexDigit(c: Byte): Option<nat> {
    if 48 <= c <= 57 then Some(c - 48)
    else if 97 <= c <= 122 then Some(c - 97 + 10)
    else if 65 <= c <= 90 then Some(c - 65 + 10)
    else None
  }

  function HexStep(result: Word, digit: nat): Word {
    BitwiseWord(BitOr, ShiftLeft(result, 4), digit % 16)
  }

  function HexValue(s: seq<Byte>, result: Word): Word
    decreases |s|
  {
    if s == [] then result
    else if HexDigit(s[0]).None? then -1
    else HexValue(s[1..], HexStep(result, HexDigit(s[0]).value))
  }

  function ValueStep(result: Word, base: Word, c: Byte): Word {
    Wrap(Wrap(Wrap(result * base) + c) - ZERO)
  }

  function Value(s: seq<Byte>, base: Word, result: Word): Word
    decreases |s|
  {
    if s == [] then result else Value(s[1..], base, ValueStep(result, base, s[0]))
  }

  function BaseOf(last: Byte): Word {
    if ToLower(last) == LETTER_O then 8 else if ToLower(last) == LETTER_H then 16 else 10
  }

  function Parse(s: seq<Byte>): Word {
    var i := SkipWhitespace(s, 0);
    if i == |s| then -1 else ParseAt(s, i)
  }

  /** The number behind the white space. */
  function ParseAt(s: seq<Byte>, i: nat): Word
    requires i < |s|
  {
    if |s| > i + 1 && s[i] == ZERO && ToLower(s[i + 1]) == LETTER_X then HexValue(s[i + 2..], 0)
    else
      var base := BaseOf(s[|s| - 1]);
      var len := if base == 10 then |s| else |s| - 1;
      var start := if s[i] == PLUS || s[i] == MINUS then i + 1 else i;
      var result := if start < len then Value(s[start..len], base, 0) else 0;
      if s[i] == MINUS then Wrap(0 - result) else result
  }

  method HexPrefixedStringToInt(str: KiString, from: nat) returns (r: Word)
    requires str.Valid() && from <= str.length
    ensures r == HexValue(str.Contents()[from..], 0)
  {
    hide HexStep, HexDigit;
    var i := from;
    r := 0;
    while i < str.length
      invariant from <= i <= str.length
      invariant HexValue(str.Contents()[i..], r) == HexValue(str.Contents()[from..], 0)
    {
      assert str.Contents()[i..][0] == str.data[i] && str.Contents()[i..][1..] == str.Contents()[i + 1..];
      var digit := HexDigit(str.data[i]);
      if digit.None? {
        return -1;
      }
      r := HexStep(r, digit.value);
      i := i + 1;
    }
  }

  method DigitsToInt(str: KiString, from: nat, len: nat, base: Word) returns (r: Word)
    requires str.Valid() && from <= len <= str.length
    ensures r == Value(str.Contents()[from..len], base, 0)
  {
    hide ValueStep;
    var i := from;
    r := 0;
    while i < len
      invariant from <= i <= len
      invariant Value(str.Contents()[i..len], base, r) == Value(str.Contents()[from..len], base, 0)
    {
      assert str.Contents()[i..len][0] == str.data[i] && str.Contents()[i..len][1..] == str.Contents()[i + 1..len];
      r := ValueStep(r, base, str.data[i]);
      i := i + 1;
    }
  }

  /** The string must end in the terminator, where the search for whitespace stops at the latest. */
  method StringToInt(str: KiString) returns (r: Word)
    requires str.Valid() && str.data[str.length] == TERMINATOR
    ensures r == Parse(str.Contents())
  {
    hide Value, HexValue;
    ghost var s := str.Contents();
    var i := 0;
    while IsWhitespace(str.data[i])
      invariant 0 <= i <= str.length && SkipWhitespace(s, i) == SkipWhitespace(s, 0)
      decreases str.length - i
    {
      i := i + 1;
    }
    if i == str.length {
      return -1;
    }
    if str.length > i + 1 && str.data[i] == ZERO && ToLower(str.data[i + 1]) == LETTER_X {
      r := HexPrefixedStringToInt(str, i + 2);
      return;
    }
    var base: Word := 10;
    var ignoreLastChar := false;
    if ToLower(str.data[str.length - 1]) == LETTER_O {
      base := 8;
      ignoreLastChar := true;
    } else if ToLower(str.data[str.length - 1]) == LETTER_H {
      base := 16;
      ignoreLastChar := true;
    }
    var isNegative := false;
    if str.data[i] == PLUS {
      i := i + 1;
    } else if str.data[i] == MINUS {
      isNegative := true;
      i := i + 1;
    }
    var len := str.length;
    if ignoreLastChar {
      len := len - 1;
    }
    r := 0;
    if i < len {
      r := DigitsToInt(str, i, len, base);
    }
    if isNegative {
      r := Wrap(0 - r);
    }
  }

  // ----- Round trip -----

  /** The letter that tells the parser the base. */
  function Suffix(base: int): seq<Byte> {
    if base == 8 then [LETTER_O] else if base == 16 then [LETTER_H] else []
  }

  predicate ParsedBase(base: int) {
    base == 8 || base == 10 || base == 16
  }

  lemma {:induction false} ValueAppends(a: seq<Byte>, c: Byte, base: Word, r: Word)
    ensures Value(a + [c], base, r) == ValueStep(Value(a, base, r), base, c)
    decreases |a|
  {
    hide ValueStep;
    if a == [] {
      assert a + [c] == [c] && [c][1..] == [];
    } else {
      assert (a + [c])[0] == a[0] && (a + [c])[1..] == a[1..] + [c];
      ValueAppends(a[1..], c, base, ValueStep(r, base, a[0]));
    }
  }

  /** One digit put back: the quotient, the base and the remainder give the number again. */
  lemma StepUndoes(m: int, base: Word)
    requires ParsedBase(base) && m != 0 && LEAST <= m < -LEAST
    ensures LEAST <= TruncDiv(m, base) < -LEAST
    ensures ValueStep(TruncDiv(m, base), base, Character(TruncMod(m, base))) == m
  {
    hide TruncDiv, TruncMod, Wrap, Character;
    DivideSmaller(m, base);
    var q, r := TruncDiv(m, base), TruncMod(m, base);
    DigitCharacter(r);
    ProductFits(m, q, base, r);
    WrapsBack(q * base, r);
  }

  lemma DigitCharacter(digit: int)
    requires -16 < digit < 16
    ensures Character(digit) == digit + ZERO
  {
  }

  lemma ProductFits(m: int, q: int, base: int, r: int)
    requires m == q * base + r && -base < r < base <= 16 && LEAST <= m < -LEAST
    requires (q < 0 ==> m < 0) && (q > 0 ==> m > 0) && 2 * Magnitude(q) <= Magnitude(m) && base >= 2
    requires (m < 0 ==> r <= 0) && (m > 0 ==> r >= 0)
    ensures LEAST <= q * base < -LEAST
  {
  }

  lemma WrapsBack(x: int, r: int)
    requires LEAST <= x < -LEAST && LEAST <= x + r < -LEAST
    ensures Wrap(Wrap(Wrap(x) + (r + ZERO)) - ZERO) == x + r
  {
  }

  lemma {:induction false} DigitsValue(m: int, base: Word)
    requires ParsedBase(base) && LEAST <= m < -LEAST
    ensures Value(Reversed(Characters(Digits(m, base))), base, 0) == m
    decreases Magnitude(m)
  {
    hide ValueStep, TruncDiv, TruncMod, Digits, Characters;
    if m == 0 {
      NoDigits(base);
    } else {
      CharactersStep(m, base);
      DigitsStep(m, base);
      StepUndoes(m, base);
      var c := Character(TruncMod(m, base));
      var rest := Characters(Digits(TruncDiv(m, base), base));
      assert ([c] + rest)[1..] == rest;
      DigitsValue(TruncDiv(m, base), base);
      ValueAppends(Reversed(rest), c, base, 0);
    }
  }

  lemma {:induction false} ReversedAppends(a: seq<Byte>, c: Byte)
    ensures Reversed(a + [c]) == [c] + Reversed(a)
    decreases |a|
  {
    if a == [] {
      assert a + [c] == [c] && [c][1..] == [];
    } else {
      assert (a + [c])[0] == a[0] && (a + [c])[1..] == a[1..] + [c];
      ReversedAppends(a[1..], c);
    }
  }

  /** Characters of digits are neither spaces nor letters. */
  predicate Plain(s: seq<Byte>) {
    forall k :: 0 <= k < |s| ==> 32 < s[k] < 64
  }

  /** The number as the printer leaves it, without sign: plain characters, the first of them a digit
      other than 0 when the number is positive. */
  lemma {:induction false} UnsignedShape(m: int, base: int)
    requires ParsedBase(base) && m != 0
    ensures var r := Reversed(Characters(Digits(m, base)));
      r != [] && Plain(r) && (m > 0 ==> r[0] > ZERO)
    decreases Magnitude(m)
  {
    hide Digits, Characters, TruncDiv, TruncMod, Character;
    CharactersStep(m, base);
    DigitsStep(m, base);
    DivideSmaller(m, base);
    var q, c := TruncDiv(m, base), Character(TruncMod(m, base));
    DigitCharacter(TruncMod(m, base));
    var rest := Characters(Digits(q, base));
    assert ([c] + rest)[1..] == rest;
    if q == 0 {
      NoDigits(base);
      QuotientZero(m, base);
    } else {
      UnsignedShape(q, base);
      if m > 0 {
        QuotientSign(m, base);
      }
    }
  }

  lemma QuotientZero(m: int, base: int)
    requires base >= 2 && TruncDiv(m, base) == 0
    ensures TruncMod(m, base) == m
  {
    hide TruncDiv;
  }

  lemma QuotientSign(m: int, base: int)
    requires base >= 2 && m > 0 && TruncDiv(m, base) != 0
    ensures TruncDiv(m, base) > 0
  {
    PositiveQuotient(m, base);
  }

  /** A printed number, with the suffix of its base, as the parser meets it. */
  lemma TextShape(n: Word, base: int)
    requires ParsedBase(base) && n != 0
    ensures var r := Reversed(Characters(Digits(Printed(n), base)));
      && Text(n, base) == (if n < 0 then [MINUS] else []) + r
      && r != [] && Plain(r) && (n > 0 ==> r[0] > ZERO)
  {
    hide Digits, Characters, Reversed;
    PrintedNonZero(n);
    UnsignedShape(Printed(n), base);
    var c := Characters(Digits(Printed(n), base));
    if n < 0 {
      ReversedAppends(c, MINUS);
    } else {
      assert c + [] == c;
    }
  }

  lemma PrintedNonZero(n: Word)
    requires n != 0
    ensures Printed(n) != 0 && (n > 0 ==> Printed(n) == n) && (n < 0 ==> Wrap(0 - Printed(n)) == n)
  {
  }

  /** What the parser makes of a signed sequence of plain characters. */
  lemma ParseShape(sign: bool, r: seq<Byte>, base: Word)
    requires ParsedBase(base) && r != [] && Plain(r) && (!sign ==> r[0] > ZERO)
    ensures var v := Value(r, base, 0);
      Parse((if sign then [MINUS] else []) + r + Suffix(base)) == if sign then Wrap(0 - v) else v
  {
    hide Value, HexValue, Parse, BaseOf, Suffix, ToLower;
    var t := (if sign then [MINUS] else []) + r;
    SignedShape(sign, r, base);
    ParsePlain(t + Suffix(base), base, |t|, if sign then 1 else 0);
  }

  lemma SignedShape(sign: bool, r: seq<Byte>, base: Word)
    requires ParsedBase(base) && r != [] && Plain(r) && (!sign ==> r[0] > ZERO)
    ensures var t := (if sign then [MINUS] else []) + r;
      var s := t + Suffix(base);
      var start := if sign then 1 else 0;
      && start < |t| && |t| == (if base == 10 then |s| else |s| - 1) && s[start..|t|] == r
      && BaseOf(s[|s| - 1]) == base && 32 < s[0] < 64 && (|s| > 1 ==> s[1] != LETTER_X && ToLower(s[1]) != LETTER_X)
      && (s[0] == MINUS <==> sign) && s[0] != PLUS
  {
    hide BaseOf, ToLower, Suffix;
    if sign {
      assert ([MINUS] + r)[1..] == r && ([MINUS] + r)[|r|] == r[|r| - 1];
      Within([MINUS] + r, Suffix(base), 1);
      LastCharacter([MINUS] + r, base);
      NoPrefix([MINUS] + r, base);
    } else {
      assert [] + r == r;
      Within(r, Suffix(base), 0);
      LastCharacter(r, base);
      NoPrefix(r, base);
    }
  }

  lemma Within(t: seq<Byte>, suffix: seq<Byte>, start: nat)
    requires start <= |t|
    ensures (t + suffix)[start..|t|] == t[start..]
  {
  }

  /** The second character is a digit or the letter of the base. */
  lemma NoPrefix(t: seq<Byte>, base: Word)
    requires ParsedBase(base) && t != [] && (|t| > 1 ==> 32 < t[1] < 64)
    ensures var s := t + Suffix(base);
      s[0] == t[0] && (|s| > 1 ==> s[1] != LETTER_X && ToLower(s[1]) != LETTER_X)
  {
  }

  lemma ParsePlain(s: seq<Byte>, base: Word, len: nat, start: nat)
    requires s != [] && start < len <= |s| && BaseOf(s[|s| - 1]) == base && len == (if base == 10 then |s| else |s| - 1)
    requires 32 < s[0] < 64 && (|s| > 1 ==> ToLower(s[1]) != LETTER_X) && s[0] != PLUS
    requires start == if s[0] == MINUS then 1 else 0
    ensures var v := Value(s[start..len], base, 0);
      Parse(s) == if s[0] == MINUS then Wrap(0 - v) else v
  {
    hide Value, HexValue, BaseOf, ToLower, Wrap;
    assert SkipWhitespace(s, 0) == 0;
  }

  lemma LastCharacter(t: seq<Byte>, base: Word)
    requires ParsedBase(base) && t != [] && 32 < t[|t| - 1] < 64
    ensures var s := t + Suffix(base); BaseOf(s[|s| - 1]) == base && |t| == if base == 10 then |s| else |s| - 1
  {
  }

  /** Parsing what was printed gives the number back, for every integer: in base 10 as it is, and in
      bases 8 and 16 with the letter of the base behind it. */
  lemma PrintParse(n: Word, base: Word)
    requires ParsedBase(base)
    ensures Parse(Text(n, base) + Suffix(base)) == n
  {
    hide Parse, Value, Digits, Characters, Reversed, Wrap;
    if n == 0 {
      ZeroParses(base);
    } else {
      TextShape(n, base);
      PrintedNonZero(n);
      var r := Reversed(Characters(Digits(Printed(n), base)));
      ParseShape(n < 0, r, base);
      DigitsValue(Printed(n), base);
    }
  }

  lemma ZeroParses(base: Word)
    requires ParsedBase(base)
    ensures Parse(Text(0, base) + Suffix(base)) == 0
  {
    var s := Text(0, base) + Suffix(base);
    LastCharacter([ZERO], base);
    assert s[0..1] == [ZERO] && [ZERO][1..] == [];
    assert Value([ZERO], base, 0) == ValueStep(0, base, ZERO) == 0;
  }
}
