/** Bit layer of the LZ-string format: six-bit symbols, sent highest bit first,
    carry codes whose first bit is the lowest. */
module LzBits {

  function Pow2(n: nat): (p: nat)
    ensures p >= 1
  {
    if n == 0 then 1 else 2 * Pow2(n - 1)
  }

  /** The number a run of bits stands for, first bit lowest. */
  function Value(bits: seq<bool>): nat {
    if bits == [] then 0 else (if bits[0] then 1 else 0) + 2 * Value(bits[1..])
  }

  /** The n lowest bits of v, lowest first. */
  function Digits(v: nat, n: nat): (bits: seq<bool>)
    ensures |bits| == n
  {
    if n == 0 then [] else [v % 2 == 1] + Digits(v / 2, n - 1)
  }

  lemma {:induction false} ValueBound(bits: seq<bool>)
    ensures Value(bits) < Pow2(|bits|)
  {
    if bits != [] {
      ValueBound(bits[1..]);
    }
  }

  lemma {:induction false} ValueOfDigits(v: nat, n: nat)
    requires v < Pow2(n)
    ensures Value(Digits(v, n)) == v
  {
    if n > 0 {
      ValueOfDigits(v / 2, n - 1);
      assert Digits(v, n)[1..] == Digits(v / 2, n - 1);
    }
  }

  lemma {:induction false} DigitsOfValue(bits: seq<bool>)
    ensures Digits(Value(bits), |bits|) == bits
  {
    if bits != [] {
      DigitsOfValue(bits[1..]);
      assert bits == [bits[0]] + bits[1..];
    }
  }

  /** Reading a bits and then b bits is reading a + b bits. */
  lemma {:induction false} ValueConcat(low: seq<bool>, high: seq<bool>)
    ensures Value(low + high) == Value(low) + Pow2(|low|) * Value(high)
  {
    if low == [] {
      assert low + high == high;
    } else {
      ValueConcat(low[1..], high);
      assert (low + high)[1..] == low[1..] + high;
      calc {
        Value(low + high);
        (if low[0] then 1 else 0) + 2 * (Value(low[1..]) + Pow2(|low| - 1) * Value(high));
        Value(low) + 2 * (Pow2(|low| - 1) * Value(high));
        { MulAssoc(2, Pow2(|low| - 1), Value(high)); }
        Value(low) + Pow2(|low|) * Value(high);
      }
    }
  }

  lemma MulAssoc(x: int, y: int, z: int)
    ensures x * (y * z) == x * y * z
  {}

  // ---------------------------------------------------------------- symbols

  predicate InAlphabet(c: char) {
    'A' <= c <= 'Z' || 'a' <= c <= 'z' || '0' <= c <= '9' || c == '+' || c == '/' || c == '='
  }

  /** keyStrUriSafe: the base64 alphabet (section 4 of RFC 4648) and the padding
      sign; a byte outside the table reads as zero, as a missing key does. */
  function BaseValue(c: char): (v: nat)
    ensures v <= 64 && (v == 64 <==> c == '=')
    ensures !InAlphabet(c) ==> v == 0
  {
    if 'A' <= c <= 'Z' then c as int - 'A' as int
    else if 'a' <= c <= 'z' then c as int - 'a' as int + 26
    else if '0' <= c <= '9' then c as int - '0' as int + 52
    else if c == '+' then 62
    else if c == '/' then 63
    else if c == '=' then 64
    else 0
  }

  function SymbolChar(v: nat): (c: char)
    requires v < 64
    ensures BaseValue(c) == v
  {
    if v < 26 then ('A' as int + v) as char
    else if v < 52 then ('a' as int + v - 26) as char
    else if v < 62 then ('0' as int + v - 52) as char
    else if v == 62 then '+'
    else '/'
  }

  /** Every symbol has its own value and every value its symbol. */
  lemma SymbolOfValue(c: char)
    requires InAlphabet(c) && c != '='
    ensures BaseValue(c) < 64 && SymbolChar(BaseValue(c)) == c
  {}

  const UPPER: string := "ABCDEFGHIJKLMNOPQRSTUVWXYZ"
  const LOWER: string := "abcdefghijklmnopqrstuvwxyz"
  const DIGITS: string := "0123456789"

  /** The alphabet in the order of its values, the padding sign last. */
  const ALPHABET: string := UPPER + LOWER + DIGITS + "+/="

  lemma LettersInOrder(i: nat)
    ensures |UPPER| == |LOWER| == 26 && |DIGITS| == 10
    ensures i < 26 ==> UPPER[i] as int == 'A' as int + i && LOWER[i] as int == 'a' as int + i
    ensures i < 10 ==> DIGITS[i] as int == '0' as int + i
  {}

  lemma Segments(i: nat)
    ensures |UPPER| == |LOWER| == 26 && |DIGITS| == 10 && |ALPHABET| == 65
    ensures i < 26 ==> ALPHABET[i] == UPPER[i]
    ensures 26 <= i < 52 ==> ALPHABET[i] == LOWER[i - 26]
    ensures 52 <= i < 62 ==> ALPHABET[i] == DIGITS[i - 52]
    ensures ALPHABET[62] == '+' && ALPHABET[63] == '/' && ALPHABET[64] == '='
  {
    SegmentLengths();
  }

  lemma SegmentLengths()
    ensures |UPPER| == |LOWER| == 26 && |DIGITS| == 10 && |ALPHABET| == 65
  {}

  /** A symbol's value is its place in the alphabet. */
  lemma PlaceInAlphabet(i: nat)
    ensures |ALPHABET| == 65
    ensures i < 65 ==> BaseValue(ALPHABET[i]) == i
  {
    Segments(i);
    if i < 26 {
      LettersInOrder(i);
    } else if i < 52 {
      LettersInOrder(i - 26);
    } else if i < 62 {
      LettersInOrder(i - 52);
    }
  }

  /** Whatever has no place there reads as zero. */
  lemma NoPlaceIsZero(c: char)
    requires c !in ALPHABET
    ensures BaseValue(c) == 0
  {
    if BaseValue(c) != 0 {
      PlaceOf(c);
    }
  }

  lemma PlaceOf(c: char)
    requires BaseValue(c) != 0
    ensures BaseValue(c) < |ALPHABET| && ALPHABET[BaseValue(c)] == c
  {
    var v := BaseValue(c);
    Segments(v);
    if 'A' <= c <= 'Z' {
      LettersInOrder(v);
    } else if 'a' <= c <= 'z' {
      LettersInOrder(v - 26);
    } else if '0' <= c <= '9' {
      LettersInOrder(v - 52);
    }
  }

  /** v & mask for a mask with one bit set. */
  predicate MaskSet(v: nat, mask: nat)
    requires mask > 0
  {
    (v / mask) % 2 == 1
  }

  function SymbolBits(v: nat): (bits: seq<bool>)
    ensures |bits| == 6
  {
    [MaskSet(v, 32), MaskSet(v, 16), MaskSet(v, 8), MaskSet(v, 4), MaskSet(v, 2), MaskSet(v, 1)]
  }

  /** All bits an input carries. */
  function Stream(input: string): (bits: seq<bool>)
    ensures |bits| == 6 * |input|
  {
    if input == "" then [] else SymbolBits(BaseValue(input[0])) + Stream(input[1..])
  }

  lemma BitsAssoc(a: seq<bool>, b: seq<bool>, c: seq<bool>)
    ensures a + b + c == a + (b + c)
  {}

  lemma {:induction false} StreamConcat(x: string, y: string)
    ensures Stream(x + y) == Stream(x) + Stream(y)
  {
    if x == "" {
      assert x + y == y;
    } else {
      StreamConcat(x[1..], y);
      assert (x + y)[1..] == x[1..] + y;
      BitsAssoc(SymbolBits(BaseValue(x[0])), Stream(x[1..]), Stream(y));
    }
  }

  function Half(bits: seq<bool>): (v: nat)
    requires |bits| == 3
    ensures v < 8
    ensures MaskSet(v, 4) == bits[0] && MaskSet(v, 2) == bits[1] && MaskSet(v, 1) == bits[2]
  {
    (if bits[0] then 4 else 0) + (if bits[1] then 2 else 0) + (if bits[2] then 1 else 0)
  }

  lemma TwoHalves(high: nat, low: nat)
    requires high < 8 && low < 8
    ensures var v := 8 * high + low;
      && MaskSet(v, 32) == MaskSet(high, 4) && MaskSet(v, 16) == MaskSet(high, 2) && MaskSet(v, 8) == MaskSet(high, 1)
      && MaskSet(v, 4) == MaskSet(low, 4) && MaskSet(v, 2) == MaskSet(low, 2) && MaskSet(v, 1) == MaskSet(low, 1)
  {
    var v := 8 * high + low;
    assert v / 32 == high / 4 && v / 16 == high / 2 && v / 8 == high;
    assert v / 4 == 2 * high + low / 4 && v / 2 == 4 * high + low / 2;
  }

  function PackSymbol(bits: seq<bool>): (c: char)
    requires |bits| == 6
    ensures SymbolBits(BaseValue(c)) == bits
  {
    TwoHalves(Half(bits[..3]), Half(bits[3..]));
    SymbolChar(8 * Half(bits[..3]) + Half(bits[3..]))
  }

  function Pack(bits: seq<bool>): (s: string)
    requires |bits| % 6 == 0
    decreases |bits|
  {
    if bits == [] then "" else [PackSymbol(bits[..6])] + Pack(bits[6..])
  }

  /** Unpacking undoes packing. */
  lemma {:induction false} StreamOfPack(bits: seq<bool>)
    requires |bits| % 6 == 0
    ensures Stream(Pack(bits)) == bits
    decreases |bits|
  {
    if bits != [] {
      StreamOfPack(bits[6..]);
      assert Pack(bits)[1..] == Pack(bits[6..]);
      assert bits == bits[..6] + bits[6..];
    }
  }

  /** Zero bits that fill the last symbol: at least one, at most six. */
  function Padding(used: nat): (pad: seq<bool>)
    ensures 1 <= |pad| <= 6 && (used + |pad|) % 6 == 0
  {
    seq(6 - used % 6, _ => false)
  }

  /** Writes a finished bit run out as symbols. */
  function Flush(bits: seq<bool>): string {
    Pack(bits + Padding(|bits|))
  }
}
