/**
 Block heights as the repository stores them: Go strings such as "0x1a" with
 int64 arithmetic done through strconv (internal/pkg/x/types/hex.go).
 */
module HexNumbers {
  import opened Wrappers

  type Hex = string

  const MAX_INT64 := 0x7fff_ffff_ffff_ffff
  const MIN_INT64 := -0x8000_0000_0000_0000
  const TWO_TO_60 := 0x1000_0000_0000_0000
  const TWO_TO_64 := 0x1_0000_0000_0000_0000

  type int64 = x: int | MIN_INT64 <= x <= MAX_INT64

  /** Two's-complement wrap-around of Go's int64 arithmetic. */
  function Wrap(x: int): (r: int64)
    ensures MIN_INT64 <= x <= MAX_INT64 ==> r == x
    ensures (x - r) % TWO_TO_64 == 0
  {
    (x - MIN_INT64) % TWO_TO_64 + MIN_INT64
  }

  // ---------- digits ----------

  predicate IsHexDigit(c: char) {
    '0' <= c <= '9' || 'a' <= c <= 'f' || 'A' <= c <= 'F'
  }

  predicate IsLowerDigit(c: char) {
    '0' <= c <= '9' || 'a' <= c <= 'f'
  }

  function DigitValue(c: char): (v: nat)
    requires IsHexDigit(c)
    ensures v < 16
  {
    if c <= '9' then c as int - '0' as int
    else if c <= 'F' then c as int - 'A' as int + 10
    else c as int - 'a' as int + 10
  }

  function DigitChar(v: nat): (c: char)
    requires v < 16
    ensures IsLowerDigit(c) && DigitValue(c) == v
  {
    if v < 10 then ('0' as int + v) as char else ('a' as int + v - 10) as char
  }

  /** The digits of both cases, by their value. */
  lemma DigitValueExactly(c: char, v: nat)
    requires v < 16
    ensures IsHexDigit(c) && DigitValue(c) == v <==> c == "0123456789abcdef"[v] || c == "0123456789ABCDEF"[v]
    ensures DigitChar(v) == "0123456789abcdef"[v]
  {
  }

  predicate AllHexDigits(s: string) {
    forall i :: 0 <= i < |s| ==> IsHexDigit(s[i])
  }

  predicate AllLowerDigits(s: string) {
    forall i :: 0 <= i < |s| ==> IsLowerDigit(s[i])
  }

  /** The number a digit string denotes, the last digit least significant. */
  ghost function Value(s: string): nat
    requires AllHexDigits(s)
  {
    if s == "" then 0 else Value(s[..|s| - 1]) * 16 + DigitValue(s[|s| - 1])
  }

  /** Lower-case digits of n without leading zeros, as fmt's %x prints them. */
  function Digits(n: nat): (s: string)
    ensures |s| > 0 && AllLowerDigits(s) && (|s| > 1 ==> s[0] != '0')
    ensures n > 0 ==> s[0] != '0'
  {
    if n < 16 then [DigitChar(n)] else Digits(n / 16) + [DigitChar(n % 16)]
  }

  lemma {:induction false} DigitsDenoteTheNumber(n: nat)
    ensures Value(Digits(n)) == n
  {
    if n < 16 {
      assert [DigitChar(n)][..0] == "";
    } else {
      DigitsDenoteTheNumber(n / 16);
      var s := Digits(n);
      assert s[..|s| - 1] == Digits(n / 16);
    }
  }

  // ---------- strconv ----------

  datatype NumError = SyntaxError | RangeError

  datatype Parsed = Parsed(value: int, err: Option<NumError>)

  /** The digit loop of strconv.ParseUint(s, 16, 64) with accumulator n: it gives up
      with a range error as soon as one more digit would overflow, before it has looked
      at the characters after that digit. */
  function ScanUint(s: string, n: nat): Parsed
    requires n < TWO_TO_64
  {
    if s == "" then Parsed(n, None)
    else if !IsHexDigit(s[0]) then Parsed(0, Some(SyntaxError))
    else if n >= TWO_TO_60 then Parsed(TWO_TO_64 - 1, Some(RangeError))
    else ScanUint(s[1..], n * 16 + DigitValue(s[0]))
  }

  function ParseUint(s: string): Parsed {
    if s == "" then Parsed(0, Some(SyntaxError)) else ScanUint(s, 0)
  }

  function ParseInt(s: string): Parsed {
    if s == "" then Parsed(0, Some(SyntaxError))
    else
      var neg := s[0] == '-';
      var u := ParseUint(if neg || s[0] == '+' then s[1..] else s);
      if u.err == Some(SyntaxError) then Parsed(0, u.err)
      else if !neg && u.value > MAX_INT64 then Parsed(MAX_INT64, Some(RangeError))
      else if neg && u.value > -MIN_INT64 then Parsed(MIN_INT64, Some(RangeError))
      else Parsed(if neg then -u.value else u.value, None)
  }

  // ---------- types.Hex ----------

  function HexFromInt(i: int64): (h: Hex)
    ensures |h| > 2
  {
    var n: int := i;
    if n < 0 then "0x-" + Digits(-n) else "0x" + Digits(n)
  }

  predicate ValidHex(s: string) {
    ("0x" <= s || "0X" <= s) && ParseUint(s[2..]).err.None?
  }

  /** The source slices off two bytes before parsing and panics on anything shorter. */
  function Int(h: Hex): int64
    requires |h| >= 2
  {
    var v := ParseInt(h[2..]).value;
    ScannedRange(h[2..]);
    v
  }

  function Add(h: Hex, n: int64): (r: Hex)
    requires |h| >= 2
    ensures |r| > 2
  {
    HexFromInt(Wrap(Int(h) + n))
  }

  /** unicode.IsSpace, which strings.TrimSpace uses. */
  predicate IsSpace(c: char) {
    '\t' <= c <= '\r' || c == ' ' || c == '\U{85}' || c == '\U{A0}' || c == '\U{1680}'
    || '\U{2000}' <= c <= '\U{200A}' || c == '\U{2028}' || c == '\U{2029}'
    || c == '\U{202F}' || c == '\U{205F}' || c == '\U{3000}'
  }

  predicate IsEmpty(h: Hex) {
    forall i :: 0 <= i < |h| ==> IsSpace(h[i])
  }

  // ---------- proofs ----------

  lemma ScannedRange(s: string)
    ensures MIN_INT64 <= ParseInt(s).value <= MAX_INT64
  {
    if s != "" {
      ScanUintNonNegative(s, 0);
      if |s| > 1 {
        ScanUintNonNegative(s[1..], 0);
      }
    }
  }

  lemma {:induction false} ScanUintNonNegative(s: string, n: nat)
    requires n < TWO_TO_64
    ensures ScanUint(s, n).value >= 0
  {
    if s != "" && IsHexDigit(s[0]) && n < TWO_TO_60 {
      ScanUintNonNegative(s[1..], n * 16 + DigitValue(s[0]));
    }
  }

  /** What the left-to-right loop accumulates when nothing overflows. */
  ghost function Accumulated(s: string, n: nat): (r: nat)
    requires AllHexDigits(s)
    ensures r >= n
  {
    if s == "" then n else Accumulated(s[1..], n * 16 + DigitValue(s[0]))
  }

  lemma {:induction false} AccumulatedSnoc(s: string, n: nat, c: char)
    requires AllHexDigits(s) && IsHexDigit(c)
    ensures Accumulated(s + [c], n) == Accumulated(s, n) * 16 + DigitValue(c)
  {
    if s == "" {
      assert ("" + [c])[1..] == "";
    } else {
      assert (s + [c])[1..] == s[1..] + [c];
      AccumulatedSnoc(s[1..], n * 16 + DigitValue(s[0]), c);
    }
  }

  lemma {:induction false} AccumulatedIsValue(s: string)
    requires AllHexDigits(s)
    ensures Accumulated(s, 0) == Value(s)
  {
    if s != "" {
      AccumulatedIsValue(s[..|s| - 1]);
      assert s == s[..|s| - 1] + [s[|s| - 1]];
      AccumulatedSnoc(s[..|s| - 1], 0, s[|s| - 1]);
    }
  }

  lemma {:induction false} ScanOfDigits(s: string, n: nat)
    requires AllHexDigits(s) && n < TWO_TO_64
    ensures ScanUint(s, n) ==
            if Accumulated(s, n) < TWO_TO_64 then Parsed(Accumulated(s, n), None)
            else Parsed(TWO_TO_64 - 1, Some(RangeError))
  {
    if s != "" && n < TWO_TO_60 {
      ScanOfDigits(s[1..], n * 16 + DigitValue(s[0]));
    }
  }

  lemma {:induction false} ScanWithoutErrorIsDigits(s: string, n: nat)
    requires n < TWO_TO_64 && ScanUint(s, n).err.None?
    ensures AllHexDigits(s)
  {
    if s != "" {
      ScanWithoutErrorIsDigits(s[1..], n * 16 + DigitValue(s[0]));
      assert s == [s[0]] + s[1..];
    }
  }

  lemma ParseUintOfDigits(s: string)
    requires AllHexDigits(s) && s != ""
    ensures ParseUint(s) ==
            if Value(s) < TWO_TO_64 then Parsed(Value(s), None)
            else Parsed(TWO_TO_64 - 1, Some(RangeError))
  {
    ScanOfDigits(s, 0);
    AccumulatedIsValue(s);
  }

  /** Exactly which strings HexFromString and UnmarshalJSON accept. */
  lemma ValidHexExactly(s: string)
    ensures ValidHex(s) <==>
            && ("0x" <= s || "0X" <= s) && |s| > 2
            && AllHexDigits(s[2..]) && Value(s[2..]) < TWO_TO_64
  {
    if ("0x" <= s || "0X" <= s) && |s| > 2 {
      if ParseUint(s[2..]).err.None? {
        ScanWithoutErrorIsDigits(s[2..], 0);
      }
      if AllHexDigits(s[2..]) {
        ParseUintOfDigits(s[2..]);
      }
    }
  }

  /** Int of any digit string, however long, is its value clamped to int64. */
  lemma IntOfDigits(h: Hex)
    requires |h| > 2 && AllHexDigits(h[2..])
    ensures Int(h) == if Value(h[2..]) <= MAX_INT64 then Value(h[2..]) else MAX_INT64
  {
    ParseUintOfDigits(h[2..]);
  }

  lemma IntOfValidHex(h: Hex)
    requires ValidHex(h)
    ensures |h| > 2 && AllHexDigits(h[2..])
    ensures Int(h) == if Value(h[2..]) <= MAX_INT64 then Value(h[2..]) else MAX_INT64
  {
    ValidHexExactly(h);
    IntOfDigits(h);
  }

  /** Formatting and parsing are inverse on the whole of int64, MIN_INT64 included. */
  lemma IntOfHexFromInt(i: int64)
    ensures Int(HexFromInt(i)) == i
  {
    var m: int := i;
    var n: nat := if m < 0 then -m else m;
    DigitsDenoteTheNumber(n);
    ParseUintOfDigits(Digits(n));
    if i < 0 {
      assert HexFromInt(i)[2..] == "-" + Digits(n);
      assert HexFromInt(i)[2..][1..] == Digits(n);
    } else {
      assert HexFromInt(i)[2..] == Digits(n);
      assert IsHexDigit(Digits(n)[0]);
    }
  }

  /** Only the non-negative half of what HexFromInt prints is accepted back as a Hex. */
  lemma HexFromIntValidExactly(i: int64)
    ensures ValidHex(HexFromInt(i)) <==> i >= 0
  {
    ValidHexExactly(HexFromInt(i));
    if i < 0 {
      assert HexFromInt(i)[2..][0] == '-';
    } else {
      assert HexFromInt(i)[2..] == Digits(i);
      DigitsDenoteTheNumber(i);
    }
  }

  lemma IntOfAdd(h: Hex, n: int64)
    requires |h| >= 2
    ensures Int(Add(h, n)) == Wrap(Int(h) + n)
  {
    IntOfHexFromInt(Wrap(Int(h) + n));
  }

  lemma WrapIsCongruent(x: int, y: int)
    requires (x - y) % TWO_TO_64 == 0
    ensures Wrap(x) == Wrap(y)
  {
    var k := (x - y) / TWO_TO_64;
    assert x == y + k * TWO_TO_64;
    assert (x - MIN_INT64) % TWO_TO_64 == (y - MIN_INT64) % TWO_TO_64;
  }

  /** Add is addition modulo 2^64: two additions are one, whatever overflows between. */
  lemma AddIsAnAction(h: Hex, a: int64, b: int64)
    requires |h| >= 2
    ensures Add(Add(h, a), b) == Add(h, Wrap(a + b))
  {
    hide Int, HexFromInt, Wrap;
    IntOfAdd(h, a);
    var s := Int(h);
    var w := Wrap(s + a);
    var v := Wrap(a + b);
    var p := (s + a - w) / TWO_TO_64;
    var q := (a + b - v) / TWO_TO_64;
    assert (w + b) - (s + v) == (q - p) * TWO_TO_64;
    assert ((w + b) - (s + v)) % TWO_TO_64 == 0;
    WrapIsCongruent(w + b, s + v);
  }

  lemma HexIsNotEmpty(i: int64)
    ensures !IsEmpty(HexFromInt(i))
  {
    assert HexFromInt(i)[0] == '0';
  }
}
