/**
 * The lenient hexadecimal decoder of the Bemfa protocol client
 * (`CharToHex` and `DecodeHexString`), the upper-case digit table
 * `hex_chars` it sits next to, and an encoder built from that table.
 *
 * A malformed digit decodes to the nibble 0 instead of raising an error,
 * digits are read in pairs, and on an odd-length string the last digit is
 * paired with the string's terminating NUL, which decodes to 0 as well.
 */
module HexCodec {

  /** A decoded byte, as stored in the `std::string` the decoder returns. */
  type byte = b: int | 0 <= b < 256

  /**
   * One element of a `std::string`: a single byte, read as a character.
   * A multi-byte encoded character is several of these.
   */
  type octet = c: char | c as int < 256 witness '\0'

  /** The contents of a `std::string`, byte by byte. */
  type ByteString = seq<octet>

  /** The value of one hexadecimal digit. */
  type nibble = n: int | 0 <= n < 16

  /** The `hex_chars` table: upper-case digits, indexed by their value. */
  const HexChars: ByteString := "0123456789ABCDEF"

  /** The character a `std::string` yields one past its end. */
  const Terminator: char := '\0'

  predicate IsDecimalDigit(c: char) { '0' <= c <= '9' }
  predicate IsUpperHexLetter(c: char) { 'A' <= c <= 'F' }
  predicate IsLowerHexLetter(c: char) { 'a' <= c <= 'f' }

  /** A character the decoder recognises as a digit (either case). */
  predicate IsHexDigit(c: char) {
    IsDecimalDigit(c) || IsUpperHexLetter(c) || IsLowerHexLetter(c)
  }

  /** Lower-cases the letters `A`..`F`; every other character is kept. */
  function LowerHex(c: char): (d: char)
    ensures IsHexDigit(d) <==> IsHexDigit(c)
    ensures !IsUpperHexLetter(d)
    ensures c as int < 256 ==> d as int < 256
  {
    if IsUpperHexLetter(c) then (c as int - 'A' as int + 'a' as int) as char else c
  }

  /** Upper-cases the letters `a`..`f`; every other character is kept. */
  function UpperHex(c: char): (d: char)
    ensures IsHexDigit(d) <==> IsHexDigit(c)
    ensures !IsLowerHexLetter(d)
  {
    if IsLowerHexLetter(c) then (c as int - 'a' as int + 'A' as int) as char else c
  }

  /**
   * `CharToHex`: the value of a hexadecimal digit of either case, and 0 for
   * any other character. The contract relates it to the `hex_chars` table:
   * an upper-case digit decodes to its index in the table, a lower-case
   * letter to the value of its upper-case form, anything else to 0.
   */
  function CharToHex(c: char): (n: nibble)
    ensures forall i :: 0 <= i < |HexChars| && HexChars[i] == c ==> n == i
    ensures IsLowerHexLetter(c) ==> HexChars[n] == UpperHex(c)
    ensures !IsHexDigit(c) ==> n == 0
  {
    if IsDecimalDigit(c) then c as int - '0' as int
    else if IsUpperHexLetter(c) then c as int - 'A' as int + 10
    else if IsLowerHexLetter(c) then c as int - 'a' as int + 10
    else 0
  }

  /** Digits of either case decode identically. */
  lemma CharToHexCaseInsensitive(c: char)
    ensures CharToHex(LowerHex(c)) == CharToHex(c)
    ensures CharToHex(UpperHex(c)) == CharToHex(c)
  {
  }

  /** Every table entry decodes back to its index. */
  lemma CharToHexInvertsTable(n: nibble)
    ensures CharToHex(HexChars[n]) == n
  {
  }

  /**
   * `(hi << 4) | lo`. On non-negative values a left shift by four is a
   * multiplication by 16, and the or of two values whose set bits do not
   * overlap is their sum; the contract states that both nibbles can be
   * recovered from the packed byte.
   */
  function PackByte(hi: nibble, lo: nibble): (b: byte)
    ensures b / 16 == hi && b % 16 == lo
  {
    hi * 16 + lo
  }

  /** `hex_string[i]` on a `std::string`: index `|s|` reads the terminating NUL. */
  function CharAt(s: ByteString, i: nat): (c: char)
    requires i <= |s|
    ensures i == |s| ==> CharToHex(c) == 0
  {
    if i < |s| then s[i] else Terminator
  }

  /** The byte the decoder produces for the pair of digits starting at `i`. */
  function PairAt(s: ByteString, i: nat): byte
    requires i < |s|
  {
    PackByte(CharToHex(s[i]), CharToHex(CharAt(s, i + 1)))
  }

  /**
   * Recursive reference definition of the decoder, reading the string two
   * characters at a time from the front.
   */
  function DecodeHex(s: ByteString): (r: seq<byte>)
    ensures |r| == (|s| + 1) / 2
    ensures |s| == 0 <==> r == []
    decreases |s|
  {
    if |s| == 0 then []
    else if |s| == 1 then [PackByte(CharToHex(s[0]), CharToHex(Terminator))]
    else [PackByte(CharToHex(s[0]), CharToHex(s[1]))] + DecodeHex(s[2..])
  }

  /** Byte `k` of the decoding is built from digits `2k` and `2k + 1`. */
  lemma {:induction false} DecodeHexAt(s: ByteString, k: nat)
    requires k < (|s| + 1) / 2
    ensures DecodeHex(s)[k] == PairAt(s, 2 * k)
    ensures DecodeHex(s)[k] == CharToHex(s[2 * k]) * 16 + CharToHex(CharAt(s, 2 * k + 1))
    decreases k
  {
    if k > 0 {
      var t := s[2..];
      DecodeHexAt(t, k - 1);
      assert t[2 * (k - 1)] == s[2 * k];
      assert CharAt(t, 2 * (k - 1) + 1) == CharAt(s, 2 * k + 1);
    }
  }

  /**
   * `DecodeHexString`: walks the string two characters at a time and
   * appends one byte per step, pairing a trailing odd digit with the NUL
   * terminator. The result has one byte per started pair, an odd final
   * digit yields its value times 16, and the result agrees with the
   * recursive reference definition (whose bytes `DecodeHexAt` describes).
   */
  method DecodeHexString(hex: ByteString) returns (decoded: seq<byte>)
    ensures |decoded| == (|hex| + 1) / 2
    ensures |hex| % 2 == 1 ==> decoded[|decoded| - 1] == CharToHex(hex[|hex| - 1]) * 16
    ensures decoded == DecodeHex(hex)
  {
    decoded := [];
    var i: nat := 0;
    while i < |hex|
      invariant i % 2 == 0
      invariant i <= |hex| + 1
      invariant |decoded| == i / 2
      invariant forall k :: 0 <= k < |decoded| ==> decoded[k] == PairAt(hex, 2 * k)
    {
      decoded := decoded + [PackByte(CharToHex(hex[i]), CharToHex(CharAt(hex, i + 1)))];
      i := i + 2;
    }
    forall k | 0 <= k < |decoded|
      ensures decoded[k] == DecodeHex(hex)[k]
    {
      DecodeHexAt(hex, k);
    }
  }

  /** Renders a byte as two upper-case digits from `hex_chars`. */
  function ByteToHex(b: byte): (s: ByteString)
    ensures |s| == 2
    ensures s[0] in HexChars && s[1] in HexChars
  {
    [HexChars[b / 16], HexChars[b % 16]]
  }

  /** Renders a byte sequence as upper-case hexadecimal, two digits per byte. */
  function EncodeHex(bs: seq<byte>): (s: ByteString)
    ensures |s| == 2 * |bs|
  {
    if bs == [] then [] else ByteToHex(bs[0]) + EncodeHex(bs[1..])
  }

  /** Every character of an encoding is an upper-case table digit. */
  lemma {:induction false} EncodeHexUsesTable(bs: seq<byte>)
    ensures forall i :: 0 <= i < |EncodeHex(bs)| ==> EncodeHex(bs)[i] in HexChars
  {
    if bs != [] {
      EncodeHexUsesTable(bs[1..]);
      var s := EncodeHex(bs);
      assert s == ByteToHex(bs[0]) + EncodeHex(bs[1..]);
      forall i | 0 <= i < |s|
        ensures s[i] in HexChars
      {
        if i >= 2 {
          assert s[i] == EncodeHex(bs[1..])[i - 2];
        }
      }
    }
  }

  /** Round trip: decoding the upper-case rendering of any bytes gives them back. */
  lemma {:induction false} DecodeEncodeRoundTrip(bs: seq<byte>)
    ensures DecodeHex(EncodeHex(bs)) == bs
  {
    if bs != [] {
      var s := EncodeHex(bs);
      var b := bs[0];
      var rest := EncodeHex(bs[1..]);
      assert s == ByteToHex(b) + rest;
      assert s[0] == HexChars[b / 16] && s[1] == HexChars[b % 16];
      assert s[2..] == rest;
      CharToHexInvertsTable(b / 16);
      CharToHexInvertsTable(b % 16);
      assert PackByte(b / 16, b % 16) == b;
      DecodeEncodeRoundTrip(bs[1..]);
      assert DecodeHex(s) == [b] + DecodeHex(rest);
    }
  }

  /** Lower-cases every hexadecimal letter of a string. */
  function LowerHexString(s: ByteString): (t: ByteString)
    ensures |t| == |s|
    ensures forall i :: 0 <= i < |s| ==> t[i] == LowerHex(s[i])
  {
    seq(|s|, i requires 0 <= i < |s| => LowerHex(s[i]))
  }

  /** Upper- and lower-case spellings of the same digits decode identically. */
  lemma DecodeHexCaseInsensitive(s: ByteString)
    ensures DecodeHex(LowerHexString(s)) == DecodeHex(s)
  {
    var t := LowerHexString(s);
    forall k | 0 <= k < (|s| + 1) / 2
      ensures DecodeHex(t)[k] == DecodeHex(s)[k]
    {
      DecodeHexAt(s, k);
      DecodeHexAt(t, k);
      CharToHexCaseInsensitive(s[2 * k]);
      if 2 * k + 1 < |s| {
        CharToHexCaseInsensitive(s[2 * k + 1]);
      }
    }
  }

  /** Case-insensitivity carries over to the round trip: lower-case input decodes too. */
  lemma DecodeLowerEncodeRoundTrip(bs: seq<byte>)
    ensures DecodeHex(LowerHexString(EncodeHex(bs))) == bs
  {
    DecodeHexCaseInsensitive(EncodeHex(bs));
    DecodeEncodeRoundTrip(bs);
  }

  /** Leniency: a malformed digit decodes exactly as the digit `0` would. */
  lemma InvalidDigitReadsAsZero(s: ByteString, i: nat)
    requires i < |s| && !IsHexDigit(s[i])
    ensures DecodeHex(s[i := '0']) == DecodeHex(s)
  {
    var t := s[i := '0'];
    forall k | 0 <= k < (|s| + 1) / 2
      ensures DecodeHex(t)[k] == DecodeHex(s)[k]
    {
      DecodeHexAt(s, k);
      DecodeHexAt(t, k);
    }
  }

  /**
   * Worked examples: `"0A1B2C"`, the empty string, an odd-length string,
   * and the UTF-8 bytes of `"é1"`, whose two non-digit bytes each read as 0.
   */
  lemma DecodeExamples()
    ensures DecodeHex("0A1B2C") == [0x0A, 0x1B, 0x2C]
    ensures DecodeHex("") == []
    ensures DecodeHex("abc") == [0xAB, 0xC0]
    ensures DecodeHex([0xC3 as char, 0xA9 as char, '1']) == [0x00, 0x10]
  {
  }
}
