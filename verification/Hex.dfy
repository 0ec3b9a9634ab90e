/** Hexadecimal names (internal/reapi/digest.go). */
module Hex {
  import opened Prelude

  const HEX_DIGITS := "0123456789abcdef"

  function Digit(n: int): (c: char)
    requires 0 <= n < 16
  {
    HEX_DIGITS[n]
  }

  /** The two lowercase digits of every byte, most significant first. */
  function Encode(b: Bytes): string {
    if b == [] then "" else [Digit(b[0] / 16), Digit(b[0] % 16)] + Encode(b[1..])
  }

  /** encoding/hex accepts both letter cases when decoding. */
  function Nibble(c: char): Option<int> {
    if '0' <= c <= '9' then Some(c as int - '0' as int)
    else if 'a' <= c <= 'f' then Some(c as int - 'a' as int + 10)
    else if 'A' <= c <= 'F' then Some(c as int - 'A' as int + 10)
    else None
  }

  function Decode(s: string): Option<Bytes> {
    if s == "" then Some([])
    else if |s| == 1 then None
    else
      match (Nibble(s[0]), Nibble(s[1]), Decode(s[2..]))
      case (Some(hi), Some(lo), Some(rest)) =>
        if 0 <= hi < 16 && 0 <= lo < 16 then Some([(16 * hi + lo) as byte] + rest) else None
      case _ => None
  }

  predicate IsHexChar(c: char) {
    '0' <= c <= '9' || 'a' <= c <= 'f'
  }

  /** The names the cache gives its entries: lowercase hex of a non-empty identifier. */
  predicate IsId(s: string) {
    2 <= |s| && forall i :: 0 <= i < |s| ==> IsHexChar(s[i])
  }

  /** The buffer-filling loop writes exactly the digits of every byte, in order. */
  method HexEncodeFixed(src: Bytes) returns (s: string)
    ensures s == Encode(src)
    ensures |s| == 2 * |src|
  {
    var dst := new char[|src| * 2];
    var i := 0;
    while i < |src|
      invariant 0 <= i <= |src|
      invariant forall k :: 0 <= k < i ==> dst[2 * k] == Digit(src[k] / 16) && dst[2 * k + 1] == Digit(src[k] % 16)
    {
      dst[i * 2] := Digit(src[i] / 16);
      dst[i * 2 + 1] := Digit(src[i] % 16);
      i := i + 1;
    }
    s := dst[..];
    EncodeFromDigits(src, s);
  }

  lemma {:induction false} EncodeFromDigits(b: Bytes, s: string)
    requires |s| == 2 * |b|
    requires forall k :: 0 <= k < |b| ==> s[2 * k] == Digit(b[k] / 16) && s[2 * k + 1] == Digit(b[k] % 16)
    ensures s == Encode(b)
  {
    if b == [] {
    } else {
      var rest := s[2..];
      forall k | 0 <= k < |b[1..]|
        ensures rest[2 * k] == Digit(b[1..][k] / 16) && rest[2 * k + 1] == Digit(b[1..][k] % 16)
      {
        assert b[1..][k] == b[k + 1];
        assert rest[2 * k] == s[2 * (k + 1)];
        assert rest[2 * k + 1] == s[2 * (k + 1) + 1];
      }
      EncodeFromDigits(b[1..], rest);
      assert s == s[..2] + rest;
    }
  }

  lemma NibbleOfDigit(n: int)
    requires 0 <= n < 16
    ensures Nibble(Digit(n)) == Some(n)
    ensures IsHexChar(Digit(n))
  {
    assert HEX_DIGITS[0..10] == "0123456789";
    assert HEX_DIGITS[n] == (if n < 10 then (n + '0' as int) as char else (n - 10 + 'a' as int) as char);
  }

  lemma DecodeTwo(s: string, n: byte, rest: Bytes)
    requires 2 <= |s| && Nibble(s[0]) == Some(n / 16) && Nibble(s[1]) == Some(n % 16) && Decode(s[2..]) == Some(rest)
    ensures Decode(s) == Some([n] + rest)
  {
  }

  lemma {:induction false} DecodeEncode(b: Bytes)
    ensures Decode(Encode(b)) == Some(b)
  {
    if b == [] {
    } else {
      DecodeEncode(b[1..]);
      NibbleOfDigit(b[0] / 16);
      NibbleOfDigit(b[0] % 16);
      assert Encode(b)[2..] == Encode(b[1..]);
      DecodeTwo(Encode(b), b[0], b[1..]);
      assert [b[0]] + b[1..] == b;
    }
  }

  /** A digit in lower case; everything else is left alone. */
  function LowerDigit(c: char): char {
    if 'A' <= c <= 'F' then (c as int - 'A' as int + 'a' as int) as char else c
  }

  lemma DigitOfNibble(c: char)
    ensures Nibble(c).Some? <==> IsHexChar(c) || 'A' <= c <= 'F'
    ensures Nibble(c).Some? ==> 0 <= Nibble(c).value < 16 && Digit(Nibble(c).value) == LowerDigit(c)
  {
    assert HEX_DIGITS[0..10] == "0123456789";
    if Nibble(c).Some? {
      NibbleOfDigit(Nibble(c).value);
    }
  }

  predicate IsHexDigit(c: char) {
    IsHexChar(c) || 'A' <= c <= 'F'
  }

  function Lower(s: string): string {
    seq(|s|, i requires 0 <= i < |s| => LowerDigit(s[i]))
  }

  lemma DecodeTwoIff(s: string)
    requires 2 <= |s|
    ensures Decode(s).Some? <==> IsHexDigit(s[0]) && IsHexDigit(s[1]) && Decode(s[2..]).Some?
  {
    DigitOfNibble(s[0]);
    DigitOfNibble(s[1]);
  }

  lemma TwoNibbles(hi: int, lo: int)
    requires 0 <= hi < 16 && 0 <= lo < 16
    ensures (16 * hi + lo) / 16 == hi && (16 * hi + lo) % 16 == lo && 0 <= 16 * hi + lo < 256
  {
  }

  lemma EncodeTwo(s: string, hi: int, lo: int, rest: Bytes)
    requires 2 <= |s| && Nibble(s[0]) == Some(hi) && Nibble(s[1]) == Some(lo) && Decode(s[2..]) == Some(rest)
    ensures Decode(s).Some? && Encode(Decode(s).value) == [LowerDigit(s[0]), LowerDigit(s[1])] + Encode(rest)
  {
    DigitOfNibble(s[0]);
    DigitOfNibble(s[1]);
    var n := 16 * hi + lo;
    TwoNibbles(hi, lo);
    DecodeTwo(s, n, rest);
    var b := [n as byte] + rest;
    assert b[0] == n && b[1..] == rest;
    EncodeCons(b);
  }

  lemma LowerTwo(s: string)
    requires 2 <= |s|
    ensures Lower(s) == [LowerDigit(s[0]), LowerDigit(s[1])] + Lower(s[2..])
  {
  }

  /** Exactly the texts of even length made of hex digits, in either case, can be decoded. */
  lemma {:induction false} DecodeDefinedIff(s: string)
    ensures Decode(s).Some? <==> |s| % 2 == 0 && forall i :: 0 <= i < |s| ==> IsHexDigit(s[i])
  {
    if |s| < 2 {
    } else {
      DecodeDefinedIff(s[2..]);
      DecodeTwoIff(s);
      assert forall i :: 2 <= i < |s| ==> s[i] == s[2..][i - 2];
    }
  }

  /** Encoding what a text stands for gives the text back, in lower case. */
  lemma {:induction false} EncodeDecode(s: string)
    requires Decode(s).Some?
    ensures Encode(Decode(s).value) == Lower(s)
  {
    if s == "" {
    } else {
      assert 2 <= |s|;
      DecodeTwoIff(s);
      EncodeDecode(s[2..]);
      DigitOfNibble(s[0]);
      DigitOfNibble(s[1]);
      EncodeTwo(s, Nibble(s[0]).value, Nibble(s[1]).value, Decode(s[2..]).value);
      LowerTwo(s);
    }
  }

  lemma EncodeCons(b: Bytes)
    requires b != []
    ensures Encode(b) == [Digit(b[0] / 16), Digit(b[0] % 16)] + Encode(b[1..])
  {
  }

  /** Distinct identifiers never share an entry name. */
  lemma EncodeInjective(a: Bytes, b: Bytes)
    ensures Encode(a) == Encode(b) <==> a == b
  {
    DecodeEncode(a);
    DecodeEncode(b);
  }

  /** Names of non-empty identifiers are hex identifiers, so they hold no separator and no dash. */
  lemma {:induction false} EncodeIsHex(b: Bytes)
    ensures |Encode(b)| == 2 * |b|
    ensures forall i :: 0 <= i < |Encode(b)| ==> IsHexChar(Encode(b)[i])
    ensures b != [] <==> IsId(Encode(b))
  {
    if b == [] {
    } else {
      EncodeIsHex(b[1..]);
      NibbleOfDigit(b[0] / 16);
      NibbleOfDigit(b[0] % 16);
      assert Encode(b)[2..] == Encode(b[1..]);
    }
  }
}
