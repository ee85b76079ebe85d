/**
 * Bytes and Node's "hex" text encoding of them: `Buffer.toString("hex")`
 * writes two lower-case digits per byte; `Buffer.from(s, "hex")` reads digit
 * pairs of either case and stops at the first pair that is not two hex digits,
 * so malformed text decodes to a shorter buffer and an odd trailing digit is
 * dropped.
 */
module Hex {

  type Byte = x: int | 0 <= x < 256

  type Bytes = seq<Byte>

  predicate IsHexDigit(c: char) {
    ('0' <= c <= '9') || ('a' <= c <= 'f') || ('A' <= c <= 'F')
  }

  predicate IsLowerHexDigit(c: char) {
    ('0' <= c <= '9') || ('a' <= c <= 'f')
  }

  /** Text made only of lower-case hex digits, as `toString("hex")` writes it. */
  predicate IsLowerHex(s: string) {
    forall i :: 0 <= i < |s| ==> IsLowerHexDigit(s[i])
  }

  function DigitValue(c: char): (v: nat)
    requires IsHexDigit(c)
    ensures v < 16
  {
    if '0' <= c <= '9' then c as int - '0' as int
    else if 'a' <= c <= 'f' then c as int - 'a' as int + 10
    else c as int - 'A' as int + 10
  }

  /** The lower-case digit for a nibble; `DigitValue` reads it back. */
  function DigitChar(v: nat): (c: char)
    requires v < 16
    ensures IsLowerHexDigit(c) && IsHexDigit(c) && DigitValue(c) == v
  {
    if v < 10 then ('0' as int + v) as char else ('a' as int + v - 10) as char
  }

  /** `Buffer.toString("hex")`. */
  function Encode(bs: Bytes): (s: string)
    ensures |s| == 2 * |bs|
    ensures IsLowerHex(s)
  {
    if bs == [] then []
    else [DigitChar(bs[0] / 16), DigitChar(bs[0] % 16)] + Encode(bs[1..])
  }

  /** `Buffer.from(s, "hex")`, including its truncation at the first malformed pair. */
  function Decode(s: string): (bs: Bytes)
    ensures |bs| <= |s| / 2
  {
    if |s| < 2 || !IsHexDigit(s[0]) || !IsHexDigit(s[1]) then []
    else [DigitValue(s[0]) * 16 + DigitValue(s[1])] + Decode(s[2..])
  }

  /** Decoding undoes encoding: the hex fields of a record give back their bytes. */
  lemma {:induction false} DecodeEncode(bs: Bytes)
    ensures Decode(Encode(bs)) == bs
  {
    if bs != [] {
      var s := Encode(bs);
      assert s[2..] == Encode(bs[1..]);
      DecodeEncode(bs[1..]);
      assert DigitValue(s[0]) * 16 + DigitValue(s[1]) == bs[0];
    }
  }

  /** Different byte strings have different hex encodings. */
  lemma EncodeInjective(a: Bytes, b: Bytes)
    requires Encode(a) == Encode(b)
    ensures a == b
  {
    DecodeEncode(a);
    DecodeEncode(b);
  }

  /** Text made only of hex digits, of either case. */
  predicate IsHex(s: string) {
    forall i :: 0 <= i < |s| ==> IsHexDigit(s[i])
  }

  /** Well-formed even-length hex text decodes to exactly half as many bytes. */
  lemma {:induction false} DecodeLength(s: string)
    requires IsHex(s) && |s| % 2 == 0
    ensures |Decode(s)| == |s| / 2
  {
    if |s| >= 2 {
      assert IsHex(s[2..]) by {
        forall i | 0 <= i < |s[2..]| ensures IsHexDigit(s[2..][i]) {
          assert s[2..][i] == s[i + 2];
        }
      }
      DecodeLength(s[2..]);
    }
  }

  /** Decoding stops at the first pair that is not two hex digits, whatever follows it. */
  lemma {:induction false} DecodeStopsAtMalformedPair(w: string, rest: string)
    requires IsHex(w) && |w| % 2 == 0
    requires |rest| < 2 || !IsHexDigit(rest[0]) || !IsHexDigit(rest[1])
    ensures Decode(w + rest) == Decode(w)
  {
    if |w| >= 2 {
      assert (w + rest)[2..] == w[2..] + rest;
      assert IsHex(w[2..]) by {
        forall i | 0 <= i < |w[2..]| ensures IsHexDigit(w[2..][i]) {
          assert w[2..][i] == w[i + 2];
        }
      }
      DecodeStopsAtMalformedPair(w[2..], rest);
    } else {
      assert w + rest == rest;
    }
  }
}
