/**
 * Lowercase hexadecimal rendering of byte strings, as the `hex` crate's
 * `encode` produces it: two digits per byte, high nibble first, no separators.
 */
module Hex {
  import opened Der

  const LOWER_DIGITS: string := "0123456789abcdef"

  function Digit(n: nat): (c: char)
    requires n < 16
    ensures IsLowerHexDigit(c) && DigitValue(c) == Some(n)
  {
    LOWER_DIGITS[n]
  }

  predicate IsLowerHexDigit(c: char) {
    '0' <= c <= '9' || 'a' <= c <= 'f'
  }

  /** The value of one hexadecimal digit; either case is read back. */
  function DigitValue(c: char): (r: Option<nat>)
    ensures r.Some? ==> r.value < 16
  {
    if '0' <= c <= '9' then Some(c as int - '0' as int)
    else if 'a' <= c <= 'f' then Some(c as int - 'a' as int + 10)
    else if 'A' <= c <= 'F' then Some(c as int - 'A' as int + 10)
    else None
  }

  function Encode(bs: seq<byte>): (s: string)
    ensures |s| == 2 * |bs|
    ensures forall i :: 0 <= i < |s| ==> IsLowerHexDigit(s[i])
  {
    if bs == [] then "" else [Digit(bs[0] / 16), Digit(bs[0] % 16)] + Encode(bs[1..])
  }

  /** Byte `k` becomes the digits at `2k` and `2k + 1`, high nibble first. */
  lemma {:induction false} EncodeAt(bs: seq<byte>, k: nat)
    requires k < |bs|
    ensures Encode(bs)[2 * k] == Digit(bs[k] / 16) && Encode(bs)[2 * k + 1] == Digit(bs[k] % 16)
  {
    if k > 0 {
      EncodeAt(bs[1..], k - 1);
      assert Encode(bs)[2..] == Encode(bs[1..]);
    }
  }

  /** Reads pairs of hexadecimal digits back into bytes; `None` for an odd length or a non-digit. */
  function Decode(s: string): Option<seq<byte>>
    decreases |s|
  {
    if s == [] then Some([])
    else if |s| == 1 then None
    else
      match (DigitValue(s[0]), DigitValue(s[1]), Decode(s[2..]))
      case (Some(hi), Some(lo), Some(rest)) => Some([hi * 16 + lo] + rest)
      case _ => None
  }

  /** The rendering loses nothing: decoding it gives back the identifier bytes. */
  lemma {:induction false} DecodeEncode(bs: seq<byte>)
    ensures Decode(Encode(bs)) == Some(bs)
  {
    if bs != [] {
      var s := Encode(bs);
      assert s[2..] == Encode(bs[1..]);
      DecodeEncode(bs[1..]);
      assert bs == [bs[0]] + bs[1..];
    }
  }
}
