/** The header string `detectFileType` works on: the first 32 bytes of the
    file, each written as two upper-case hexadecimal digits, concatenated
    (`b.toString(16).padStart(2, '0').toUpperCase()` joined with ''). */
module Hex {

  newtype Byte = x: int | 0 <= x < 256

  /** The number of leading bytes the header read takes. */
  const HeaderLength: nat := 32

  const HexDigits: string := "0123456789ABCDEF"

  function Digit(d: nat): char
    requires d < 16
  {
    HexDigits[d]
  }

  /** The value of an upper-case hexadecimal digit. */
  function DigitValue(c: char): (d: nat)
    ensures d < 16
  {
    if '0' <= c <= '9' then c as nat - '0' as nat
    else if 'A' <= c <= 'F' then c as nat - 'A' as nat + 10
    else 0
  }

  predicate IsHexDigit(c: char) {
    ('0' <= c <= '9') || ('A' <= c <= 'F')
  }

  /** Two digits per byte, high nibble first, zero-padded, upper case. */
  function ToHex(bytes: seq<Byte>): (r: string)
    decreases |bytes|
  {
    if |bytes| == 0 then []
    else
      var b := bytes[0] as nat;
      [Digit(b / 16), Digit(b % 16)] + ToHex(bytes[1..])
  }

  /** Reads two digits per byte back. */
  function FromHex(s: string): seq<Byte>
    decreases |s|
  {
    if |s| < 2 then []
    else [(DigitValue(s[0]) * 16 + DigitValue(s[1])) as Byte] + FromHex(s[2..])
  }

  /** `file.slice(0, 32)` as the header reader sees it. */
  function HeaderBytes(bytes: seq<Byte>): (r: seq<Byte>)
    ensures |r| <= HeaderLength
    ensures |bytes| <= HeaderLength ==> r == bytes
  {
    if |bytes| <= HeaderLength then bytes else bytes[..HeaderLength]
  }

  lemma DigitSpec(d: nat)
    requires d < 16
    ensures IsHexDigit(Digit(d)) && DigitValue(Digit(d)) == d
  {
    assert HexDigits == ['0', '1', '2', '3', '4', '5', '6', '7', '8', '9',
                         'A', 'B', 'C', 'D', 'E', 'F'];
  }

  /** The encoding is two upper-case hex digits per byte and reads back to
      the bytes it came from. */
  lemma {:induction false} ToHexSpec(bytes: seq<Byte>)
    ensures |ToHex(bytes)| == 2 * |bytes|
    ensures forall k :: 0 <= k < |ToHex(bytes)| ==> IsHexDigit(ToHex(bytes)[k])
    ensures FromHex(ToHex(bytes)) == bytes
    decreases |bytes|
  {
    if |bytes| > 0 {
      var b := bytes[0] as nat;
      ToHexSpec(bytes[1..]);
      DigitSpec(b / 16);
      DigitSpec(b % 16);
      var r := ToHex(bytes);
      assert r[2..] == ToHex(bytes[1..]);
      assert FromHex(r) == [bytes[0]] + FromHex(ToHex(bytes[1..]));
      assert bytes == [bytes[0]] + bytes[1..];
    }
  }

  /** Encoding distributes over concatenation, so a file's leading bytes
      fix the leading digits of its header. */
  lemma {:induction false} ToHexAppend(a: seq<Byte>, b: seq<Byte>)
    ensures ToHex(a + b) == ToHex(a) + ToHex(b)
    decreases |a|
  {
    if |a| > 0 {
      assert (a + b)[1..] == a[1..] + b;
      ToHexAppend(a[1..], b);
    } else {
      assert a + b == b;
    }
  }

  /** Distinct byte strings give distinct headers. */
  lemma ToHexInjective(a: seq<Byte>, b: seq<Byte>)
    ensures ToHex(a) == ToHex(b) <==> a == b
  {
    ToHexSpec(a);
    ToHexSpec(b);
  }

  /** A file whose leading bytes are `pre` (at most 32 of them) has a
      header that starts with the encoding of `pre`. */
  lemma HeaderStartsWithBytes(bytes: seq<Byte>, pre: seq<Byte>)
    requires |pre| <= HeaderLength && |pre| <= |bytes| && bytes[..|pre|] == pre
    ensures |ToHex(pre)| <= |ToHex(HeaderBytes(bytes))|
    ensures ToHex(HeaderBytes(bytes))[..|ToHex(pre)|] == ToHex(pre)
  {
    var h := HeaderBytes(bytes);
    assert h == pre + h[|pre|..];
    ToHexAppend(pre, h[|pre|..]);
  }
}
