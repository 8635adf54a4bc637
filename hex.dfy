/** Lower-case hexadecimal text of a byte string, as Python's `digest.hexdigest()` writes it,
    and the parser that reads such text back. */
module Hex {
  import opened Common

  const Alphabet: string := "0123456789abcdef"

  predicate IsLowerHexDigit(c: char) {
    '0' <= c <= '9' || 'a' <= c <= 'f'
  }

  function DigitChar(d: int): char
    requires 0 <= d < 16
  {
    Alphabet[d]
  }

  function DigitValue(c: char): (d: int)
    requires IsLowerHexDigit(c)
    ensures 0 <= d < 16
  {
    if c <= '9' then c as int - '0' as int else c as int - 'a' as int + 10
  }

  lemma DigitRoundTrip(d: int)
    requires 0 <= d < 16
    ensures IsLowerHexDigit(DigitChar(d)) && DigitValue(DigitChar(d)) == d
  {
    assert Alphabet[d] == if d < 10 then ('0' as int + d) as char else ('a' as int + d - 10) as char by {
      if d < 10 {
        assert Alphabet[..10] == "0123456789";
      } else {
        assert Alphabet[10..] == "abcdef";
      }
    }
  }

  lemma CharRoundTrip(c: char)
    requires IsLowerHexDigit(c)
    ensures DigitChar(DigitValue(c)) == c
  {
    var d := DigitValue(c);
    DigitRoundTrip(d);
    if d < 10 {
      assert DigitChar(d) == ('0' as int + d) as char by {
        assert Alphabet[..10] == "0123456789";
      }
    } else {
      assert DigitChar(d) == ('a' as int + d - 10) as char by {
        assert Alphabet[10..] == "abcdef";
      }
    }
  }

  /** `bytes.hex()`: two lower-case digits per byte, high nibble first. */
  function Encode(bytes: seq<byte>): string
    decreases |bytes|
  {
    if |bytes| == 0 then ""
    else [DigitChar(bytes[0] / 16), DigitChar(bytes[0] % 16)] + Encode(bytes[1..])
  }

  /** Reads lower-case hexadecimal text back into bytes; anything else is rejected. */
  function Decode(s: string): Option<seq<byte>>
    decreases |s|
  {
    if |s| == 0 then Some([])
    else if |s| == 1 || !IsLowerHexDigit(s[0]) || !IsLowerHexDigit(s[1]) then None
    else
      var rest :- Decode(s[2..]);
      Some([DigitValue(s[0]) * 16 + DigitValue(s[1])] + rest)
  }

  lemma {:induction false} EncodeLength(bytes: seq<byte>)
    ensures |Encode(bytes)| == 2 * |bytes|
    decreases |bytes|
  {
    if |bytes| > 0 {
      EncodeLength(bytes[1..]);
    }
  }

  /** Decoding the text of a byte string gives that byte string. */
  lemma {:induction false} DecodeEncode(bytes: seq<byte>)
    ensures Decode(Encode(bytes)) == Some(bytes)
    decreases |bytes|
  {
    if |bytes| > 0 {
      var b := bytes[0];
      DigitRoundTrip(b / 16);
      DigitRoundTrip(b % 16);
      DecodeEncode(bytes[1..]);
      var s := Encode(bytes);
      assert s[2..] == Encode(bytes[1..]);
      assert bytes == [b] + bytes[1..];
    }
  }

  /** Text that decodes is exactly the encoding of what it decodes to. */
  lemma {:induction false} EncodeDecode(s: string)
    requires Decode(s).Some?
    ensures Encode(Decode(s).value) == s
    decreases |s|
  {
    if |s| > 0 {
      EncodeDecode(s[2..]);
      var bytes := Decode(s).value;
      var hi, lo := DigitValue(s[0]), DigitValue(s[1]);
      assert bytes[0] == hi * 16 + lo;
      assert bytes[1..] == Decode(s[2..]).value;
      assert bytes[0] / 16 == hi && bytes[0] % 16 == lo;
      CharRoundTrip(s[0]);
      CharRoundTrip(s[1]);
      assert s == [s[0], s[1]] + s[2..];
    }
  }

  /** Distinct byte strings have distinct hexadecimal texts. */
  lemma EncodeInjective(a: seq<byte>, b: seq<byte>)
    requires Encode(a) == Encode(b)
    ensures a == b
  {
    DecodeEncode(a);
    DecodeEncode(b);
  }
}
