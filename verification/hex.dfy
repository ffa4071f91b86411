/** Hexadecimal text (section 8 of RFC 4648) as Go's encoding/hex writes and reads it. */
module Hex {
  import opened Integers
  import opened Wrappers

  function Digit(v: int): char
    requires 0 <= v < 16
  {
    "0123456789abcdef"[v]
  }

  /** Both letter cases are read; only lower case is written. */
  function DigitValue(c: char): Option<int> {
    if '0' <= c <= '9' then Some(c as int - '0' as int)
    else if 'a' <= c <= 'f' then Some(c as int - 'a' as int + 10)
    else if 'A' <= c <= 'F' then Some(c as int - 'A' as int + 10)
    else None
  }

  function EncodeToString(b: bytes): (s: string)
    ensures |s| == 2 * |b|
  {
    if b == [] then "" else [Digit(b[0] / 16), Digit(b[0] % 16)] + EncodeToString(b[1..])
  }

  /** An odd length or a character that is no hex digit is an error. */
  function DecodeString(s: string): (r: Option<bytes>)
    ensures r.Some? ==> |s| == 2 * |r.value|
  {
    if s == "" then Some([])
    else if |s| == 1 then None
    else
      match (DigitValue(s[0]), DigitValue(s[1]), DecodeString(s[2..]))
      case (Some(hi), Some(lo), Some(tail)) => Some([Octet(hi, lo)] + tail)
      case _ => None
  }

  function Octet(hi: int, lo: int): byte {
    (16 * hi + lo) % 0x100
  }

  predicate IsHex(s: string) {
    |s| % 2 == 0 && forall i | 0 <= i < |s| :: DigitValue(s[i]).Some?
  }

  function Lower(c: char): char {
    if 'A' <= c <= 'F' then (c as int - 'A' as int + 'a' as int) as char else c
  }

  function LowerCase(s: string): string {
    seq(|s|, i requires 0 <= i < |s| => Lower(s[i]))
  }

  lemma DigitRoundTrip(v: int)
    requires 0 <= v < 16
    ensures DigitValue(Digit(v)) == Some(v)
  {
  }

  lemma DigitOfValue(c: char)
    requires DigitValue(c).Some?
    ensures 0 <= DigitValue(c).value < 16 && Digit(DigitValue(c).value) == Lower(c)
  {
  }

  lemma DecodeStep(x: byte, s: string)
    ensures DecodeString([Digit(x / 16), Digit(x % 16)] + s) == if DecodeString(s).Some? then Some([x] + DecodeString(s).value) else None
  {
    DigitRoundTrip(x / 16);
    DigitRoundTrip(x % 16);
    assert Octet(x / 16, x % 16) == x;
    hide Digit, DigitValue, Octet;
    assert ([Digit(x / 16), Digit(x % 16)] + s)[2..] == s;
  }

  lemma {:induction false} EncodeThenDecode(b: bytes)
    ensures DecodeString(EncodeToString(b)) == Some(b)
  {
    if b == [] {
      assert DecodeString("") == Some([]);
    } else {
      hide DecodeString, Digit;
      EncodeThenDecode(b[1..]);
      DecodeStep(b[0], EncodeToString(b[1..]));
      assert b == [b[0]] + b[1..];
    }
  }

  lemma IsHexStep(s: string)
    requires |s| >= 2
    ensures IsHex(s) <==> DigitValue(s[0]).Some? && DigitValue(s[1]).Some? && IsHex(s[2..])
  {
    assert forall i | 0 <= i < |s| - 2 :: s[2..][i] == s[i + 2];
    if DigitValue(s[0]).Some? && DigitValue(s[1]).Some? && IsHex(s[2..]) {
      forall i | 0 <= i < |s| ensures DigitValue(s[i]).Some? {
        if i >= 2 {
          assert s[i] == s[2..][i - 2];
        }
      }
    }
  }

  lemma {:induction false} DecodesExactlyHex(s: string)
    ensures DecodeString(s).Some? <==> IsHex(s)
  {
    if |s| >= 2 {
      DecodesExactlyHex(s[2..]);
      IsHexStep(s);
    }
  }

  lemma OctetDigits(hi: int, lo: int)
    requires 0 <= hi < 16 && 0 <= lo < 16
    ensures Octet(hi, lo) / 16 == hi && Octet(hi, lo) % 16 == lo
  {
  }

  lemma LowerCaseStep(s: string)
    requires |s| >= 2
    ensures LowerCase(s) == [Lower(s[0]), Lower(s[1])] + LowerCase(s[2..])
  {
  }

  /** What the decoder accepts, and that it loses nothing but the letter case. */
  lemma {:induction false} DecodeThenEncode(s: string)
    ensures DecodeString(s).Some? <==> IsHex(s)
    ensures DecodeString(s).Some? ==> EncodeToString(DecodeString(s).value) == LowerCase(s)
  {
    DecodesExactlyHex(s);
    if |s| >= 2 && DecodeString(s).Some? {
      DecodeThenEncode(s[2..]);
      DigitOfValue(s[0]);
      DigitOfValue(s[1]);
      var hi, lo, tail := DigitValue(s[0]).value, DigitValue(s[1]).value, DecodeString(s[2..]).value;
      OctetDigits(hi, lo);
      LowerCaseStep(s);
      assert ([Octet(hi, lo)] + tail)[1..] == tail;
    }
  }
  /** A text decodes to some bytes exactly when it is their encoding up to letter case. */
  lemma DecodesExactly(s: string, b: bytes)
    ensures DecodeString(s) == Some(b) <==> EncodeToString(b) == LowerCase(s)
  {
    DecodeThenEncode(s);
    EncodeThenDecode(b);
    if EncodeToString(b) == LowerCase(s) {
      EncodingIsHex(b);
      forall i | 0 <= i < |s| ensures DigitValue(s[i]).Some? {
        assert DigitValue(LowerCase(s)[i]).Some?;
      }
      EncodeThenDecode(DecodeString(s).value);
    }
  }

  lemma EncodingIsHex(b: bytes)
    ensures IsHex(EncodeToString(b))
  {
    EncodeThenDecode(b);
    DecodesExactlyHex(EncodeToString(b));
  }

  /** Each byte is two characters of the alphabet, the high four bits first. */
  lemma {:induction false} EncodesNibbles(b: bytes, k: nat)
    requires k < |b|
    ensures EncodeToString(b)[2 * k] == "0123456789abcdef"[b[k] / 16]
    ensures EncodeToString(b)[2 * k + 1] == "0123456789abcdef"[b[k] % 16]
  {
    if k > 0 {
      EncodesNibbles(b[1..], k - 1);
    }
  }

  /** The characters that are read. */
  lemma ReadsDigits(c: char)
    ensures DigitValue(c).Some? <==> c in "0123456789abcdefABCDEF"
  {
    assert forall v | 0 <= v < 22 :: DigitValue("0123456789abcdefABCDEF"[v]).Some?;
    if DigitValue(c).Some? {
      var v := DigitValue(c).value;
      assert c == "0123456789abcdefABCDEF"[v] || c == "0123456789abcdefABCDEF"[v + 6];
    }
  }
}
