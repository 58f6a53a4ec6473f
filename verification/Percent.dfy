/**
 Percent-encoding as AWS Signature Version 4 wants it (sections 2.1 and 2.3 of RFC 3986):
 unreserved bytes stay, every other byte becomes '%' and two upper-case hex digits.
 */
module Percent {
  import opened Options
  import opened ByteStrings

  const PERCENT: Byte := 37

  predicate Unreserved(c: Byte) {
    65 <= c <= 90 || 97 <= c <= 122 || 48 <= c <= 57 || c == 45 || c == 46 || c == 95 || c == 126
  }

  function HexDigit(v: nat): Byte
    requires v < 16
  {
    if v < 10 then 48 + v else 65 + (v - 10)
  }

  function HexValue(c: Byte): (v: Option<nat>)
    ensures v.Some? ==> v.value < 16
  {
    if 48 <= c <= 57 then Some(c - 48)
    else if 65 <= c <= 70 then Some(c - 65 + 10)
    else if 97 <= c <= 102 then Some(c - 97 + 10)
    else None
  }

  function EncodeByte(c: Byte): Bytes {
    if Unreserved(c) then [c] else [PERCENT, HexDigit(c / 16), HexDigit(c % 16)]
  }

  function Encode(s: Bytes): Bytes {
    if s == [] then [] else EncodeByte(s[0]) + Encode(s[1..])
  }

  // None for a '%' without two hex digits.
  function Decode(s: Bytes): Option<Bytes> {
    if s == [] then Some([])
    else if s[0] != PERCENT then
      var rest := Decode(s[1..]);
      if rest.None? then None else Some([s[0]] + rest.value)
    else if |s| < 3 || HexValue(s[1]).None? || HexValue(s[2]).None? then None
    else
      var rest := Decode(s[3..]);
      if rest.None? then None else Some([HexValue(s[1]).value * 16 + HexValue(s[2]).value] + rest.value)
  }

  // Only unreserved bytes and '%' appear, so '&', '=' and '/' never do.
  lemma {:induction false} EncodeAlphabet(s: Bytes)
    ensures forall c | c in Encode(s) :: Unreserved(c) || c == PERCENT
  {
    if s == [] {
    } else {
      EncodeAlphabet(s[1..]);
    }
  }

  lemma {:induction false} RoundTrip(s: Bytes)
    ensures Decode(Encode(s)) == Some(s)
  {
    if s == [] {
    } else {
      RoundTrip(s[1..]);
      var e := Encode(s);
      assert s == [s[0]] + s[1..];
      if Unreserved(s[0]) {
        assert e[1..] == Encode(s[1..]);
      } else {
        assert e[3..] == Encode(s[1..]);
        assert HexValue(e[1]) == Some(s[0] / 16) && HexValue(e[2]) == Some(s[0] % 16);
      }
    }
  }

  lemma {:induction false} EncodeAppend(s: Bytes, c: Byte)
    ensures Encode(s + [c]) == Encode(s) + EncodeByte(c)
  {
    var t := s + [c];
    if s == [] {
      assert t == [c] && t[1..] == [];
    } else {
      EncodeAppend(s[1..], c);
      assert t[0] == s[0] && t[1..] == s[1..] + [c];
      Regroup(EncodeByte(s[0]), Encode(s[1..]), EncodeByte(c));
    }
  }

  lemma Regroup(a: Bytes, b: Bytes, c: Bytes)
    ensures a + b + c == a + (b + c)
  {
  }

  lemma EncodeNext(s: Bytes, i: nat)
    requires i < |s|
    ensures Encode(s[..i + 1]) == Encode(s[..i]) + EncodeByte(s[i])
  {
    EncodeAppend(s[..i], s[i]);
    assert s[..i + 1] == s[..i] + [s[i]];
  }

  // "0123456789ABCDEF"
  const UPPER_HEX: Bytes := [48, 49, 50, 51, 52, 53, 54, 55, 56, 57, 65, 66, 67, 68, 69, 70]

  predicate LetterOrDigit(c: Byte) {
    65 <= c <= 90 || 97 <= c <= 122 || 48 <= c <= 57
  }

  // A letter, a digit, '-', '.', '_' or '~' stands for itself; any other byte is '%' and its
  // two upper-case hex digits, the high one first.
  lemma ByteSpelling(c: Byte)
    ensures Encode([c]) == if LetterOrDigit(c) || c in {45, 46, 95, 126} then [c] else [37, UPPER_HEX[c / 16], UPPER_HEX[c % 16]]
  {
    assert Encode([c]) == EncodeByte(c) + Encode([]);
  }

  predicate UpperHexDigit(d: Byte) {
    48 <= d <= 57 || 65 <= d <= 70
  }

  // Every '%' is followed by two upper-case hex digits.
  lemma {:induction false} EscapesAreUpperCase(s: Bytes)
    ensures forall i | 0 <= i < |Encode(s)| && Encode(s)[i] == 37 ::
      && i + 2 < |Encode(s)|
      && UpperHexDigit(Encode(s)[i + 1]) && UpperHexDigit(Encode(s)[i + 2])
  {
    if s == [] {
    } else {
      EscapesAreUpperCase(s[1..]);
      var head, tail, e := EncodeByte(s[0]), Encode(s[1..]), Encode(s);
      forall i | 0 <= i < |e| && e[i] == 37
        ensures i + 2 < |e| && UpperHexDigit(e[i + 1]) && UpperHexDigit(e[i + 2])
      {
        if i >= |head| {
          assert tail[i - |head|] == 37;
          assert e[i + 1] == tail[i - |head| + 1] && e[i + 2] == tail[i - |head| + 2];
        } else {
          assert i == 0 && e[1] == head[1] && e[2] == head[2];
        }
      }
    }
  }
}
