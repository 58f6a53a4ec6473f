/**
 Unpadded base64url (section 5 of RFC 4648) as base64.RawURLEncoding does it: decoding skips
 carriage returns and newlines and does not look at the unused bits of the last character.
 */
module Base64Url {
  import opened Options
  import opened ByteStrings

  type Sextet = x: int | 0 <= x < 64

  function Letter(v: Sextet): (c: Byte)
    ensures c != 46 && c != 10 && c != 13 // never '.', nor a line break
  {
    if v < 26 then 65 + v
    else if v < 52 then 97 + (v - 26)
    else if v < 62 then 48 + (v - 52)
    else if v == 62 then 45
    else 95
  }

  // None for a byte outside the alphabet.
  function Value(c: Byte): (v: Option<Sextet>)
    ensures v.Some? ==> Letter(v.value) == c
  {
    if 65 <= c <= 90 then Some(c - 65)
    else if 97 <= c <= 122 then Some(c - 97 + 26)
    else if 48 <= c <= 57 then Some(c - 48 + 52)
    else if c == 45 then Some(62)
    else if c == 95 then Some(63)
    else None
  }

  function Encode(s: Bytes): (r: Bytes)
    ensures forall c | c in r :: c != 46 && c != 10 && c != 13
  {
    if |s| == 0 then []
    else if |s| == 1 then [Letter(s[0] / 4), Letter(s[0] % 4 * 16)]
    else if |s| == 2 then [Letter(s[0] / 4), Letter(s[0] % 4 * 16 + s[1] / 16), Letter(s[1] % 16 * 4)]
    else
      [Letter(s[0] / 4), Letter(s[0] % 4 * 16 + s[1] / 16), Letter(s[1] % 16 * 4 + s[2] / 64), Letter(s[2] % 64)]
      + Encode(s[3..])
  }

  function SkipLineBreaks(s: Bytes): Bytes {
    if s == [] then []
    else (if s[0] == 10 || s[0] == 13 then [] else [s[0]]) + SkipLineBreaks(s[1..])
  }

  lemma {:induction false} NothingToSkip(s: Bytes)
    requires 10 !in s && 13 !in s
    ensures SkipLineBreaks(s) == s
  {
    if s == [] {
    } else {
      NothingToSkip(s[1..]);
      assert s == [s[0]] + s[1..];
    }
  }

  function DecodeLetters(s: Bytes): Option<Bytes> {
    if |s| == 0 then Some([])
    else if |s| == 1 then None
    else
      var a, b := Value(s[0]), Value(s[1]);
      if a.None? || b.None? then None
      else
        var first := a.value * 4 + b.value / 16;
        if |s| == 2 then Some([first])
        else
          var c := Value(s[2]);
          if c.None? then None
          else
            var second := b.value % 16 * 16 + c.value / 4;
            if |s| == 3 then Some([first, second])
            else
              var d, rest := Value(s[3]), DecodeLetters(s[4..]);
              if d.None? || rest.None? then None
              else Some([first, second, c.value % 4 * 64 + d.value] + rest.value)
  }

  function Decode(s: Bytes): Option<Bytes> {
    DecodeLetters(SkipLineBreaks(s))
  }

  lemma ValueOfLetter(v: Sextet)
    ensures Value(Letter(v)) == Some(v)
  {
  }

  // The high bits of one byte and the low bits of its neighbour share a character.
  lemma Halves(hi: nat, lo: nat, width: nat)
    requires lo < width && (width == 4 || width == 16)
    ensures (hi * width + lo) / width == hi && (hi * width + lo) % width == lo
  {
    if width == 4 {
      assert (hi * 4 + lo) / 4 == hi;
    } else {
      assert (hi * 16 + lo) / 16 == hi;
    }
  }

  lemma OneByte(a: Byte)
    ensures DecodeLetters(Encode([a])) == Some([a])
  {
    ValueOfLetter(a / 4);
    ValueOfLetter(a % 4 * 16);
    Halves(a % 4, 0, 16);
  }

  lemma TwoBytes(a: Byte, b: Byte)
    ensures DecodeLetters(Encode([a, b])) == Some([a, b])
  {
    ValueOfLetter(a / 4);
    ValueOfLetter(a % 4 * 16 + b / 16);
    ValueOfLetter(b % 16 * 4);
    Halves(a % 4, b / 16, 16);
    Halves(b % 16, 0, 4);
    var e := Encode([a, b]);
    assert Value(e[0]) == Some(a / 4) && Value(e[1]) == Some(a % 4 * 16 + b / 16) && Value(e[2]) == Some(b % 16 * 4);
  }

  lemma ThreeBytes(a: Byte, b: Byte, c: Byte, rest: Bytes)
    requires DecodeLetters(rest).Some?
    ensures DecodeLetters(Encode([a, b, c]) + rest) == Some([a, b, c] + DecodeLetters(rest).value)
  {
    ValueOfLetter(a / 4);
    ValueOfLetter(a % 4 * 16 + b / 16);
    ValueOfLetter(b % 16 * 4 + c / 64);
    ValueOfLetter(c % 64);
    Halves(a % 4, b / 16, 16);
    Halves(b % 16, c / 64, 4);
    var e := Encode([a, b, c]) + rest;
    assert |Encode([a, b, c])| == 4 && e[4..] == rest;
    assert Value(e[0]) == Some(a / 4) && Value(e[1]) == Some(a % 4 * 16 + b / 16);
    assert Value(e[2]) == Some(b % 16 * 4 + c / 64) && Value(e[3]) == Some(c % 64);
  }

  lemma {:induction false} LettersRoundTrip(s: Bytes)
    ensures DecodeLetters(Encode(s)) == Some(s)
  {
    if |s| == 0 {
    } else if |s| == 1 {
      OneByte(s[0]);
      assert s == [s[0]];
    } else if |s| == 2 {
      TwoBytes(s[0], s[1]);
      assert s == [s[0], s[1]];
    } else {
      LettersRoundTrip(s[3..]);
      ThreeBytes(s[0], s[1], s[2], Encode(s[3..]));
      assert Encode(s) == Encode([s[0], s[1], s[2]]) + Encode(s[3..]);
      assert s == [s[0], s[1], s[2]] + s[3..];
    }
  }

  lemma RoundTrip(s: Bytes)
    ensures Decode(Encode(s)) == Some(s)
  {
    NothingToSkip(Encode(s));
    LettersRoundTrip(s);
  }

  // The alphabet of section 5 of RFC 4648: A to Z, a to z, 0 to 9, '-' and '_', in this order.
  lemma Alphabet(v: Sextet)
    ensures Letter(0) == 65 && Letter(26) == 97 && Letter(52) == 48 && Letter(62) == 45 && Letter(63) == 95
    ensures v < 25 || 26 <= v < 51 || 52 <= v < 61 ==> Letter(v + 1) == Letter(v) + 1
  {
  }

  // Three bytes are one 24-bit number, written in four digits of base 64.
  lemma GroupSpelling(a: Byte, b: Byte, c: Byte, rest: Bytes) returns (w: Sextet, x: Sextet, y: Sextet, z: Sextet)
    ensures Encode([a, b, c] + rest) == [Letter(w), Letter(x), Letter(y), Letter(z)] + Encode(rest)
    ensures ((w * 64 + x) * 64 + y) * 64 + z == (a * 256 + b) * 256 + c
  {
    w, x, y, z := a / 4, a % 4 * 16 + b / 16, b % 16 * 4 + c / 64, c % 64;
    assert ([a, b, c] + rest)[3..] == rest;
  }

  // One or two bytes at the end are filled up with zero bits.
  lemma EndSpelling(a: Byte, b: Byte) returns (w: Sextet, x: Sextet, y: Sextet, x': Sextet)
    ensures Encode([a, b]) == [Letter(w), Letter(x), Letter(y)] && (w * 64 + x) * 64 + y == (a * 256 + b) * 4
    ensures Encode([a]) == [Letter(w), Letter(x')] && w * 64 + x' == a * 16
    ensures Encode([]) == []
  {
    w, x, y, x' := a / 4, a % 4 * 16 + b / 16, b % 16 * 4, a % 4 * 16;
  }
}
