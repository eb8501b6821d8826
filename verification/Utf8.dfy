/** What becomes of bytes that are written as a JSON string and read again: well-formed UTF-8 (section 4 of RFC 3629)
    comes back as it was, and every byte that is not part of it comes back as the replacement character. */
module Utf8 {
  import opened Basics

  /** U+FFFD. */
  const REPLACEMENT: Bytes := [239, 191, 189]

  predicate Trails(b: Bytes, from: nat, to: nat)
    requires from <= to
  {
    to <= |b| && forall i :: from <= i < to ==> 128 <= b[i] < 192
  }

  /** The second byte that may follow a first one. */
  predicate Follows(first: byte, second: byte) {
    if first == 224 then 160 <= second < 192
    else if first == 237 then 128 <= second < 160
    else if first == 240 then 144 <= second < 192
    else if first == 244 then 128 <= second < 144
    else 128 <= second < 192
  }

  /** How long the well-formed character at the front is; 0 if there is none. */
  function RuneLength(b: Bytes): (n: nat)
    ensures n <= |b|
  {
    if b == [] then 0
    else if b[0] < 128 then 1
    else if |b| == 1 || !Follows(b[0], b[1]) then 0
    else if 194 <= b[0] < 224 then 2
    else if 224 <= b[0] < 240 then (if Trails(b, 2, 3) then 3 else 0)
    else if 240 <= b[0] < 245 then (if Trails(b, 2, 4) then 4 else 0)
    else 0
  }

  predicate Valid(b: Bytes) { b == [] || (RuneLength(b) > 0 && Valid(b[RuneLength(b)..])) }

  /** The bytes written and read again. */
  function Sanitized(b: Bytes): Bytes {
    if b == [] then []
    else if RuneLength(b) == 0 then REPLACEMENT + Sanitized(b[1..])
    else b[..RuneLength(b)] + Sanitized(b[RuneLength(b)..])
  }

  lemma {:induction false} SanitizedLonger(b: Bytes)
    ensures |Sanitized(b)| >= |b|
  {
    if b != [] {
      SanitizedLonger(b[if RuneLength(b) == 0 then 1 else RuneLength(b)..]);
    }
  }

  /** Bytes come back unchanged exactly when they are well-formed. */
  lemma {:induction false} UnchangedExactly(b: Bytes)
    ensures Sanitized(b) == b <==> Valid(b)
  {
    hide Trails, Follows;
    if b != [] {
      var n := RuneLength(b);
      if n == 0 {
        SanitizedLonger(b[1..]);
      } else {
        UnchangedExactly(b[n..]);
        assert b == b[..n] + b[n..];
        assert Sanitized(b)[n..] == Sanitized(b[n..]);
      }
    }
  }

  /** The length of the first character depends on that character alone. */
  lemma RuneAlone(b: Bytes, rest: Bytes)
    requires RuneLength(b) > 0
    ensures RuneLength(b + rest) == RuneLength(b)
    ensures RuneLength(b[..RuneLength(b)]) == RuneLength(b)
  {
  }

  lemma {:induction false} ValidConcat(a: Bytes, b: Bytes)
    requires Valid(a) && Valid(b)
    ensures Valid(a + b)
  {
    hide RuneLength;
    if a == [] {
      assert a + b == b;
    } else {
      var n := RuneLength(a);
      RuneAlone(a, b);
      ValidConcat(a[n..], b);
      assert (a + b)[n..] == a[n..] + b;
    }
  }

  /** What comes back is well-formed, so writing it once more changes nothing. */
  lemma {:induction false} SanitizedIsValid(b: Bytes)
    ensures Valid(Sanitized(b)) && Sanitized(Sanitized(b)) == Sanitized(b)
  {
    hide RuneLength;
    if b != [] {
      var n := RuneLength(b);
      if n == 0 {
        SanitizedIsValid(b[1..]);
        ReplacementIsValid();
        ValidConcat(REPLACEMENT, Sanitized(b[1..]));
      } else {
        SanitizedIsValid(b[n..]);
        RuneAlone(b, []);
        assert b[..n][n..] == [];
        ValidConcat(b[..n], Sanitized(b[n..]));
      }
    }
    UnchangedExactly(Sanitized(b));
  }

  lemma {:induction false} AsciiIsValid(b: Bytes)
    requires forall i :: 0 <= i < |b| ==> b[i] < 128
    ensures Valid(b)
  {
    if b != [] {
      AsciiIsValid(b[1..]);
    }
  }

  lemma ReplacementIsValid()
    ensures Valid(REPLACEMENT)
  {
    assert REPLACEMENT[3..] == [];
  }

  /** One byte that no character starts with. */
  lemma LoneByte()
    ensures !Valid([255]) && Sanitized([255]) == REPLACEMENT
  {
    assert [255][1..] == [];
  }

  // ---- What well-formed means ----

  /** The characters there are: every code point but the surrogates. */
  predicate Scalar(c: int) { 0 <= c < 0xD800 || 0xE000 <= c <= 0x10FFFF }

  /** The encoding of one character, by the table in section 3 of RFC 3629. */
  function Encode(c: int): Bytes
    requires Scalar(c)
  {
    if c < 0x80 then [c as byte]
    else if c < 0x800 then [(0xC0 + c / 64) as byte, (0x80 + c % 64) as byte]
    else if c < 0x1_0000 then [(0xE0 + c / 4096) as byte, (0x80 + c / 64 % 64) as byte, (0x80 + c % 64) as byte]
    else [(0xF0 + c / 262144) as byte, (0x80 + c / 4096 % 64) as byte, (0x80 + c / 64 % 64) as byte, (0x80 + c % 64) as byte]
  }

  ghost predicate AllScalars(cs: seq<int>) { forall i :: 0 <= i < |cs| ==> Scalar(cs[i]) }

  function EncodeAll(cs: seq<int>): Bytes
    requires AllScalars(cs)
  {
    if cs == [] then [] else Encode(cs[0]) + EncodeAll(cs[1..])
  }

  /** The first byte of a longer encoding, and the second, are ones the table allows. */
  lemma ThreeByteHead(c: int)
    requires Scalar(c) && 0x800 <= c < 0x1_0000
    ensures 224 <= 0xE0 + c / 4096 < 240 && 128 <= 0x80 + c / 64 % 64 < 192 && 128 <= 0x80 + c % 64 < 192
    ensures Follows((0xE0 + c / 4096) as byte, (0x80 + c / 64 % 64) as byte)
  {
  }

  lemma FourByteHead(c: int)
    requires Scalar(c) && 0x1_0000 <= c
    ensures 240 <= 0xF0 + c / 262144 < 245 && 128 <= 0x80 + c / 4096 % 64 < 192
    ensures 128 <= 0x80 + c / 64 % 64 < 192 && 128 <= 0x80 + c % 64 < 192
    ensures Follows((0xF0 + c / 262144) as byte, (0x80 + c / 4096 % 64) as byte)
  {
  }

  lemma EncodedIsRune(c: int, rest: Bytes)
    requires Scalar(c)
    ensures RuneLength(Encode(c) + rest) == |Encode(c)| > 0
  {
    hide Follows;
    var e := Encode(c);
    var b := e + rest;
    assert forall i :: 0 <= i < |e| ==> b[i] == e[i];
    if c < 0x80 {
      assert b[0] < 128;
    } else if c < 0x800 {
      assert Follows(b[0], b[1]) by { TwoByteHead(c); }
    } else if c < 0x1_0000 {
      ThreeByteHead(c);
      assert Follows(b[0], b[1]) && Trails(b, 2, 3);
    } else {
      FourByteHead(c);
      assert Follows(b[0], b[1]) && Trails(b, 2, 4);
    }
  }

  lemma TwoByteHead(c: int)
    requires 0x80 <= c < 0x800
    ensures 194 <= 0xC0 + c / 64 < 224 && Follows((0xC0 + c / 64) as byte, (0x80 + c % 64) as byte)
  {
  }

  lemma RuneIsEncoded(b: Bytes) returns (c: int)
    requires RuneLength(b) > 0
    ensures Scalar(c) && Encode(c) == b[..RuneLength(b)]
  {
    var n := RuneLength(b);
    if n == 1 {
      c := b[0] as int;
    } else if n == 2 {
      c := (b[0] as int - 0xC0) * 64 + (b[1] as int - 0x80);
    } else if n == 3 {
      assert Follows(b[0], b[1]) && Trails(b, 2, 3);
      c := ThreeBytes(b[0] as int - 0xE0, b[1] as int - 0x80, b[2] as int - 0x80);
    } else {
      assert Follows(b[0], b[1]) && Trails(b, 2, 4);
      c := FourBytes(b[0] as int - 0xF0, b[1] as int - 0x80, b[2] as int - 0x80, b[3] as int - 0x80);
    }
  }

  lemma ThreeBytes(x: int, y: int, z: int) returns (c: int)
    requires 0 <= x < 16 && 0 <= y < 64 && 0 <= z < 64
    ensures c == x * 4096 + y * 64 + z && c / 4096 == x && c / 64 % 64 == y && c % 64 == z
  {
    c := x * 4096 + y * 64 + z;
    assert c / 64 == x * 64 + y;
  }

  lemma FourBytes(w: int, x: int, y: int, z: int) returns (c: int)
    requires 0 <= w < 8 && 0 <= x < 64 && 0 <= y < 64 && 0 <= z < 64
    ensures c == w * 262144 + x * 4096 + y * 64 + z
    ensures c / 262144 == w && c / 4096 % 64 == x && c / 64 % 64 == y && c % 64 == z
  {
    c := w * 262144 + x * 4096 + y * 64 + z;
    assert c / 64 == w * 4096 + x * 64 + y;
    assert c / 4096 == w * 64 + x;
  }

  /** The bytes begin with the encoding of this character. */
  predicate StartsWith(b: Bytes, c: int) { Scalar(c) && Encode(c) <= b }

  /** Bytes are well-formed exactly when they are the encoding of some characters. */
  lemma {:induction false} ValidMeaning(b: Bytes)
    ensures Valid(b) <==> exists cs :: AllScalars(cs) && EncodeAll(cs) == b
  {
    hide RuneLength, Encode;
    if Valid(b) {
      var cs := Decoded(b);
    }
    forall cs | AllScalars(cs) && EncodeAll(cs) == b
      ensures Valid(b)
    {
      EncodedIsValid(cs);
    }
  }

  lemma {:induction false} Decoded(b: Bytes) returns (cs: seq<int>)
    requires Valid(b)
    ensures AllScalars(cs) && EncodeAll(cs) == b
  {
    hide RuneLength, Encode;
    if b == [] {
      cs := [];
    } else {
      var n := RuneLength(b);
      var c := RuneIsEncoded(b);
      var rest := Decoded(b[n..]);
      cs := [c] + rest;
      assert cs[1..] == rest && b == b[..n] + b[n..];
    }
  }

  lemma {:induction false} EncodedIsValid(cs: seq<int>)
    requires AllScalars(cs)
    ensures Valid(EncodeAll(cs))
  {
    hide RuneLength, Encode;
    if cs != [] {
      var b, c, rest := EncodeAll(cs), cs[0], EncodeAll(cs[1..]);
      EncodedIsRune(c, rest);
      EncodedIsValid(cs[1..]);
      assert b[|Encode(c)|..] == rest;
    }
  }

  /** Reading a string back goes through it once: a character's encoding is kept, and a byte that begins none is replaced by the
      encoding of U+FFFD. */
  lemma SanitizedMeaning(b: Bytes)
    ensures Sanitized([]) == []
    ensures forall c :: StartsWith(b, c) ==> Sanitized(b) == Encode(c) + Sanitized(b[|Encode(c)|..])
    ensures b != [] && (forall c :: !StartsWith(b, c)) ==> Sanitized(b) == Encode(0xFFFD) + Sanitized(b[1..])
  {
    assert Encode(0xFFFD) == REPLACEMENT;
    forall c | StartsWith(b, c)
      ensures Sanitized(b) == Encode(c) + Sanitized(b[|Encode(c)|..])
    {
      StartIsKept(b, c);
    }
    if RuneLength(b) > 0 {
      var c := RuneIsEncoded(b);
      assert StartsWith(b, c);
    }
  }

  lemma StartIsKept(b: Bytes, c: int)
    requires StartsWith(b, c)
    ensures Sanitized(b) == Encode(c) + Sanitized(b[|Encode(c)|..])
  {
    hide RuneLength, Encode;
    var n := |Encode(c)|;
    EncodedIsRune(c, b[n..]);
    assert b == Encode(c) + b[n..] && b[..n] == Encode(c);
  }
}
