/** UTF-8 by its characters, as RFC 3629 has it, and the scanner that checks it byte by byte. */
module Utf8 {
  import opened Wire

  /** A Unicode scalar value. */
  predicate Scalar(c: nat) {
    c <= 0x10FFFF && !(0xD800 <= c <= 0xDFFF)
  }

  function Char(c: nat): bytes
    requires Scalar(c)
  {
    if c < 0x80 then [c]
    else if c < 0x800 then [0xC0 + c / 64, 0x80 + c % 64]
    else if c < 0x1_0000 then [0xE0 + c / 4096, 0x80 + c / 64 % 64, 0x80 + c % 64]
    else [0xF0 + c / 262144, 0x80 + c / 4096 % 64, 0x80 + c / 64 % 64, 0x80 + c % 64]
  }

  predicate Scalars(cs: seq<nat>) {
    forall i {:trigger cs[i]} | 0 <= i < |cs| :: Scalar(cs[i])
  }

  function Chars(cs: seq<nat>): bytes
    requires Scalars(cs)
  {
    if cs == [] then [] else Char(cs[0]) + Chars(cs[1..])
  }

  lemma CharInFront(c: nat, rest: bytes)
    requires Scalar(c)
    ensures CharLen(Char(c) + rest) == |Char(c)| > 0
  {
    var b := Char(c) + rest;
    assert forall i {:trigger b[i]} | 0 <= i < |Char(c)| :: b[i] == Char(c)[i];
  }

  lemma CharOfTwo(x: int, y: int)
    requires 2 <= x < 32 && 0 <= y < 64
    ensures var c := x * 64 + y; 0x80 <= c < 0x800 && Char(c) == [0xC0 + x, 0x80 + y]
  {
  }

  lemma CharOfThree(x: int, y: int, z: int)
    requires 0 <= x < 16 && 0 <= y < 64 && 0 <= z < 64 && (x == 0 ==> y >= 32) && (x == 13 ==> y < 32)
    ensures var c := x * 4096 + y * 64 + z; 0x800 <= c < 0x1_0000 && Scalar(c) && Char(c) == [0xE0 + x, 0x80 + y, 0x80 + z]
  {
    var c := x * 4096 + y * 64 + z;
    assert c / 64 == x * 64 + y && c / 4096 == x;
  }

  lemma CharOfFour(x: int, y: int, z: int, w: int)
    requires 0 <= x < 5 && 0 <= y < 64 && 0 <= z < 64 && 0 <= w < 64 && (x == 0 ==> y >= 16) && (x == 4 ==> y < 16)
    ensures var c := x * 262144 + y * 4096 + z * 64 + w;
            0x1_0000 <= c && Scalar(c) && Char(c) == [0xF0 + x, 0x80 + y, 0x80 + z, 0x80 + w]
  {
    var c := x * 262144 + y * 4096 + z * 64 + w;
    assert c / 64 == x * 4096 + y * 64 + z && c / 4096 == x * 64 + y && c / 262144 == x;
  }

  /** The character at the front, put together from its bytes. */
  lemma FrontChar(b: bytes) returns (c: nat)
    requires b != [] && CharLen(b) > 0
    ensures Scalar(c) && b[..CharLen(b)] == Char(c)
  {
    hide Char;
    if CharLen(b) == 1 {
      c := b[0];
      CharOfOne(c);
    } else if CharLen(b) == 2 {
      c := ((b[0] as int) - 0xC0) * 64 + b[1] - 0x80;
      CharOfTwo((b[0] as int) - 0xC0, (b[1] as int) - 0x80);
    } else if CharLen(b) == 3 {
      c := ((b[0] as int) - 0xE0) * 4096 + ((b[1] as int) - 0x80) * 64 + b[2] - 0x80;
      CharOfThree((b[0] as int) - 0xE0, (b[1] as int) - 0x80, (b[2] as int) - 0x80);
    } else {
      c := ((b[0] as int) - 0xF0) * 262144 + ((b[1] as int) - 0x80) * 4096 + ((b[2] as int) - 0x80) * 64 + b[3] - 0x80;
      CharOfFour((b[0] as int) - 0xF0, (b[1] as int) - 0x80, (b[2] as int) - 0x80, (b[3] as int) - 0x80);
    }
  }

  lemma CharOfOne(c: nat)
    requires c < 0x80
    ensures Char(c) == [c]
  {
  }

  lemma {:induction false} CharsValid(cs: seq<nat>)
    requires Scalars(cs)
    ensures ValidUtf8(Chars(cs))
  {
    hide CharLen, Char, Scalar;
    if cs != [] {
      var b, more := Chars(cs), Chars(cs[1..]);
      CharInFront(cs[0], more);
      assert b == Char(cs[0]) + more && b[|Char(cs[0])|..] == more;
      CharsValid(cs[1..]);
    }
  }

  lemma {:induction false} ValidChars(b: bytes) returns (cs: seq<nat>)
    requires ValidUtf8(b)
    ensures Scalars(cs) && Chars(cs) == b
    decreases |b|
  {
    hide CharLen, Char, Scalar;
    if b == [] {
      cs := [];
    } else {
      var c := FrontChar(b);
      var more := ValidChars(b[CharLen(b)..]);
      cs := [c] + more;
      assert cs[1..] == more && b == b[..CharLen(b)] + b[CharLen(b)..];
    }
  }

  /** The scanner accepts exactly the encodings of sequences of Unicode scalar values. */
  lemma ValidExactlyIfChars(b: bytes)
    ensures ValidUtf8(b) <==> exists cs :: Scalars(cs) && Chars(cs) == b
  {
    hide ValidUtf8, Chars, Scalars;
    if ValidUtf8(b) {
      var cs := ValidChars(b);
    }
    forall cs | Scalars(cs) && Chars(cs) == b ensures ValidUtf8(b) {
      CharsValid(cs);
    }
  }
}
