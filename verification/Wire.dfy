/** Bytes on the wire: buffers, big-endian numbers, the variable byte integer and length-prefixed bytes. */
module Wire {
  import opened Common

  type byte = b: int | 0 <= b < 256
  type bytes = seq<byte>
  type uint16 = n: int | 0 <= n < 0x1_0000
  type uint32 = n: int | 0 <= n < 0x1_0000_0000

  /** The reason codes and errors the codec reports; `Panic` is a run-time fault Decode recovers from. */
  datatype Error =
    | MalformedPacket | ProtocolError | InvalidTopicName | InvalidClientId
    | RefusedServerUnavailable | RefusedIdentifierRejected | RefusedBadUsernameOrPassword
    | InsufficientData | InsufficientBuffer | InvalidLength | InvalidLPStringSize | InvalidTopic | InvalidQoS
    | DupViolation | PacketIdZero | InvalidMessageType | InvalidProtocolVersion | ProtocolInvalidName
    | PropertyInvalidId | PropertyPacketTypeMismatch | PacketTooLarge | EndOfStream | Panic

  datatype Result<+T> = Ok(value: T) | Err(error: Error) {
    predicate IsFailure() { Err? }
    function PropagateFailure<U>(): Result<U>
      requires Err?
    {
      Err(error)
    }
    function Extract(): T
      requires Ok?
    {
      value
    }
  }

  // ---------------------------------------------------------------- writing into a buffer

  /** `after` is `before` with `w` written over it from `off` on. */
  predicate Wrote(before: bytes, after: bytes, off: nat, w: bytes) {
    off + |w| <= |before| && after == before[..off] + w + before[off + |w|..]
  }

  lemma WroteNext(a: bytes, b: bytes, c: bytes, off: nat, v: bytes, w: bytes)
    requires Wrote(a, b, off, v) && Wrote(b, c, off + |v|, w)
    ensures Wrote(a, c, off, v + w)
  {
    assert b[..off + |v|] == a[..off] + v;
    assert b[off + |v| + |w|..] == a[off + |v| + |w|..];
  }

  lemma WroteNothing(a: bytes, off: nat)
    requires off <= |a|
    ensures Wrote(a, a, off, [])
  {
  }

  lemma WroteAll(a: bytes, b: bytes, w: bytes)
    requires Wrote(a, b, 0, w) && |w| == |a|
    ensures b == w
  {
  }

  lemma WroteByte(a: bytes, b: bytes, c: bytes, off: nat, w: bytes, n: nat)
    requires n < |w| && off + |w| <= |a| && Wrote(a, b, off, w[..n]) && c == b[off + n := w[n]]
    ensures Wrote(a, c, off, w[..n + 1])
  {
    assert w[..n + 1] == w[..n] + [w[n]];
  }

  // ---------------------------------------------------------------- big-endian numbers

  function U16(n: uint16): bytes {
    [n / 256, n % 256]
  }

  function U32(n: uint32): bytes {
    [n / 0x100_0000, n / 0x1_0000 % 256, n / 256 % 256, n % 256]
  }

  function ReadU16(b: bytes): uint16
    requires |b| >= 2
  {
    (b[0] as int) * 256 + b[1]
  }

  function ReadU32(b: bytes): uint32
    requires |b| >= 4
  {
    (b[0] as int) * 0x100_0000 + (b[1] as int) * 0x1_0000 + (b[2] as int) * 256 + b[3]
  }

  lemma BigEndianRoundTrip(n: uint16, m: uint32, rest: bytes)
    ensures ReadU16(U16(n) + rest) == n && ReadU32(U32(m) + rest) == m
  {
    TwoRead(U16(n), rest);
    FourRead(U32(m), rest);
    FourDigits(m);
  }

  lemma TwoRead(b: bytes, rest: bytes)
    requires |b| == 2
    ensures ReadU16(b + rest) == (b[0] as int) * 256 + b[1]
  {
    assert (b + rest)[0] == b[0] && (b + rest)[1] == b[1];
  }

  lemma FourRead(b: bytes, rest: bytes)
    requires |b| == 4
    ensures ReadU32(b + rest) == (b[0] as int) * 0x100_0000 + (b[1] as int) * 0x1_0000 + (b[2] as int) * 256 + b[3]
  {
    assert forall i {:trigger b[i]} | 0 <= i < 4 :: (b + rest)[i] == b[i];
  }

  /** The base-256 digits of a number. */
  lemma FourDigits(n: uint32)
    ensures var a := n / 256; var b := a / 256; var c := b / 256;
            b == n / 0x1_0000 && c == n / 0x100_0000 && n == c * 0x100_0000 + b % 256 * 0x1_0000 + a % 256 * 256 + n % 256
  {
    var a := n / 256;
    var b := a / 256;
    assert n == a * 256 + n % 256 && a == b * 256 + a % 256 && b == b / 256 * 256 + b % 256;
  }

  method PutU16(to: array<byte>, off: nat, n: uint16)
    requires off + 2 <= to.Length
    modifies to
    ensures Wrote(old(to[..]), to[..], off, U16(n))
  {
    to[off] := n / 256;
    to[off + 1] := n % 256;
  }

  method PutU32(to: array<byte>, off: nat, n: uint32)
    requires off + 4 <= to.Length
    modifies to
    ensures Wrote(old(to[..]), to[..], off, U32(n))
  {
    to[off] := n / 0x100_0000;
    to[off + 1] := n / 0x1_0000 % 256;
    to[off + 2] := n / 256 % 256;
    to[off + 3] := n % 256;
  }

  method PutBytes(to: array<byte>, off: nat, b: bytes)
    requires off + |b| <= to.Length
    modifies to
    ensures Wrote(old(to[..]), to[..], off, b)
  {
    for i := 0 to |b|
      invariant Wrote(old(to[..]), to[..], off, b[..i])
    {
      ghost var mid := to[..];
      to[off + i] := b[i];
      WroteByte(old(to[..]), mid, to[..], off, b, i);
    }
    assert b[..|b|] == b;
  }

  // ---------------------------------------------------------------- the variable byte integer

  /** The base-128 digits of `x`, least significant first, all but the last with the high bit set. */
  function VarBytes(x: nat): (b: bytes)
    ensures |b| > 0
  {
    if x < 128 then [x] else [x % 128 + 128] + VarBytes(x / 128)
  }

  function VarLen(x: nat): nat {
    if x < 128 then 1 else 1 + VarLen(x / 128)
  }

  /** The number written by base-128 digits, least significant first. */
  function Value(b: bytes): nat {
    if b == [] then 0 else b[0] % 128 + 128 * Value(b[1..])
  }

  /** The index of the first byte without the high bit, or the length when there is none. */
  function Stop(b: bytes): (i: nat)
    ensures i <= |b|
    ensures forall j | 0 <= j < i :: b[j] >= 128
    ensures i < |b| ==> b[i] < 128
  {
    if b == [] || b[0] < 128 then 0 else 1 + Stop(b[1..])
  }

  /** A decoded number and how many bytes it took: 0 when the buffer is too short, negative when the
      number is too large. */
  datatype Varint = Varint(x: nat, n: int)

  function Uvarint(b: bytes): (v: Varint)
    ensures v.n <= |b|
  {
    var i := Stop(b);
    if i == |b| then Varint(0, 0)
    else if i > 4 || (i == 4 && b[4] > 1) then Varint(0, -(i + 1))
    else Varint(Value(b[..i + 1]), i + 1)
  }

  function Pow128(k: nat): (p: nat)
    ensures p > 0
  {
    if k == 0 then 1 else 128 * Pow128(k - 1)
  }

  lemma {:induction false} ValueAppend(b: bytes, d: byte)
    ensures Value(b + [d]) == Value(b) + d % 128 * Pow128(|b|)
  {
    if b == [] {
      assert [d][1..] == [] && [] + [d] == [d];
    } else {
      assert (b + [d])[0] == b[0] && (b + [d])[1..] == b[1..] + [d];
      ValueAppend(b[1..], d);
      assert 128 * (d % 128 * Pow128(|b| - 1)) == d % 128 * (128 * Pow128(|b| - 1));
    }
  }

  lemma {:induction false} ValueBound(b: bytes)
    ensures Value(b) < Pow128(|b|)
  {
    if b != [] { ValueBound(b[1..]); }
  }

  lemma Powers()
    ensures Pow128(1) == 0x80 && Pow128(2) == 0x4000 && Pow128(3) == 0x20_0000 && Pow128(4) == 0x1000_0000
  {
    assert Pow128(0) == 1;
    assert Pow128(1) == 128 * Pow128(0);
    assert Pow128(2) == 128 * Pow128(1);
    assert Pow128(3) == 128 * Pow128(2);
    assert Pow128(4) == 128 * Pow128(3);
  }

  /** What the loop returns is below 2^29, and it never takes more than five bytes. */
  lemma UvarintBound(b: bytes)
    ensures Uvarint(b).n > 0 ==> Uvarint(b).x < 0x2000_0000 && Uvarint(b).n <= 5
  {
    var i := Stop(b);
    if i < |b| && i <= 4 && !(i == 4 && b[4] > 1) {
      assert b[..i + 1] == b[..i] + [b[i]];
      ValueAppend(b[..i], b[i]);
      ValueBound(b[..i]);
      Powers();
    }
  }

  /** One turn of the decoding loop on its 32-bit accumulator: adding stands for the bitwise or, because
      the bits already there are all below the shift. */
  function Accumulate(x: uint32, digit: nat, scale: nat): uint32 {
    (x + digit * scale) % 0x1_0000_0000
  }

  lemma AccumulateIsValue(buf: bytes, i: nat)
    requires i < |buf| && i <= 4 && (i == 4 ==> buf[4] % 128 <= 1)
    ensures Value(buf[..i]) < 0x1_0000_0000
    ensures Accumulate(Value(buf[..i]), buf[i] % 128, Pow128(i)) == Value(buf[..i + 1])
  {
    assert buf[..i + 1] == buf[..i] + [buf[i]];
    ValueAppend(buf[..i], buf[i]);
    ValueBound(buf[..i]);
    ValueBound(buf[..i + 1]);
    Powers();
  }

  method ReadUvarint(buf: bytes) returns (x: uint32, n: int)
    ensures Varint(x, n) == Uvarint(buf)
  {
    x := 0;
    var scale: nat := 1;
    for i := 0 to |buf|
      invariant i <= Stop(buf) && scale == Pow128(i)
      invariant i <= 4 ==> x == Value(buf[..i])
    {
      var b := buf[i];
      if i <= 3 || (i == 4 && b <= 1) {
        AccumulateIsValue(buf, i);
      }
      if b < 0x80 {
        if i > 4 || (i == 4 && b > 1) {
          return 0, -(i + 1);
        }
        return Accumulate(x, b, scale), i + 1;
      }
      x := Accumulate(x, b % 128, scale);
      scale := 128 * scale;
    }
    return 0, 0;
  }

  method UvarintCalc(x: uint32) returns (n: nat)
    ensures n == VarLen(x)
  {
    var y := x;
    var i := 0;
    while y >= 0x80
      invariant y >= 0 && i + VarLen(y) == VarLen(x)
    {
      y := y / 128;
      i := i + 1;
    }
    return i + 1;
  }

  lemma {:induction false} VarBytesShape(x: nat)
    ensures |VarBytes(x)| == VarLen(x) && Value(VarBytes(x)) == x
    ensures forall rest :: Stop(VarBytes(x) + rest) == VarLen(x) - 1
  {
    if x < 128 {
      assert forall rest :: (VarBytes(x) + rest)[0] < 128;
    } else {
      VarBytesShape(x / 128);
      var b := VarBytes(x);
      assert b[1..] == VarBytes(x / 128);
      forall rest ensures Stop(b + rest) == VarLen(x) - 1 {
        assert (b + rest)[0] == b[0] && (b + rest)[1..] == VarBytes(x / 128) + rest;
      }
    }
  }

  lemma VarLenSteps(x: nat)
    ensures VarLen(x) <= 4 <==> x < 0x1000_0000
    ensures VarLen(x) == 5 <==> 0x1000_0000 <= x < 0x8_0000_0000
    ensures VarLen(x) == 5 ==> |VarBytes(x)| == 5 && VarBytes(x)[4] == x / 0x1000_0000
  {
    var a := x / 128;
    var b := a / 128;
    var c := b / 128;
    var d := c / 128;
    assert VarLen(d) >= 1 && (VarLen(d) == 1 <==> d < 128);
    assert d == x / 0x1000_0000;
    if x >= 128 && a >= 128 && b >= 128 && c >= 128 {
      var r: bytes := [c % 128 + 128] + VarBytes(d);
      assert VarBytes(c) == r;
      assert VarBytes(b) == [b % 128 + 128] + r;
      assert VarBytes(a) == [a % 128 + 128] + VarBytes(b);
      assert VarBytes(x) == [x % 128 + 128] + VarBytes(a);
    }
  }

  /** The decoder undoes the encoder, whatever follows, exactly on the numbers below 2^29: all of MQTT's
      0..268435455, in at most four bytes, and the same range again. Anything larger is refused. */
  lemma VarintRoundTrip(x: nat, rest: bytes)
    ensures Uvarint(VarBytes(x) + rest) == if x < 0x2000_0000 then Varint(x, VarLen(x)) else Varint(0, -(VarLen(x) as int))
    ensures x <= 268435455 ==> VarLen(x) <= 4
  {
    VarBytesShape(x);
    VarLenSteps(x);
    var b := VarBytes(x) + rest;
    assert b[..VarLen(x)] == VarBytes(x);
    if VarLen(x) == 5 {
      assert b[4] == VarBytes(x)[4];
    }
  }

  lemma VarBytesNext(x: nat, n: nat, y: nat)
    requires n < |VarBytes(x)| && VarBytes(x)[n..] == VarBytes(y)
    ensures if y < 128 then n + 1 == |VarBytes(x)| && VarBytes(x)[n] == y
            else VarBytes(x)[n] == y % 128 + 128 && VarBytes(x)[n + 1..] == VarBytes(y / 128)
  {
    assert VarBytes(x)[n] == VarBytes(x)[n..][0];
    assert VarBytes(x)[n + 1..] == VarBytes(x)[n..][1..];
  }

  method PutUvarint(to: array<byte>, off: nat, x: nat) returns (n: nat)
    requires off + VarLen(x) <= to.Length
    modifies to
    ensures n == VarLen(x) && Wrote(old(to[..]), to[..], off, VarBytes(x))
  {
    VarBytesShape(x);
    hide Wrote, VarBytes, VarLen;
    ghost var w, a := VarBytes(x), to[..];
    WroteNothing(a, off);
    assert w[..0] == [] && w[0..] == w;
    var y := x;
    n := 0;
    while y >= 0x80
      invariant y >= 0 && n < |w| && w[n..] == VarBytes(y)
      invariant Wrote(a, to[..], off, w[..n])
      decreases y
    {
      VarBytesNext(x, n, y);
      ghost var mid := to[..];
      to[off + n] := y % 128 + 0x80;
      WroteByte(a, mid, to[..], off, w, n);
      y := y / 128;
      n := n + 1;
    }
    VarBytesNext(x, n, y);
    ghost var mid := to[..];
    to[off + n] := y;
    WroteByte(a, mid, to[..], off, w, n);
    n := n + 1;
    assert w[..n] == w;
  }

  // ---------------------------------------------------------------- length-prefixed bytes

  const MaxLPString := 65535

  function LP(b: bytes): bytes
    requires |b| <= MaxLPString
  {
    U16(|b|) + b
  }

  /** The bytes, and how much of the buffer they take with their prefix. */
  function ReadLP(b: bytes): (r: Result<(bytes, nat)>)
    ensures r.Ok? ==> 2 <= r.value.1 <= |b| && |r.value.0| == r.value.1 - 2
  {
    if |b| < 2 then Err(InsufficientData)
    else
      var n := ReadU16(b);
      if |b| - 2 < n then Err(InsufficientData) else Ok((b[2..2 + n], 2 + n))
  }

  lemma LPRoundTrip(b: bytes, rest: bytes)
    requires |b| <= MaxLPString
    ensures ReadLP(LP(b) + rest) == Ok((b, 2 + |b|))
  {
    var x := LP(b) + rest;
    assert x == U16(|b|) + (b + rest);
    BigEndianRoundTrip(|b|, 0, b + rest);
    assert x[2..2 + |b|] == b;
  }

  method WriteLP(to: array<byte>, off: nat, b: bytes) returns (n: nat, err: Option<Error>)
    requires off <= to.Length
    modifies to
    ensures err.None? <==> |b| <= MaxLPString && off + 2 + |b| <= to.Length
    ensures err.None? ==> n == 2 + |b| && Wrote(old(to[..]), to[..], off, LP(b))
    ensures err.Some? ==> to[..] == old(to[..])
  {
    if |b| > MaxLPString {
      return 0, Some(InvalidLPStringSize);
    }
    if to.Length - off < 2 + |b| {
      return 2 + |b|, Some(InsufficientBuffer);
    }
    PutU16(to, off, |b|);
    ghost var mid := to[..];
    PutBytes(to, off + 2, b);
    WroteNext(old(to[..]), mid, to[..], off, U16(|b|), b);
    return 2 + |b|, None;
  }

  // ---------------------------------------------------------------- UTF-8

  predicate Tail(b: bytes, i: nat) {
    i < |b| && 0x80 <= b[i] <= 0xBF
  }

  /** How many bytes the well-formed character at the front of `b` takes, 0 if there is none. */
  function CharLen(b: bytes): (n: nat)
    requires b != []
    ensures n <= |b|
  {
    if b[0] < 0x80 then 1
    else if 0xC2 <= b[0] <= 0xDF && Tail(b, 1) then 2
    else if 0xE0 <= b[0] <= 0xEF && Tail(b, 1) && Tail(b, 2) && (b[0] == 0xE0 ==> b[1] >= 0xA0) && (b[0] == 0xED ==> b[1] <= 0x9F) then 3
    else if 0xF0 <= b[0] <= 0xF4 && Tail(b, 1) && Tail(b, 2) && Tail(b, 3) && (b[0] == 0xF0 ==> b[1] >= 0x90) && (b[0] == 0xF4 ==> b[1] <= 0x8F) then 4
    else 0
  }

  predicate ValidUtf8(b: bytes) {
    b == [] || (CharLen(b) > 0 && ValidUtf8(b[CharLen(b)..]))
  }
}
