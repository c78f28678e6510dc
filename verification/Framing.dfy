/** Cutting the byte stream of a connection into packets. */
module Framing {
  import opened Common
  import opened Wire
  import opened Properties
  import opened Packets
  import opened PacketRoundTrip

  /** How long the packet at the front of the stream is, from its fixed header of two to five bytes. */
  function HeaderSize(s: bytes): (r: Result<nat>)
    ensures r.Ok? ==> r.value >= 2
  {
    if |s| < 2 then Err(EndOfStream)
    else
      var i := Stop(s[1..]);
      if i >= 4 then Err(ProtocolError)
      else if i == |s| - 1 then Err(EndOfStream)
      else Ok(1 + (i + 1) + Wire.Value(s[1..][..i + 1]))
  }

  /** What one call hands to the decoder, what it leaves of the stream and the size of a packet it began
      and could not finish (0 for none). */
  datatype Framed = Framed(r: Result<bytes>, rest: bytes, pending: nat)

  function Fill(size: nat, max: nat, s: bytes): Framed {
    if size > max then Framed(Err(PacketTooLarge), s, size)
    else if |s| < size then Framed(Err(EndOfStream), [], size)
    else Framed(Ok(s[..size]), s[size..], 0)
  }

  /** A packet that was begun before is read anew from its first byte. */
  function Frame(pending: nat, max: nat, s: bytes): Framed {
    if pending > 0 then Fill(pending, max, s)
    else
      match HeaderSize(s)
      case Err(e) => Framed(Err(e), s, 0)
      case Ok(size) => Fill(size, max, s)
  }

  class Receiver<P> {
    const decode: bytes -> Result<P>
    const maxRxPacketSize: nat
    /** Everything that is still to arrive. */
    var stream: bytes
    var rxRecv: array<byte>
    var rxRemaining: nat

    ghost predicate Valid()
      reads this
    {
      rxRemaining == rxRecv.Length
    }

    constructor (decode: bytes -> Result<P>, max: nat, stream: bytes)
      ensures Valid() && rxRemaining == 0 && this.decode == decode && maxRxPacketSize == max && this.stream == stream
    {
      this.decode, maxRxPacketSize, this.stream := decode, max, stream;
      rxRecv, rxRemaining := new byte[0], 0;
    }

    /** bufio.Reader.Peek: fails when the stream ends before `n` bytes. */
    method Peek(n: nat) returns (r: Result<bytes>)
      ensures r == if |stream| < n then Err(EndOfStream) else Ok(stream[..n])
    {
      if |stream| < n {
        return Err(EndOfStream);
      }
      return Ok(stream[..n]);
    }

    /** bufio.Reader.Read: hands out some of what is asked for, at least one byte, unless the stream has ended. */
    method Read(off: nat) returns (r: Result<nat>)
      requires off < rxRecv.Length
      modifies this`stream, rxRecv
      ensures r.Err? <==> old(stream) == []
      ensures r.Err? ==> r.error == EndOfStream && stream == [] && rxRecv[..] == old(rxRecv[..])
      ensures r.Ok? ==> 0 < r.value <= |old(stream)| && off + r.value <= rxRecv.Length && stream == old(stream)[r.value..]
                        && Wrote(old(rxRecv[..]), rxRecv[..], off, old(stream)[..r.value])
    {
      if stream == [] {
        return Err(EndOfStream);
      }
      var most := if |stream| < rxRecv.Length - off then |stream| else rxRecv.Length - off;
      var n :| 0 < n <= most;
      PutBytes(rxRecv, off, stream[..n]);
      stream := stream[n..];
      return Ok(n);
    }

    /** Peeks for two bytes and one more for each that has the continuation bit, up to five. */
    method PeekSize() returns (r: Result<nat>)
      ensures r == HeaderSize(stream)
    {
      hide Wire.Value;
      var peekCount := 2;
      var header: bytes := [];
      while true
        invariant 2 <= peekCount <= 6 && (peekCount > 2 ==> |stream| >= peekCount - 1)
        invariant |stream| > 0 ==> peekCount - 2 <= Stop(stream[1..])
        decreases 6 - peekCount
      {
        if peekCount > 5 {
          return Err(ProtocolError);
        }
        var peeked := Peek(peekCount);
        if peeked.Err? {
          return Err(peeked.error);
        }
        header := peeked.value;
        assert header[peekCount - 1] == stream[1..][peekCount - 2];
        if header[peekCount - 1] < 0x80 {
          break;
        }
        peekCount := peekCount + 1;
      }
      assert header[1..] == stream[1..][..peekCount - 1];
      StopHere(stream[1..], peekCount - 2);
      var remLen, m := ReadUvarint(header[1..]);
      return Ok(remLen + 1 + m);
    }

    /** Reads until the buffer is full, in chunks of any size. */
    method ReadFull() returns (err: Option<Error>)
      requires Valid()
      modifies this`stream, rxRecv
      ensures Valid()
      ensures err == if |old(stream)| < rxRecv.Length then Some(EndOfStream) else None
      ensures err.Some? ==> stream == []
      ensures err.None? ==> rxRecv[..] == old(stream)[..rxRecv.Length] && stream == old(stream)[rxRecv.Length..]
    {
      hide Wrote;
      var offset := rxRecv.Length - rxRemaining;
      WroteNothing(rxRecv[..], 0);
      while offset != rxRemaining
        invariant offset <= rxRecv.Length && offset <= |old(stream)| && stream == old(stream)[offset..]
        invariant Wrote(old(rxRecv[..]), rxRecv[..], 0, old(stream)[..offset])
        decreases rxRecv.Length - offset
      {
        ghost var before, had := rxRecv[..], stream;
        var n := Read(offset);
        if n.Err? {
          return Some(n.error);
        }
        assert old(stream)[..offset + n.value] == old(stream)[..offset] + had[..n.value];
        WroteNext(old(rxRecv[..]), before, rxRecv[..], 0, old(stream)[..offset], had[..n.value]);
        offset := offset + n.value;
      }
      WroteAll(old(rxRecv[..]), rxRecv[..], old(stream)[..offset]);
      return None;
    }

    /** Reads and decodes the next packet. */
    method ReadPacket() returns (r: Result<P>)
      requires Valid()
      modifies this, rxRecv
      ensures Valid()
      ensures var f := Frame(old(rxRemaining), maxRxPacketSize, old(stream));
              && r == (match f.r case Err(e) => Err(e) case Ok(b) => decode(b))
              && stream == f.rest && rxRemaining == f.pending
    {
      hide HeaderSize;
      if rxRecv.Length == 0 {
        var size := PeekSize();
        if size.Err? {
          return Err(size.error);
        }
        rxRemaining := size.value;
        rxRecv := new byte[size.value](_ => 0);
      }
      if rxRemaining > maxRxPacketSize {
        return Err(PacketTooLarge);
      }
      var err := ReadFull();
      if err.Some? {
        return Err(err.value);
      }
      r := decode(rxRecv[..]);
      rxRecv, rxRemaining := new byte[0], 0;
    }
  }

  lemma StopHere(b: bytes, i: nat)
    requires i < |b| && i <= Stop(b) && b[i] < 128 && i < 4
    ensures Stop(b) == i && Uvarint(b[..i + 1]) == Varint(Wire.Value(b[..i + 1]), i + 1)
  {
    hide Wire.Value;
    var c := b[..i + 1];
    assert c[..i + 1] == c;
  }

  // ---------------------------------------------------------------- whole streams

  /** A packet as it was sent: with the order its properties were written in. */
  datatype Sent = Sent(p: Packet, order: seq<PropertyId>)

  ghost predicate Sendable(v: byte, max: nat, x: Sent) {
    && Valid(x.p) && Encodes(x.p, x.order) && |PacketBytes(x.p, x.order)| <= max
    && if x.p.t == CONNECT then v >= V50 || NormalMap(x.p.props.vals) == map[] else x.p.version == v
  }

  ghost predicate AllSendable(v: byte, max: nat, xs: seq<Sent>) {
    forall i {:trigger xs[i]} | 0 <= i < |xs| :: Sendable(v, max, xs[i])
  }

  ghost function StreamBytes(xs: seq<Sent>): bytes
    requires forall i {:trigger xs[i]} | 0 <= i < |xs| :: xs[i].p.flags < 16
  {
    if xs == [] then [] else PacketBytes(xs[0].p, xs[0].order) + StreamBytes(xs[1..])
  }

  /** The results of `k` calls of ReadPacket and what they leave. */
  datatype Reads<P> = Reads(results: seq<Result<P>>, rest: bytes, pending: nat)

  function ReadMany<P>(decode: bytes -> Result<P>, pending: nat, max: nat, s: bytes, k: nat): Reads<P>
    decreases k
  {
    if k == 0 then Reads([], s, pending)
    else
      var f := Frame(pending, max, s);
      var one: Result<P> := match f.r case Err(e) => Err(e) case Ok(b) => decode(b);
      var more := ReadMany(decode, f.pending, max, f.rest, k - 1);
      Reads([one] + more.results, more.rest, more.pending)
  }

  lemma HeaderGivesSize(p: Packet, order: seq<PropertyId>, rest: bytes)
    requires Valid(p) && Encodes(p, order) && |MessageBytes(p, order)| == MessageLen(p)
    ensures HeaderSize(PacketBytes(p, order) + rest) == Ok(|PacketBytes(p, order)|)
  {
    hide MessageLen, MessageBytes, PacketBytes, VarLen, ValidProps, Wire.Value;
    HeaderBytes(p, order, rest);
    VarintRoundTrip(MessageLen(p), []);
  }

  /** A packet at the front of the stream is cut off exactly and decoded as it was sent. */
  lemma FrontIsRead(v: byte, max: nat, decode: bytes -> Result<Packet>, x: Sent, rest: bytes)
    requires Sendable(v, max, x) && DecodesFor(v, decode)
    ensures var b := PacketBytes(x.p, x.order);
            Frame(0, max, b + rest) == Framed(Ok(b), rest, 0) && decode(b) == Ok(AsRead(x.p))
  {
    hide MessageLen, MessageBytes, PacketBytes, ValidProps, HeaderSize, Decode;
    var b := PacketBytes(x.p, x.order);
    MessageRoundTrip(x.p, v, x.order, []);
    HeaderGivesSize(x.p, x.order, rest);
    PacketsRoundTrip(x.p, v, x.order, []);
    assert b + [] == b;
    assert (b + rest)[..|b|] == b && (b + rest)[|b|..] == rest;
  }

  function Received(xs: seq<Sent>): seq<Result<Packet>> {
    seq(|xs|, i requires 0 <= i < |xs| => Ok(AsRead(xs[i].p)))
  }

  /** Whatever chunks a stream arrives in, reading the concatenation of valid packets gives exactly those
      packets, in the order they were sent and with their properties in normal form, and leaves what
      follows them untouched. */
  lemma {:induction false} StreamRoundTrip(v: byte, max: nat, decode: bytes -> Result<Packet>, xs: seq<Sent>, rest: bytes)
    requires AllSendable(v, max, xs) && DecodesFor(v, decode)
    ensures ReadMany(decode, 0, max, StreamBytes(xs) + rest, |xs|) == Reads(Received(xs), rest, 0)
    decreases |xs|
  {
    hide PacketBytes, Frame, ValidProps, MessageLen, DecodesFor;
    if xs == [] {
      assert StreamBytes(xs) + rest == rest;
    } else {
      var b, more := PacketBytes(xs[0].p, xs[0].order), xs[1..];
      var tail := StreamBytes(more) + rest;
      assert StreamBytes(xs) + rest == b + tail;
      FrontIsRead(v, max, decode, xs[0], tail);
      StreamRoundTrip(v, max, decode, more, rest);
      assert Received(xs) == [Ok(AsRead(xs[0].p))] + Received(more);
    }
  }

  /** When the stream breaks off inside a packet and goes on later, the bytes that had arrived are lost:
      the call that resumes takes a whole packet's length from what comes then, so it hands over the
      packet that was begun exactly if that packet is sent again from its start. */
  lemma ResumedReadStartsOver(max: nat, b: bytes, cut: nat, more: bytes)
    requires cut < |b| <= max && HeaderSize(b[..cut]) == Ok(|b|)
    ensures var first := Frame(0, max, b[..cut]);
            && first == Framed(Err(EndOfStream), [], |b|)
            && (Frame(first.pending, max, first.rest + more).r == Ok(b) <==> |more| >= |b| && more[..|b|] == b)
  {
    assert [] + more == more;
  }
}
