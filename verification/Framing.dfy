/**
  Finding packets in a byte stream: the incremental buffer decoder, the
  streaming reader, and what repeated decoding yields however the stream is cut.
 */
module Framing {
  import opened Wire
  import opened VarInt
  import opened Packets
  import opened Codec
  import opened CodecRoundTrip

  /** One attempt to decode: the result and how many bytes left the buffer. */
  datatype Attempt = Attempt(result: Result<Option<Packet>>, consumed: nat)

  function Decoded(buf: Bytes, version: ProtocolVersion): (a: Attempt)
    ensures a.consumed <= |buf|
    ensures a.result == Ok(None) ==> a.consumed == 0
    ensures a.result.Ok? && a.result.value.Some? ==> a.consumed >= 2
  {
    if |buf| < 2 then Attempt(Ok(None), 0)
    else if !(1 <= buf[0] / 16 <= 14) then Attempt(Err(InvalidPacketType(buf[0] / 16)), 0)
    else
      match RemainingAt(buf, 1)
      case Err(e) => Attempt(Err(e), 0)
      case Ok(None) => Attempt(Ok(None), 0)
      case Ok(Some((remaining, header))) =>
        var total := header + remaining;
        if |buf| < total then Attempt(Ok(None), 0)
        else
          match BodyParsed(buf[0], buf[header..total], version)
          case Err(e) => Attempt(Err(e), total)
          case Ok(p) => Attempt(Ok(Some(p)), total)
  }

  class PacketBuffer {
    var buf: Bytes

    constructor ()
      ensures buf == []
    {
      buf := [];
    }

    method Append(chunk: Bytes)
      modifies this
      ensures buf == old(buf) + chunk
    {
      buf := buf + chunk;
    }

    /** `split_to`: cut the front off and keep the rest. */
    method SplitTo(n: nat) returns (front: Bytes)
      requires n <= |buf|
      modifies this
      ensures front == old(buf[..n]) && buf == old(buf[n..])
    {
      front, buf := buf[..n], buf[n..];
    }

    method DecodePacketFromBytes(version: ProtocolVersion) returns (r: Result<Option<Packet>>)
      modifies this
      ensures r == Decoded(old(buf), version).result
      ensures buf == old(buf)[Decoded(old(buf), version).consumed..]
    {
      hide BodyParsed, RemainingAt;
      if |buf| < 2 {
        return Ok(None);
      }
      var first := buf[0];
      if !(1 <= first / 16 <= 14) {
        return Err(InvalidPacketType(first / 16));
      }
      var length :- DecodeRemainingLength(buf, 1);
      if length.None? {
        return Ok(None);
      }
      var (remaining, headerLen) := length.value;
      var total := headerLen + remaining;
      if |buf| < total {
        return Ok(None);
      }
      var packetBytes := SplitTo(total);
      var packet :- BodyParsed(first, packetBytes[headerLen..], version);
      return Ok(Some(packet));
    }
  }

  /** The asynchronous reader: the bytes that will arrive, and how many have been taken. */
  class ByteStream {
    const data: Bytes
    var pos: nat

    ghost predicate Valid()
      reads this
    {
      pos <= |data|
    }

    constructor (data: Bytes)
      ensures Valid() && this.data == data && pos == 0
    {
      this.data, pos := data, 0;
    }

    /** `read_exact`: `n` bytes, or an I/O error when the stream ends first. */
    method ReadExact(n: nat) returns (r: Result<Bytes>)
      requires Valid()
      modifies this
      ensures Valid()
      ensures if old(pos) + n <= |data| then pos == old(pos) + n && r == Ok(data[old(pos)..pos])
              else r == Err(Io) && pos == |data|
    {
      if pos + n > |data| {
        pos := |data|;
        return Err(Io);
      }
      pos := pos + n;
      return Ok(data[pos - n..pos]);
    }

    method ReadRemainingLength() returns (r: Result<nat>)
      requires Valid()
      modifies this
      ensures Valid()
      ensures match RemainingAt(data, old(pos))
              case Err(e) => r == Err(e) && pos == old(pos) + 4
              case Ok(None) => r == Err(Io) && pos == |data|
              case Ok(Some((n, next))) => r == Ok(n) && pos == next
    {
      hide ValueOf, Power128;
      ghost var start := pos;
      var result, multiplier := 0, 1;
      PowerNext(0);
      for i := 0 to 4
        invariant Valid() && pos == start + i
        invariant forall k | start <= k < pos :: data[k] >= 128
        invariant result == if i == 0 then 0 else ValueOf(data[start..pos])
        invariant multiplier == Power128(i) && result < multiplier
      {
        var taken := ReadExact(1);
        if taken.Err? {
          ContinuedIs(data, start, 4, i);
          return Err(Io);
        }
        NextDigit(data, start, start + i);
        PowerNext(i);
        var byte: nat := taken.value[0];
        result := result + byte % 128 * multiplier;
        multiplier := multiplier * 128;
        if byte < 128 {
          ContinuedIs(data, start, 4, i);
          return Ok(result);
        }
      }
      ContinuedIs(data, start, 4, 4);
      return Err(MalformedLength);
    }

    /**
      The streaming reader agrees with the buffer decoder run on the bytes still
      to come: the same packet and the same bytes, or the same error after the type
      byte, the five bytes of a malformed length, or the whole frame. Where the
      decoder would wait, the stream has ended; the one difference is a lone byte
      of an unknown packet type, which the reader rejects at once.
     */
    method ReadPacket(version: ProtocolVersion) returns (r: Result<Packet>)
      requires Valid()
      modifies this
      ensures Valid()
      ensures var s := data[old(pos)..];
              var a := Decoded(s, version);
              match a.result
              case Ok(Some(p)) => r == Ok(p) && pos == old(pos) + a.consumed
              case Err(e) =>
                r == Err(e)
                && pos == old(pos) + (if !(1 <= s[0] / 16 <= 14) then 1 else if a.consumed == 0 then 5 else a.consumed)
              case Ok(None) =>
                pos == |data|
                && r == if |s| == 1 && !(1 <= s[0] / 16 <= 14) then Err(InvalidPacketType(s[0] / 16)) else Err(Io)
    {
      hide BodyParsed, RemainingAt;
      ghost var start, s := pos, data[pos..];
      var header :- ReadExact(1);
      var first := header[0];
      assert first == s[0];
      if !(1 <= first / 16 <= 14) {
        return Err(InvalidPacketType(first / 16));
      }
      RemainingShift(data, start, 1);
      var remaining :- ReadRemainingLength();
      ghost var h := pos - start;
      assert |s| >= 2 && RemainingAt(s, 1) == Ok(Some((remaining, h)));
      if h + remaining <= |s| {
        SliceShift(data, start, h, remaining);
      }
      var body :- ReadExact(remaining);
      r := BodyParsed(first, body, version);
    }
  }

  lemma SliceShift(data: Bytes, start: nat, h: nat, n: nat)
    requires start + h + n <= |data|
    ensures data[start..][h..h + n] == data[start + h..start + h + n]
  {
  }

  lemma {:induction false} ContinuedShift(data: Bytes, start: nat, c: nat, k: nat)
    requires start <= |data|
    ensures Continued(data, start + c, k) == Continued(data[start..], c, k)
    decreases k
  {
    if k > 0 && c < |data[start..]| {
      ContinuedShift(data, start, c + 1, k - 1);
    }
  }

  /** Reading the length at an offset into a stream is reading it in the rest of the stream. */
  lemma RemainingShift(data: Bytes, start: nat, c: nat)
    requires start <= |data|
    ensures RemainingAt(data, start + c)
         == match RemainingAt(data[start..], c)
            case Ok(Some((n, next))) => Ok(Some((n, start + next)))
            case other => other
  {
    hide ValueOf, Continued;
    ContinuedShift(data, start, c, 4);
    var s, n := data[start..], Continued(data[start..], c, 4);
    if n < 4 && c + n < |s| {
      assert s[c..c + n + 1] == data[start + c..start + c + n + 1];
    }
  }

  // ---------- chunking ----------

  lemma RemainingStable(s: Bytes, ext: Bytes, c: nat)
    requires RemainingAt(s, c) != Ok(None)
    ensures RemainingAt(s + ext, c) == RemainingAt(s, c)
  {
    hide ValueOf, Continued;
    var n := Continued(s, c, 4);
    ContinuedIs(s + ext, c, 4, n);
    if n < 4 {
      assert (s + ext)[c..c + n + 1] == s[c..c + n + 1];
    }
  }

  /** A packet or an error found in a buffer is found in every extension of it, consuming the same bytes. */
  lemma DecodedStable(buf: Bytes, ext: Bytes, version: ProtocolVersion)
    requires Decoded(buf, version).result != Ok(None)
    ensures Decoded(buf + ext, version) == Decoded(buf, version)
  {
    hide BodyParsed, RemainingAt;
    if 1 <= buf[0] / 16 <= 14 {
      RemainingStable(buf, ext, 1);
      if RemainingAt(buf, 1).Ok? {
        var (remaining, header) := RemainingAt(buf, 1).value.value;
        assert (buf + ext)[header..header + remaining] == buf[header..header + remaining];
      }
    }
  }

  /** Decoding until the bytes run out or fail: the packets, the error if any, and what is left. */
  datatype Drained = Drained(packets: seq<Packet>, error: Option<Error>, rest: Bytes)

  function Drain(buf: Bytes, version: ProtocolVersion): Drained
    decreases |buf|
  {
    var a := Decoded(buf, version);
    match a.result
    case Err(e) => Drained([], Some(e), buf[a.consumed..])
    case Ok(None) => Drained([], None, buf)
    case Ok(Some(p)) =>
      var d := Drain(buf[a.consumed..], version);
      Drained([p] + d.packets, d.error, d.rest)
  }

  /** One more chunk arrives; after an error bytes only pile up. */
  function Feed(d: Drained, chunk: Bytes, version: ProtocolVersion): Drained {
    if d.error.Some? then d.(rest := d.rest + chunk)
    else
      var e := Drain(d.rest + chunk, version);
      Drained(d.packets + e.packets, e.error, e.rest)
  }

  function FeedAll(d: Drained, chunks: seq<Bytes>, version: ProtocolVersion): Drained
    decreases |chunks|
  {
    if chunks == [] then d else FeedAll(Feed(d, chunks[0], version), chunks[1..], version)
  }

  function Joined(chunks: seq<Bytes>): Bytes {
    if chunks == [] then [] else chunks[0] + Joined(chunks[1..])
  }

  lemma {:induction false} DrainExtends(a: Bytes, b: Bytes, version: ProtocolVersion)
    ensures Drain(a + b, version) == Feed(Drain(a, version), b, version)
    decreases |a|
  {
    hide Decoded, Drain, Feed;
    var t := Decoded(a, version);
    DrainUnfolds(a, version);
    if t.result == Ok(None) {
      FeedEmpty(a, b, version);
    } else {
      DecodedStable(a, b, version);
      DrainUnfolds(a + b, version);
      assert (a + b)[t.consumed..] == a[t.consumed..] + b;
      if t.result.Ok? {
        var rest := a[t.consumed..];
        DrainExtends(rest, b, version);
        FeedAfter(t.result.value.value, Drain(rest, version), b, version);
      } else {
        FeedAfterError(Drain(a, version), b, version);
      }
    }
  }

  lemma DrainUnfolds(buf: Bytes, version: ProtocolVersion)
    ensures var a := Decoded(buf, version);
            Drain(buf, version) ==
              match a.result
              case Err(e) => Drained([], Some(e), buf[a.consumed..])
              case Ok(None) => Drained([], None, buf)
              case Ok(Some(p)) => After(p, Drain(buf[a.consumed..], version))
  {
    hide Decoded;
  }

  /** One packet decoded before the rest. */
  function After(p: Packet, d: Drained): Drained {
    Drained([p] + d.packets, d.error, d.rest)
  }

  lemma FeedEmpty(a: Bytes, b: Bytes, version: ProtocolVersion)
    ensures Feed(Drained([], None, a), b, version) == Drain(a + b, version)
  {
    hide Drain;
    var e := Drain(a + b, version);
    assert [] + e.packets == e.packets;
  }

  lemma FeedAfter(p: Packet, d: Drained, b: Bytes, version: ProtocolVersion)
    ensures Feed(After(p, d), b, version) == After(p, Feed(d, b, version))
  {
    hide Drain;
    var e := Drain(d.rest + b, version);
    assert [p] + (d.packets + e.packets) == [p] + d.packets + e.packets;
  }

  lemma FeedAfterError(d: Drained, b: Bytes, version: ProtocolVersion)
    requires d.error.Some?
    ensures Feed(d, b, version) == d.(rest := d.rest + b)
  {
  }

  lemma {:induction false} FeedFrom(a: Bytes, chunks: seq<Bytes>, version: ProtocolVersion)
    ensures FeedAll(Drain(a, version), chunks, version) == Drain(a + Joined(chunks), version)
    decreases |chunks|
  {
    hide Drain;
    if chunks == [] {
      assert a + [] == a;
    } else {
      DrainExtends(a, chunks[0], version);
      FeedFrom(a + chunks[0], chunks[1..], version);
      assert a + chunks[0] + Joined(chunks[1..]) == a + Joined(chunks);
    }
  }

  /** However a stream is cut, repeated decoding gives the same packets, the same first error and the same rest. */
  lemma ChunkingIndependent(chunks: seq<Bytes>, version: ProtocolVersion)
    ensures FeedAll(Drained([], None, []), chunks, version) == Drain(Joined(chunks), version)
  {
    hide Decoded;
    FeedFrom([], chunks, version);
    assert Drain([], version) == Drained([], None, []) by { DecodedEmpty(version); }
    assert [] + Joined(chunks) == Joined(chunks);
  }

  lemma DecodedEmpty(version: ProtocolVersion)
    ensures Decoded([], version) == Attempt(Ok(None), 0)
  {
  }

  /** A first byte of type 0 or 15 is an error at once, and consumes nothing; so does a length of more than four bytes. */
  lemma DecodedErrors(buf: Bytes, version: ProtocolVersion)
    requires |buf| >= 2
    ensures buf[0] < 0x10 || buf[0] >= 0xF0 ==> Decoded(buf, version) == Attempt(Err(InvalidPacketType(buf[0] / 16)), 0)
    ensures 0x10 <= buf[0] < 0xF0 && RemainingAt(buf, 1).Err? ==> Decoded(buf, version) == Attempt(Err(MalformedLength), 0)
    ensures 0x10 <= buf[0] < 0xF0 && RemainingAt(buf, 1).Ok? && RemainingAt(buf, 1).value.Some? ==>
              var (n, c) := RemainingAt(buf, 1).value.value;
              if |buf| < c + n then Decoded(buf, version) == Attempt(Ok(None), 0)
              else var p := BodyParsed(buf[0], buf[c..c + n], version);
                   Decoded(buf, version) == Attempt(if p.Ok? then Ok(Some(p.value)) else Err(p.error), c + n)
  {
    hide BodyParsed;
  }

  // ---------- whole packets ----------

  lemma FrameDecodes(first: Byte, body: Bytes, rest: Bytes, version: ProtocolVersion)
    requires 1 <= first / 16 <= 14
    ensures Decoded(Frame(first, body) + rest, version)
         == if |body| > MAX_VARIABLE_BYTE_INTEGER then Attempt(Err(MalformedLength), 0)
            else match BodyParsed(first, body, version)
                 case Err(e) => Attempt(Err(e), |Frame(first, body)|)
                 case Ok(p) => Attempt(Ok(Some(p)), |Frame(first, body)|)
  {
    hide BodyParsed, RemainingAt, VbiBytes;
    var frame, prefix := Frame(first, body), VbiBytes(|body|);
    var buf := frame + rest;
    assert buf[1..1 + |prefix|] == prefix;
    RemainingReads(buf, 1, |body|);
    assert buf[1 + |prefix|..1 + |prefix| + |body|] == body;
  }

  /**
    Round trip, exactly: for every packet the encoder accepts and any bytes that
    follow, the decoder returns the packet as far as the version carries it and
    leaves just the following bytes, if and only if the packet is well formed.
   */
  lemma PacketRoundTrip(p: Packet, version: ProtocolVersion, rest: Bytes)
    requires PacketBytes(p, version).Ok?
    ensures var bytes := PacketBytes(p, version).value;
            Decoded(bytes + rest, version) == Attempt(Ok(Some(Normal(p, version))), |bytes|) <==> WellFormed(p, version)
  {
    hide BodyParsed, BodyBytes, FirstByte, Decoded, Frame, FieldsFit, ListsFilled, Normal;
    FrameDecodes(FirstByte(p), BodyBytes(p, version).value, rest, version);
    BodyRoundTripExactly(p, version);
  }

  /** No strict prefix of a well-formed packet is taken for anything. */
  lemma PrefixIncomplete(p: Packet, version: ProtocolVersion, n: nat)
    requires WellFormed(p, version) && n < |PacketBytes(p, version).value|
    ensures Decoded(PacketBytes(p, version).value[..n], version) == Attempt(Ok(None), 0)
  {
    hide Decoded, PacketBytes, WellFormed;
    WellFormedEncodes(p, version);
    var bytes := PacketBytes(p, version).value;
    PacketRoundTrip(p, version, []);
    assert bytes + [] == bytes && bytes[..n] + bytes[n..] == bytes;
    if Decoded(bytes[..n], version).result != Ok(None) {
      DecodedStable(bytes[..n], bytes[n..], version);
    }
  }

  lemma WellFormedEncodes(p: Packet, version: ProtocolVersion)
    requires WellFormed(p, version)
    ensures PacketBytes(p, version).Ok?
  {
    hide BodyBytes, FieldsFit, ListsFilled, FirstByte, Frame;
  }

  function Encodings(packets: seq<Packet>, version: ProtocolVersion): seq<Bytes>
    requires forall i | 0 <= i < |packets| :: WellFormed(packets[i], version)
  {
    seq(|packets|, i requires 0 <= i < |packets| =>
      WellFormedEncodes(packets[i], version); PacketBytes(packets[i], version).value)
  }

  function Normals(packets: seq<Packet>, version: ProtocolVersion): seq<Packet> {
    seq(|packets|, i requires 0 <= i < |packets| => Normal(packets[i], version))
  }

  lemma {:induction false} EncodingsDrain(packets: seq<Packet>, version: ProtocolVersion)
    requires forall i | 0 <= i < |packets| :: WellFormed(packets[i], version)
    ensures Drain(Joined(Encodings(packets, version)), version) == Drained(Normals(packets, version), None, [])
  {
    hide Decoded, PacketBytes, WellFormed, Normal;
    if packets == [] {
      DecodedEmpty(version);
    } else {
      var p, tail := packets[0], packets[1..];
      WellFormedEncodes(p, version);
      var bytes, rest := PacketBytes(p, version).value, Joined(Encodings(tail, version));
      PacketRoundTrip(p, version, rest);
      EncodingsDrain(tail, version);
      assert Encodings(packets, version)[1..] == Encodings(tail, version);
      assert (bytes + rest)[|bytes|..] == rest;
      assert Normals(packets, version) == [Normal(p, version)] + Normals(tail, version);
    }
  }

  /** A list of well-formed packets, encoded one after the other and delivered in any chunks, is decoded to the list. */
  lemma StreamRoundTrip(packets: seq<Packet>, version: ProtocolVersion, chunks: seq<Bytes>)
    requires forall i | 0 <= i < |packets| :: WellFormed(packets[i], version)
    requires Joined(chunks) == Joined(Encodings(packets, version))
    ensures FeedAll(Drained([], None, []), chunks, version) == Drained(Normals(packets, version), None, [])
  {
    hide Drain, WellFormed, PacketBytes, FeedAll;
    ChunkingIndependent(chunks, version);
    EncodingsDrain(packets, version);
  }
}
