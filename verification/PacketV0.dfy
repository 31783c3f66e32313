/** The PRUDP version 0 wire format as NEX uses it: header, optional fields, payload, checksum. */
module PacketV0 {
  import opened Bytes
  import opened Wrappers
  import Bits
  import Checksum
  import V1 = PacketV1

  datatype Packet = Packet(source: byte, destination: byte, packetType: uint16, flags: uint16, sessionId: byte,
                           signature: seq<byte>, sequenceId: uint16, connectionSignature: seq<byte>,
                           fragmentId: byte, payload: seq<byte>)

  /** The form of the checksum, and the access key that it depends on. */
  datatype Config = Config(enhanced: bool, accessKey: seq<byte>)

  const HAS_SIZE_BIT := 3

  predicate HasSize(p: Packet) {
    Bits.HasBit(p.flags, HAS_SIZE_BIT)
  }

  // ---------- encoding ----------

  function Front(p: Packet): (s: seq<byte>)
    ensures |s| == 7 + |p.signature|
  {
    [p.source] + [p.destination] + LE(Bits.Or(p.packetType, p.flags * 16 % 0x1_0000), SHORT) +
    [p.sessionId] + p.signature + LE(p.sequenceId, SHORT)
  }

  function Extras(p: Packet): seq<byte> {
    (if V1.Handshake(p.packetType) then p.connectionSignature else []) +
    (if p.packetType == V1.DATA then [p.fragmentId] else [])
  }

  function Size(p: Packet): seq<byte> {
    if HasSize(p) then LE(|p.payload|, SHORT) else []
  }

  /** What the checksum covers. */
  function Body(p: Packet): seq<byte> {
    Front(p) + Extras(p) + Size(p) + p.payload
  }

  function Width(c: Config): (n: nat)
    ensures n == 1 || n == 4
  {
    if c.enhanced then 4 else 1
  }

  function Sum(c: Config, data: seq<byte>): uint32 {
    Checksum.Of(c.enhanced, Checksum.SumBytes(c.accessKey), data)
  }

  function Seal(c: Config, body: seq<byte>): (s: seq<byte>)
    ensures |s| == Width(c)
  {
    LE(Sum(c, body), Width(c))
  }

  function Encode(c: Config, p: Packet): seq<byte> {
    Body(p) + Seal(c, Body(p))
  }

  function EncodeAll(c: Config, ps: seq<Packet>): seq<byte> {
    if ps == [] then [] else Encode(c, ps[0]) + EncodeAll(c, ps[1..])
  }

  // ---------- decoding ----------

  /** Session, signature and sequence number. */
  function ParseSession(s: seq<byte>): Option<((byte, seq<byte>, uint16), seq<byte>)> {
    Widths();
    var (sessionId, s1) :- ReadUInt(s, 1);
    var (signature, s2) :- TakeBytes(s1, 4);
    var (sequenceId, s3) :- ReadUInt(s2, SHORT);
    Some(((sessionId, signature, sequenceId), s3))
  }

  function ParseFront(s: seq<byte>): Option<(Packet, seq<byte>)> {
    var (ports, s1) :- V1.ParsePorts(s);
    var (session, s2) :- ParseSession(s1);
    Some((Packet(ports.0, ports.1, ports.2 % 16, ports.2 / 16, session.0, session.1, session.2, [], 0, []), s2))
  }

  function ParseExtras(p: Packet, s: seq<byte>): Option<(Packet, seq<byte>)> {
    Widths();
    if V1.Handshake(p.packetType) then
      var (signature, rest) :- TakeBytes(s, 4);
      Some((p.(connectionSignature := signature), rest))
    else if p.packetType == V1.DATA then
      var (id, rest) :- ReadUInt(s, 1);
      Some((p.(fragmentId := id), rest))
    else Some((p, s))
  }

  /** Without a size field the payload is all that is left before the checksum, as a 16-bit number. */
  function ParseSize(c: Config, p: Packet, s: seq<byte>): Option<(nat, seq<byte>)> {
    if HasSize(p) then ReadUInt(s, SHORT) else Some(((|s| - Width(c)) % 0x1_0000, s))
  }

  /** Everything that the checksum covers. */
  function ParseBody(c: Config, s: seq<byte>): (r: Option<(Packet, seq<byte>)>)
    ensures r.Some? ==> |r.value.1| <= |s|
  {
    var (front, s1) :- ParseFront(s);
    var (p, s2) :- ParseExtras(front, s1);
    var (size, s3) :- ParseSize(c, p, s2);
    var (payload, s4) :- TakeBytes(s3, size);
    Some((p.(payload := payload), s4))
  }

  /** The checksum in front of `tail` covers what was read of `s` before it. */
  function Checked(c: Config, s: seq<byte>, p: Packet, tail: seq<byte>): (r: Option<(Packet, seq<byte>)>)
    requires |tail| <= |s|
    ensures r.Some? ==> |r.value.1| < |s|
  {
    var (checksum, rest) :- ReadUInt(tail, Width(c));
    if checksum != Sum(c, s[..|s| - |tail|]) then None else Some((p, rest))
  }

  function Decode(c: Config, s: seq<byte>): (r: Option<(Packet, seq<byte>)>)
    ensures r.Some? ==> |r.value.1| < |s|
  {
    if |s| < 12 then None
    else
      var (p, tail) :- ParseBody(c, s);
      Checked(c, s, p, tail)
  }

  function DecodeAll(c: Config, s: seq<byte>): (seq<Packet>, bool)
    decreases |s|
  {
    if s == [] then ([], true)
    else
      var r := Decode(c, s);
      if r.None? then ([], false)
      else
        var (more, ok) := DecodeAll(c, r.value.1);
        ([r.value.0] + more, ok)
  }

  // ---------- round trips ----------

  predicate InRange(p: Packet) {
    && p.packetType < 16 && p.flags < 0x1000 && |p.payload| < 0x1_0000 && |p.signature| == 4
    && (V1.Handshake(p.packetType) ==> |p.connectionSignature| == 4)
  }

  function Carried(p: Packet): Packet {
    p.(connectionSignature := if V1.Handshake(p.packetType) then p.connectionSignature else [],
       fragmentId := if p.packetType == V1.DATA then p.fragmentId else 0)
  }

  function FrontOf(p: Packet): Packet {
    p.(connectionSignature := [], fragmentId := 0, payload := [])
  }

  lemma SessionRoundTrip(sessionId: byte, signature: seq<byte>, n: uint16, rest: seq<byte>)
    requires |signature| == 4
    ensures ParseSession([sessionId] + (signature + (LE(n, SHORT) + rest))) == Some(((sessionId, signature, n), rest))
  {
    Widths();
    ReadByteWritten(sessionId, signature + (LE(n, SHORT) + rest));
    TakeWritten(signature, LE(n, SHORT) + rest);
    ReadWritten(n, SHORT, rest);
  }

  /** The fixed fields side by side, `n` being type and flags in one number. */
  function FrontBytes(p: Packet, n: uint16, rest: seq<byte>): seq<byte> {
    [p.source] + ([p.destination] + (LE(n, SHORT) + ([p.sessionId] + (p.signature + (LE(p.sequenceId, SHORT) + rest)))))
  }

  lemma FrontLayout(p: Packet, rest: seq<byte>)
    requires InRange(p)
    ensures Front(p) + rest == FrontBytes(p, p.flags * 16 + p.packetType, rest)
  {
    V1.TypeAndFlags(p.packetType, p.flags);
  }

  lemma FieldsRead(p: Packet, n: uint16, rest: seq<byte>)
    requires InRange(p) && n == p.flags * 16 + p.packetType
    ensures ParseFront(FrontBytes(p, n, rest)) == Some((FrontOf(p), rest))
  {
    V1.PortsRoundTrip(p.source, p.destination, n, [p.sessionId] + (p.signature + (LE(p.sequenceId, SHORT) + rest)));
    SessionRoundTrip(p.sessionId, p.signature, p.sequenceId, rest);
    V1.SplitNibble(p.packetType, p.flags);
  }

  lemma FrontRoundTrip(p: Packet, rest: seq<byte>)
    requires InRange(p)
    ensures ParseFront(Front(p) + rest) == Some((FrontOf(p), rest))
  {
    var n := p.flags * 16 + p.packetType;
    FrontLayout(p, rest);
    FieldsRead(p, n, rest);
  }

  lemma ExtrasRoundTrip(p: Packet, rest: seq<byte>)
    requires InRange(p)
    ensures ParseExtras(FrontOf(p), Extras(p) + rest) == Some((Carried(p).(payload := []), rest))
  {
    if V1.Handshake(p.packetType) {
      assert Extras(p) == p.connectionSignature;
      TakeWritten(p.connectionSignature, rest);
    } else if p.packetType == V1.DATA {
      assert Extras(p) == [p.fragmentId];
      ReadByteWritten(p.fragmentId, rest);
    } else {
      assert Extras(p) + rest == rest;
    }
  }

  lemma BodyLayout(p: Packet, rest: seq<byte>)
    ensures Body(p) + rest == Front(p) + (Extras(p) + (Size(p) + (p.payload + rest)))
  {
  }

  lemma SizeRoundTrip(c: Config, p: Packet, rest: seq<byte>)
    requires |p.payload| < 0x1_0000
    ensures ParseSize(c, Carried(p), Size(p) + (p.payload + rest)) ==
            Some((if HasSize(p) then |p.payload| else (|p.payload| + |rest| - Width(c)) % 0x1_0000, p.payload + rest))
  {
    if HasSize(p) {
      Widths();
      ReadWritten(|p.payload|, SHORT, p.payload + rest);
    } else {
      assert Size(p) + (p.payload + rest) == p.payload + rest;
    }
  }

  /** What the decoder reads of a body: all of it, or too much where the size is missing and more follows than a checksum. */
  lemma BodyRead(c: Config, p: Packet, rest: seq<byte>)
    requires InRange(p)
    ensures var size := if HasSize(p) then |p.payload| else (|p.payload| + |rest| - Width(c)) % 0x1_0000;
            ParseBody(c, Body(p) + rest) ==
            if |p.payload| + |rest| < size then None
            else Some((Carried(p).(payload := (p.payload + rest)[..size]), (p.payload + rest)[size..]))
  {
    BodyLayout(p, rest);
    FrontRoundTrip(p, Extras(p) + (Size(p) + (p.payload + rest)));
    ExtrasRoundTrip(p, Size(p) + (p.payload + rest));
    SizeRoundTrip(c, p, rest);
  }

  lemma CheckedIff(c: Config, body: seq<byte>, p: Packet, checksum: uint32, rest: seq<byte>)
    requires checksum < Pow256(Width(c))
    ensures var seal := LE(checksum, Width(c)) + rest;
            Checked(c, body + seal, p, seal) ==
            if checksum == Sum(c, body) then Some((p, rest)) else None
  {
    var seal := LE(checksum, Width(c)) + rest;
    ReadWritten(checksum, Width(c), rest);
    assert (body + seal)[..|body + seal| - |seal|] == body;
  }

  lemma PayloadSplit(payload: seq<byte>, rest: seq<byte>)
    ensures (payload + rest)[..|payload|] == payload && (payload + rest)[|payload|..] == rest
  {
  }

  /** The whole body is read where the size is there, or where only a checksum follows. */
  lemma WholeBodyRead(c: Config, p: Packet, rest: seq<byte>)
    requires InRange(p) && (HasSize(p) || |rest| == Width(c))
    ensures ParseBody(c, Body(p) + rest) == Some((Carried(p), rest))
  {
    PayloadSplit(p.payload, rest);
    assert (|p.payload| + Width(c) - Width(c)) % 0x1_0000 == |p.payload|;
    BodyRead(c, p, rest);
  }

  /** A body followed by a checksum is accepted exactly when the checksum is that of the body. */
  lemma AcceptedIff(c: Config, p: Packet, checksum: uint32, rest: seq<byte>)
    requires InRange(p) && (HasSize(p) || rest == []) && checksum < Pow256(Width(c))
    ensures Decode(c, Body(p) + (LE(checksum, Width(c)) + rest)) ==
            if checksum == Sum(c, Body(p)) then Some((Carried(p), rest)) else None
  {
    WholeBodyRead(c, p, LE(checksum, Width(c)) + rest);
    CheckedIff(c, Body(p), Carried(p), checksum, rest);
  }

  lemma ChecksumFits(c: Config, s: seq<byte>)
    ensures Sum(c, s) < Pow256(Width(c))
  {
    Widths();
  }

  lemma EncodeLayout(c: Config, p: Packet, rest: seq<byte>)
    ensures Encode(c, p) + rest == Body(p) + (Seal(c, Body(p)) + rest)
  {
    var body := Body(p);
    var seal := Seal(c, body);
    assert (body + seal) + rest == body + (seal + rest);
  }

  lemma PacketRoundTrip(c: Config, p: Packet, rest: seq<byte>)
    requires InRange(p) && (HasSize(p) || rest == [])
    ensures Decode(c, Encode(c, p) + rest) == Some((Carried(p), rest))
  {
    ChecksumFits(c, Body(p));
    AcceptedIff(c, p, Sum(c, Body(p)), rest);
    EncodeLayout(c, p, rest);
  }

  /** Whatever decodes is in range. */
  lemma DecodedInRange(c: Config, s: seq<byte>)
    requires Decode(c, s).Some?
    ensures InRange(Decode(c, s).value.0)
  {
    Widths();
    DecodedIsParsed(c, s);
  }

  /** A packet comes back, and exactly its bytes are consumed, if and only if its fields are in range. */
  lemma PacketRoundTripIff(c: Config, p: Packet, rest: seq<byte>)
    requires HasSize(p) || rest == []
    ensures Decode(c, Encode(c, p) + rest) == Some((Carried(p), rest)) <==> InRange(p)
  {
    if InRange(p) {
      PacketRoundTrip(c, p, rest);
    } else if Decode(c, Encode(c, p) + rest).Some? {
      DecodedInRange(c, Encode(c, p) + rest);
    }
  }

  /** A packet that arrives with one bit of its body flipped, the layout being the same, is refused, whatever follows it. */
  lemma FlippedBitRefused(c: Config, p: Packet, p': Packet, i: nat, b: byte, rest: seq<byte>)
    requires InRange(p') && i < |Body(p)| && Body(p') == Body(p)[i := b] && (HasSize(p') || rest == [])
    requires Checksum.OneBitApart(Body(p)[i], b)
    ensures Decode(c, Body(p') + (Seal(c, Body(p)) + rest)) == None
  {
    ChecksumFits(c, Body(p));
    Checksum.SingleBitErrorDetected(c.enhanced, Checksum.SumBytes(c.accessKey), Body(p), i, b);
    AcceptedIff(c, p', Sum(c, Body(p)), rest);
  }

  /** A packet sealed under one access key is accepted under another if and only if the sums of their bytes agree in the low byte. */
  lemma OtherKeyAcceptedIff(c: Config, accessKey: seq<byte>, p: Packet, rest: seq<byte>)
    requires InRange(p) && (HasSize(p) || rest == [])
    ensures Decode(c.(accessKey := accessKey), Encode(c, p) + rest) ==
            if Checksum.SumBytes(c.accessKey) % 256 == Checksum.SumBytes(accessKey) % 256 then Some((Carried(p), rest)) else None
  {
    ChecksumFits(c, Body(p));
    Checksum.SameChecksumIff(c.enhanced, Checksum.SumBytes(c.accessKey), Checksum.SumBytes(accessKey), Body(p));
    AcceptedIff(c.(accessKey := accessKey), p, Sum(c, Body(p)), rest);
    EncodeLayout(c, p, rest);
  }

  /** A packet without a size field swallows what follows it in the datagram. */
  lemma UnsizedSwallows(c: Config, p: Packet, rest: seq<byte>)
    requires InRange(p) && !HasSize(p) && rest != [] && |Encode(c, p) + rest| < 0x1_0000
    ensures Decode(c, Encode(c, p) + rest).None? || Decode(c, Encode(c, p) + rest).value.0.payload != p.payload
  {
    var seal := Seal(c, Body(p)) + rest;
    EncodeLayout(c, p, rest);
    var size := (|p.payload| + |seal| - Width(c)) % 0x1_0000;
    assert size == |p.payload| + |rest|;
    assert |(p.payload + seal)[..size]| == size;
    BodyRead(c, p, seal);
    if Decode(c, Body(p) + seal).Some? {
      DecodedIsParsed(c, Body(p) + seal);
    }
  }

  lemma DecodedIsParsed(c: Config, s: seq<byte>)
    requires Decode(c, s).Some?
    ensures ParseBody(c, s).Some? && Decode(c, s).value.0 == ParseBody(c, s).value.0
  {
  }

  function CarriedAll(ps: seq<Packet>): (r: seq<Packet>)
    ensures |r| == |ps|
  {
    if ps == [] then [] else [Carried(ps[0])] + CarriedAll(ps[1..])
  }

  ghost predicate AllButLastSized(ps: seq<Packet>) {
    forall i | 0 <= i < |ps| - 1 :: HasSize(ps[i])
  }

  lemma HeadAndTail(c: Config, s: seq<byte>, p: Packet, more: seq<Packet>)
    requires s != []
    ensures DecodeAll(c, s) == ([p] + more, true) <==>
            Decode(c, s).Some? && Decode(c, s).value.0 == p && DecodeAll(c, Decode(c, s).value.1) == (more, true)
  {
    var all := DecodeAll(c, s).0;
    if Decode(c, s).Some? {
      assert all == [Decode(c, s).value.0] + DecodeAll(c, Decode(c, s).value.1).0;
      assert all[1..] == DecodeAll(c, Decode(c, s).value.1).0;
      assert ([p] + more)[1..] == more;
    }
  }

  lemma FirstDecodes(c: Config, p: Packet, rest: seq<byte>, more: seq<Packet>)
    requires InRange(p) && |Encode(c, p) + rest| < 0x1_0000
    ensures DecodeAll(c, Encode(c, p) + rest) == ([Carried(p)] + more, true) <==>
            (HasSize(p) || rest == []) && DecodeAll(c, rest) == (more, true)
  {
    HeadAndTail(c, Encode(c, p) + rest, Carried(p), more);
    if HasSize(p) || rest == [] {
      PacketRoundTrip(c, p, rest);
    } else {
      UnsizedSwallows(c, p, rest);
    }
  }

  /**
   A datagram of packets in range decodes to exactly those packets if and only if all but the
   last carry their size.
   */
  lemma {:induction false} DatagramRoundTripIff(c: Config, ps: seq<Packet>)
    requires (forall i | 0 <= i < |ps| :: InRange(ps[i])) && |EncodeAll(c, ps)| < 0x1_0000
    ensures DecodeAll(c, EncodeAll(c, ps)) == (CarriedAll(ps), true) <==> AllButLastSized(ps)
  {
    if ps != [] {
      var more := CarriedAll(ps[1..]);
      var rest := EncodeAll(c, ps[1..]);
      assert |rest| < 0x1_0000;
      DatagramRoundTripIff(c, ps[1..]);
      FirstDecodes(c, ps[0], rest, more);
      SizedFromFirst(c, ps);
    }
  }

  lemma SizedFromFirst(c: Config, ps: seq<Packet>)
    requires ps != []
    ensures AllButLastSized(ps) <==> (HasSize(ps[0]) || EncodeAll(c, ps[1..]) == []) && AllButLastSized(ps[1..])
  {
    if |ps| > 1 {
      assert EncodeAll(c, ps[1..]) == Encode(c, ps[1]) + EncodeAll(c, ps[2..]) by {
        assert ps[1..][0] == ps[1] && ps[1..][1..] == ps[2..];
      }
      assert |Encode(c, ps[1])| > 0;
    }
    if AllButLastSized(ps[1..]) && (HasSize(ps[0]) || |ps| == 1) {
      forall i | 0 <= i < |ps| - 1
        ensures HasSize(ps[i])
      {
        assert i > 0 ==> ps[i] == ps[1..][i - 1];
      }
    }
  }

  // ---------- which decoder a datagram goes to ----------

  /** A datagram goes to the version 1 decoder when it starts with the magic, and to this one otherwise. */
  predicate GoesToV1(datagram: seq<byte>) {
    |datagram| >= 2 && datagram[..2] == V1.MAGIC
  }

  /**
   Packets whose two stream types are equal, as the server demands, are never mistaken for
   version 1; packets of version 1 always are recognised.
   */
  lemma VersionsAreToldApart(c: Config, ps: seq<Packet>, v1: V1.Packet, rest: seq<byte>)
    requires ps != [] && ps[0].source / 16 == ps[0].destination / 16
    ensures !GoesToV1(EncodeAll(c, ps)) && GoesToV1(V1.Encode(v1) + rest)
  {
    var s := EncodeAll(c, ps);
    assert s[0] == ps[0].source && s[1] == ps[0].destination;
    assert V1.MAGIC[0] == 0xEA && V1.MAGIC[1] == 0xD0;
    assert |s| >= 2 && s[..2] == [s[0], s[1]];
    assert (V1.Encode(v1) + rest)[..2] == V1.MAGIC;
  }

  // ---------- the codec on streams ----------

  method DecodeSession(stream: ByteStreamIn) returns (r: Option<(byte, seq<byte>, uint16)>)
    requires stream.Valid()
    modifies stream`offset
    ensures stream.Valid()
    ensures ParseSession(old(stream.Rest())) == if r.None? then None else Some((r.value, stream.Rest()))
  {
    Widths();
    var sessionId := stream.ReadUIntLE(1);
    if sessionId.None? {
      return None;
    }
    var signature := stream.Read(4);
    if signature.None? {
      return None;
    }
    var sequenceId := stream.ReadUIntLE(SHORT);
    if sequenceId.None? {
      return None;
    }
    r := Some((sessionId.value, signature.value, sequenceId.value));
  }

  method DecodeFront(stream: ByteStreamIn) returns (r: Option<Packet>)
    requires stream.Valid()
    modifies stream`offset
    ensures stream.Valid()
    ensures ParseFront(old(stream.Rest())) == if r.None? then None else Some((r.value, stream.Rest()))
  {
    var ports := V1.DecodePorts(stream);
    if ports.None? {
      return None;
    }
    var session := DecodeSession(stream);
    if session.None? {
      return None;
    }
    var (source, destination, typeAndFlags) := ports.value;
    var (sessionId, signature, sequenceId) := session.value;
    r := Some(Packet(source, destination, typeAndFlags % 16, typeAndFlags / 16, sessionId, signature, sequenceId, [], 0, []));
  }

  method DecodeExtras(front: Packet, stream: ByteStreamIn) returns (r: Option<Packet>)
    requires stream.Valid()
    modifies stream`offset
    ensures stream.Valid()
    ensures ParseExtras(front, old(stream.Rest())) == if r.None? then None else Some((r.value, stream.Rest()))
  {
    Widths();
    var p := front;
    if p.packetType == V1.SYN || p.packetType == V1.CONNECT {
      var signature := stream.Read(4);
      if signature.None? {
        return None;
      }
      p := p.(connectionSignature := signature.value);
    }
    if p.packetType == V1.DATA {
      var id := stream.ReadUIntLE(1);
      if id.None? {
        return None;
      }
      p := p.(fragmentId := id.value);
    }
    r := Some(p);
  }

  method DecodeSize(c: Config, p: Packet, stream: ByteStreamIn) returns (r: Option<nat>)
    requires stream.Valid()
    modifies stream`offset
    ensures stream.Valid()
    ensures ParseSize(c, p, old(stream.Rest())) == if r.None? then None else Some((r.value, stream.Rest()))
  {
    if HasSize(p) {
      r := stream.ReadUIntLE(SHORT);
    } else {
      var remaining: int := stream.Remaining();
      r := Some((remaining - (if c.enhanced then 4 else 1)) % 0x1_0000);
    }
  }

  method DecodeBody(c: Config, stream: ByteStreamIn) returns (r: Option<Packet>)
    requires stream.Valid()
    modifies stream`offset
    ensures stream.Valid()
    ensures ParseBody(c, old(stream.Rest())) == if r.None? then None else Some((r.value, stream.Rest()))
  {
    var front := DecodeFront(stream);
    if front.None? {
      return None;
    }
    var p := DecodeExtras(front.value, stream);
    if p.None? {
      return None;
    }
    var size := DecodeSize(c, p.value, stream);
    if size.None? {
      return None;
    }
    var payload := stream.Read(size.value);
    if payload.None? {
      return None;
    }
    r := Some(p.value.(payload := payload.value));
  }

  /** What was read between two offsets of a stream. */
  lemma ReadBetween(data: seq<byte>, start: nat, offset: nat)
    requires start <= offset <= |data|
    ensures data[start..][..|data[start..]| - |data[offset..]|] == data[start..offset]
  {
  }

  method DecodeChecksum(c: Config, p: Packet, stream: ByteStreamIn, start: nat) returns (r: Option<Packet>)
    requires stream.Valid() && start <= stream.offset
    modifies stream`offset
    ensures stream.Valid()
    ensures Checked(c, stream.data[start..], p, old(stream.Rest())) == if r.None? then None else Some((r.value, stream.Rest()))
  {
    ReadBetween(stream.data, start, stream.offset);
    var calculated := Checksum.Calculate(c.enhanced, c.accessKey, stream.data[start..stream.offset]);
    var checksum := stream.ReadUIntLE(if c.enhanced then 4 else 1);
    r := if checksum.None? || checksum.value != calculated then None else Some(p);
  }

  method DecodePacket(c: Config, stream: ByteStreamIn) returns (r: Option<Packet>)
    requires stream.Valid()
    modifies stream`offset
    ensures stream.Valid()
    ensures Decode(c, old(stream.Rest())) == if r.None? then None else Some((r.value, stream.Rest()))
  {
    var remaining := stream.Remaining();
    if remaining < 12 {
      return None;
    }
    var start := stream.offset;
    var p := DecodeBody(c, stream);
    if p.None? {
      return None;
    }
    r := DecodeChecksum(c, p.value, stream, start);
  }

  lemma DecodeAllStep(c: Config, done: seq<Packet>, s: seq<byte>)
    requires s != []
    ensures Decode(c, s).None? ==> done + DecodeAll(c, s).0 == done && !DecodeAll(c, s).1
    ensures Decode(c, s).Some? ==>
              && done + DecodeAll(c, s).0 == (done + [Decode(c, s).value.0]) + DecodeAll(c, Decode(c, s).value.1).0
              && DecodeAll(c, s).1 == DecodeAll(c, Decode(c, s).value.1).1
  {
  }

  /** All packets of a datagram; on an error, those before it. */
  method DecodeDatagram(c: Config, datagram: seq<byte>) returns (packets: seq<Packet>, ok: bool)
    ensures (packets, ok) == DecodeAll(c, datagram)
  {
    packets := [];
    var stream := new ByteStreamIn(datagram);
    var remaining := stream.Remaining();
    while remaining > 0
      invariant stream.Valid() && remaining == |stream.Rest()|
      invariant packets + DecodeAll(c, stream.Rest()).0 == DecodeAll(c, datagram).0
      invariant DecodeAll(c, stream.Rest()).1 == DecodeAll(c, datagram).1
    {
      DecodeAllStep(c, packets, stream.Rest());
      var p := DecodePacket(c, stream);
      if p.None? {
        ok := false;
        return;
      }
      packets := packets + [p.value];
      remaining := stream.Remaining();
    }
    ok := true;
    assert packets + [] == packets;
  }

  method WriteFront(stream: ByteStreamOut, p: Packet)
    modifies stream
    ensures stream.data == old(stream.data) + Front(p)
  {
    stream.Write([p.source]);
    stream.Write([p.destination]);
    stream.WriteUIntLE(Bits.Or(p.packetType, p.flags * 16 % 0x1_0000), SHORT);
    stream.Write([p.sessionId]);
    stream.Write(p.signature);
    stream.WriteUIntLE(p.sequenceId, SHORT);
  }

  method WriteExtras(stream: ByteStreamOut, p: Packet)
    modifies stream
    ensures stream.data == old(stream.data) + Extras(p)
  {
    if p.packetType == V1.SYN || p.packetType == V1.CONNECT {
      stream.Write(p.connectionSignature);
    }
    if p.packetType == V1.DATA {
      stream.Write([p.fragmentId]);
    }
  }

  method WriteSize(stream: ByteStreamOut, p: Packet)
    modifies stream
    ensures stream.data == old(stream.data) + Size(p)
  {
    if HasSize(p) {
      stream.WriteUIntLE(|p.payload|, SHORT);
    }
  }

  method PacketBytes(c: Config, p: Packet) returns (bytes: seq<byte>)
    ensures bytes == Encode(c, p)
  {
    var stream := new ByteStreamOut();
    WriteFront(stream, p);
    WriteExtras(stream, p);
    WriteSize(stream, p);
    stream.Write(p.payload);
    assert stream.data == Body(p);
    var checksum := Checksum.Calculate(c.enhanced, c.accessKey, stream.data);
    stream.WriteUIntLE(checksum, if c.enhanced then 4 else 1);
    bytes := stream.data;
  }
}
