/** The PRUDP version 1 wire format: magic, header, signature, options in any order, payload. */
module PacketV1 {
  import opened Bytes
  import opened Wrappers
  import Bits

  const SYN: uint16 := 0
  const CONNECT: uint16 := 1
  const DATA: uint16 := 2

  const MAGIC: seq<byte> := [0xEA, 0xD0]

  datatype Packet = Packet(source: byte, destination: byte, packetType: uint16, flags: uint16,
                           sessionId: byte, substreamId: byte, sequenceId: uint16, signature: seq<byte>,
                           connectionSignature: seq<byte>, fragmentId: byte, minorVersion: uint32,
                           supportedFunctions: uint32, maximumSubstreamId: byte,
                           initialUnreliableSequenceId: uint16, payload: seq<byte>)

  datatype Option1 =
    | Functions(minorVersion: uint32, supportedFunctions: uint32)
    | ConnectionSignature(signature: seq<byte>)
    | FragmentId(id: byte)
    | InitialUnreliable(sequenceId: uint16)
    | MaximumSubstream(substreamId: byte)

  predicate Handshake(packetType: nat) {
    packetType == SYN || packetType == CONNECT
  }

  // ---------- encoding ----------

  function OptionId(o: Option1): byte {
    match o
    case Functions(_, _) => 0
    case ConnectionSignature(_) => 1
    case FragmentId(_) => 2
    case InitialUnreliable(_) => 3
    case MaximumSubstream(_) => 4
  }

  function EncodeOption(o: Option1): (s: seq<byte>)
    ensures |s| >= 2
  {
    match o
    case Functions(minor, functions) => [0, 4] + LE(Bits.Or(minor, functions * 256 % 0x1_0000_0000), WORD)
    case ConnectionSignature(signature) => [1, 16] + signature
    case FragmentId(id) => [2, 1] + [id]
    case InitialUnreliable(n) => [3, 2] + LE(n, SHORT)
    case MaximumSubstream(n) => [4, 1] + [n]
  }

  function EncodeOptions(os: seq<Option1>): seq<byte> {
    if os == [] then [] else EncodeOption(os[0]) + EncodeOptions(os[1..])
  }

  /** The options a packet carries, in the order they are written. */
  function OptionsOf(p: Packet): seq<Option1> {
    if Handshake(p.packetType) then
      [Functions(p.minorVersion, p.supportedFunctions), ConnectionSignature(p.connectionSignature)] +
      (if p.packetType == CONNECT then [InitialUnreliable(p.initialUnreliableSequenceId)] else []) +
      [MaximumSubstream(p.maximumSubstreamId)]
    else if p.packetType == DATA then [FragmentId(p.fragmentId)]
    else []
  }

  function EncodeHeader(p: Packet, optionsLength: nat): (s: seq<byte>)
    ensures |s| == 12
  {
    [1] + [optionsLength % 256] + LE(|p.payload|, SHORT) + [p.source] + [p.destination] +
    LE(Bits.Or(p.packetType, p.flags * 16 % 0x1_0000), SHORT) + [p.sessionId] + [p.substreamId] + LE(p.sequenceId, SHORT)
  }

  function Encode(p: Packet): seq<byte> {
    var options := EncodeOptions(OptionsOf(p));
    MAGIC + EncodeHeader(p, |options|) + p.signature + options + p.payload
  }

  function EncodeAll(ps: seq<Packet>): seq<byte> {
    if ps == [] then [] else Encode(ps[0]) + EncodeAll(ps[1..])
  }

  // ---------- decoding ----------

  /** A header: the packet with its header fields, and the two lengths. */
  datatype Header = Header(packet: Packet, optionsLength: nat, payloadLength: nat)

  /** Version byte and the two lengths. */
  function ParseLengths(s: seq<byte>): Option<((nat, nat), seq<byte>)> {
    var (version, s1) :- ReadUInt(s, 1);
    var (optionsLength, s2) :- ReadUInt(s1, 1);
    var (payloadLength, s3) :- ReadUInt(s2, SHORT);
    if version != 1 then None else Some(((optionsLength, payloadLength), s3))
  }

  /** Source port, destination port, type and flags. */
  function ParsePorts(s: seq<byte>): Option<((byte, byte, uint16), seq<byte>)> {
    Widths();
    var (source, s1) :- ReadUInt(s, 1);
    var (destination, s2) :- ReadUInt(s1, 1);
    var (typeAndFlags, s3) :- ReadUInt(s2, SHORT);
    Some(((source, destination, typeAndFlags), s3))
  }

  /** Session, substream and sequence number. */
  function ParseIds(s: seq<byte>): Option<((byte, byte, uint16), seq<byte>)> {
    Widths();
    var (sessionId, s1) :- ReadUInt(s, 1);
    var (substreamId, s2) :- ReadUInt(s1, 1);
    var (sequenceId, s3) :- ReadUInt(s2, SHORT);
    Some(((sessionId, substreamId, sequenceId), s3))
  }

  function ParseHeader(s: seq<byte>): Option<(Header, seq<byte>)> {
    if |s| < 12 then None
    else
      var (lengths, s1) :- ParseLengths(s);
      var (ports, s2) :- ParsePorts(s1);
      var (ids, s3) :- ParseIds(s2);
      Some((Header(Packet(ports.0, ports.1, ports.2 % 16, ports.2 / 16, ids.0, ids.1, ids.2, [], [], 0, 0, 0, 0, 0, []),
                   lengths.0, lengths.1), s3))
  }

  /** The body of an option that the packet's type knows; an unknown option has its body left in place. */
  function ParseOption(p: Packet, id: byte, s: seq<byte>): (r: Option<(Packet, seq<byte>)>)
    ensures r.Some? ==> |r.value.1| <= |s| && r.value.0.packetType == p.packetType
  {
    Widths();
    if Handshake(p.packetType) && id == 0 then
      var (n, rest) :- ReadUInt(s, WORD);
      Some((p.(minorVersion := n % 256, supportedFunctions := n / 256), rest))
    else if Handshake(p.packetType) && id == 1 then
      var (signature, rest) :- TakeBytes(s, 16);
      Some((p.(connectionSignature := signature), rest))
    else if Handshake(p.packetType) && id == 4 then
      var (n, rest) :- ReadUInt(s, 1);
      Some((p.(maximumSubstreamId := n), rest))
    else if p.packetType == CONNECT && id == 3 then
      var (n, rest) :- ReadUInt(s, SHORT);
      Some((p.(initialUnreliableSequenceId := n), rest))
    else if p.packetType == DATA && id == 2 then
      var (n, rest) :- ReadUInt(s, 1);
      Some((p.(fragmentId := n), rest))
    else Some((p, s))
  }

  /** The declared size of an option is read and not used. */
  function ParseOptions(p: Packet, s: seq<byte>): (r: Option<Packet>)
    ensures r.Some? ==> r.value.packetType == p.packetType
    decreases |s|
  {
    if s == [] then Some(p)
    else
      Widths();
      var (id, s1) :- ReadUInt(s, 1);
      var (_, s2) :- ReadUInt(s1, 1);
      var (p', s3) :- ParseOption(p, id, s2);
      ParseOptions(p', s3)
  }

  function Decode(s: seq<byte>): (r: Option<(Packet, seq<byte>)>)
    ensures r.Some? ==> |r.value.1| < |s|
  {
    var (magic, s1) :- TakeBytes(s, 2);
    if magic != MAGIC then None
    else
      var (header, s2) :- ParseHeader(s1);
      var (signature, s3) :- TakeBytes(s2, 16);
      var (options, s4) :- TakeBytes(s3, header.optionsLength);
      var p :- ParseOptions(header.packet.(signature := signature), options);
      var (payload, s5) :- TakeBytes(s4, header.payloadLength);
      Some((p.(payload := payload), s5))
  }

  /** The packets of a datagram up to the first error, and whether there was none. */
  function DecodeAll(s: seq<byte>): (seq<Packet>, bool)
    decreases |s|
  {
    if s == [] then ([], true)
    else
      var r := Decode(s);
      if r.None? then ([], false)
      else
        var (more, ok) := DecodeAll(r.value.1);
        ([r.value.0] + more, ok)
  }

  // ---------- round trips ----------

  /** The fields fit the places the format has for them. */
  predicate InRange(p: Packet) {
    && p.packetType < 16 && p.flags < 0x1000 && |p.payload| < 0x1_0000
    && (Handshake(p.packetType) ==> p.minorVersion < 0x100 && p.supportedFunctions < 0x100_0000)
  }

  /** The writer is given 16-byte signatures. */
  predicate Signed(p: Packet) {
    |p.signature| == 16 && (Handshake(p.packetType) ==> |p.connectionSignature| == 16)
  }

  /** The packet with the fields its type does not carry left at zero. */
  function Carried(p: Packet): Packet {
    p.(connectionSignature := if Handshake(p.packetType) then p.connectionSignature else [],
       fragmentId := if p.packetType == DATA then p.fragmentId else 0,
       minorVersion := if Handshake(p.packetType) then p.minorVersion else 0,
       supportedFunctions := if Handshake(p.packetType) then p.supportedFunctions else 0,
       maximumSubstreamId := if Handshake(p.packetType) then p.maximumSubstreamId else 0,
       initialUnreliableSequenceId := if p.packetType == CONNECT then p.initialUnreliableSequenceId else 0)
  }

  lemma TypeAndFlags(packetType: uint16, flags: uint16)
    requires packetType < 16 && flags < 0x1000
    ensures Bits.Or(packetType, flags * 16 % 0x1_0000) == flags * 16 + packetType
  {
    assert Bits.Pow2(4) == 16;
    assert flags * 16 % 0x1_0000 == flags * 16;
    Bits.OrDisjoint(packetType, flags, 4);
  }

  lemma FunctionsField(minor: uint32, functions: uint32)
    requires minor < 0x100 && functions < 0x100_0000
    ensures Bits.Or(minor, functions * 256 % 0x1_0000_0000) == functions * 256 + minor
  {
    assert Bits.Pow2(8) == 256;
    assert functions * 256 % 0x1_0000_0000 == functions * 256;
    Bits.OrDisjoint(minor, functions, 8);
  }

  /** The packet with only the fields of the header. */
  function HeaderOf(p: Packet): Packet {
    Packet(p.source, p.destination, p.packetType, p.flags, p.sessionId, p.substreamId, p.sequenceId, [], [], 0, 0, 0, 0, 0, [])
  }

  lemma LengthsRoundTrip(optionsLength: byte, payloadLength: uint16, rest: seq<byte>)
    ensures ParseLengths([1] + ([optionsLength] + (LE(payloadLength, SHORT) + rest))) == Some(((optionsLength, payloadLength), rest))
  {
    Widths();
    ReadByteWritten(1, [optionsLength] + (LE(payloadLength, SHORT) + rest));
    ReadByteWritten(optionsLength, LE(payloadLength, SHORT) + rest);
    ReadWritten(payloadLength, SHORT, rest);
  }

  lemma PortsRoundTrip(source: byte, destination: byte, n: uint16, rest: seq<byte>)
    ensures ParsePorts([source] + ([destination] + (LE(n, SHORT) + rest))) == Some(((source, destination, n), rest))
  {
    Widths();
    ReadByteWritten(source, [destination] + (LE(n, SHORT) + rest));
    ReadByteWritten(destination, LE(n, SHORT) + rest);
    ReadWritten(n, SHORT, rest);
  }

  lemma IdsRoundTrip(sessionId: byte, substreamId: byte, n: uint16, rest: seq<byte>)
    ensures ParseIds([sessionId] + ([substreamId] + (LE(n, SHORT) + rest))) == Some(((sessionId, substreamId, n), rest))
  {
    Widths();
    ReadByteWritten(sessionId, [substreamId] + (LE(n, SHORT) + rest));
    ReadByteWritten(substreamId, LE(n, SHORT) + rest);
    ReadWritten(n, SHORT, rest);
  }

  lemma SplitNibble(low: nat, high: nat)
    requires low < 16
    ensures (high * 16 + low) % 16 == low && (high * 16 + low) / 16 == high
  {
  }

  /** The header with its fields side by side, `n` being type and flags in one number. */
  function HeaderBytes(p: Packet, n: uint16, optionsLength: byte, rest: seq<byte>): seq<byte> {
    [1] + ([optionsLength] + (LE(|p.payload|, SHORT) + ([p.source] + ([p.destination] +
    (LE(n, SHORT) + ([p.sessionId] + ([p.substreamId] + (LE(p.sequenceId, SHORT) + rest))))))))
  }

  lemma HeaderLayout(p: Packet, optionsLength: byte, rest: seq<byte>)
    requires InRange(p)
    ensures EncodeHeader(p, optionsLength) + rest == HeaderBytes(p, p.flags * 16 + p.packetType, optionsLength, rest)
  {
    TypeAndFlags(p.packetType, p.flags);
  }

  lemma FieldsRead(p: Packet, n: uint16, optionsLength: byte, rest: seq<byte>)
    requires InRange(p) && n == p.flags * 16 + p.packetType
    ensures ParseHeader(HeaderBytes(p, n, optionsLength, rest)) == Some((Header(HeaderOf(p), optionsLength, |p.payload|), rest))
  {
    var t3 := [p.sessionId] + ([p.substreamId] + (LE(p.sequenceId, SHORT) + rest));
    var t2 := [p.source] + ([p.destination] + (LE(n, SHORT) + t3));
    LengthsRoundTrip(optionsLength, |p.payload|, t2);
    PortsRoundTrip(p.source, p.destination, n, t3);
    IdsRoundTrip(p.sessionId, p.substreamId, p.sequenceId, rest);
    SplitNibble(p.packetType, p.flags);
  }

  lemma HeaderRoundTrip(p: Packet, optionsLength: byte, rest: seq<byte>)
    requires InRange(p)
    ensures ParseHeader(EncodeHeader(p, optionsLength) + rest) ==
            Some((Header(HeaderOf(p), optionsLength, |p.payload|), rest))
  {
    var n := p.flags * 16 + p.packetType;
    HeaderLayout(p, optionsLength, rest);
    FieldsRead(p, n, optionsLength, rest);
  }

  // ---------- options in any order ----------

  /** The options that packets of the type know, with contents that fit. */
  predicate Known(packetType: nat, o: Option1) {
    match o
    case Functions(minor, functions) => Handshake(packetType) && minor < 0x100 && functions < 0x100_0000
    case ConnectionSignature(signature) => Handshake(packetType) && |signature| == 16
    case FragmentId(_) => packetType == DATA
    case InitialUnreliable(_) => packetType == CONNECT
    case MaximumSubstream(_) => Handshake(packetType)
  }

  function Apply(p: Packet, o: Option1): Packet {
    match o
    case Functions(minor, functions) => p.(minorVersion := minor, supportedFunctions := functions)
    case ConnectionSignature(signature) => p.(connectionSignature := signature)
    case FragmentId(id) => p.(fragmentId := id)
    case InitialUnreliable(n) => p.(initialUnreliableSequenceId := n)
    case MaximumSubstream(n) => p.(maximumSubstreamId := n)
  }

  function ApplyAll(p: Packet, os: seq<Option1>): Packet
    decreases os
  {
    if os == [] then p else ApplyAll(Apply(p, os[0]), os[1..])
  }

  lemma FunctionsRead(p: Packet, n: uint32, rest: seq<byte>)
    requires Handshake(p.packetType)
    ensures ParseOption(p, 0, LE(n, WORD) + rest) == Some((p.(minorVersion := n % 256, supportedFunctions := n / 256), rest))
  {
    Widths();
    ReadWritten(n, WORD, rest);
  }

  lemma FunctionsRoundTrip(p: Packet, minor: uint32, functions: uint32, rest: seq<byte>)
    requires Handshake(p.packetType) && minor < 0x100 && functions < 0x100_0000
    ensures var body := EncodeOption(Functions(minor, functions))[2..];
            ParseOption(p, 0, body + rest) == Some((p.(minorVersion := minor, supportedFunctions := functions), rest))
  {
    FunctionsField(minor, functions);
    var n := functions * 256 + minor;
    var body := LE(n, WORD);
    assert EncodeOption(Functions(minor, functions)) == [0, 4] + body;
    assert ([0, 4] + body)[2..] == body;
    FunctionsRead(p, n, rest);
    SplitByte(minor, functions);
  }

  lemma SplitByte(low: nat, high: nat)
    requires low < 256
    ensures (high * 256 + low) % 256 == low && (high * 256 + low) / 256 == high
  {
  }

  lemma OptionRoundTrip(p: Packet, o: Option1, rest: seq<byte>)
    requires Known(p.packetType, o)
    ensures var body := EncodeOption(o)[2..];
            && EncodeOption(o)[0] == OptionId(o)
            && ParseOption(p, OptionId(o), body + rest) == Some((Apply(p, o), rest))
  {
    Widths();
    match o
    case Functions(minor, functions) =>
      FunctionsRoundTrip(p, minor, functions, rest);
    case ConnectionSignature(signature) =>
      assert EncodeOption(o)[2..] == signature;
      TakeWritten(signature, rest);
    case FragmentId(id) =>
      assert EncodeOption(o)[2..] == [id];
      ReadByteWritten(id, rest);
    case InitialUnreliable(n) =>
      assert EncodeOption(o)[2..] == LE(n, SHORT);
      ReadWritten(n, SHORT, rest);
    case MaximumSubstream(n) =>
      assert EncodeOption(o)[2..] == [n];
      ReadByteWritten(n, rest);
  }

  lemma OptionLayout(o: seq<byte>, rest: seq<byte>)
    requires |o| >= 2
    ensures ReadUInt(o + rest, 1) == Some((o[0], (o + rest)[1..]))
    ensures ReadUInt((o + rest)[1..], 1) == Some((o[1], o[2..] + rest))
  {
    assert (o + rest)[1..] == [o[1]] + (o[2..] + rest);
    assert o + rest == [o[0]] + (o + rest)[1..];
    ReadByteWritten(o[0], (o + rest)[1..]);
    ReadByteWritten(o[1], o[2..] + rest);
  }

  lemma {:induction false} OptionsRoundTrip(p: Packet, os: seq<Option1>)
    requires forall i | 0 <= i < |os| :: Known(p.packetType, os[i])
    ensures ParseOptions(p, EncodeOptions(os)) == Some(ApplyAll(p, os))
    decreases os
  {
    if os != [] {
      var rest := EncodeOptions(os[1..]);
      OptionRoundTrip(p, os[0], rest);
      OptionLayout(EncodeOption(os[0]), rest);
      OptionsRoundTrip(Apply(p, os[0]), os[1..]);
    }
  }

  ghost predicate Distinct(os: seq<Option1>) {
    forall i, j | 0 <= i < j < |os| :: OptionId(os[i]) != OptionId(os[j])
  }

  /** What the options of a kind leave behind: the one option of that kind, or nothing changed. */
  lemma {:induction false} KindDecides(p: Packet, os: seq<Option1>, id: byte)
    requires Distinct(os)
    ensures forall o | o in os && OptionId(o) == id :: Agree(ApplyAll(p, os), Apply(p, o), id)
    ensures (forall i | 0 <= i < |os| :: OptionId(os[i]) != id) ==> Agree(ApplyAll(p, os), p, id)
    decreases os
  {
    if os != [] {
      KindDecides(Apply(p, os[0]), os[1..], id);
    }
  }

  /** Two packets agree on the fields that options with this ID set. */
  ghost predicate Agree(p: Packet, q: Packet, id: byte) {
    && (id == 0 ==> p.minorVersion == q.minorVersion && p.supportedFunctions == q.supportedFunctions)
    && (id == 1 ==> p.connectionSignature == q.connectionSignature)
    && (id == 2 ==> p.fragmentId == q.fragmentId)
    && (id == 3 ==> p.initialUnreliableSequenceId == q.initialUnreliableSequenceId)
    && (id == 4 ==> p.maximumSubstreamId == q.maximumSubstreamId)
  }

  lemma {:induction false} OptionsLeaveTheRest(p: Packet, os: seq<Option1>)
    ensures var q := ApplyAll(p, os);
            q == p.(minorVersion := q.minorVersion, supportedFunctions := q.supportedFunctions,
                    connectionSignature := q.connectionSignature, fragmentId := q.fragmentId,
                    initialUnreliableSequenceId := q.initialUnreliableSequenceId, maximumSubstreamId := q.maximumSubstreamId)
    decreases os
  {
    if os != [] {
      OptionsLeaveTheRest(Apply(p, os[0]), os[1..]);
    }
  }

  /** However known options are ordered, as long as none is repeated, they decode to the same fields. */
  lemma OptionOrderIsFree(p: Packet, os: seq<Option1>, os': seq<Option1>)
    requires forall i | 0 <= i < |os| :: Known(p.packetType, os[i])
    requires Distinct(os) && Distinct(os') && multiset(os) == multiset(os')
    ensures ParseOptions(p, EncodeOptions(os)) == ParseOptions(p, EncodeOptions(os')) == Some(ApplyAll(p, os))
  {
    forall i | 0 <= i < |os'|
      ensures os'[i] in os
    {
      assert os'[i] in multiset(os');
    }
    OptionsRoundTrip(p, os);
    OptionsRoundTrip(p, os');
    OptionsLeaveTheRest(p, os);
    OptionsLeaveTheRest(p, os');
    SameKind(p, os, os', 0);
    SameKind(p, os, os', 1);
    SameKind(p, os, os', 2);
    SameKind(p, os, os', 3);
    SameKind(p, os, os', 4);
  }

  lemma SameKind(p: Packet, os: seq<Option1>, os': seq<Option1>, id: byte)
    requires Distinct(os) && Distinct(os') && multiset(os) == multiset(os')
    ensures Agree(ApplyAll(p, os), ApplyAll(p, os'), id)
  {
    KindDecides(p, os, id);
    KindDecides(p, os', id);
    if i :| 0 <= i < |os| && OptionId(os[i]) == id {
      assert os[i] in multiset(os');
    } else {
      forall j | 0 <= j < |os'|
        ensures OptionId(os'[j]) != id
      {
        assert os'[j] in multiset(os);
      }
    }
  }

  // ---------- whole packets ----------

  /** A packet is decoded piece by piece. */
  lemma PiecesDecode(header: seq<byte>, h: Header, signature: seq<byte>, options: seq<byte>, p: Packet, payload: seq<byte>, rest: seq<byte>)
    requires ParseHeader(header) == Some((h, signature + (options + (payload + rest))))
    requires |signature| == 16 && h.optionsLength == |options| && h.payloadLength == |payload|
    requires ParseOptions(h.packet.(signature := signature), options) == Some(p)
    ensures Decode(MAGIC + header) == Some((p.(payload := payload), rest))
  {
    TakeWritten(MAGIC, header);
    TakeWritten(signature, options + (payload + rest));
    TakeWritten(options, payload + rest);
    TakeWritten(payload, rest);
  }

  lemma PacketLayout(header: seq<byte>, signature: seq<byte>, options: seq<byte>, payload: seq<byte>, rest: seq<byte>)
    ensures MAGIC + header + signature + options + payload + rest ==
            MAGIC + (header + (signature + (options + (payload + rest))))
  {
  }

  lemma PacketRoundTrip(p: Packet, rest: seq<byte>)
    requires InRange(p) && Signed(p)
    ensures Decode(Encode(p) + rest) == Some((Carried(p), rest))
  {
    var options := EncodeOptions(OptionsOf(p));
    OptionsLength(p);
    OptionsRead(p);
    var header := EncodeHeader(p, |options|);
    var tail := p.signature + (options + (p.payload + rest));
    HeaderRoundTrip(p, |options|, tail);
    PacketLayout(header, p.signature, options, p.payload, rest);
    PiecesDecode(header + tail, Header(HeaderOf(p), |options|, |p.payload|), p.signature, options,
                 Carried(p).(payload := []), p.payload, rest);
  }

  lemma OptionsRead(p: Packet)
    requires InRange(p) && Signed(p)
    ensures ParseOptions(HeaderOf(p).(signature := p.signature), EncodeOptions(OptionsOf(p))) ==
            Some(Carried(p).(payload := []))
  {
    var h, os := HeaderOf(p).(signature := p.signature), OptionsOf(p);
    OptionsRoundTrip(h, os);
    if p.packetType == SYN {
      ApplyThree(h, os);
    } else if p.packetType == CONNECT {
      ApplyThree(Apply(h, os[0]), os[1..]);
    } else if p.packetType == DATA {
      assert os[1..] == [];
    }
  }

  lemma ApplyThree(p: Packet, os: seq<Option1>)
    requires |os| == 3
    ensures ApplyAll(p, os) == Apply(Apply(Apply(p, os[0]), os[1]), os[2])
  {
    var q := Apply(p, os[0]);
    assert ApplyAll(p, os) == ApplyAll(q, os[1..]);
    assert os[1..][1..] == os[2..] && os[2..][1..] == [];
    assert ApplyAll(q, os[1..]) == ApplyAll(Apply(q, os[1]), os[2..]);
  }

  lemma OptionsLength(p: Packet)
    requires Signed(p)
    ensures |EncodeOptions(OptionsOf(p))| < 256
  {
    var os := OptionsOf(p);
    assert EncodeOptions([]) == [];
    assert |os| >= 1 ==> EncodeOptions(os) == EncodeOption(os[0]) + EncodeOptions(os[1..]);
    assert |os| >= 2 ==> EncodeOptions(os[1..]) == EncodeOption(os[1]) + EncodeOptions(os[1..][1..]);
    assert |os| >= 3 ==> os[1..][1..] == os[2..] && EncodeOptions(os[2..]) == EncodeOption(os[2]) + EncodeOptions(os[2..][1..]);
    assert |os| >= 4 ==> os[2..][1..] == os[3..] && EncodeOptions(os[3..]) == EncodeOption(os[3]) + EncodeOptions(os[3..][1..]);
  }

  /** Whatever decodes is in range. */
  lemma DecodedInRange(s: seq<byte>)
    requires Decode(s).Some?
    ensures InRange(Decode(s).value.0)
  {
    Widths();
    var header := ParseHeader(s[2..]).value;
    var p := header.0.packet.(signature := header.1[..16]);
    ParsedOptionsInRange(p, header.1[16..][..header.0.optionsLength]);
  }

  lemma {:induction false} ParsedOptionsInRange(p: Packet, s: seq<byte>)
    requires p.minorVersion < 0x100 && p.supportedFunctions < 0x100_0000
    ensures var r := ParseOptions(p, s);
            r.Some? ==> r.value.minorVersion < 0x100 && r.value.supportedFunctions < 0x100_0000 && r.value.flags == p.flags
    decreases |s|
  {
    if |s| >= 2 {
      Widths();
      var r := ParseOption(p, FromLE(s[..1]), s[1..][1..]);
      if r.Some? {
        ParsedOptionsInRange(r.value.0, r.value.1);
      }
    }
  }

  /** A connection signature is read whole or not at all. */
  lemma {:induction false} ParsedSignature(p: Packet, s: seq<byte>)
    ensures var r := ParseOptions(p, s);
            r.Some? ==> r.value.signature == p.signature &&
                        (r.value.connectionSignature == p.connectionSignature || |r.value.connectionSignature| == 16)
    decreases |s|
  {
    if |s| >= 2 {
      Widths();
      var r := ParseOption(p, FromLE(s[..1]), s[1..][1..]);
      if r.Some? {
        ParsedSignature(r.value.0, r.value.1);
      }
    }
  }

  lemma DecodedSigned(s: seq<byte>)
    requires Decode(s).Some?
    ensures var p := Decode(s).value.0; |p.signature| == 16 && |p.connectionSignature| in {0, 16}
  {
    var header := ParseHeader(s[2..]).value;
    var p := header.0.packet.(signature := header.1[..16]);
    ParsedSignature(p, header.1[16..][..header.0.optionsLength]);
  }

  /** A handshake without a connection signature ends before the sixteen bytes that are read for it. */
  lemma MissingSignatureRefused(p: Packet, rest: seq<byte>)
    requires InRange(p) && |p.signature| == 16 && Handshake(p.packetType) && p.connectionSignature == []
    ensures Decode(Encode(p) + rest) == None
  {
    var options := EncodeOptions(OptionsOf(p));
    MissingOption(p);
    var header := EncodeHeader(p, |options|);
    var tail := p.signature + (options + (p.payload + rest));
    HeaderRoundTrip(p, |options|, tail);
    PacketLayout(header, p.signature, options, p.payload, rest);
    PiecesRefused(header + tail, Header(HeaderOf(p), |options|, |p.payload|), p.signature, options, p.payload + rest);
  }

  lemma PiecesRefused(header: seq<byte>, h: Header, signature: seq<byte>, options: seq<byte>, rest: seq<byte>)
    requires ParseHeader(header) == Some((h, signature + (options + rest)))
    requires |signature| == 16 && h.optionsLength == |options|
    requires ParseOptions(h.packet.(signature := signature), options) == None
    ensures Decode(MAGIC + header) == None
  {
    TakeWritten(MAGIC, header);
    TakeWritten(signature, options + rest);
    TakeWritten(options, rest);
  }

  lemma MissingOption(p: Packet)
    requires InRange(p) && Handshake(p.packetType) && p.connectionSignature == []
    ensures var options := EncodeOptions(OptionsOf(p));
            |options| < 256 && ParseOptions(HeaderOf(p).(signature := p.signature), options) == None
  {
    var os, h := OptionsOf(p), HeaderOf(p).(signature := p.signature);
    var later := EncodeOptions(os[2..]);
    ShortOptions(os[2..]);
    var rest := EncodeOptions(os[1..]);
    assert os[1..][1..] == os[2..];
    assert rest == EncodeOption(os[1]) + later && EncodeOption(os[1]) == [1, 16] + [];
    assert EncodeOptions(os) == EncodeOption(os[0]) + rest;
    OptionRoundTrip(h, os[0], rest);
    OptionLayout(EncodeOption(os[0]), rest);
    var h1 := Apply(h, os[0]);
    assert ParseOptions(h, EncodeOptions(os)) == ParseOptions(h1, rest);
    OptionLayout(EncodeOption(os[1]), later);
    assert EncodeOption(os[1])[2..] + later == later;
    assert ParseOption(h1, 1, later) == None;
  }

  /** Without signatures, the options that follow take less than sixteen bytes. */
  lemma ShortOptions(os: seq<Option1>)
    requires |os| <= 2 && forall i | 0 <= i < |os| :: os[i].InitialUnreliable? || os[i].MaximumSubstream?
    ensures |EncodeOptions(os)| <= 8
  {
    assert EncodeOptions([]) == [];
    assert |os| >= 1 ==> EncodeOptions(os) == EncodeOption(os[0]) + EncodeOptions(os[1..]);
    assert |os| >= 2 ==> EncodeOptions(os[1..]) == EncodeOption(os[1]) + EncodeOptions(os[1..][1..]) && os[1..][1..] == [];
  }

  /** A packet comes back, and exactly its bytes are consumed, if and only if its fields are in range and its signatures have 16 bytes. */
  lemma PacketRoundTripIff(p: Packet, rest: seq<byte>)
    ensures Decode(Encode(p) + rest) == Some((Carried(p), rest)) <==> InRange(p) && Signed(p)
  {
    if InRange(p) && Signed(p) {
      PacketRoundTrip(p, rest);
    } else if InRange(p) && |p.signature| == 16 && p.connectionSignature == [] {
      MissingSignatureRefused(p, rest);
    } else if Decode(Encode(p) + rest).Some? {
      DecodedInRange(Encode(p) + rest);
      DecodedSigned(Encode(p) + rest);
    }
  }

  /** A datagram made of any packets in range decodes to exactly those packets. */
  lemma {:induction false} DatagramRoundTrip(ps: seq<Packet>)
    requires forall i | 0 <= i < |ps| :: InRange(ps[i]) && Signed(ps[i])
    ensures DecodeAll(EncodeAll(ps)) == (CarriedAll(ps), true)
  {
    if ps != [] {
      PacketRoundTrip(ps[0], EncodeAll(ps[1..]));
      DatagramRoundTrip(ps[1..]);
      assert |Encode(ps[0])| > 0;
    }
  }

  function CarriedAll(ps: seq<Packet>): seq<Packet> {
    if ps == [] then [] else [Carried(ps[0])] + CarriedAll(ps[1..])
  }

  // ---------- the codec on streams ----------

  method DecodeHeader(stream: ByteStreamIn) returns (r: Option<Header>)
    requires stream.Valid()
    modifies stream`offset
    ensures stream.Valid()
    ensures ParseHeader(old(stream.Rest())) == if r.None? then None else Some((r.value, stream.Rest()))
  {
    var remaining := stream.Remaining();
    if remaining < 12 {
      return None;
    }
    var lengths := DecodeLengths(stream);
    if lengths.None? {
      return None;
    }
    var ports := DecodePorts(stream);
    if ports.None? {
      return None;
    }
    var ids := DecodeIds(stream);
    if ids.None? {
      return None;
    }
    var (source, destination, typeAndFlags) := ports.value;
    var (sessionId, substreamId, sequenceId) := ids.value;
    r := Some(Header(Packet(source, destination, typeAndFlags % 16, typeAndFlags / 16, sessionId, substreamId, sequenceId,
                            [], [], 0, 0, 0, 0, 0, []), lengths.value.0, lengths.value.1));
  }

  method DecodeLengths(stream: ByteStreamIn) returns (r: Option<(nat, nat)>)
    requires stream.Valid()
    modifies stream`offset
    ensures stream.Valid()
    ensures ParseLengths(old(stream.Rest())) == if r.None? then None else Some((r.value, stream.Rest()))
  {
    var version := stream.ReadUIntLE(1);
    if version.None? {
      return None;
    }
    var optionsLength := stream.ReadUIntLE(1);
    if optionsLength.None? {
      return None;
    }
    var payloadLength := stream.ReadUIntLE(SHORT);
    if payloadLength.None? || version.value != 1 {
      return None;
    }
    r := Some((optionsLength.value, payloadLength.value));
  }

  method DecodePorts(stream: ByteStreamIn) returns (r: Option<(byte, byte, uint16)>)
    requires stream.Valid()
    modifies stream`offset
    ensures stream.Valid()
    ensures ParsePorts(old(stream.Rest())) == if r.None? then None else Some((r.value, stream.Rest()))
  {
    Widths();
    var source := stream.ReadUIntLE(1);
    if source.None? {
      return None;
    }
    var destination := stream.ReadUIntLE(1);
    if destination.None? {
      return None;
    }
    var typeAndFlags := stream.ReadUIntLE(SHORT);
    if typeAndFlags.None? {
      return None;
    }
    r := Some((source.value, destination.value, typeAndFlags.value));
  }

  method DecodeIds(stream: ByteStreamIn) returns (r: Option<(byte, byte, uint16)>)
    requires stream.Valid()
    modifies stream`offset
    ensures stream.Valid()
    ensures ParseIds(old(stream.Rest())) == if r.None? then None else Some((r.value, stream.Rest()))
  {
    Widths();
    var sessionId := stream.ReadUIntLE(1);
    if sessionId.None? {
      return None;
    }
    var substreamId := stream.ReadUIntLE(1);
    if substreamId.None? {
      return None;
    }
    var sequenceId := stream.ReadUIntLE(SHORT);
    if sequenceId.None? {
      return None;
    }
    r := Some((sessionId.value, substreamId.value, sequenceId.value));
  }

  method DecodeOption(p: Packet, id: byte, stream: ByteStreamIn) returns (r: Option<Packet>)
    requires stream.Valid()
    modifies stream`offset
    ensures stream.Valid()
    ensures ParseOption(p, id, old(stream.Rest())) == if r.None? then None else Some((r.value, stream.Rest()))
  {
    Widths();
    r := Some(p);
    if Handshake(p.packetType) {
      if id == 0 {
        var n := stream.ReadUIntLE(WORD);
        r := if n.None? then None else Some(p.(minorVersion := n.value % 256, supportedFunctions := n.value / 256));
      }
      if id == 1 {
        var signature := stream.Read(16);
        r := if signature.None? then None else Some(p.(connectionSignature := signature.value));
      }
      if id == 4 {
        var n := stream.ReadUIntLE(1);
        r := if n.None? then None else Some(p.(maximumSubstreamId := n.value));
      }
    }
    if p.packetType == CONNECT && id == 3 {
      var n := stream.ReadUIntLE(SHORT);
      r := if n.None? then None else Some(p.(initialUnreliableSequenceId := n.value));
    }
    if p.packetType == DATA && id == 2 {
      var n := stream.ReadUIntLE(1);
      r := if n.None? then None else Some(p.(fragmentId := n.value));
    }
  }

  method DecodeOptions(header: Packet, options: seq<byte>) returns (r: Option<Packet>)
    ensures r == ParseOptions(header, options)
  {
    Widths();
    var p := header;
    var stream := new ByteStreamIn(options);
    var remaining := stream.Remaining();
    while remaining > 0
      invariant stream.Valid() && remaining == |stream.Rest()|
      invariant ParseOptions(header, options) == ParseOptions(p, stream.Rest())
      decreases remaining
    {
      var id := stream.ReadUIntLE(1);
      if id.None? {
        return None;
      }
      var size := stream.ReadUIntLE(1);
      if size.None? {
        return None;
      }
      var next := DecodeOption(p, id.value, stream);
      if next.None? {
        return None;
      }
      p := next.value;
      remaining := stream.Remaining();
    }
    r := Some(p);
  }

  method DecodePacket(stream: ByteStreamIn) returns (r: Option<Packet>)
    requires stream.Valid()
    modifies stream`offset
    ensures stream.Valid()
    ensures Decode(old(stream.Rest())) == if r.None? then None else Some((r.value, stream.Rest()))
  {
    var magic := stream.Read(2);
    if magic.None? || magic.value != MAGIC {
      return None;
    }
    var header := DecodeHeader(stream);
    if header.None? {
      return None;
    }
    var signature := stream.Read(16);
    if signature.None? {
      return None;
    }
    var options := stream.Read(header.value.optionsLength);
    if options.None? {
      return None;
    }
    var p := DecodeOptions(header.value.packet.(signature := signature.value), options.value);
    if p.None? {
      return None;
    }
    var payload := stream.Read(header.value.payloadLength);
    if payload.None? {
      return None;
    }
    r := Some(p.value.(payload := payload.value));
  }

  lemma DecodeAllStep(done: seq<Packet>, s: seq<byte>)
    requires s != []
    ensures Decode(s).None? ==> done + DecodeAll(s).0 == done && !DecodeAll(s).1
    ensures Decode(s).Some? ==>
              && done + DecodeAll(s).0 == (done + [Decode(s).value.0]) + DecodeAll(Decode(s).value.1).0
              && DecodeAll(s).1 == DecodeAll(Decode(s).value.1).1
  {
  }

  /** All packets of a datagram; on an error, those before it. */
  method DecodeDatagram(datagram: seq<byte>) returns (packets: seq<Packet>, ok: bool)
    ensures (packets, ok) == DecodeAll(datagram)
  {
    packets := [];
    var stream := new ByteStreamIn(datagram);
    var remaining := stream.Remaining();
    while remaining > 0
      invariant stream.Valid() && remaining == |stream.Rest()|
      invariant packets + DecodeAll(stream.Rest()).0 == DecodeAll(datagram).0
      invariant DecodeAll(stream.Rest()).1 == DecodeAll(datagram).1
    {
      DecodeAllStep(packets, stream.Rest());
      var p := DecodePacket(stream);
      if p.None? {
        ok := false;
        return;
      }
      packets := packets + [p.value];
      remaining := stream.Remaining();
    }
    ok := true;
    assert packets + [] == packets;
  }

  method WriteOption(stream: ByteStreamOut, o: Option1)
    modifies stream
    ensures stream.data == old(stream.data) + EncodeOption(o)
  {
    match o {
      case Functions(minor, functions) =>
        stream.Write([0, 4]);
        stream.WriteUIntLE(Bits.Or(minor, functions * 256 % 0x1_0000_0000), WORD);
      case ConnectionSignature(signature) =>
        stream.Write([1, 16]);
        stream.Write(signature);
      case FragmentId(id) =>
        stream.Write([2, 1]);
        stream.Write([id]);
      case InitialUnreliable(n) =>
        stream.Write([3, 2]);
        stream.WriteUIntLE(n, SHORT);
      case MaximumSubstream(n) =>
        stream.Write([4, 1]);
        stream.Write([n]);
    }
  }

  lemma {:induction false} EncodeAppend(os: seq<Option1>, o: Option1)
    ensures EncodeOptions(os + [o]) == EncodeOptions(os) + EncodeOption(o)
  {
    if os == [] {
      assert (os + [o])[1..] == [];
    } else {
      assert (os + [o])[1..] == os[1..] + [o];
      EncodeAppend(os[1..], o);
    }
  }

  method WriteOptions(p: Packet) returns (options: seq<byte>)
    ensures options == EncodeOptions(OptionsOf(p))
  {
    var stream := new ByteStreamOut();
    var os := OptionsOf(p);
    var i := 0;
    while i < |os|
      invariant 0 <= i <= |os|
      invariant stream.data == EncodeOptions(os[..i])
    {
      WriteOption(stream, os[i]);
      EncodeAppend(os[..i], os[i]);
      assert os[..i] + [os[i]] == os[..i + 1];
      i := i + 1;
    }
    assert os[..i] == os;
    options := stream.data;
  }

  method WriteHeader(stream: ByteStreamOut, p: Packet, optionsLength: nat)
    modifies stream
    ensures stream.data == old(stream.data) + EncodeHeader(p, optionsLength)
  {
    stream.Write([1]);
    stream.Write([optionsLength % 256]);
    stream.WriteUIntLE(|p.payload|, SHORT);
    stream.Write([p.source]);
    stream.Write([p.destination]);
    stream.WriteUIntLE(Bits.Or(p.packetType, p.flags * 16 % 0x1_0000), SHORT);
    stream.Write([p.sessionId]);
    stream.Write([p.substreamId]);
    stream.WriteUIntLE(p.sequenceId, SHORT);
  }

  method PacketBytes(p: Packet) returns (bytes: seq<byte>)
    ensures bytes == Encode(p)
  {
    var options := WriteOptions(p);
    var stream := new ByteStreamOut();
    stream.Write(MAGIC);
    assert stream.data == MAGIC;
    WriteHeader(stream, p, |options|);
    stream.Write(p.signature);
    stream.Write(options);
    stream.Write(p.payload);
    bytes := stream.data;
    ghost var header := EncodeHeader(p, |options|);
    assert bytes == MAGIC + header + p.signature + options + p.payload;
  }
}
