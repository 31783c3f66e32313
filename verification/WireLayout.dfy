/**
 The wire formats byte by byte, written down a second time with plain arithmetic and literal
 constants, and the proof that the encoders of the other modules write just these bytes.
 */
module WireLayout {
  import opened Bytes
  import opened Wrappers
  import Bits
  import V0 = PacketV0
  import V1 = PacketV1
  import Rmc
  import Values

  function Two(n: nat): (s: seq<byte>)
    ensures |s| == 2
  {
    [n % 256, n / 256 % 256]
  }

  function Four(n: nat): (s: seq<byte>)
    ensures |s| == 4
  {
    [n % 256, n / 0x100 % 256, n / 0x1_0000 % 256, n / 0x100_0000 % 256]
  }

  function Eight(n: nat): (s: seq<byte>)
    ensures |s| == 8
  {
    [n % 256, n / 0x100 % 256, n / 0x1_0000 % 256, n / 0x100_0000 % 256,
     n / 0x1_0000_0000 % 256, n / 0x100_0000_0000 % 256, n / 0x1_0000_0000_0000 % 256, n / 0x100_0000_0000_0000 % 256]
  }

  lemma LEIsTwo(n: nat)
    ensures LE(n, SHORT) == Two(n)
  {
    assert Pow256(0) == 1 && Pow256(1) == 256;
    LEDigits(n, SHORT, 0);
    LEDigits(n, SHORT, 1);
  }

  lemma LEIsFour(n: nat)
    ensures LE(n, WORD) == Four(n)
  {
    Widths();
    assert Pow256(0) == 1 && Pow256(3) == 256 * Pow256(2);
    LEDigits(n, WORD, 0);
    LEDigits(n, WORD, 1);
    LEDigits(n, WORD, 2);
    LEDigits(n, WORD, 3);
  }

  lemma LEIsEight(n: nat)
    ensures LE(n, 8) == Eight(n)
  {
    Widths();
    assert Pow256(0) == 1 && Pow256(3) == 256 * Pow256(2) && Pow256(5) == 256 * Pow256(4);
    assert Pow256(6) == 256 * Pow256(5) && Pow256(7) == 256 * Pow256(6);
    forall i: nat | i < 8
      ensures LE(n, 8)[i] == n / Pow256(i) % 256
    {
      LEDigits(n, 8, i);
    }
  }

  // ---------- PRUDP version 1 ----------

  /** Supported functions and minor version, and the connection signature. */
  function HandshakeBytes(p: V1.Packet): seq<byte> {
    [0, 4] + Four(p.supportedFunctions * 256 + p.minorVersion) + [1, 16] + p.connectionSignature
  }

  function OptionBytes(p: V1.Packet): seq<byte> {
    if p.packetType == 0 then HandshakeBytes(p) + [4, 1, p.maximumSubstreamId]
    else if p.packetType == 1 then HandshakeBytes(p) + ([3, 2] + Two(p.initialUnreliableSequenceId) + [4, 1, p.maximumSubstreamId])
    else if p.packetType == 2 then [2, 1, p.fragmentId]
    else []
  }

  /** Type in the low four bits, flags above them. */
  function TypeAndFlagBytes(packetType: uint16, flags: uint16): (s: seq<byte>)
    requires packetType < 16
    ensures |s| == 2
  {
    [packetType + flags % 16 * 16, flags / 16 % 256]
  }

  lemma TypeAndFlagsWritten(packetType: uint16, flags: uint16)
    requires packetType < 16 && flags < 0x1000
    ensures LE(Bits.Or(packetType, flags * 16 % 0x1_0000), SHORT) == TypeAndFlagBytes(packetType, flags)
  {
    V1.TypeAndFlags(packetType, flags);
    var n := flags * 16 + packetType;
    LEIsTwo(n);
    Bits.DivUnique(n, 256, flags / 16, packetType + flags % 16 * 16);
  }

  lemma FunctionsWritten(minor: uint32, functions: uint32)
    requires minor < 0x100 && functions < 0x100_0000
    ensures V1.EncodeOption(V1.Functions(minor, functions)) == [0, 4] + Four(functions * 256 + minor)
  {
    V1.FunctionsField(minor, functions);
    LEIsFour(functions * 256 + minor);
  }

  lemma LastOptions(n: uint16, maximum: byte)
    ensures V1.EncodeOptions([V1.MaximumSubstream(maximum)]) == [4, 1, maximum]
    ensures V1.EncodeOptions([V1.InitialUnreliable(n)] + [V1.MaximumSubstream(maximum)]) == [3, 2] + Two(n) + [4, 1, maximum]
  {
    var none: seq<V1.Option1> := [];
    LEIsTwo(n);
    NextOption(V1.MaximumSubstream(maximum), none);
    assert [V1.MaximumSubstream(maximum)] + none == [V1.MaximumSubstream(maximum)];
    NextOption(V1.InitialUnreliable(n), [V1.MaximumSubstream(maximum)]);
  }

  lemma NextOption(o: V1.Option1, os: seq<V1.Option1>)
    ensures V1.EncodeOptions([o] + os) == V1.EncodeOption(o) + V1.EncodeOptions(os)
  {
    assert ([o] + os)[1..] == os;
  }

  lemma HandshakeWritten(p: V1.Packet, more: seq<V1.Option1>)
    requires V1.InRange(p) && V1.Handshake(p.packetType)
    ensures V1.EncodeOptions([V1.Functions(p.minorVersion, p.supportedFunctions)] + ([V1.ConnectionSignature(p.connectionSignature)] + more)) ==
            HandshakeBytes(p) + V1.EncodeOptions(more)
  {
    NextOption(V1.ConnectionSignature(p.connectionSignature), more);
    NextOption(V1.Functions(p.minorVersion, p.supportedFunctions), [V1.ConnectionSignature(p.connectionSignature)] + more);
    FunctionsWritten(p.minorVersion, p.supportedFunctions);
    var a, b := [0, 4] + Four(p.supportedFunctions * 256 + p.minorVersion), [1, 16] + p.connectionSignature;
    Regroup(a, b, V1.EncodeOptions(more));
    Regroup(a, [1, 16], p.connectionSignature);
  }

  lemma OptionsWritten(p: V1.Packet)
    requires V1.InRange(p)
    ensures V1.EncodeOptions(V1.OptionsOf(p)) == OptionBytes(p)
  {
    LastOptions(p.initialUnreliableSequenceId, p.maximumSubstreamId);
    if V1.Handshake(p.packetType) {
      var more := (if p.packetType == 1 then [V1.InitialUnreliable(p.initialUnreliableSequenceId)] else [])
                  + [V1.MaximumSubstream(p.maximumSubstreamId)];
      assert V1.OptionsOf(p) ==
             [V1.Functions(p.minorVersion, p.supportedFunctions)] + ([V1.ConnectionSignature(p.connectionSignature)] + more);
      HandshakeWritten(p, more);
      assert [] + [V1.MaximumSubstream(p.maximumSubstreamId)] == [V1.MaximumSubstream(p.maximumSubstreamId)];
    } else if p.packetType == 2 {
      var none: seq<V1.Option1> := [];
      NextOption(V1.FragmentId(p.fragmentId), none);
      assert V1.OptionsOf(p) == [V1.FragmentId(p.fragmentId)] + none;
    }
  }

  /** Where everything in a version 1 packet is. */
  lemma V1Layout(p: V1.Packet)
    requires V1.InRange(p) && V1.Signed(p)
    ensures V1.Encode(p) ==
            [0xEA, 0xD0, 1, |OptionBytes(p)| % 256] + Two(|p.payload|) + [p.source, p.destination]
            + TypeAndFlagBytes(p.packetType, p.flags) + [p.sessionId, p.substreamId] + Two(p.sequenceId)
            + p.signature + OptionBytes(p) + p.payload
  {
    OptionsWritten(p);
    HeaderWritten(p, |OptionBytes(p)|);
  }

  lemma HeaderWritten(p: V1.Packet, optionsLength: nat)
    requires V1.InRange(p)
    ensures V1.MAGIC + V1.EncodeHeader(p, optionsLength) ==
            [0xEA, 0xD0, 1, optionsLength % 256] + Two(|p.payload|) + [p.source, p.destination]
            + TypeAndFlagBytes(p.packetType, p.flags) + [p.sessionId, p.substreamId] + Two(p.sequenceId)
  {
    TypeAndFlagsWritten(p.packetType, p.flags);
    LEIsTwo(|p.payload|);
    LEIsTwo(p.sequenceId);
  }

  // ---------- PRUDP version 0 ----------

  function BodyBytes(p: V0.Packet): seq<byte>
    requires V0.InRange(p)
  {
    [p.source, p.destination] + TypeAndFlagBytes(p.packetType, p.flags) + [p.sessionId] + p.signature + Two(p.sequenceId)
    + (if p.packetType <= 1 then p.connectionSignature else if p.packetType == 2 then [p.fragmentId] else [])
    + (if p.flags / 8 % 2 == 1 then Two(|p.payload|) else [])
    + p.payload
  }

  /** Where everything in a version 0 packet is; the size is there if flag bit 3 is set, and the checksum covers all before it. */
  lemma V0Layout(c: V0.Config, p: V0.Packet)
    requires V0.InRange(p)
    ensures V0.Encode(c, p) == BodyBytes(p) + LE(V0.Sum(c, BodyBytes(p)), if c.enhanced then 4 else 1)
  {
    FrontWritten(p);
    assert V0.Extras(p) == if p.packetType <= 1 then p.connectionSignature else if p.packetType == 2 then [p.fragmentId] else [];
    assert V0.Size(p) == if p.flags / 8 % 2 == 1 then Two(|p.payload|) else [] by {
      assert Bits.Pow2(3) == 8;
      LEIsTwo(|p.payload|);
    }
  }

  lemma FrontWritten(p: V0.Packet)
    requires V0.InRange(p)
    ensures V0.Front(p) == [p.source, p.destination] + TypeAndFlagBytes(p.packetType, p.flags) + [p.sessionId] + p.signature + Two(p.sequenceId)
  {
    TypeAndFlagsWritten(p.packetType, p.flags);
    LEIsTwo(p.sequenceId);
  }

  // ---------- remote method calls ----------

  /** Protocol IDs below 128 take one byte; the others the byte 127 and two more. Requests have the top bit set. */
  function ProtocolBytes(m: Rmc.Message): seq<byte> {
    var top := if m.isRequest then 128 else 0;
    if m.protocolId < 128 then [m.protocolId + top] else [127 + top] + Two(m.protocolId)
  }

  /** The method of a successful response has bit 15 set. */
  function MethodOfSuccess(n: uint32): nat {
    if n / 0x8000 % 2 == 1 then n else n + 0x8000
  }

  function CallBytes(m: Rmc.Message): seq<byte> {
    if m.isRequest then Four(m.callId) + Four(m.methodId) + m.parameters
    else if m.isSuccess then [1] + Four(m.callId) + Four(MethodOfSuccess(m.methodId)) + m.parameters
    else [0] + Four(m.errorCode) + Four(m.callId)
  }

  lemma ResponseBit()
    ensures Bits.Pow2(15) == 0x8000
  {
    assert Bits.Pow2(5) == 32 && Bits.Pow2(10) == 1024;
  }

  /** Where everything in a packed message is: its size, its protocol unless it is an HPP response, and the call. */
  lemma PackedLayout(m: Rmc.Message)
    ensures var body := (if m.isHpp && !m.isRequest then [] else ProtocolBytes(m)) + CallBytes(m);
            Rmc.EncodePacked(m) == Four(|body|) + body
  {
    ResponseBit();
    LEIsTwo(m.protocolId);
    LEIsFour(m.callId);
    LEIsFour(m.methodId);
    LEIsFour(MethodOfSuccess(m.methodId));
    LEIsFour(m.errorCode);
    CallWritten(m);
    LEIsFour(|Rmc.EncodeProtocol(m) + Rmc.EncodeCall(m)|);
  }

  lemma CallWritten(m: Rmc.Message)
    ensures Rmc.EncodeCall(m) == CallBytes(m)
  {
    ResponseBit();
    LEIsFour(m.callId);
    LEIsFour(m.methodId);
    LEIsFour(MethodOfSuccess(m.methodId));
    LEIsFour(m.errorCode);
  }

  /** A string: its length with the NUL, in four or two bytes, the characters and the NUL. */
  function StringBytes(c: Values.Settings, s: seq<byte>): seq<byte> {
    (if c.wideStrings then Four(|s| + 1) else Two(|s| + 1)) + s + [0]
  }

  lemma StringWritten(c: Values.Settings, s: seq<byte>)
    ensures Values.WriteString(c, s) == StringBytes(c, s)
  {
    LEIsFour(|s| + 1);
    LEIsTwo(|s| + 1);
  }

  type Version = (seq<byte>, uint16)

  function VersionEntries(vs: seq<Version>): seq<Values.Entry> {
    seq(|vs|, i requires 0 <= i < |vs| => Values.Entry(Values.StringLeaf(vs[i].0), Values.NumberLeaf(2, vs[i].1)))
  }

  /** Each name before its version. */
  function VersionBytes(c: Values.Settings, vs: seq<Version>): seq<byte> {
    if vs == [] then [] else StringBytes(c, vs[0].0) + Two(vs[0].1) + VersionBytes(c, vs[1..])
  }

  lemma {:induction false} VersionsWritten(c: Values.Settings, vs: seq<Version>)
    ensures Values.WriteEntries(c, VersionEntries(vs)) == VersionBytes(c, vs)
  {
    if vs != [] {
      var entry := VersionEntries(vs)[0];
      StringWritten(c, vs[0].0);
      LEIsTwo(vs[0].1);
      assert Values.WriteEntry(c, entry) == StringBytes(c, vs[0].0) + Two(vs[0].1);
      assert VersionEntries(vs)[1..] == VersionEntries(vs[1..]);
      VersionsWritten(c, vs[1..]);
    }
  }

  function NamedCallBytes(c: Values.Settings, m: Rmc.Message, vs: seq<Version>): seq<byte> {
    if m.isRequest then Four(m.callId) + StringBytes(c, m.methodName) + (Four(|vs|) + VersionBytes(c, vs)) + m.parameters
    else if m.isSuccess then [1] + Four(m.callId) + StringBytes(c, m.methodName) + m.parameters
    else [0] + Four(m.errorCode) + Four(m.callId)
  }

  lemma NamedCallWritten(c: Values.Settings, m: Rmc.Message, vs: seq<Version>)
    ensures Rmc.EncodeNamedCall(c, m, VersionEntries(vs)) == NamedCallBytes(c, m, vs)
  {
    LEIsFour(m.callId);
    StringWritten(c, m.methodName);
    if m.isRequest {
      LEIsFour(|vs|);
      VersionsWritten(c, vs);
      Regroup4(Four(m.callId), StringBytes(c, m.methodName), Four(|vs|) + VersionBytes(c, vs), m.parameters);
    } else if m.isSuccess {
      Regroup4([1], Four(m.callId), StringBytes(c, m.methodName), m.parameters);
    } else {
      LEIsFour(m.errorCode);
    }
  }

  lemma Regroup4(a: seq<byte>, b: seq<byte>, c: seq<byte>, d: seq<byte>)
    ensures a + b + c + d == a + (b + (c + d))
  {
  }

  /** Where everything in a verbose message is. */
  lemma VerboseLayout(c: Values.Settings, m: Rmc.Message, vs: seq<Version>)
    ensures var body := StringBytes(c, m.protocolName) + [if m.isRequest then 1 else 0] + NamedCallBytes(c, m, vs);
            Rmc.EncodeVerbose(c, m, VersionEntries(vs)) == Four(|body|) + body
  {
    var name, flag, call := StringBytes(c, m.protocolName), [if m.isRequest then 1 else 0], NamedCallBytes(c, m, vs);
    StringWritten(c, m.protocolName);
    NamedCallWritten(c, m, vs);
    Regroup(name, flag, call);
    LEIsFour(|name + flag + call|);
  }

  // ---------- structures ----------

  lemma {:induction false} BytesWritten(c: Values.Settings, bs: seq<byte>)
    ensures Values.WriteElements(c, Values.ByteLeaves(bs)) == bs
  {
    if bs != [] {
      assert Values.ByteLeaves(bs)[1..] == Values.ByteLeaves(bs[1..]);
      BytesWritten(c, bs[1..]);
      assert LE(bs[0], 1) == [bs[0]] + LE(0, 0);
    }
  }

  lemma OnePart(c: Values.Settings, version: byte, p: Values.Part, ps: seq<Values.Part>)
    ensures Values.WriteParts(c, version, [p] + ps) ==
            (if version >= p.since then Values.Write(c, p.tree) else []) + Values.WriteParts(c, version, ps)
  {
    assert ([p] + ps)[1..] == ps;
  }

  function ContentBytes(c: Values.Settings, version: byte, url: seq<byte>, protocols: seq<byte>, special: seq<byte>, time: uint64): seq<byte> {
    StringBytes(c, url) + (Four(|protocols|) + protocols + (StringBytes(c, special) + if version >= 1 then Eight(time) else []))
  }

  lemma ContentWritten(c: Values.Settings, version: byte, url: seq<byte>, protocols: seq<byte>, special: seq<byte>, time: uint64)
    ensures Values.WriteParts(c, version, Values.ConnectionData(version, url, protocols, special, time).parts) ==
            ContentBytes(c, version, url, protocols, special, time)
  {
    var none: seq<Values.Part> := [];
    var first := Values.Part(0, Values.StringLeaf(url));
    var second := Values.Part(0, Values.ListNode(Values.ByteLeaves(protocols)));
    var third := Values.Part(0, Values.StringLeaf(special));
    var fourth := Values.Part(1, Values.NumberLeaf(8, time));
    assert Values.ConnectionData(version, url, protocols, special, time).parts == [first] + ([second] + ([third] + ([fourth] + none)));
    OnePart(c, version, first, [second] + ([third] + ([fourth] + none)));
    OnePart(c, version, second, [third] + ([fourth] + none));
    OnePart(c, version, third, [fourth] + none);
    OnePart(c, version, fourth, none);
    StringWritten(c, url);
    StringWritten(c, special);
    BytesWritten(c, protocols);
    LEIsFour(|protocols|);
    LEIsEight(time);
  }

  /** Connection data: version and length in front where structures have headers, then URL, protocols, special URL, and the time from version 1 on. */
  lemma ConnectionDataLayout(c: Values.Settings, version: byte, url: seq<byte>, protocols: seq<byte>, special: seq<byte>, time: uint64)
    ensures var content := ContentBytes(c, version, url, protocols, special, time);
            Values.Write(c, Values.ConnectionData(version, url, protocols, special, time)) ==
            (if c.structureHeader then [version] + Four(|content|) else []) + content
  {
    ContentWritten(c, version, url, protocols, special, time);
    LEIsFour(|ContentBytes(c, version, url, protocols, special, time)|);
  }
}
