/** Remote method call messages, in the packed form (numbers) and the verbose form (names). */
module Rmc {
  import opened Bytes
  import opened Wrappers
  import opened Values
  import Bits

  /** `versions` are the structure versions a verbose request names; None where the sender left them out. */
  datatype Message = Message(isRequest: bool, isSuccess: bool, isHpp: bool, protocolId: uint16, protocolName: seq<byte>,
                             callId: uint32, methodId: uint32, methodName: seq<byte>, errorCode: uint32,
                             versions: Option<map<Value, Value>>, parameters: seq<byte>)

  const FRESH := Message(false, false, false, 0, [], 0, 0, [], 0, None, [])

  const RESPONSE_BIT: nat := 15

  // ---------- the size in front of both forms ----------

  function Frame(s: seq<byte>): seq<byte> {
    LE(|s|, WORD) + s
  }

  /** The size must be that of all that follows. */
  function Unframe(s: seq<byte>): Option<seq<byte>> {
    var (length, rest) :- ReadUInt(s, WORD);
    if |rest| != length then None else Some(rest)
  }

  lemma FrameRoundTrip(s: seq<byte>)
    ensures Unframe(Frame(s)) == if |s| < 0x1_0000_0000 then Some(s) else None
  {
    Widths();
    ReadWrapped(|s|, WORD, s);
    NumberWraps(|s|, WORD);
  }

  // ---------- the packed form ----------

  /** One byte for protocols below 0x80, an escape and two bytes for the others; HPP responses have none. */
  function EncodeProtocol(m: Message): seq<byte> {
    var flag := if m.isRequest then 0x80 else 0;
    if m.isHpp && !m.isRequest then []
    else if m.protocolId < 0x80 then [m.protocolId + flag]
    else [0x7F + flag] + LE(m.protocolId, SHORT)
  }

  /** Method IDs of successful responses are marked. */
  function Marked(n: uint32): uint32 {
    MarkFits(n);
    Bits.SetBit(n, RESPONSE_BIT)
  }

  function Unmarked(n: uint32): uint32 {
    Bits.ClearBit(n, RESPONSE_BIT)
  }

  lemma MarkFits(n: uint32)
    ensures Bits.SetBit(n, RESPONSE_BIT) < 0x1_0000_0000
  {
    assert Bits.Pow2(RESPONSE_BIT) == 0x8000 by {
      assert Bits.Pow2(5) == 32 && Bits.Pow2(10) == 1024;
    }
  }

  function EncodeCall(m: Message): seq<byte> {
    if m.isRequest then LE(m.callId, WORD) + (LE(m.methodId, WORD) + m.parameters)
    else if m.isSuccess then [1] + (LE(m.callId, WORD) + (LE(Marked(m.methodId), WORD) + m.parameters))
    else [0] + EncodeError(m)
  }

  function EncodeError(m: Message): seq<byte> {
    LE(m.errorCode, WORD) + LE(m.callId, WORD)
  }

  function EncodePacked(m: Message): seq<byte> {
    Frame(EncodeProtocol(m) + EncodeCall(m))
  }

  function ParseProtocol(s: seq<byte>): Option<((uint16, bool), seq<byte>)> {
    Widths();
    var (id, s1) :- ReadUInt(s, 1);
    if id % 0x80 == 0x7F then
      var (extended, s2) :- ReadUInt(s1, SHORT);
      Some(((extended, id >= 0x80), s2))
    else Some(((id % 0x80, id >= 0x80), s1))
  }

  function ParseTwo(s: seq<byte>): Option<((uint32, uint32), seq<byte>)> {
    Widths();
    var (a, s1) :- ReadUInt(s, WORD);
    var (b, s2) :- ReadUInt(s1, WORD);
    Some(((a, b), s2))
  }

  function ParseCall(protocolId: uint16, isRequest: bool, s: seq<byte>): Option<Message> {
    Widths();
    var m := FRESH.(protocolId := protocolId, isRequest := isRequest);
    if isRequest then
      var (numbers, rest) :- ParseTwo(s);
      Some(m.(callId := numbers.0, methodId := numbers.1, parameters := rest))
    else
      var (success, s1) :- ReadUInt(s, 1);
      var (numbers, rest) :- ParseTwo(s1);
      if success == 1 then
        Some(m.(isSuccess := true, callId := numbers.0, methodId := Unmarked(numbers.1), parameters := rest))
      else Some(m.(errorCode := numbers.0, callId := numbers.1))
  }

  function DecodePacked(data: seq<byte>): Option<Message> {
    var s :- Unframe(data);
    var (protocol, s1) :- ParseProtocol(s);
    ParseCall(protocol.0, protocol.1, s1)
  }

  /** The fields that a packed message of its kind carries. */
  function CarriedPacked(m: Message): Message {
    var r := FRESH.(isRequest := m.isRequest, protocolId := m.protocolId, callId := m.callId);
    if m.isRequest then r.(methodId := m.methodId, parameters := m.parameters)
    else if m.isSuccess then r.(isSuccess := true, methodId := m.methodId, parameters := m.parameters)
    else r.(errorCode := m.errorCode)
  }

  lemma TwoRoundTrip(a: uint32, b: uint32, rest: seq<byte>)
    ensures ParseTwo(LE(a, WORD) + (LE(b, WORD) + rest)) == Some(((a, b), rest))
  {
    Widths();
    ReadWritten(a, WORD, LE(b, WORD) + rest);
    ReadWritten(b, WORD, rest);
  }

  lemma ProtocolRoundTrip(m: Message, rest: seq<byte>)
    requires m.protocolId != 0x7F && (!m.isHpp || m.isRequest)
    ensures ParseProtocol(EncodeProtocol(m) + rest) == Some(((m.protocolId, m.isRequest), rest))
  {
    Widths();
    var flag := if m.isRequest then 0x80 else 0;
    if m.protocolId < 0x80 {
      ReadByteWritten(m.protocolId + flag, rest);
    } else {
      assert EncodeProtocol(m) + rest == [0x7F + flag] + (LE(m.protocolId, SHORT) + rest);
      ReadByteWritten(0x7F + flag, LE(m.protocolId, SHORT) + rest);
      ReadWritten(m.protocolId, SHORT, rest);
    }
  }

  lemma MarkIsUndoneIff(n: uint32)
    ensures Unmarked(Marked(n)) == n <==> !Bits.HasBit(n, RESPONSE_BIT)
  {
    Bits.ClearUndoesSet(n, RESPONSE_BIT);
  }

  /** What the decoder makes of the part after the protocol: the message, but for the marker bit of responses. */
  lemma CallRead(m: Message)
    ensures ParseCall(m.protocolId, m.isRequest, EncodeCall(m)) ==
            Some(if m.isRequest || !m.isSuccess then CarriedPacked(m)
                 else CarriedPacked(m).(methodId := Unmarked(Marked(m.methodId))))
  {
    if m.isRequest {
      TwoRoundTrip(m.callId, m.methodId, m.parameters);
    } else if m.isSuccess {
      var method' := Marked(m.methodId);
      ReadByteWritten(1, LE(m.callId, WORD) + (LE(method', WORD) + m.parameters));
      TwoRoundTrip(m.callId, method', m.parameters);
    } else {
      ReadByteWritten(0, EncodeError(m));
      TwoRoundTrip(m.errorCode, m.callId, []);
      assert LE(m.callId, WORD) + [] == LE(m.callId, WORD);
    }
  }

  /** The length of what was read is that of its fields. */
  lemma CallLength(protocolId: uint16, isRequest: bool, s: seq<byte>)
    requires ParseCall(protocolId, isRequest, s).Some?
    ensures var m := ParseCall(protocolId, isRequest, s).value;
            && m.isRequest == isRequest
            && (isRequest ==> |s| == 8 + |m.parameters|)
            && (!isRequest ==> |s| >= 9 && (m.isSuccess ==> |s| == 9 + |m.parameters|))
  {
  }

  /** Protocol 0x7F is written as the escape without an ID after it, so the decoder takes two bytes too many. */
  lemma EscapeIsMisread(m: Message)
    requires m.protocolId == 0x7F && (!m.isHpp || m.isRequest)
    ensures var s := EncodeProtocol(m) + EncodeCall(m);
            var r := ParseProtocol(s);
            r.Some? && |r.value.1| == |EncodeCall(m)| - 2 && r.value.0.1 == m.isRequest
  {
    Widths();
    var flag := if m.isRequest then 0x80 else 0;
    ReadByteWritten(0x7F + flag, EncodeCall(m));
  }

  /** What a packed message needs to come back. */
  predicate PackedFits(m: Message) {
    && m.protocolId != 0x7F
    && (!m.isRequest && m.isSuccess ==> !Bits.HasBit(m.methodId, RESPONSE_BIT))
    && |EncodeProtocol(m) + EncodeCall(m)| < 0x1_0000_0000
  }

  /** A packed message comes back in every field its kind carries if and only if it fits. */
  lemma PackedRoundTripIff(m: Message)
    requires !m.isHpp || m.isRequest
    ensures DecodePacked(EncodePacked(m)) == Some(CarriedPacked(m)) <==> PackedFits(m)
  {
    FrameRoundTrip(EncodeProtocol(m) + EncodeCall(m));
    if m.protocolId == 0x7F {
      EscapeComesBackWrong(m);
    } else {
      ProtocolRoundTrip(m, EncodeCall(m));
      CallRead(m);
      MarkIsUndoneIff(m.methodId);
    }
  }

  lemma EscapeComesBackWrong(m: Message)
    requires m.protocolId == 0x7F && (!m.isHpp || m.isRequest)
    ensures DecodePacked(EncodePacked(m)) != Some(CarriedPacked(m))
  {
    var s := EncodeProtocol(m) + EncodeCall(m);
    FrameRoundTrip(s);
    EscapeIsMisread(m);
    var ((id, isRequest), s1) := ParseProtocol(s).value;
    if ParseCall(id, isRequest, s1).Some? {
      CallLength(id, isRequest, s1);
    }
  }

  // ---------- the verbose form ----------

  /** Names of structures with their versions. */
  const VERSIONS: Type := MapT(StringT, NumberT(2))

  /** A request without versions is written as one with an empty container. */
  function VersionsOf(m: Message): map<Value, Value> {
    if m.versions.None? then map[] else m.versions.value
  }

  /** `order` is the order in which the versions are iterated. */
  function EncodeNamedCall(c: Settings, m: Message, order: seq<Entry>): seq<byte> {
    if m.isRequest then
      LE(m.callId, WORD) + (WriteString(c, m.methodName) + (Write(c, MapNode(order)) + m.parameters))
    else if m.isSuccess then [1] + (LE(m.callId, WORD) + (WriteString(c, m.methodName) + m.parameters))
    else [0] + EncodeError(m)
  }

  function VerboseBody(c: Settings, m: Message, order: seq<Entry>): seq<byte> {
    WriteString(c, m.protocolName) + ([if m.isRequest then 1 else 0] + EncodeNamedCall(c, m, order))
  }

  function EncodeVerbose(c: Settings, m: Message, order: seq<Entry>): seq<byte> {
    Frame(VerboseBody(c, m, order))
  }

  function ParseNumberAndName(c: Settings, s: seq<byte>): Option<((uint32, seq<byte>), seq<byte>)> {
    Widths();
    var (callId, s1) :- ReadUInt(s, WORD);
    var (methodName, s2) :- ExtractString(c, s1);
    Some(((callId, methodName), s2))
  }

  function ParseNamedRequest(c: Settings, m: Message, s: seq<byte>): Option<Message> {
    var (call, s1) :- ParseNumberAndName(c, s);
    var (versions, rest) :- Extract(c, VERSIONS, s1);
    if versions.Map? then
      Some(m.(isRequest := true, callId := call.0, methodName := call.1, versions := Some(versions.entries), parameters := rest))
    else None
  }

  function ParseNamedResponse(c: Settings, m: Message, s: seq<byte>): Option<Message> {
    var (success, s1) :- ReadUInt(s, 1);
    if success == 1 then
      var (call, rest) :- ParseNumberAndName(c, s1);
      Some(m.(isSuccess := true, callId := call.0, methodName := call.1, parameters := rest))
    else
      var (numbers, _) :- ParseTwo(s1);
      Some(m.(errorCode := numbers.0, callId := numbers.1))
  }

  function ParseNamedCall(c: Settings, name: seq<byte>, isRequest: bool, s: seq<byte>): Option<Message> {
    var m := FRESH.(protocolName := name);
    if isRequest then ParseNamedRequest(c, m, s) else ParseNamedResponse(c, m, s)
  }

  function ParseVerbose(c: Settings, s: seq<byte>): Option<Message> {
    var (name, s1) :- ExtractString(c, s);
    var (request, s2) :- ReadUInt(s1, 1);
    ParseNamedCall(c, name, request == 1, s2)
  }

  function DecodeVerbose(c: Settings, data: seq<byte>): Option<Message> {
    var s :- Unframe(data);
    ParseVerbose(c, s)
  }

  /** The fields that a verbose message of its kind carries. */
  function CarriedVerbose(m: Message): Message {
    var r := FRESH.(isRequest := m.isRequest, protocolName := m.protocolName, callId := m.callId);
    if m.isRequest then r.(methodName := m.methodName, versions := Some(VersionsOf(m)), parameters := m.parameters)
    else if m.isSuccess then r.(isSuccess := true, methodName := m.methodName, parameters := m.parameters)
    else r.(errorCode := m.errorCode)
  }

  lemma NumberAndNameRead(c: Settings, callId: uint32, name: seq<byte>, rest: seq<byte>)
    ensures var r := ParseNumberAndName(c, LE(callId, WORD) + (WriteString(c, name) + rest));
            if FitsString(c, name) then r == Some(((callId, name), rest)) else r.Some? && r.value.0.1 != name
  {
    Widths();
    ReadWritten(callId, WORD, WriteString(c, name) + rest);
    if FitsString(c, name) {
      StringRoundTrip(c, name, rest);
    } else {
      UnfitStringChanges(c, name, rest);
    }
  }

  /** The order iterates the versions, names with their numbers, none of the one length that is read and not written. */
  ghost predicate GoodOrder(c: Settings, m: Message, order: seq<Entry>) {
    Iterates(order, VersionsOf(m)) && Typed(VERSIONS, MapNode(order)) && Sane(c, MapNode(order))
  }

  lemma NamedRequestRead(c: Settings, m: Message, order: seq<Entry>)
    requires m.isRequest && GoodOrder(c, m, order)
    ensures var r := ParseNamedRequest(c, FRESH.(protocolName := m.protocolName), EncodeNamedCall(c, m, order));
            r == Some(CarriedVerbose(m)) <==> FitsString(c, m.methodName) && Fits(c, MapNode(order))
  {
    var s := Write(c, MapNode(order)) + m.parameters;
    NumberAndNameRead(c, m.callId, m.methodName, s);
    EntriesComplete(map[], order, VersionsOf(m));
    ValueRoundTripIff(c, VERSIONS, MapNode(order), m.parameters);
  }

  lemma NamedResponseRead(c: Settings, m: Message, order: seq<Entry>)
    requires !m.isRequest
    ensures var r := ParseNamedResponse(c, FRESH.(protocolName := m.protocolName), EncodeNamedCall(c, m, order));
            r == Some(CarriedVerbose(m)) <==> !m.isSuccess || FitsString(c, m.methodName)
  {
    if m.isSuccess {
      ReadByteWritten(1, LE(m.callId, WORD) + (WriteString(c, m.methodName) + m.parameters));
      NumberAndNameRead(c, m.callId, m.methodName, m.parameters);
    } else {
      ReadByteWritten(0, EncodeError(m));
      TwoRoundTrip(m.errorCode, m.callId, []);
      assert LE(m.callId, WORD) + [] == LE(m.callId, WORD);
    }
  }

  /** What the names and versions of a verbose message need to come back. */
  ghost predicate NamesFit(c: Settings, m: Message, order: seq<Entry>) {
    && FitsString(c, m.protocolName)
    && (m.isRequest || m.isSuccess ==> FitsString(c, m.methodName))
    && (m.isRequest ==> Fits(c, MapNode(order)))
  }

  ghost predicate VerboseFits(c: Settings, m: Message, order: seq<Entry>) {
    NamesFit(c, m, order) && |VerboseBody(c, m, order)| < 0x1_0000_0000
  }

  lemma NameIsKept(c: Settings, name: seq<byte>, isRequest: bool, s: seq<byte>)
    requires ParseNamedCall(c, name, isRequest, s).Some?
    ensures ParseNamedCall(c, name, isRequest, s).value.protocolName == name
  {
  }

  lemma VerboseBodyRead(c: Settings, m: Message, order: seq<Entry>)
    requires m.isRequest ==> GoodOrder(c, m, order)
    ensures ParseVerbose(c, VerboseBody(c, m, order)) == Some(CarriedVerbose(m)) <==> NamesFit(c, m, order)
  {
    var call := EncodeNamedCall(c, m, order);
    var s := [if m.isRequest then 1 else 0] + call;
    ReadByteWritten(if m.isRequest then 1 else 0, call);
    if FitsString(c, m.protocolName) {
      StringRoundTrip(c, m.protocolName, s);
      if m.isRequest {
        NamedRequestRead(c, m, order);
      } else {
        NamedResponseRead(c, m, order);
      }
    } else {
      UnfitStringChanges(c, m.protocolName, s);
      var r := ParseVerbose(c, VerboseBody(c, m, order));
      if r.Some? {
        var (name, s1) := ExtractString(c, VerboseBody(c, m, order)).value;
        var (request, s2) := ReadUInt(s1, 1).value;
        NameIsKept(c, name, request == 1, s2);
      }
    }
  }

  /**
   Whatever order the versions are iterated in, a verbose message comes back in every field its
   kind carries if and only if its names, its versions and its size fit.
   */
  lemma VerboseRoundTripIff(c: Settings, m: Message, order: seq<Entry>)
    requires m.isRequest ==> GoodOrder(c, m, order)
    ensures DecodeVerbose(c, EncodeVerbose(c, m, order)) == Some(CarriedVerbose(m)) <==> VerboseFits(c, m, order)
  {
    FrameRoundTrip(VerboseBody(c, m, order));
    VerboseBodyRead(c, m, order);
  }

  // ---------- both forms on streams ----------

  /** The stream behind a size that is right. */
  method OpenFrame(data: seq<byte>) returns (stream: ByteStreamIn, ok: bool)
    ensures fresh(stream) && stream.Valid()
    ensures Unframe(data) == if ok then Some(stream.Rest()) else None
  {
    stream := new ByteStreamIn(data);
    var length := stream.ReadUIntLE(WORD);
    if length.None? {
      return stream, false;
    }
    var remaining := stream.Remaining();
    ok := remaining == length.value;
  }

  method DecodeProtocol(stream: ByteStreamIn) returns (r: Option<(uint16, bool)>)
    requires stream.Valid()
    modifies stream`offset
    ensures stream.Valid()
    ensures ParseProtocol(old(stream.Rest())) == if r.None? then None else Some((r.value, stream.Rest()))
  {
    Widths();
    var first := stream.ReadUIntLE(1);
    if first.None? {
      return None;
    }
    var protocolId := first.value % 0x80;
    if protocolId == 0x7F {
      var extended := stream.ReadUIntLE(SHORT);
      if extended.None? {
        return None;
      }
      protocolId := extended.value;
    }
    r := Some((protocolId, first.value >= 0x80));
  }

  method DecodeTwo(stream: ByteStreamIn) returns (r: Option<(uint32, uint32)>)
    requires stream.Valid()
    modifies stream`offset
    ensures stream.Valid()
    ensures ParseTwo(old(stream.Rest())) == if r.None? then None else Some((r.value, stream.Rest()))
  {
    Widths();
    var a := stream.ReadUIntLE(WORD);
    if a.None? {
      return None;
    }
    var b := stream.ReadUIntLE(WORD);
    r := if b.None? then None else Some((a.value, b.value));
  }

  method FromPackedBytes(data: seq<byte>) returns (r: Option<Message>)
    ensures r == DecodePacked(data)
  {
    var stream, ok := OpenFrame(data);
    if !ok {
      return None;
    }
    var protocol := DecodeProtocol(stream);
    if protocol.None? {
      return None;
    }
    var m := FRESH.(protocolId := protocol.value.0, isRequest := protocol.value.1);
    if m.isRequest {
      var numbers := DecodeTwo(stream);
      if numbers.None? {
        return None;
      }
      m := m.(callId := numbers.value.0, methodId := numbers.value.1, parameters := stream.Rest());
    } else {
      var success := stream.ReadUIntLE(1);
      if success.None? {
        return None;
      }
      var numbers := DecodeTwo(stream);
      if numbers.None? {
        return None;
      }
      m := m.(isSuccess := success.value == 1);
      if m.isSuccess {
        m := m.(callId := numbers.value.0, methodId := Unmarked(numbers.value.1), parameters := stream.Rest());
      } else {
        m := m.(errorCode := numbers.value.0, callId := numbers.value.1);
      }
    }
    r := Some(m);
  }

  method WriteProtocol(m: Message, stream: ByteStreamOut)
    modifies stream
    ensures stream.data == old(stream.data) + EncodeProtocol(m)
  {
    if !m.isHpp || (m.isHpp && m.isRequest) {
      var flag := if m.isRequest then 0x80 else 0;
      if m.protocolId < 0x80 {
        stream.Write([m.protocolId + flag]);
      } else {
        stream.Write([0x7F + flag]);
        stream.WriteUIntLE(m.protocolId, SHORT);
      }
    }
  }

  /** Two numbers written after each other, and the parameters after them. */
  method WriteNumbers(a: uint32, b: uint32, parameters: seq<byte>, stream: ByteStreamOut)
    modifies stream
    ensures stream.data == old(stream.data) + (LE(a, WORD) + (LE(b, WORD) + parameters))
  {
    stream.WriteUIntLE(a, WORD);
    stream.WriteUIntLE(b, WORD);
    stream.Write(parameters);
    Regroup(old(stream.data) + LE(a, WORD), LE(b, WORD), parameters);
    Regroup(old(stream.data), LE(a, WORD), LE(b, WORD) + parameters);
  }

  method WriteError(m: Message, stream: ByteStreamOut)
    modifies stream
    ensures stream.data == old(stream.data) + EncodeError(m)
  {
    stream.WriteUIntLE(m.errorCode, WORD);
    stream.WriteUIntLE(m.callId, WORD);
    Regroup(old(stream.data), LE(m.errorCode, WORD), LE(m.callId, WORD));
  }

  method WriteResponse(m: Message, stream: ByteStreamOut)
    requires !m.isRequest
    modifies stream
    ensures stream.data == old(stream.data) + EncodeCall(m)
  {
    ghost var flag: seq<byte> := [if m.isSuccess then 1 else 0];
    stream.Write([if m.isSuccess then 1 else 0]);
    if m.isSuccess {
      WriteNumbers(m.callId, Marked(m.methodId), m.parameters, stream);
      Regroup(old(stream.data), flag, LE(m.callId, WORD) + (LE(Marked(m.methodId), WORD) + m.parameters));
    } else {
      WriteError(m, stream);
      Regroup(old(stream.data), flag, EncodeError(m));
    }
  }

  method WriteCall(m: Message, stream: ByteStreamOut)
    modifies stream
    ensures stream.data == old(stream.data) + EncodeCall(m)
  {
    if m.isRequest {
      WriteNumbers(m.callId, m.methodId, m.parameters, stream);
    } else {
      WriteResponse(m, stream);
    }
  }

  method Framed(serialized: seq<byte>) returns (bytes: seq<byte>)
    ensures bytes == Frame(serialized)
  {
    var message := new ByteStreamOut();
    message.WriteUIntLE(|serialized|, WORD);
    message.Write(serialized);
    bytes := message.data;
  }

  method PackedBytes(m: Message) returns (bytes: seq<byte>)
    ensures bytes == EncodePacked(m)
  {
    var stream := new ByteStreamOut();
    WriteProtocol(m, stream);
    WriteCall(m, stream);
    bytes := Framed(stream.data);
  }

  method DecodeNumberAndName(c: Settings, stream: ByteStreamIn) returns (r: Option<(uint32, seq<byte>)>)
    requires stream.Valid()
    modifies stream`offset
    ensures stream.Valid()
    ensures ParseNumberAndName(c, old(stream.Rest())) == if r.None? then None else Some((r.value, stream.Rest()))
  {
    Widths();
    var callId := stream.ReadUIntLE(WORD);
    if callId.None? {
      return None;
    }
    var methodName := ExtractStringFrom(c, stream);
    r := if methodName.None? then None else Some((callId.value, methodName.value));
  }

  method DecodeNamedRequest(c: Settings, m: Message, stream: ByteStreamIn) returns (r: Option<Message>)
    requires stream.Valid()
    modifies stream`offset
    ensures r == ParseNamedRequest(c, m, old(stream.Rest()))
  {
    var call := DecodeNumberAndName(c, stream);
    if call.None? {
      return None;
    }
    var versions := ExtractFrom(c, VERSIONS, stream);
    if versions.None? || !versions.value.Map? {
      return None;
    }
    r := Some(m.(isRequest := true, callId := call.value.0, methodName := call.value.1,
                 versions := Some(versions.value.entries), parameters := stream.Rest()));
  }

  method DecodeNamedResponse(c: Settings, m: Message, stream: ByteStreamIn) returns (r: Option<Message>)
    requires stream.Valid()
    modifies stream`offset
    ensures r == ParseNamedResponse(c, m, old(stream.Rest()))
  {
    var success := stream.ReadUIntLE(1);
    if success.None? {
      return None;
    }
    if success.value == 1 {
      var call := DecodeNumberAndName(c, stream);
      if call.None? {
        return None;
      }
      r := Some(m.(isSuccess := true, callId := call.value.0, methodName := call.value.1, parameters := stream.Rest()));
    } else {
      var numbers := DecodeTwo(stream);
      r := if numbers.None? then None else Some(m.(errorCode := numbers.value.0, callId := numbers.value.1));
    }
  }

  method FromVerboseBytes(c: Settings, data: seq<byte>) returns (r: Option<Message>)
    ensures r == DecodeVerbose(c, data)
  {
    var stream, ok := OpenFrame(data);
    if !ok {
      return None;
    }
    var name := ExtractStringFrom(c, stream);
    if name.None? {
      return None;
    }
    var request := stream.ReadUIntLE(1);
    if request.None? {
      return None;
    }
    var m := FRESH.(protocolName := name.value);
    if request.value == 1 {
      r := DecodeNamedRequest(c, m, stream);
    } else {
      r := DecodeNamedResponse(c, m, stream);
    }
  }

  method WriteNumberAndName(c: Settings, m: Message, stream: ByteStreamOut)
    modifies stream
    ensures stream.data == old(stream.data) + (LE(m.callId, WORD) + WriteString(c, m.methodName))
  {
    stream.WriteUIntLE(m.callId, WORD);
    WriteStringTo(c, m.methodName, stream);
    Regroup(old(stream.data), LE(m.callId, WORD), WriteString(c, m.methodName));
  }

  method WriteVersions(c: Settings, m: Message, order: seq<Entry>, stream: ByteStreamOut)
    requires m.versions.None? ==> order == []
    modifies stream
    ensures stream.data == old(stream.data) + Write(c, MapNode(order))
  {
    if m.versions.Some? {
      WriteTo(c, MapNode(order), stream);
    } else {
      stream.WriteUIntLE(0, WORD);
      assert Write(c, MapNode([])) == LE(0, WORD) + [];
    }
  }

  lemma NamedLayout(before: seq<byte>, a: seq<byte>, b: seq<byte>, rest: seq<byte>)
    ensures before + (a + b) + rest == before + (a + (b + rest))
  {
  }

  method WriteNamedRequest(c: Settings, m: Message, order: seq<Entry>, stream: ByteStreamOut)
    requires m.isRequest && (m.versions.None? ==> order == [])
    modifies stream
    ensures stream.data == old(stream.data) + EncodeNamedCall(c, m, order)
  {
    WriteNumberAndName(c, m, stream);
    ghost var before := stream.data;
    WriteVersions(c, m, order, stream);
    stream.Write(m.parameters);
    ghost var versions := Write(c, MapNode(order));
    Regroup(before, versions, m.parameters);
    NamedLayout(old(stream.data), LE(m.callId, WORD), WriteString(c, m.methodName), versions + m.parameters);
  }

  method WriteNamedResponse(c: Settings, m: Message, order: seq<Entry>, stream: ByteStreamOut)
    requires !m.isRequest
    modifies stream
    ensures stream.data == old(stream.data) + EncodeNamedCall(c, m, order)
  {
    ghost var flag: seq<byte> := [if m.isSuccess then 1 else 0];
    stream.Write([if m.isSuccess then 1 else 0]);
    if m.isSuccess {
      ghost var before := stream.data;
      WriteNumberAndName(c, m, stream);
      stream.Write(m.parameters);
      NamedLayout(before, LE(m.callId, WORD), WriteString(c, m.methodName), m.parameters);
      Regroup(old(stream.data), flag, LE(m.callId, WORD) + (WriteString(c, m.methodName) + m.parameters));
    } else {
      WriteError(m, stream);
      Regroup(old(stream.data), flag, EncodeError(m));
    }
  }

  method VerboseBytes(c: Settings, m: Message, order: seq<Entry>) returns (bytes: seq<byte>)
    requires m.versions.None? ==> order == []
    ensures bytes == EncodeVerbose(c, m, order)
  {
    var stream := new ByteStreamOut();
    WriteStringTo(c, m.protocolName, stream);
    ghost var name := WriteString(c, m.protocolName);
    ghost var flag: seq<byte> := [if m.isRequest then 1 else 0];
    assert stream.data == name;
    stream.Write([if m.isRequest then 1 else 0]);
    if m.isRequest {
      WriteNamedRequest(c, m, order, stream);
    } else {
      WriteNamedResponse(c, m, order, stream);
    }
    Regroup(name, flag, EncodeNamedCall(c, m, order));
    bytes := Framed(stream.data);
  }
}
