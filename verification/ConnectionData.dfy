/** Connection data: the structure that carries a peer's station URLs, read back as stations. */
module ConnectionData {
  import opened Bytes
  import opened Wrappers
  import opened Values
  import S = StationUrl

  datatype Data = Data(version: byte, station: S.Station, protocols: seq<Value>, special: S.Station, time: nat)

  /** Text whose characters are single bytes. */
  predicate EightBit(s: string) {
    forall i | 0 <= i < |s| :: s[i] as int < 0x100
  }

  function ToBytes(s: string): (r: seq<byte>)
    requires EightBit(s)
    ensures |r| == |s|
  {
    seq(|s|, i requires 0 <= i < |s| => s[i] as int)
  }

  function ToText(s: seq<byte>): (r: string)
    ensures |r| == |s|
  {
    seq(|s|, i requires 0 <= i < |s| => s[i] as char)
  }

  lemma TextRoundTrip(s: string)
    requires EightBit(s)
    ensures ToText(ToBytes(s)) == s
  {
  }

  lemma TextIsInjective(a: seq<byte>, b: seq<byte>)
    requires ToText(a) == ToText(b)
    ensures a == b
  {
    forall i | 0 <= i < |a|
      ensures a[i] == b[i]
    {
      assert ToText(a)[i] == a[i] as char && ToText(b)[i] == b[i] as char;
    }
  }

  function StationOf(text: seq<byte>): S.Station {
    S.Parse(S.FromText(ToText(text)))
  }

  /** The structure with its URLs parsed; the time is zero where the version has none. */
  function FromValue(v: Value): Option<Data> {
    if v.Structure? && |v.fields| >= 3 && v.fields[0].String? && v.fields[1].List? && v.fields[2].String? &&
       (v.version >= 1 ==> |v.fields| == 4 && v.fields[3].Number?) then
      Some(Data(v.version, StationOf(v.fields[0].chars), v.fields[1].elements, StationOf(v.fields[2].chars),
                if v.version >= 1 then v.fields[3].n else 0))
    else None
  }

  function Read(c: Settings, s: seq<byte>): Option<(Data, seq<byte>)> {
    var (v, rest) :- Extract(c, CONNECTION_DATA, s);
    var data :- FromValue(v);
    Some((data, rest))
  }

  function Denoted(version: byte, url: seq<byte>, protocols: seq<byte>, special: seq<byte>, time: uint64): Value {
    Denote(Values.ConnectionData(version, url, protocols, special, time))
  }

  lemma DenotedFields(version: byte, url: seq<byte>, protocols: seq<byte>, special: seq<byte>, time: uint64)
    ensures var list := DenoteElements(ByteLeaves(protocols));
            Denoted(version, url, protocols, special, time) ==
            Structure(version, [String(url), List(list), String(special)] + if version >= 1 then [Number(time)] else [])
  {
    var list := ListNode(ByteLeaves(protocols));
    var p3 := [Part(1, NumberLeaf(8, time))];
    var p2 := [Part(0, StringLeaf(special))] + p3;
    var p1 := [Part(0, list)] + p2;
    var p0 := [Part(0, StringLeaf(url))] + p1;
    assert Values.ConnectionData(version, url, protocols, special, time).parts == p0;
    var none: seq<Part> := [];
    OnePart(version, Part(1, NumberLeaf(8, time)), none);
    assert p3 == [p3[0]] + none;
    OnePart(version, Part(0, StringLeaf(special)), p3);
    OnePart(version, Part(0, list), p2);
    OnePart(version, Part(0, StringLeaf(url)), p1);
    assert Denote(list) == List(DenoteElements(ByteLeaves(protocols)));
  }

  lemma OnePart(version: byte, p: Part, ps: seq<Part>)
    ensures DenoteParts(version, [p] + ps) == (if version >= p.since then [Denote(p.tree)] else []) + DenoteParts(version, ps)
  {
    assert ([p] + ps)[1..] == ps;
  }

  /** What is read back from the text of two stations. */
  function Expected(version: byte, u: S.Station, text: string, protocols: seq<byte>, v: S.Station, special: string, time: uint64): Data {
    Data(version, u.(url := text), DenoteElements(ByteLeaves(protocols)), v.(url := special), if version >= 1 then time else 0)
  }

  lemma ParseKeepsText(text: string)
    ensures S.Parse(S.FromText(text)).url == text
  {
  }

  /** The value that was written gives the stations if and only if both are separable. */
  lemma ValueIsExpectedIff(version: byte, u: S.Station, text: string, protocols: seq<byte>, v: S.Station, special: string, time: uint64)
    requires EightBit(text) && EightBit(special)
    ensures FromValue(Denoted(version, ToBytes(text), protocols, ToBytes(special), time)) ==
            Some(Expected(version, u, text, protocols, v, special, time)) <==>
            S.Parse(S.FromText(text)) == u.(url := text) && S.Parse(S.FromText(special)) == v.(url := special)
  {
    DenotedFields(version, ToBytes(text), protocols, ToBytes(special), time);
    TextRoundTrip(text);
    TextRoundTrip(special);
  }

  /** No other value gives the same data. */
  lemma ValueIsKnown(value: Value, version: byte, u: S.Station, text: string, protocols: seq<byte>, v: S.Station, special: string, time: uint64)
    requires EightBit(text) && EightBit(special)
    requires FromValue(value) == Some(Expected(version, u, text, protocols, v, special, time))
    requires value.Structure? && (value.version < 1 ==> |value.fields| == 3)
    ensures value == Denoted(version, ToBytes(text), protocols, ToBytes(special), time)
  {
    DenotedFields(version, ToBytes(text), protocols, ToBytes(special), time);
    TextRoundTrip(text);
    TextRoundTrip(special);
    ParseKeepsText(ToText(value.fields[0].chars));
    ParseKeepsText(ToText(value.fields[2].chars));
    TextIsInjective(value.fields[0].chars, ToBytes(text));
    TextIsInjective(value.fields[2].chars, ToBytes(special));
    var fields := Denoted(version, ToBytes(text), protocols, ToBytes(special), time).fields;
    assert |fields| == |value.fields|;
    assert forall i | 0 <= i < |fields| :: fields[i] == value.fields[i];
  }

  /** Without a time the structure has three fields. */
  lemma ReadFields(c: Settings, s: seq<byte>)
    requires Extract(c, CONNECTION_DATA, s).Some?
    ensures var v := Extract(c, CONNECTION_DATA, s).value.0; v.Structure? && (v.version < 1 ==> |v.fields| == 3)
  {
    ReadIsReadable(c, CONNECTION_DATA, s);
    var v := Extract(c, CONNECTION_DATA, s).value.0;
    FieldsOfVersion(c, v.version, v.fields);
  }

  lemma FieldsOfVersion(c: Settings, version: byte, vs: seq<Value>)
    requires ReadableFields(c, CONNECTION_DATA, version, 0, vs)
    ensures version < 1 ==> |vs| == 3
  {
    var ty := CONNECTION_DATA;
    assert |ty.fields| == 4;
    assert ReadableFields(c, ty, version, 1, vs[1..]);
    assert ReadableFields(c, ty, version, 2, vs[1..][1..]);
    assert ReadableFields(c, ty, version, 3, vs[1..][1..][1..]);
    if version < 1 {
      assert ReadableFields(c, ty, version, 4, vs[1..][1..][1..]);
    }
  }

  /** What connection data needs to come back with its stations. */
  ghost predicate Fine(c: Settings, version: byte, u: S.Station, text: string, protocols: seq<byte>, v: S.Station, special: string)
    requires EightBit(text) && EightBit(special)
  {
    && (c.structureHeader || version == 0) && |protocols| < 0x1_0000_0000
    && FitsString(c, ToBytes(text)) && FitsString(c, ToBytes(special))
    && S.Separable(u) && S.Separable(v)
  }

  /**
   Two stations that can be formatted, in whatever order their parameters are written: the
   connection data comes back, URLs parsed, if and only if structures have headers or the
   version is 0, the texts and the list fit, and both stations are separable.
   */
  lemma StationsRoundTripIff(c: Settings, version: byte, u: S.Station, standard: seq<S.Pair>, custom: seq<S.Pair>, protocols: seq<byte>,
                             v: S.Station, standard': seq<S.Pair>, custom': seq<S.Pair>, time: uint64, rest: seq<byte>)
    requires S.Orders(u, standard, custom) && S.TryFormat(u.kind, standard, custom).Some?
    requires S.Orders(v, standard', custom') && S.TryFormat(v.kind, standard', custom').Some?
    requires EightBit(S.TryFormat(u.kind, standard, custom).value) && EightBit(S.TryFormat(v.kind, standard', custom').value)
    ensures var text, special := S.TryFormat(u.kind, standard, custom).value, S.TryFormat(v.kind, standard', custom').value;
            var t := Values.ConnectionData(version, ToBytes(text), protocols, ToBytes(special), time);
            Read(c, Write(c, t) + rest) == Some((Expected(version, u, text, protocols, v, special, time), rest)) <==>
            Fine(c, version, u, text, protocols, v, special)
  {
    var text, special := S.TryFormat(u.kind, standard, custom).value, S.TryFormat(v.kind, standard', custom').value;
    S.RoundTripIff(u, standard, custom);
    S.RoundTripIff(v, standard', custom');
    ReadBackIff(c, version, u, text, protocols, v, special, time, rest);
  }

  lemma ReadBackIff(c: Settings, version: byte, u: S.Station, text: string, protocols: seq<byte>,
                    v: S.Station, special: string, time: uint64, rest: seq<byte>)
    requires EightBit(text) && EightBit(special)
    requires S.Parse(S.FromText(text)) == u.(url := text) <==> S.Separable(u)
    requires S.Parse(S.FromText(special)) == v.(url := special) <==> S.Separable(v)
    ensures var t := Values.ConnectionData(version, ToBytes(text), protocols, ToBytes(special), time);
            Read(c, Write(c, t) + rest) == Some((Expected(version, u, text, protocols, v, special, time), rest)) <==>
            Fine(c, version, u, text, protocols, v, special)
  {
    var t := Values.ConnectionData(version, ToBytes(text), protocols, ToBytes(special), time);
    var s := Write(c, t) + rest;
    ConnectionDataRoundTripIff(c, version, ToBytes(text), protocols, ToBytes(special), time, rest);
    ValueIsExpectedIff(version, u, text, protocols, v, special, time);
    if Read(c, s) == Some((Expected(version, u, text, protocols, v, special, time), rest)) {
      ReadFields(c, s);
      ValueIsKnown(Extract(c, CONNECTION_DATA, s).value.0, version, u, text, protocols, v, special, time);
    }
  }
}
