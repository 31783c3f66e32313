/**
 The NEX value types: numbers, booleans, strings, lists, maps and versioned structures, in any
 nesting. A map is written in whatever order it is iterated, so what is written is a `Tree`:
 a value together with an iteration order for each of its maps.
 */
module Values {
  import opened Bytes
  import opened Wrappers

  datatype Type =
    | NumberT(width: nat)
    | BoolT
    | StringT
    | ListT(element: Type)
    | MapT(key: Type, value: Type)
    | StructureT(fields: seq<Field>)

  /** A field of a structure, present from version `since` on. */
  datatype Field = Field(since: byte, ty: Type)

  datatype Value =
    | Number(n: nat)
    | Bool(b: bool)
    | String(chars: seq<byte>)
    | List(elements: seq<Value>)
    | Map(entries: map<Value, Value>)
    | Structure(version: byte, fields: seq<Value>)

  datatype Tree =
    | NumberLeaf(width: nat, n: nat)
    | BoolLeaf(b: bool)
    | StringLeaf(chars: seq<byte>)
    | ListNode(elements: seq<Tree>)
    | MapNode(entries: seq<Entry>)
    | StructureNode(version: byte, parts: seq<Part>)

  datatype Entry = Entry(key: Tree, value: Tree)

  datatype Part = Part(since: byte, tree: Tree)

  /** Whether string lengths take four bytes or two, and whether structures have a header. */
  datatype Settings = Settings(wideStrings: bool, structureHeader: bool)

  function LengthWidth(c: Settings): (w: nat)
    ensures w == 2 || w == 4
  {
    if c.wideStrings then 4 else 2
  }

  // ---------- what is written ----------

  function WriteString(c: Settings, chars: seq<byte>): seq<byte> {
    LE(|chars| + 1, LengthWidth(c)) + chars + [0]
  }

  function Write(c: Settings, t: Tree): seq<byte>
    decreases t
  {
    match t
    case NumberLeaf(width, n) => LE(n, width)
    case BoolLeaf(b) => [if b then 1 else 0]
    case StringLeaf(chars) => WriteString(c, chars)
    case ListNode(elements) => LE(|elements|, WORD) + WriteElements(c, elements)
    case MapNode(entries) => LE(|entries|, WORD) + WriteEntries(c, entries)
    case StructureNode(version, parts) =>
      var content := WriteParts(c, version, parts);
      Header(c, version, |content|) + content
  }

  function Header(c: Settings, version: byte, length: nat): seq<byte> {
    if c.structureHeader then [version] + LE(length, WORD) else []
  }

  function WriteElements(c: Settings, ts: seq<Tree>): seq<byte>
    decreases ts
  {
    if ts == [] then [] else Write(c, ts[0]) + WriteElements(c, ts[1..])
  }

  function WriteEntries(c: Settings, es: seq<Entry>): seq<byte>
    decreases es
  {
    if es == [] then [] else WriteEntry(c, es[0]) + WriteEntries(c, es[1..])
  }

  function WriteEntry(c: Settings, e: Entry): seq<byte>
    decreases e
  {
    Write(c, e.key) + Write(c, e.value)
  }

  function WriteParts(c: Settings, version: byte, ps: seq<Part>): seq<byte>
    decreases ps
  {
    if ps == [] then [] else WritePart(c, version, ps[0]) + WriteParts(c, version, ps[1..])
  }

  function WritePart(c: Settings, version: byte, p: Part): seq<byte>
    decreases p
  {
    if version >= p.since then Write(c, p.tree) else []
  }

  // ---------- what is read ----------

  /** Without the NUL bytes at its end. */
  function TrimRight(s: seq<byte>): seq<byte> {
    if s == [] || s[|s| - 1] != 0 then s else TrimRight(s[..|s| - 1])
  }

  function ExtractString(c: Settings, s: seq<byte>): Option<(seq<byte>, seq<byte>)> {
    var (length, s1) :- ReadUInt(s, LengthWidth(c));
    var (data, rest) :- TakeBytes(s1, length);
    Some((TrimRight(data), rest))
  }

  /** The version of a structure; without a header it stays 0. */
  function ExtractHeader(c: Settings, s: seq<byte>): Option<(byte, seq<byte>)> {
    if !c.structureHeader then Some((0, s))
    else
      Widths();
      var (version, s1) :- ReadUInt(s, 1);
      var (length, s2) :- ReadUInt(s1, WORD);
      if |s2| < length then None else Some((version, s2))
  }

  function Extract(c: Settings, ty: Type, s: seq<byte>): Option<(Value, seq<byte>)>
    decreases ty, 2, 0
  {
    match ty
    case NumberT(width) =>
      var (n, rest) :- ReadUInt(s, width);
      Some((Number(n), rest))
    case BoolT =>
      var (n, rest) :- ReadUInt(s, 1);
      Some((Bool(n == 1), rest))
    case StringT =>
      var (chars, rest) :- ExtractString(c, s);
      Some((String(chars), rest))
    case ListT(_) => ExtractList(c, ty, s)
    case MapT(_, _) => ExtractMap(c, ty, s)
    case StructureT(_) => ExtractStructure(c, ty, s)
  }

  function ExtractList(c: Settings, ty: Type, s: seq<byte>): Option<(Value, seq<byte>)>
    requires ty.ListT?
    decreases ty, 1, 0
  {
    var (n, s1) :- ReadUInt(s, WORD);
    var (elements, rest) :- ExtractElements(c, ty.element, n, s1);
    Some((List(elements), rest))
  }

  function ExtractMap(c: Settings, ty: Type, s: seq<byte>): Option<(Value, seq<byte>)>
    requires ty.MapT?
    decreases ty, 1, 0
  {
    var (n, s1) :- ReadUInt(s, WORD);
    var (entries, rest) :- ExtractEntries(c, ty, map[], n, s1);
    Some((Map(entries), rest))
  }

  function ExtractStructure(c: Settings, ty: Type, s: seq<byte>): Option<(Value, seq<byte>)>
    requires ty.StructureT?
    decreases ty, 1, 0
  {
    var (version, s1) :- ExtractHeader(c, s);
    var (values, rest) :- ExtractFields(c, ty, version, 0, s1);
    Some((Structure(version, values), rest))
  }

  function ExtractElements(c: Settings, ty: Type, n: nat, s: seq<byte>): (r: Option<(seq<Value>, seq<byte>)>)
    ensures r.Some? ==> |r.value.0| == n
    decreases ty, 3, n
  {
    if n == 0 then Some(([], s))
    else
      var (v, s1) :- Extract(c, ty, s);
      var (more, rest) :- ExtractElements(c, ty, n - 1, s1);
      Some(([v] + more, rest))
  }

  /** A key that comes twice keeps its last value. */
  function ExtractEntries(c: Settings, ty: Type, m: map<Value, Value>, n: nat, s: seq<byte>)
    : Option<(map<Value, Value>, seq<byte>)>
    requires ty.MapT?
    decreases ty, 0, n
  {
    if n == 0 then Some((m, s))
    else
      var (k, s1) :- Extract(c, ty.key, s);
      var (v, s2) :- Extract(c, ty.value, s1);
      ExtractEntries(c, ty, m[k := v], n - 1, s2)
  }

  function ExtractFields(c: Settings, ty: Type, version: byte, i: nat, s: seq<byte>): Option<(seq<Value>, seq<byte>)>
    requires ty.StructureT? && i <= |ty.fields|
    decreases ty, 0, |ty.fields| - i
  {
    if i == |ty.fields| then Some(([], s))
    else if version < ty.fields[i].since then ExtractFields(c, ty, version, i + 1, s)
    else
      var (v, s1) :- Extract(c, ty.fields[i].ty, s);
      var (more, rest) :- ExtractFields(c, ty, version, i + 1, s1);
      Some(([v] + more, rest))
  }

  // ---------- what a tree stands for ----------

  function Denote(t: Tree): Value
    decreases t
  {
    match t
    case NumberLeaf(_, n) => Number(n)
    case BoolLeaf(b) => Bool(b)
    case StringLeaf(chars) => String(chars)
    case ListNode(elements) => List(DenoteElements(elements))
    case MapNode(entries) => Map(DenoteEntries(map[], entries))
    case StructureNode(version, parts) => Structure(version, DenoteParts(version, parts))
  }

  function DenoteElements(ts: seq<Tree>): (vs: seq<Value>)
    ensures |vs| == |ts|
    decreases ts
  {
    if ts == [] then [] else [Denote(ts[0])] + DenoteElements(ts[1..])
  }

  function DenoteEntries(m: map<Value, Value>, es: seq<Entry>): map<Value, Value>
    decreases es
  {
    if es == [] then m else DenoteEntries(DenoteEntry(m, es[0]), es[1..])
  }

  function DenoteEntry(m: map<Value, Value>, e: Entry): map<Value, Value>
    decreases e
  {
    m[Denote(e.key) := Denote(e.value)]
  }

  /** A structure stands for the fields that its version has. */
  function DenoteParts(version: byte, ps: seq<Part>): seq<Value>
    decreases ps
  {
    if ps == [] then [] else DenotePart(version, ps[0]) + DenoteParts(version, ps[1..])
  }

  function DenotePart(version: byte, p: Part): seq<Value>
    decreases p
  {
    if version >= p.since then [Denote(p.tree)] else []
  }

  ghost predicate Typed(ty: Type, t: Tree)
    decreases t
  {
    match t
    case NumberLeaf(width, _) => ty == NumberT(width)
    case BoolLeaf(_) => ty.BoolT?
    case StringLeaf(_) => ty.StringT?
    case ListNode(elements) => ty.ListT? && forall i | 0 <= i < |elements| :: Typed(ty.element, elements[i])
    case MapNode(entries) =>
      ty.MapT? && forall i | 0 <= i < |entries| :: Typed(ty.key, entries[i].key) && Typed(ty.value, entries[i].value)
    case StructureNode(_, parts) =>
      && ty.StructureT? && |ty.fields| == |parts|
      && forall i | 0 <= i < |parts| :: ty.fields[i].since == parts[i].since && Typed(ty.fields[i].ty, parts[i].tree)
  }

  predicate FitsString(c: Settings, chars: seq<byte>) {
    (chars == [] || chars[|chars| - 1] != 0) && |chars| + 1 < Pow256(LengthWidth(c))
  }

  /** Numbers and lengths fit their places, strings do not end in NUL, versions have a header to travel in. */
  ghost predicate Fits(c: Settings, t: Tree)
    decreases t
  {
    match t
    case NumberLeaf(width, n) => n < Pow256(width)
    case BoolLeaf(_) => true
    case StringLeaf(chars) => FitsString(c, chars)
    case ListNode(elements) => |elements| < 0x1_0000_0000 && forall i | 0 <= i < |elements| :: Fits(c, elements[i])
    case MapNode(entries) =>
      |entries| < 0x1_0000_0000 && forall i | 0 <= i < |entries| :: Fits(c, entries[i].key) && Fits(c, entries[i].value)
    case StructureNode(version, parts) =>
      && (c.structureHeader || version == 0)
      && forall i | 0 <= i < |parts| && version >= parts[i].since :: Fits(c, parts[i].tree)
  }

  // ---------- strings ----------

  lemma {:induction false} TrimmedEndsClean(s: seq<byte>)
    ensures var r := TrimRight(s); |r| <= |s| && (r == [] || r[|r| - 1] != 0)
  {
    if s != [] && s[|s| - 1] == 0 {
      TrimmedEndsClean(s[..|s| - 1]);
    }
  }

  lemma TrimTerminator(chars: seq<byte>)
    requires chars == [] || chars[|chars| - 1] != 0
    ensures TrimRight(chars + [0]) == chars
  {
    assert (chars + [0])[..|chars|] == chars;
  }

  /** A number that does not fit comes back smaller by at least one full turn. */
  lemma {:induction false} NumberWraps(n: nat, w: nat)
    ensures var r := FromLE(LE(n, w)); if n < Pow256(w) then r == n else r + Pow256(w) <= n
  {
    if w != 0 {
      NumberWraps(n / 256, w - 1);
      assert LE(n, w)[1..] == LE(n / 256, w - 1);
    }
  }

  lemma ReadWrapped(n: nat, w: nat, rest: seq<byte>)
    ensures ReadUInt(LE(n, w) + rest, w) == Some((FromLE(LE(n, w)), rest))
  {
    assert (LE(n, w) + rest)[..w] == LE(n, w);
    assert (LE(n, w) + rest)[w..] == rest;
  }

  lemma StringRead(c: Settings, chars: seq<byte>, rest: seq<byte>)
    ensures var n := FromLE(LE(|chars| + 1, LengthWidth(c)));
            var s := chars + [0] + rest;
            n <= |s| && ExtractString(c, WriteString(c, chars) + rest) == Some((TrimRight(s[..n]), s[n..]))
  {
    var w := LengthWidth(c);
    var s := chars + [0] + rest;
    assert WriteString(c, chars) + rest == LE(|chars| + 1, w) + s;
    ReadWrapped(|chars| + 1, w, s);
    NumberWraps(|chars| + 1, w);
  }

  lemma StringRoundTrip(c: Settings, chars: seq<byte>, rest: seq<byte>)
    requires FitsString(c, chars)
    ensures ExtractString(c, WriteString(c, chars) + rest) == Some((chars, rest))
  {
    var s := chars + [0] + rest;
    StringRead(c, chars, rest);
    NumberWraps(|chars| + 1, LengthWidth(c));
    assert s[..|chars| + 1] == chars + [0] && s[|chars| + 1..] == rest;
    TrimTerminator(chars);
  }

  lemma UnfitStringChanges(c: Settings, chars: seq<byte>, rest: seq<byte>)
    requires !FitsString(c, chars)
    ensures var r := ExtractString(c, WriteString(c, chars) + rest); r.Some? && r.value.0 != chars
  {
    var w := LengthWidth(c);
    var n := FromLE(LE(|chars| + 1, w));
    StringRead(c, chars, rest);
    NumberWraps(|chars| + 1, w);
    PowerAboveOne(w);
    TrimmedChanges(chars, rest, n);
  }

  /** A string cut short, or one that ends in NUL, is not what is left after trimming. */
  lemma TrimmedChanges(chars: seq<byte>, rest: seq<byte>, n: nat)
    requires n < |chars| || (n == |chars| + 1 && chars != [] && chars[|chars| - 1] == 0)
    ensures TrimRight((chars + [0] + rest)[..n]) != chars
  {
    TrimmedEndsClean((chars + [0] + rest)[..n]);
  }

  lemma PowerAboveOne(w: nat)
    requires w > 0
    ensures Pow256(w) >= 256
  {
  }

  // ---------- the round trip ----------

  lemma HeaderRoundTrip(c: Settings, version: byte, content: seq<byte>, rest: seq<byte>)
    requires c.structureHeader || version == 0
    ensures ExtractHeader(c, Header(c, version, |content|) + content + rest) == Some((version, content + rest))
  {
    if c.structureHeader {
      LengthRead(|content|, WORD, content + rest);
      var s := LE(|content|, WORD) + (content + rest);
      assert Header(c, version, |content|) + content + rest == [version] + s;
      ReadByteWritten(version, s);
    } else {
      assert [] + content + rest == content + rest;
    }
  }

  lemma LengthRead(n: nat, w: nat, rest: seq<byte>)
    ensures var r := ReadUInt(LE(n, w) + rest, w); r.Some? && r.value.1 == rest && r.value.0 <= n
  {
    ReadWrapped(n, w, rest);
    NumberWraps(n, w);
  }

  /** A value comes back, with exactly the bytes after it left. */
  lemma {:induction false} ValueRoundTrip(c: Settings, ty: Type, t: Tree, rest: seq<byte>)
    requires Typed(ty, t) && Fits(c, t)
    ensures Extract(c, ty, Write(c, t) + rest) == Some((Denote(t), rest))
    decreases t
  {
    match t
    case NumberLeaf(width, n) =>
      ReadWritten(n, width, rest);
    case BoolLeaf(b) =>
      ReadByteWritten(if b then 1 else 0, rest);
    case StringLeaf(chars) =>
      StringRoundTrip(c, chars, rest);
    case ListNode(elements) =>
      ListRoundTrip(c, ty, elements, rest);
    case MapNode(entries) =>
      MapRoundTrip(c, ty, entries, rest);
    case StructureNode(version, parts) =>
      StructureRoundTrip(c, ty, version, parts, rest);
  }

  lemma {:induction false} StructureRoundTrip(c: Settings, ty: Type, version: byte, ps: seq<Part>, rest: seq<byte>)
    requires Shaped(ty, 0, ps) && (c.structureHeader || version == 0)
    requires forall k | 0 <= k < |ps| && version >= ps[k].since :: Fits(c, ps[k].tree)
    ensures var content := WriteParts(c, version, ps);
            ExtractStructure(c, ty, Header(c, version, |content|) + content + rest) ==
            Some((Structure(version, DenoteParts(version, ps)), rest))
    decreases ps, 1
  {
    HeaderRoundTrip(c, version, WriteParts(c, version, ps), rest);
    PartsRoundTrip(c, ty, version, ps, 0, rest);
  }

  lemma CountRead(n: nat, content: seq<byte>, rest: seq<byte>)
    requires n < 0x1_0000_0000
    ensures ReadUInt(LE(n, WORD) + content + rest, WORD) == Some((n, content + rest))
  {
    Widths();
    var count := LE(n, WORD);
    assert count + content + rest == count + (content + rest);
    ReadWritten(n, WORD, content + rest);
  }

  lemma {:induction false} ListRoundTrip(c: Settings, ty: Type, ts: seq<Tree>, rest: seq<byte>)
    requires ty.ListT? && |ts| < 0x1_0000_0000
    requires forall i | 0 <= i < |ts| :: Typed(ty.element, ts[i]) && Fits(c, ts[i])
    ensures ExtractList(c, ty, LE(|ts|, WORD) + WriteElements(c, ts) + rest) == Some((List(DenoteElements(ts)), rest))
    decreases ts, 1
  {
    CountRead(|ts|, WriteElements(c, ts), rest);
    ElementsRoundTrip(c, ty.element, ts, rest);
  }

  lemma {:induction false} ElementsRoundTrip(c: Settings, ty: Type, ts: seq<Tree>, rest: seq<byte>)
    requires forall i | 0 <= i < |ts| :: Typed(ty, ts[i]) && Fits(c, ts[i])
    ensures ExtractElements(c, ty, |ts|, WriteElements(c, ts) + rest) == Some((DenoteElements(ts), rest))
    decreases ts, 0
  {
    if ts == [] {
      assert [] + rest == rest;
    } else {
      var s := WriteElements(c, ts[1..]) + rest;
      assert WriteElements(c, ts) + rest == Write(c, ts[0]) + s;
      ValueRoundTrip(c, ty, ts[0], s);
      ElementsRoundTrip(c, ty, ts[1..], rest);
    }
  }

  lemma {:induction false} MapRoundTrip(c: Settings, ty: Type, es: seq<Entry>, rest: seq<byte>)
    requires ty.MapT? && |es| < 0x1_0000_0000
    requires forall i | 0 <= i < |es| :: Typed(ty.key, es[i].key) && Typed(ty.value, es[i].value)
    requires forall i | 0 <= i < |es| :: Fits(c, es[i].key) && Fits(c, es[i].value)
    ensures ExtractMap(c, ty, LE(|es|, WORD) + WriteEntries(c, es) + rest) == Some((Map(DenoteEntries(map[], es)), rest))
    decreases es, 1
  {
    CountRead(|es|, WriteEntries(c, es), rest);
    EntriesRoundTrip(c, ty, map[], es, rest);
  }

  lemma {:induction false} EntriesRoundTrip(c: Settings, ty: Type, m: map<Value, Value>, es: seq<Entry>, rest: seq<byte>)
    requires ty.MapT?
    requires forall i | 0 <= i < |es| :: Typed(ty.key, es[i].key) && Typed(ty.value, es[i].value)
    requires forall i | 0 <= i < |es| :: Fits(c, es[i].key) && Fits(c, es[i].value)
    ensures ExtractEntries(c, ty, m, |es|, WriteEntries(c, es) + rest) == Some((DenoteEntries(m, es), rest))
    decreases es, 0
  {
    if es == [] {
      assert [] + rest == rest;
    } else {
      var s := WriteEntries(c, es[1..]) + rest;
      assert WriteEntries(c, es) + rest == WriteEntry(c, es[0]) + s;
      EntryRoundTrip(c, ty, es[0], s);
      EntriesRoundTrip(c, ty, DenoteEntry(m, es[0]), es[1..], rest);
    }
  }

  lemma {:induction false} EntryRoundTrip(c: Settings, ty: Type, e: Entry, rest: seq<byte>)
    requires ty.MapT? && Typed(ty.key, e.key) && Typed(ty.value, e.value) && Fits(c, e.key) && Fits(c, e.value)
    ensures Extract(c, ty.key, WriteEntry(c, e) + rest) == Some((Denote(e.key), Write(c, e.value) + rest))
    ensures Extract(c, ty.value, Write(c, e.value) + rest) == Some((Denote(e.value), rest))
    decreases e
  {
    assert WriteEntry(c, e) + rest == Write(c, e.key) + (Write(c, e.value) + rest);
    ValueRoundTrip(c, ty.key, e.key, Write(c, e.value) + rest);
    ValueRoundTrip(c, ty.value, e.value, rest);
  }

  /** The parts are those of the fields of a structure from number `i` on. */
  ghost predicate Shaped(ty: Type, i: nat, ps: seq<Part>) {
    && ty.StructureT? && i + |ps| == |ty.fields|
    && forall k | 0 <= k < |ps| :: ty.fields[i + k].since == ps[k].since && Typed(ty.fields[i + k].ty, ps[k].tree)
  }

  lemma ShapedTail(ty: Type, i: nat, ps: seq<Part>)
    requires Shaped(ty, i, ps) && ps != []
    ensures Shaped(ty, i + 1, ps[1..]) && ty.fields[i].since == ps[0].since && Typed(ty.fields[i].ty, ps[0].tree)
  {
    assert ty.fields[i + 0].since == ps[0].since;
    forall k | 0 <= k < |ps[1..]|
      ensures ty.fields[i + 1 + k].since == ps[1..][k].since && Typed(ty.fields[i + 1 + k].ty, ps[1..][k].tree)
    {
      assert ps[1..][k] == ps[k + 1] && ty.fields[i + (k + 1)].since == ps[k + 1].since;
    }
  }

  lemma {:induction false} PartsRoundTrip(c: Settings, ty: Type, version: byte, ps: seq<Part>, i: nat, rest: seq<byte>)
    requires Shaped(ty, i, ps) && forall k | 0 <= k < |ps| && version >= ps[k].since :: Fits(c, ps[k].tree)
    ensures ExtractFields(c, ty, version, i, WriteParts(c, version, ps) + rest) == Some((DenoteParts(version, ps), rest))
    decreases ps, 0
  {
    if ps == [] {
      assert [] + rest == rest;
    } else {
      var part, more := WritePart(c, version, ps[0]), WriteParts(c, version, ps[1..]);
      ShapedTail(ty, i, ps);
      Regroup(part, more, rest);
      PartsRoundTrip(c, ty, version, ps[1..], i + 1, rest);
      if version >= ps[0].since {
        PartRoundTrip(c, ty.fields[i].ty, ps[0], more + rest);
      } else {
        assert part + (more + rest) == more + rest;
        assert DenotePart(version, ps[0]) + DenoteParts(version, ps[1..]) == DenoteParts(version, ps[1..]);
      }
    }
  }

  lemma {:induction false} PartRoundTrip(c: Settings, ty: Type, p: Part, rest: seq<byte>)
    requires Typed(ty, p.tree) && Fits(c, p.tree)
    ensures Extract(c, ty, Write(c, p.tree) + rest) == Some((Denote(p.tree), rest))
    decreases p
  {
    ValueRoundTrip(c, ty, p.tree, rest);
  }

  // ---------- maps are written in any order ----------

  ghost predicate Meets(es: seq<Entry>, k: Value) {
    exists i | 0 <= i < |es| :: Denote(es[i].key) == k
  }

  ghost predicate AllFrom(es: seq<Entry>, m: map<Value, Value>) {
    forall i | 0 <= i < |es| :: Denote(es[i].key) in m && m[Denote(es[i].key)] == Denote(es[i].value)
  }

  /** Going through the map in this order meets every entry exactly once. */
  ghost predicate Iterates(es: seq<Entry>, m: map<Value, Value>) {
    && (forall i, j | 0 <= i < j < |es| :: Denote(es[i].key) != Denote(es[j].key))
    && AllFrom(es, m)
    && (forall k | k in m :: Meets(es, k))
  }

  /** Entries of `m` that complete a part of `m` give `m`. */
  lemma {:induction false} EntriesComplete(part: map<Value, Value>, es: seq<Entry>, m: map<Value, Value>)
    requires forall k | k in part :: k in m && m[k] == part[k]
    requires AllFrom(es, m) && forall k | k in m :: k in part || Meets(es, k)
    ensures DenoteEntries(part, es) == m
    decreases es
  {
    if es == [] {
      assert part.Keys == m.Keys;
    } else {
      forall k | k in m
        ensures k in DenoteEntry(part, es[0]) || Meets(es[1..], k)
      {
        if k !in part {
          var i :| 0 <= i < |es| && Denote(es[i].key) == k;
          assert i > 0 ==> es[1..][i - 1] == es[i];
        }
      }
      EntriesComplete(DenoteEntry(part, es[0]), es[1..], m);
    }
  }

  /** Whatever order a map is iterated in, reading it back gives the map. */
  lemma MapInAnyOrder(c: Settings, ty: Type, m: map<Value, Value>, es: seq<Entry>, rest: seq<byte>)
    requires Iterates(es, m) && Typed(ty, MapNode(es)) && Fits(c, MapNode(es))
    ensures Extract(c, ty, Write(c, MapNode(es)) + rest) == Some((Map(m), rest))
  {
    EntriesComplete(map[], es, m);
    ValueRoundTrip(c, ty, MapNode(es), rest);
  }

  // ---------- exactly which values come back ----------

  ghost predicate MapFree(t: Tree)
    decreases t
  {
    match t
    case NumberLeaf(_, _) => true
    case BoolLeaf(_) => true
    case StringLeaf(_) => true
    case ListNode(elements) => forall i | 0 <= i < |elements| :: MapFree(elements[i])
    case MapNode(_) => false
    case StructureNode(_, parts) => forall i | 0 <= i < |parts| :: MapFree(parts[i].tree)
  }

  /** Without maps, a value that does not fit is not read back as it was. */
  lemma {:induction false} UnfitChanges(c: Settings, ty: Type, t: Tree, rest: seq<byte>)
    requires Typed(ty, t) && MapFree(t) && !Fits(c, t)
    ensures var r := Extract(c, ty, Write(c, t) + rest); r.None? || r.value.0 != Denote(t)
    decreases t
  {
    match t
    case NumberLeaf(width, n) =>
      ReadWrapped(n, width, rest);
      NumberWraps(n, width);
    case StringLeaf(chars) =>
      UnfitStringChanges(c, chars, rest);
    case ListNode(elements) =>
      UnfitListChanges(c, ty, elements, rest);
    case StructureNode(version, parts) =>
      UnfitStructureChanges(c, ty, version, parts, rest);
  }

  lemma {:induction false} UnfitListChanges(c: Settings, ty: Type, ts: seq<Tree>, rest: seq<byte>)
    requires ty.ListT? && forall i | 0 <= i < |ts| :: Typed(ty.element, ts[i]) && MapFree(ts[i])
    requires |ts| >= 0x1_0000_0000 || exists i | 0 <= i < |ts| :: !Fits(c, ts[i])
    ensures var r := ExtractList(c, ty, LE(|ts|, WORD) + WriteElements(c, ts) + rest);
            r.None? || r.value.0 != List(DenoteElements(ts))
    decreases ts, 1
  {
    if |ts| < 0x1_0000_0000 {
      CountRead(|ts|, WriteElements(c, ts), rest);
      UnfitElementsChange(c, ty.element, ts, rest);
    } else {
      CountWraps(|ts|, WriteElements(c, ts), rest);
    }
  }

  lemma CountWraps(n: nat, content: seq<byte>, rest: seq<byte>)
    requires n >= 0x1_0000_0000
    ensures var r := ReadUInt(LE(n, WORD) + content + rest, WORD); r.Some? && r.value.0 < n
  {
    Widths();
    var count := LE(n, WORD);
    assert count + content + rest == count + (content + rest);
    ReadWrapped(n, WORD, content + rest);
    NumberWraps(n, WORD);
  }

  lemma FirstElementChanged(c: Settings, ty: Type, ts: seq<Tree>, rest: seq<byte>)
    requires ts != []
    requires var first := Extract(c, ty, Write(c, ts[0]) + (WriteElements(c, ts[1..]) + rest));
             first.None? || first.value.0 != Denote(ts[0])
    ensures var r := ExtractElements(c, ty, |ts|, WriteElements(c, ts) + rest); r.None? || r.value.0 != DenoteElements(ts)
  {
    Regroup(Write(c, ts[0]), WriteElements(c, ts[1..]), rest);
    assert DenoteElements(ts)[0] == Denote(ts[0]);
  }

  lemma OtherElementsChanged(c: Settings, ty: Type, ts: seq<Tree>, rest: seq<byte>)
    requires ts != []
    requires var s := WriteElements(c, ts[1..]) + rest;
             var more := ExtractElements(c, ty, |ts| - 1, s);
             && Extract(c, ty, Write(c, ts[0]) + s) == Some((Denote(ts[0]), s))
             && (more.None? || more.value.0 != DenoteElements(ts[1..]))
    ensures var r := ExtractElements(c, ty, |ts|, WriteElements(c, ts) + rest); r.None? || r.value.0 != DenoteElements(ts)
  {
    Regroup(Write(c, ts[0]), WriteElements(c, ts[1..]), rest);
    assert DenoteElements(ts)[1..] == DenoteElements(ts[1..]);
    var r := ExtractElements(c, ty, |ts|, WriteElements(c, ts) + rest);
    if r.Some? {
      assert r.value.0[1..] == ExtractElements(c, ty, |ts| - 1, WriteElements(c, ts[1..]) + rest).value.0;
    }
  }

  lemma {:induction false} UnfitElementsChange(c: Settings, ty: Type, ts: seq<Tree>, rest: seq<byte>)
    requires forall i | 0 <= i < |ts| :: Typed(ty, ts[i]) && MapFree(ts[i])
    requires exists i | 0 <= i < |ts| :: !Fits(c, ts[i])
    ensures var r := ExtractElements(c, ty, |ts|, WriteElements(c, ts) + rest);
            r.None? || r.value.0 != DenoteElements(ts)
    decreases ts, 0
  {
    var s := WriteElements(c, ts[1..]) + rest;
    if Fits(c, ts[0]) {
      ValueRoundTrip(c, ty, ts[0], s);
      var i :| 0 <= i < |ts| && !Fits(c, ts[i]);
      assert ts[1..][i - 1] == ts[i];
      UnfitElementsChange(c, ty, ts[1..], rest);
      OtherElementsChanged(c, ty, ts, rest);
    } else {
      UnfitChanges(c, ty, ts[0], s);
      FirstElementChanged(c, ty, ts, rest);
    }
  }

  lemma {:induction false} UnfitStructureChanges(c: Settings, ty: Type, version: byte, ps: seq<Part>, rest: seq<byte>)
    requires Shaped(ty, 0, ps) && forall k | 0 <= k < |ps| :: MapFree(ps[k].tree)
    requires (!c.structureHeader && version != 0) || exists k | 0 <= k < |ps| && version >= ps[k].since :: !Fits(c, ps[k].tree)
    ensures var content := WriteParts(c, version, ps);
            var r := ExtractStructure(c, ty, Header(c, version, |content|) + content + rest);
            r.None? || r.value.0 != Structure(version, DenoteParts(version, ps))
    decreases ps, 1
  {
    if c.structureHeader || version == 0 {
      HeaderRoundTrip(c, version, WriteParts(c, version, ps), rest);
      UnfitPartsChange(c, ty, version, ps, 0, rest);
    }
  }

  /** The first field that the version has decides the first value, the others the rest. */
  lemma PartsHead(c: Settings, ty: Type, version: byte, ps: seq<Part>, i: nat, rest: seq<byte>)
    requires Shaped(ty, i, ps) && ps != []
    ensures var s := WriteParts(c, version, ps[1..]) + rest;
            var r := ExtractFields(c, ty, version, i, WriteParts(c, version, ps) + rest);
            if version >= ps[0].since then
              var first := Extract(c, ty.fields[i].ty, Write(c, ps[0].tree) + s);
              r.Some? ==>
                && first.Some? && (first.value.0 != Denote(ps[0].tree) ==> r.value.0 != DenoteParts(version, ps))
                && var more := ExtractFields(c, ty, version, i + 1, first.value.1);
                   more.Some? && (more.value.0 != DenoteParts(version, ps[1..]) ==> r.value.0 != DenoteParts(version, ps))
            else r == ExtractFields(c, ty, version, i + 1, s) && DenoteParts(version, ps) == DenoteParts(version, ps[1..])
  {
    ShapedTail(ty, i, ps);
    var part, more := WritePart(c, version, ps[0]), WriteParts(c, version, ps[1..]);
    Regroup(part, more, rest);
    if version >= ps[0].since {
      assert DenoteParts(version, ps) == [Denote(ps[0].tree)] + DenoteParts(version, ps[1..]);
      assert DenoteParts(version, ps)[1..] == DenoteParts(version, ps[1..]);
    } else {
      assert part + (more + rest) == more + rest;
      assert DenotePart(version, ps[0]) + DenoteParts(version, ps[1..]) == DenoteParts(version, ps[1..]);
    }
  }

  lemma {:induction false} UnfitPartsChange(c: Settings, ty: Type, version: byte, ps: seq<Part>, i: nat, rest: seq<byte>)
    requires Shaped(ty, i, ps) && forall k | 0 <= k < |ps| :: MapFree(ps[k].tree)
    requires exists k | 0 <= k < |ps| && version >= ps[k].since :: !Fits(c, ps[k].tree)
    ensures var r := ExtractFields(c, ty, version, i, WriteParts(c, version, ps) + rest);
            r.None? || r.value.0 != DenoteParts(version, ps)
    decreases ps, 0
  {
    var s := WriteParts(c, version, ps[1..]) + rest;
    ShapedTail(ty, i, ps);
    PartsHead(c, ty, version, ps, i, rest);
    if version >= ps[0].since && !Fits(c, ps[0].tree) {
      UnfitPartChanges(c, ty.fields[i].ty, ps[0], s);
    } else {
      var k :| 0 <= k < |ps| && version >= ps[k].since && !Fits(c, ps[k].tree);
      assert ps[1..][k - 1] == ps[k];
      UnfitPartsChange(c, ty, version, ps[1..], i + 1, rest);
      if version >= ps[0].since {
        PartRoundTrip(c, ty.fields[i].ty, ps[0], s);
      }
    }
  }

  lemma {:induction false} UnfitPartChanges(c: Settings, ty: Type, p: Part, rest: seq<byte>)
    requires Typed(ty, p.tree) && MapFree(p.tree) && !Fits(c, p.tree)
    ensures var r := Extract(c, ty, Write(c, p.tree) + rest); r.None? || r.value.0 != Denote(p.tree)
    decreases p
  {
    UnfitChanges(c, ty, p.tree, rest);
  }

  // ---------- values that are never read ----------

  /** Values of the type that some bytes may be read as. */
  ghost predicate Readable(c: Settings, ty: Type, v: Value)
    decreases ty, 1, 0
  {
    match ty
    case NumberT(width) => v.Number? && v.n < Pow256(width)
    case BoolT => v.Bool?
    case StringT => v.String? && ReadableString(c, v.chars)
    case ListT(element) =>
      v.List? && |v.elements| < 0x1_0000_0000 && forall i | 0 <= i < |v.elements| :: Readable(c, element, v.elements[i])
    case MapT(key, value) =>
      v.Map? && |v.entries| < 0x1_0000_0000 && forall k | k in v.entries :: Readable(c, key, k) && Readable(c, value, v.entries[k])
    case StructureT(_) =>
      v.Structure? && (c.structureHeader || v.version == 0) && ReadableFields(c, ty, v.version, 0, v.fields)
  }

  ghost predicate ReadableString(c: Settings, chars: seq<byte>) {
    (chars == [] || chars[|chars| - 1] != 0) && |chars| < Pow256(LengthWidth(c))
  }

  ghost predicate ReadableFields(c: Settings, ty: Type, version: byte, i: nat, vs: seq<Value>)
    requires ty.StructureT? && i <= |ty.fields|
    decreases ty, 0, |ty.fields| - i
  {
    if i == |ty.fields| then vs == []
    else if version < ty.fields[i].since then ReadableFields(c, ty, version, i + 1, vs)
    else vs != [] && Readable(c, ty.fields[i].ty, vs[0]) && ReadableFields(c, ty, version, i + 1, vs[1..])
  }

  /** Whatever is read is readable. */
  lemma {:induction false} ReadIsReadable(c: Settings, ty: Type, s: seq<byte>)
    ensures var r := Extract(c, ty, s); r.Some? ==> Readable(c, ty, r.value.0)
    decreases ty, 2, 0
  {
    Widths();
    match ty
    case NumberT(_) =>
    case BoolT =>
    case StringT =>
      if |s| >= LengthWidth(c) {
        var n, s1 := FromLE(s[..LengthWidth(c)]), s[LengthWidth(c)..];
        if n <= |s1| {
          TrimmedEndsClean(s1[..n]);
        }
      }
    case ListT(element) =>
      if |s| >= WORD {
        ElementsReadable(c, element, FromLE(s[..WORD]), s[WORD..]);
      }
    case MapT(_, _) =>
      if |s| >= WORD {
        EntriesReadable(c, ty, map[], FromLE(s[..WORD]), s[WORD..]);
      }
    case StructureT(_) =>
      var header := ExtractHeader(c, s);
      if header.Some? {
        FieldsReadable(c, ty, header.value.0, 0, header.value.1);
      }
  }

  ghost predicate AllReadable(c: Settings, ty: Type, vs: seq<Value>)
    decreases ty, 2, 0
  {
    forall i | 0 <= i < |vs| :: Readable(c, ty, vs[i])
  }

  lemma {:induction false} ElementsReadable(c: Settings, ty: Type, n: nat, s: seq<byte>)
    ensures var r := ExtractElements(c, ty, n, s);
            r.Some? ==> AllReadable(c, ty, r.value.0)
    decreases ty, 3, n
  {
    if n > 0 {
      ReadIsReadable(c, ty, s);
      var r := Extract(c, ty, s);
      if r.Some? {
        ElementsReadable(c, ty, n - 1, r.value.1);
      }
    }
  }

  ghost predicate ReadableEntries(c: Settings, ty: Type, m: map<Value, Value>)
    requires ty.MapT?
    decreases ty, 2, 0
  {
    forall k | k in m :: Readable(c, ty.key, k) && Readable(c, ty.value, m[k])
  }

  lemma {:induction false} EntriesReadable(c: Settings, ty: Type, m: map<Value, Value>, n: nat, s: seq<byte>)
    requires ty.MapT? && ReadableEntries(c, ty, m)
    ensures var r := ExtractEntries(c, ty, m, n, s);
            r.Some? ==> ReadableEntries(c, ty, r.value.0) && |r.value.0| <= |m| + n
    decreases ty, 1, n
  {
    if n > 0 {
      ReadIsReadable(c, ty.key, s);
      var k := Extract(c, ty.key, s);
      if k.Some? {
        ReadIsReadable(c, ty.value, k.value.1);
        var v := Extract(c, ty.value, k.value.1);
        if v.Some? {
          EntriesReadable(c, ty, m[k.value.0 := v.value.0], n - 1, v.value.1);
        }
      }
    }
  }

  lemma {:induction false} FieldsReadable(c: Settings, ty: Type, version: byte, i: nat, s: seq<byte>)
    requires ty.StructureT? && i <= |ty.fields|
    ensures var r := ExtractFields(c, ty, version, i, s); r.Some? ==> ReadableFields(c, ty, version, i, r.value.0)
    decreases ty, 1, |ty.fields| - i
  {
    if i < |ty.fields| {
      if version < ty.fields[i].since {
        FieldsReadable(c, ty, version, i + 1, s);
      } else {
        ReadIsReadable(c, ty.fields[i].ty, s);
        var r := Extract(c, ty.fields[i].ty, s);
        if r.Some? {
          FieldsReadable(c, ty, version, i + 1, r.value.1);
          var more := ExtractFields(c, ty, version, i + 1, r.value.1);
          assert more.Some? ==> ([r.value.0] + more.value.0)[1..] == more.value.0;
        }
      }
    }
  }

  /** The keys of every map are distinct, as the keys of maps are, and no string has the one length that is read and not written. */
  ghost predicate Sane(c: Settings, t: Tree)
    decreases t
  {
    match t
    case NumberLeaf(_, _) => true
    case BoolLeaf(_) => true
    case StringLeaf(chars) => |chars| + 1 != Pow256(LengthWidth(c))
    case ListNode(elements) => forall i | 0 <= i < |elements| :: Sane(c, elements[i])
    case MapNode(entries) => DistinctKeys(entries) && forall i | 0 <= i < |entries| :: Sane(c, entries[i].key) && Sane(c, entries[i].value)
    case StructureNode(_, parts) => forall i | 0 <= i < |parts| :: Sane(c, parts[i].tree)
  }

  ghost predicate DistinctKeys(es: seq<Entry>) {
    forall i, j | 0 <= i < j < |es| :: Denote(es[i].key) != Denote(es[j].key)
  }

  /** Entries with distinct keys, none of them in `part`, are all in the map, and nothing else. */
  lemma {:induction false} EntriesDenoted(part: map<Value, Value>, es: seq<Entry>)
    requires DistinctKeys(es) && forall i | 0 <= i < |es| :: Denote(es[i].key) !in part
    ensures var m := DenoteEntries(part, es); |m| == |part| + |es| && AllFrom(es, m) && forall k | k in part :: k in m && m[k] == part[k]
    decreases es
  {
    if es != [] {
      var part', rest := DenoteEntry(part, es[0]), es[1..];
      forall i | 0 <= i < |rest|
        ensures Denote(rest[i].key) !in part'
      {
        assert rest[i] == es[i + 1];
      }
      assert DistinctKeys(rest) by {
        forall i, j | 0 <= i < j < |rest|
          ensures Denote(rest[i].key) != Denote(rest[j].key)
        {
          assert rest[i] == es[i + 1] && rest[j] == es[j + 1];
        }
      }
      EntriesDenoted(part', rest);
      var m := DenoteEntries(part, es);
      forall i | 0 <= i < |es|
        ensures Denote(es[i].key) in m && m[Denote(es[i].key)] == Denote(es[i].value)
      {
        assert i > 0 ==> es[i] == rest[i - 1];
        assert i == 0 ==> Denote(es[0].key) in part';
      }
    }
  }

  /** A value that does not fit is never read, from any bytes. */
  lemma {:induction false} UnfitIsUnreadable(c: Settings, ty: Type, t: Tree)
    requires Typed(ty, t) && Sane(c, t) && !Fits(c, t)
    ensures !Readable(c, ty, Denote(t))
    decreases t
  {
    match t
    case NumberLeaf(_, _) =>
    case StringLeaf(_) =>
    case ListNode(elements) =>
      if i :| 0 <= i < |elements| && !Fits(c, elements[i]) {
        UnfitIsUnreadable(c, ty.element, elements[i]);
        ElementDenoted(elements, i);
      }
    case MapNode(entries) =>
      EntriesDenoted(map[], entries);
      if i :| 0 <= i < |entries| && !(Fits(c, entries[i].key) && Fits(c, entries[i].value)) {
        UnfitEntry(c, ty, entries[i]);
      }
    case StructureNode(version, parts) =>
      if i :| 0 <= i < |parts| && version >= parts[i].since && !Fits(c, parts[i].tree) {
        UnfitParts(c, ty, version, parts, 0, i);
      }
  }

  lemma {:induction false} UnfitEntry(c: Settings, ty: Type, e: Entry)
    requires ty.MapT? && Typed(ty.key, e.key) && Typed(ty.value, e.value) && Sane(c, e.key) && Sane(c, e.value)
    requires !(Fits(c, e.key) && Fits(c, e.value))
    ensures !(Readable(c, ty.key, Denote(e.key)) && Readable(c, ty.value, Denote(e.value)))
    decreases e
  {
    if Fits(c, e.key) {
      UnfitIsUnreadable(c, ty.value, e.value);
    } else {
      UnfitIsUnreadable(c, ty.key, e.key);
    }
  }

  lemma {:induction false} ElementDenoted(ts: seq<Tree>, i: nat)
    requires i < |ts|
    ensures DenoteElements(ts)[i] == Denote(ts[i])
  {
    if i > 0 {
      ElementDenoted(ts[1..], i - 1);
    }
  }

  lemma {:induction false} UnfitParts(c: Settings, ty: Type, version: byte, ps: seq<Part>, i: nat, k: nat)
    requires Shaped(ty, i, ps) && forall j | 0 <= j < |ps| :: Sane(c, ps[j].tree)
    requires k < |ps| && version >= ps[k].since && !Fits(c, ps[k].tree)
    ensures !ReadableFields(c, ty, version, i, DenoteParts(version, ps))
    decreases ps
  {
    ShapedTail(ty, i, ps);
    if k == 0 {
      UnfitPart(c, ty.fields[i].ty, ps[0]);
    } else {
      assert ps[1..][k - 1] == ps[k];
      UnfitParts(c, ty, version, ps[1..], i + 1, k - 1);
      if version >= ps[0].since {
        assert DenoteParts(version, ps)[1..] == DenoteParts(version, ps[1..]);
      } else {
        assert DenotePart(version, ps[0]) + DenoteParts(version, ps[1..]) == DenoteParts(version, ps[1..]);
      }
    }
  }

  lemma {:induction false} UnfitPart(c: Settings, ty: Type, p: Part)
    requires Typed(ty, p.tree) && Sane(c, p.tree) && !Fits(c, p.tree)
    ensures !Readable(c, ty, Denote(p.tree))
    decreases p
  {
    UnfitIsUnreadable(c, ty, p.tree);
  }

  /** Values come back if and only if they fit. */
  lemma ValueRoundTripIff(c: Settings, ty: Type, t: Tree, rest: seq<byte>)
    requires Typed(ty, t) && (MapFree(t) || Sane(c, t))
    ensures Extract(c, ty, Write(c, t) + rest) == Some((Denote(t), rest)) <==> Fits(c, t)
  {
    if Fits(c, t) {
      ValueRoundTrip(c, ty, t, rest);
    } else if MapFree(t) {
      UnfitChanges(c, ty, t, rest);
    } else {
      UnfitIsUnreadable(c, ty, t);
      ReadIsReadable(c, ty, Write(c, t) + rest);
    }
  }

  // ---------- a structure of the library ----------

  /** Two station URLs in text form around a list of protocol numbers, and from version 1 on a time. */
  const CONNECTION_DATA: Type :=
    StructureT([Field(0, StringT), Field(0, ListT(NumberT(1))), Field(0, StringT), Field(1, NumberT(8))])

  function ByteLeaves(bs: seq<byte>): seq<Tree> {
    seq(|bs|, i requires 0 <= i < |bs| => NumberLeaf(1, bs[i]))
  }

  function ConnectionData(version: byte, url: seq<byte>, protocols: seq<byte>, specialUrl: seq<byte>, time: uint64): Tree {
    StructureNode(version, [Part(0, StringLeaf(url)), Part(0, ListNode(ByteLeaves(protocols))),
                            Part(0, StringLeaf(specialUrl)), Part(1, NumberLeaf(8, time))])
  }

  lemma ConnectionDataRoundTripIff(c: Settings, version: byte, url: seq<byte>, protocols: seq<byte>,
                                   specialUrl: seq<byte>, time: uint64, rest: seq<byte>)
    ensures var t := ConnectionData(version, url, protocols, specialUrl, time);
            Extract(c, CONNECTION_DATA, Write(c, t) + rest) == Some((Denote(t), rest)) <==>
            && (c.structureHeader || version == 0) && FitsString(c, url) && FitsString(c, specialUrl)
            && |protocols| < 0x1_0000_0000
  {
    var t := ConnectionData(version, url, protocols, specialUrl, time);
    ConnectionDataFits(c, version, url, protocols, specialUrl, time);
    ValueRoundTripIff(c, CONNECTION_DATA, t, rest);
  }

  lemma ConnectionDataFits(c: Settings, version: byte, url: seq<byte>, protocols: seq<byte>, specialUrl: seq<byte>, time: uint64)
    ensures var t := ConnectionData(version, url, protocols, specialUrl, time);
            && Typed(CONNECTION_DATA, t) && MapFree(t)
            && (Fits(c, t) <==> && (c.structureHeader || version == 0) && FitsString(c, url) && FitsString(c, specialUrl)
                                && |protocols| < 0x1_0000_0000)
  {
    Widths();
    var t := ConnectionData(version, url, protocols, specialUrl, time);
    var list := ListNode(ByteLeaves(protocols));
    assert Typed(ListT(NumberT(1)), list) && MapFree(list);
    assert Fits(c, list) <==> |protocols| < 0x1_0000_0000;
    assert Fits(c, StringLeaf(url)) <==> FitsString(c, url);
    assert Fits(c, StringLeaf(specialUrl)) <==> FitsString(c, specialUrl);
    assert Fits(c, NumberLeaf(8, time));
    assert t.parts[0].tree == StringLeaf(url) && t.parts[1].tree == list && t.parts[2].tree == StringLeaf(specialUrl);
  }

  // ---------- the codec on streams ----------

  method WriteStringTo(c: Settings, chars: seq<byte>, stream: ByteStreamOut)
    modifies stream
    ensures stream.data == old(stream.data) + WriteString(c, chars)
  {
    stream.WriteUIntLE(|chars| + 1, if c.wideStrings then 4 else 2);
    stream.Write(chars);
    stream.Write([0]);
  }

  method WriteTo(c: Settings, t: Tree, stream: ByteStreamOut)
    modifies stream
    ensures stream.data == old(stream.data) + Write(c, t)
    decreases t, 2
  {
    match t {
      case NumberLeaf(width, n) =>
        stream.WriteUIntLE(n, width);
      case BoolLeaf(b) =>
        stream.Write([if b then 1 else 0]);
      case StringLeaf(chars) =>
        WriteStringTo(c, chars, stream);
      case ListNode(_) =>
        WriteListTo(c, t, stream);
      case MapNode(_) =>
        WriteMapTo(c, t, stream);
      case StructureNode(_, _) =>
        WriteStructureTo(c, t, stream);
    }
  }

  method WriteListTo(c: Settings, t: Tree, stream: ByteStreamOut)
    requires t.ListNode?
    modifies stream
    ensures stream.data == old(stream.data) + (LE(|t.elements|, WORD) + WriteElements(c, t.elements))
    decreases t, 1
  {
    stream.WriteUIntLE(|t.elements|, WORD);
    WriteElementsTo(c, t, stream);
    Regroup(old(stream.data), LE(|t.elements|, WORD), WriteElements(c, t.elements));
  }

  method WriteMapTo(c: Settings, t: Tree, stream: ByteStreamOut)
    requires t.MapNode?
    modifies stream
    ensures stream.data == old(stream.data) + (LE(|t.entries|, WORD) + WriteEntries(c, t.entries))
    decreases t, 1
  {
    stream.WriteUIntLE(|t.entries|, WORD);
    WriteEntriesTo(c, t, stream);
    Regroup(old(stream.data), LE(|t.entries|, WORD), WriteEntries(c, t.entries));
  }

  method WriteStructureTo(c: Settings, t: Tree, stream: ByteStreamOut)
    requires t.StructureNode?
    modifies stream
    ensures var content := WriteParts(c, t.version, t.parts);
            stream.data == old(stream.data) + (Header(c, t.version, |content|) + content)
    decreases t, 1
  {
    var content := new ByteStreamOut();
    WritePartsTo(c, t, content);
    WriteHeaderTo(c, t.version, |content.data|, stream);
    stream.Write(content.data);
    Regroup(old(stream.data), Header(c, t.version, |content.data|), content.data);
  }

  method WriteHeaderTo(c: Settings, version: byte, length: nat, stream: ByteStreamOut)
    modifies stream
    ensures stream.data == old(stream.data) + Header(c, version, length)
  {
    if c.structureHeader {
      stream.Write([version]);
      stream.WriteUIntLE(length, WORD);
    }
  }

  lemma {:induction false} ElementsAppend(c: Settings, ts: seq<Tree>, t: Tree)
    ensures WriteElements(c, ts + [t]) == WriteElements(c, ts) + Write(c, t)
  {
    if ts == [] {
      assert (ts + [t])[1..] == [];
    } else {
      assert (ts + [t])[1..] == ts[1..] + [t];
      ElementsAppend(c, ts[1..], t);
    }
  }

  lemma {:induction false} EntriesAppend(c: Settings, es: seq<Entry>, e: Entry)
    ensures WriteEntries(c, es + [e]) == WriteEntries(c, es) + WriteEntry(c, e)
  {
    if es == [] {
      assert (es + [e])[1..] == [];
    } else {
      assert (es + [e])[1..] == es[1..] + [e];
      EntriesAppend(c, es[1..], e);
    }
  }

  lemma {:induction false} PartsAppend(c: Settings, version: byte, ps: seq<Part>, p: Part)
    ensures WriteParts(c, version, ps + [p]) == WriteParts(c, version, ps) + WritePart(c, version, p)
  {
    if ps == [] {
      assert (ps + [p])[1..] == [];
    } else {
      assert (ps + [p])[1..] == ps[1..] + [p];
      PartsAppend(c, version, ps[1..], p);
    }
  }

  method WriteElementsTo(c: Settings, t: Tree, stream: ByteStreamOut)
    requires t.ListNode?
    modifies stream
    ensures stream.data == old(stream.data) + WriteElements(c, t.elements)
    decreases t, 0
  {
    for i := 0 to |t.elements|
      invariant stream.data == old(stream.data) + WriteElements(c, t.elements[..i])
    {
      ElementsAppend(c, t.elements[..i], t.elements[i]);
      assert t.elements[..i + 1] == t.elements[..i] + [t.elements[i]];
      WriteTo(c, t.elements[i], stream);
    }
    assert t.elements[..|t.elements|] == t.elements;
  }

  method WriteEntriesTo(c: Settings, t: Tree, stream: ByteStreamOut)
    requires t.MapNode?
    modifies stream
    ensures stream.data == old(stream.data) + WriteEntries(c, t.entries)
    decreases t, 0
  {
    for i := 0 to |t.entries|
      invariant stream.data == old(stream.data) + WriteEntries(c, t.entries[..i])
    {
      EntriesAppend(c, t.entries[..i], t.entries[i]);
      assert t.entries[..i + 1] == t.entries[..i] + [t.entries[i]];
      WriteEntryTo(c, t.entries[i], stream);
    }
    assert t.entries[..|t.entries|] == t.entries;
  }

  method WriteEntryTo(c: Settings, e: Entry, stream: ByteStreamOut)
    modifies stream
    ensures stream.data == old(stream.data) + WriteEntry(c, e)
    decreases e
  {
    WriteTo(c, e.key, stream);
    WriteTo(c, e.value, stream);
  }

  method WritePartsTo(c: Settings, t: Tree, stream: ByteStreamOut)
    requires t.StructureNode?
    modifies stream
    ensures stream.data == old(stream.data) + WriteParts(c, t.version, t.parts)
    decreases t, 0
  {
    for i := 0 to |t.parts|
      invariant stream.data == old(stream.data) + WriteParts(c, t.version, t.parts[..i])
    {
      PartsAppend(c, t.version, t.parts[..i], t.parts[i]);
      assert t.parts[..i + 1] == t.parts[..i] + [t.parts[i]];
      WritePartTo(c, t.version, t.parts[i], stream);
    }
    assert t.parts[..|t.parts|] == t.parts;
  }

  method WritePartTo(c: Settings, version: byte, p: Part, stream: ByteStreamOut)
    modifies stream
    ensures stream.data == old(stream.data) + WritePart(c, version, p)
    decreases p
  {
    if version >= p.since {
      WriteTo(c, p.tree, stream);
    }
  }

  method ExtractStringFrom(c: Settings, stream: ByteStreamIn) returns (r: Option<seq<byte>>)
    requires stream.Valid()
    modifies stream`offset
    ensures stream.Valid()
    ensures ExtractString(c, old(stream.Rest())) == if r.None? then None else Some((r.value, stream.Rest()))
  {
    var length := stream.ReadUIntLE(if c.wideStrings then 4 else 2);
    if length.None? {
      return None;
    }
    var data := stream.Read(length.value);
    r := if data.None? then None else Some(TrimRight(data.value));
  }

  method ExtractHeaderFrom(c: Settings, stream: ByteStreamIn) returns (r: Option<byte>)
    requires stream.Valid()
    modifies stream`offset
    ensures stream.Valid()
    ensures ExtractHeader(c, old(stream.Rest())) == if r.None? then None else Some((r.value, stream.Rest()))
  {
    Widths();
    if !c.structureHeader {
      return Some(0);
    }
    var version := stream.ReadUIntLE(1);
    if version.None? {
      return None;
    }
    var length := stream.ReadUIntLE(WORD);
    if length.None? {
      return None;
    }
    var remaining := stream.Remaining();
    r := if remaining < length.value then None else Some(version.value);
  }

  method ExtractFrom(c: Settings, ty: Type, stream: ByteStreamIn) returns (r: Option<Value>)
    requires stream.Valid()
    modifies stream`offset
    ensures stream.Valid()
    ensures Extract(c, ty, old(stream.Rest())) == if r.None? then None else Some((r.value, stream.Rest()))
    decreases ty, 1
  {
    match ty {
      case NumberT(width) =>
        var n := stream.ReadUIntLE(width);
        r := if n.None? then None else Some(Number(n.value));
      case BoolT =>
        var n := stream.ReadUIntLE(1);
        r := if n.None? then None else Some(Bool(n.value == 1));
      case StringT =>
        var chars := ExtractStringFrom(c, stream);
        r := if chars.None? then None else Some(String(chars.value));
      case ListT(_) =>
        r := ExtractListFrom(c, ty, stream);
      case MapT(_, _) =>
        r := ExtractMapFrom(c, ty, stream);
      case StructureT(_) =>
        r := ExtractStructureFrom(c, ty, stream);
    }
  }

  /** What is read when `done` was read before. */
  ghost function After(done: seq<Value>, r: Option<(seq<Value>, seq<byte>)>): Option<(seq<Value>, seq<byte>)> {
    if r.None? then None else Some((done + r.value.0, r.value.1))
  }

  lemma ElementsStep(c: Settings, ty: Type, done: seq<Value>, n: nat, s: seq<byte>)
    requires n > 0
    ensures After(done, ExtractElements(c, ty, n, s)) ==
            if Extract(c, ty, s).None? then None
            else After(done + [Extract(c, ty, s).value.0], ExtractElements(c, ty, n - 1, Extract(c, ty, s).value.1))
  {
    var r := Extract(c, ty, s);
    if r.Some? {
      var more := ExtractElements(c, ty, n - 1, r.value.1);
      assert more.Some? ==> done + ([r.value.0] + more.value.0) == done + [r.value.0] + more.value.0;
    }
  }

  method ExtractListFrom(c: Settings, ty: Type, stream: ByteStreamIn) returns (r: Option<Value>)
    requires stream.Valid() && ty.ListT?
    modifies stream`offset
    ensures stream.Valid()
    ensures ExtractList(c, ty, old(stream.Rest())) == if r.None? then None else Some((r.value, stream.Rest()))
    decreases ty, 0
  {
    var length := stream.ReadUIntLE(WORD);
    if length.None? {
      return None;
    }
    ghost var all := ExtractElements(c, ty.element, length.value, stream.Rest());
    var slice: seq<Value> := [];
    assert all.Some? ==> slice + all.value.0 == all.value.0;
    for i := 0 to length.value
      invariant stream.Valid()
      invariant all == After(slice, ExtractElements(c, ty.element, length.value - i, stream.Rest()))
    {
      ElementsStep(c, ty.element, slice, length.value - i, stream.Rest());
      var v := ExtractFrom(c, ty.element, stream);
      if v.None? {
        return None;
      }
      slice := slice + [v.value];
    }
    assert slice + [] == slice;
    r := Some(List(slice));
  }

  method ExtractMapFrom(c: Settings, ty: Type, stream: ByteStreamIn) returns (r: Option<Value>)
    requires stream.Valid() && ty.MapT?
    modifies stream`offset
    ensures stream.Valid()
    ensures ExtractMap(c, ty, old(stream.Rest())) == if r.None? then None else Some((r.value, stream.Rest()))
    decreases ty, 0
  {
    var length := stream.ReadUIntLE(WORD);
    if length.None? {
      return None;
    }
    ghost var all := ExtractEntries(c, ty, map[], length.value, stream.Rest());
    var extracted: map<Value, Value> := map[];
    for i := 0 to length.value
      invariant stream.Valid()
      invariant all == ExtractEntries(c, ty, extracted, length.value - i, stream.Rest())
    {
      var key := ExtractFrom(c, ty.key, stream);
      if key.None? {
        return None;
      }
      var value := ExtractFrom(c, ty.value, stream);
      if value.None? {
        return None;
      }
      extracted := extracted[key.value := value.value];
    }
    r := Some(Map(extracted));
  }

  lemma FieldsStep(c: Settings, ty: Type, version: byte, done: seq<Value>, i: nat, s: seq<byte>)
    requires ty.StructureT? && i < |ty.fields| && version >= ty.fields[i].since
    ensures var r := Extract(c, ty.fields[i].ty, s);
            After(done, ExtractFields(c, ty, version, i, s)) ==
            if r.None? then None else After(done + [r.value.0], ExtractFields(c, ty, version, i + 1, r.value.1))
  {
    var r := Extract(c, ty.fields[i].ty, s);
    if r.Some? {
      var more := ExtractFields(c, ty, version, i + 1, r.value.1);
      assert more.Some? ==> done + ([r.value.0] + more.value.0) == done + [r.value.0] + more.value.0;
    }
  }

  method ExtractStructureFrom(c: Settings, ty: Type, stream: ByteStreamIn) returns (r: Option<Value>)
    requires stream.Valid() && ty.StructureT?
    modifies stream`offset
    ensures stream.Valid()
    ensures ExtractStructure(c, ty, old(stream.Rest())) == if r.None? then None else Some((r.value, stream.Rest()))
    decreases ty, 0
  {
    var version := ExtractHeaderFrom(c, stream);
    if version.None? {
      return None;
    }
    ghost var all := ExtractFields(c, ty, version.value, 0, stream.Rest());
    var values: seq<Value> := [];
    assert all.Some? ==> values + all.value.0 == all.value.0;
    for i := 0 to |ty.fields|
      invariant stream.Valid()
      invariant all == After(values, ExtractFields(c, ty, version.value, i, stream.Rest()))
    {
      if version.value >= ty.fields[i].since {
        FieldsStep(c, ty, version.value, values, i, stream.Rest());
        var v := ExtractFrom(c, ty.fields[i].ty, stream);
        if v.None? {
          return None;
        }
        values := values + [v.value];
      }
    }
    assert values + [] == values;
    r := Some(Structure(version.value, values));
  }
}
