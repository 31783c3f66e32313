/** Station URLs: a scheme, standard parameters and custom parameters, as text and as maps. */
module StationUrl {
  import opened Text
  import opened Wrappers

  datatype Kind = Unknown | Prudp | Prudps | Udp

  datatype Station = Station(kind: Kind, url: string, flags: nat, standard: map<string, string>, custom: map<string, string>)

  type Pair = (string, string)

  const LONGEST_URL := 1024
  const LONGEST_ADDRESS := 256

  function FromText(url: string): Station {
    Station(Unknown, url, 0, map[], map[])
  }

  function SchemeName(kind: Kind): string {
    match kind
    case Unknown => ""
    case Prudp => "prudp"
    case Prudps => "prudps"
    case Udp => "udp"
  }

  function KindNamed(scheme: string): Kind {
    if scheme == "prudp" then Prudp else if scheme == "prudps" then Prudps else if scheme == "udp" then Udp else Unknown
  }

  /** Parameters that neither the parser nor the formatter lets through. */
  predicate Refused(key: string, value: string) {
    || (key == "address" && |value| > LONGEST_ADDRESS)
    || (key == "port" && (ParseInt(value).None? || ParseInt(value).value < 0 || ParseInt(value).value > 65535))
  }

  /** The flags that a `type` parameter gives. */
  function TypeOf(params: map<string, string>): Option<nat> {
    if "type" !in params then None
    else
      var n :- ParseNat(params["type"]);
      if n < 256 then Some(n) else None
  }

  /** Addresses have up to 256 characters, port numbers go up to 65535, types up to 255. */
  lemma Limits(address: string, n: nat)
    ensures Refused("address", address) <==> |address| > 256
    ensures Refused("port", Decimal(n)) <==> n > 65535
    ensures Refused("port", "-" + Decimal(n)) <==> n > 0
    ensures TypeOf(map["type" := Decimal(n)]) == if n <= 255 then Some(n) else None
    ensures !Refused("type", address) && !Refused("CID", address)
  {
    DecimalIsUnsigned(n);
    DecimalRoundTrip(n);
    assert ("-" + Decimal(n))[1..] == Decimal(n);
  }

  // ---------- parsing ----------

  /** Where the first ":/" is, or the length where there is none. */
  function MarkAt(s: string): (i: nat)
    ensures i == |s| || i + 1 < |s|
  {
    if s == [] then 0
    else if |s| > 1 && s[0] == ':' && s[1] == '/' then 0
    else 1 + MarkAt(s[1..])
  }

  /** The parameters up to the first that is refused, and whether there was none. */
  function SetStandard(m: map<string, string>, fields: seq<string>): (map<string, string>, bool)
    decreases fields
  {
    if fields == [] then (m, true)
    else
      var (key, value) := Cut(fields[0], '=');
      if Refused(key, value) then (m, false) else SetStandard(m[key := value], fields[1..])
  }

  function SetCustom(m: map<string, string>, fields: seq<string>): map<string, string>
    decreases fields
  {
    if fields == [] then m
    else
      var (key, value) := Cut(fields[0], '=');
      SetCustom(m[key := value], fields[1..])
  }

  function ParseParameters(u: Station, s: string): Station {
    if s == "" then u
    else
      var (standard, custom) := Cut(s, '#');
      var (m, ok) := SetStandard(u.standard, Split(standard, ';'));
      if !ok then u.(standard := m)
      else
        u.(standard := m,
           custom := if custom == "" then u.custom else SetCustom(u.custom, Split(custom, ';')),
           flags := if TypeOf(m).Some? then TypeOf(m).value else u.flags)
  }

  function Parse(u: Station): Station {
    var i := MarkAt(u.url);
    if u.url == "" || |u.url| > LONGEST_URL || i == |u.url| || KindNamed(u.url[..i]).Unknown? then u
    else ParseParameters(u.(kind := KindNamed(u.url[..i])), u.url[i + 2..])
  }

  // ---------- formatting ----------

  function Fields(ps: seq<Pair>): (fields: seq<string>)
    ensures |fields| == |ps| && forall i | 0 <= i < |ps| :: fields[i] == ps[i].0 + "=" + ps[i].1
  {
    if ps == [] then [] else [ps[0].0 + "=" + ps[0].1] + Fields(ps[1..])
  }

  /** The text after the scheme, the parameters being iterated in the order of the lists. */
  function ParameterText(standard: seq<Pair>, custom: seq<Pair>): string {
    Join(Fields(standard), ';') + (if custom == [] then "" else "#" + Join(Fields(custom), ';'))
  }

  function TextOf(kind: Kind, standard: seq<Pair>, custom: seq<Pair>): string {
    (if kind.Unknown? then "" else SchemeName(kind) + ":/") + ParameterText(standard, custom)
  }

  predicate NoneRefused(ps: seq<Pair>) {
    forall i | 0 <= i < |ps| :: !Refused(ps[i].0, ps[i].1)
  }

  /** The text of a station, or None where the formatter gives up. */
  function TryFormat(kind: Kind, standard: seq<Pair>, custom: seq<Pair>): Option<string> {
    var text := TextOf(kind, standard, custom);
    if !NoneRefused(standard) || |text| > LONGEST_URL then None else Some(text)
  }

  /** A station that cannot be formatted keeps the text it had. */
  function Formatted(u: Station, standard: seq<Pair>, custom: seq<Pair>): Station {
    var text := TryFormat(u.kind, standard, custom);
    if text.None? then u else u.(url := text.value)
  }

  ghost predicate Meets(ps: seq<Pair>, key: string) {
    exists i | 0 <= i < |ps| :: ps[i].0 == key
  }

  ghost predicate AllFrom(ps: seq<Pair>, m: map<string, string>) {
    forall i | 0 <= i < |ps| :: ps[i].0 in m && m[ps[i].0] == ps[i].1
  }

  /** The list meets every parameter of the map exactly once. */
  ghost predicate Iterates(ps: seq<Pair>, m: map<string, string>) {
    && (forall i, j | 0 <= i < j < |ps| :: ps[i].0 != ps[j].0)
    && AllFrom(ps, m) && (forall k | k in m :: Meets(ps, k))
  }

  /** A text of 1024 characters is the longest that is read or written. */
  lemma LongestText(text: string, kind: Kind, standard: seq<Pair>, custom: seq<Pair>)
    ensures |text| > 1024 ==> Parse(FromText(text)) == FromText(text)
    ensures |text| <= 1024 && "udp:/" <= text ==> Parse(FromText(text)).kind == Udp
    ensures NoneRefused(standard) ==> (TryFormat(kind, standard, custom).Some? <==> |TextOf(kind, standard, custom)| <= 1024)
  {
    if |text| <= 1024 && "udp:/" <= text {
      assert MarkAt(text[3..]) == 0;
      assert text[1..][1..][1..] == text[3..];
      assert MarkAt(text[1..][1..]) == 1 && MarkAt(text[1..]) == 2 && MarkAt(text) == 3;
      assert text[..3] == "udp";
    }
  }

  /** Stations as they are written: the scheme, standard parameters between semicolons, and custom ones after a hash sign. */
  lemma TextLayout(p: Pair, q: Pair, r: Pair)
    ensures TextOf(Prudps, [p, q], [r]) == "prudps:/" + ((p.0 + "=" + p.1) + ";" + (q.0 + "=" + q.1) + ("#" + (r.0 + "=" + r.1)))
    ensures TextOf(Prudp, [p], [q, r]) == "prudp:/" + ((p.0 + "=" + p.1) + ("#" + ((q.0 + "=" + q.1) + ";" + (r.0 + "=" + r.1))))
    ensures TextOf(Udp, [p], []) == "udp:/" + (p.0 + "=" + p.1)
    ensures TextOf(Unknown, [p], []) == p.0 + "=" + p.1
  {
    FieldsOfTwo(p, q);
    FieldsOfTwo(q, r);
    FieldsOfTwo(r, r);
    assert Join(Fields([p]), ';') + "" == p.0 + "=" + p.1;
    assert "prudps" + ":/" == "prudps:/" && "prudp" + ":/" == "prudp:/" && "udp" + ":/" == "udp:/";
  }

  lemma FieldsOfTwo(p: Pair, q: Pair)
    ensures Join(Fields([p]), ';') == p.0 + "=" + p.1
    ensures Join(Fields([p, q]), ';') == (p.0 + "=" + p.1) + ";" + (q.0 + "=" + q.1)
  {
    assert Fields([p]) == [p.0 + "=" + p.1];
    assert Fields([p, q]) == [p.0 + "=" + p.1, q.0 + "=" + q.1];
    JoinTwo(p.0 + "=" + p.1, q.0 + "=" + q.1, ';');
  }

  lemma JoinTwo(a: string, b: string, c: char)
    ensures Join([a, b], c) == a + [c] + b
  {
    assert [a, b][1..] == [b];
  }

  // ---------- what can be told apart again ----------

  ghost predicate Free(s: string, banned: set<char>) {
    forall i | 0 <= i < |s| :: s[i] !in banned
  }

  /** No key has an equals sign; neither keys nor values have a banned character. */
  ghost predicate Clean(m: map<string, string>, banned: set<char>) {
    forall k | k in m :: '=' !in k && Free(k, banned) && Free(m[k], banned)
  }

  const STANDARD_BANNED: set<char> := {';', '#'}
  const CUSTOM_BANNED: set<char> := {';'}

  ghost predicate Separable(u: Station) {
    && Clean(u.standard, STANDARD_BANNED) && Clean(u.custom, CUSTOM_BANNED)
    && (u.kind.Unknown? ==> u.standard == map[] && u.custom == map[])
    && (u.custom != map[] ==> u.standard != map[])
    && u.flags == (if TypeOf(u.standard).Some? then TypeOf(u.standard).value else 0)
  }

  // ---------- whatever is parsed is separable ----------

  lemma CutIsClean(s: string, banned: set<char>)
    requires Free(s, banned)
    ensures var (key, value) := Cut(s, '='); '=' !in key && Free(key, banned) && Free(value, banned)
  {
  }

  lemma {:induction false} SetStandardClean(m: map<string, string>, fields: seq<string>, banned: set<char>)
    requires Clean(m, banned) && forall i | 0 <= i < |fields| :: Free(fields[i], banned)
    ensures Clean(SetStandard(m, fields).0, banned)
    decreases fields
  {
    if fields != [] {
      var (key, value) := Cut(fields[0], '=');
      CutIsClean(fields[0], banned);
      if !Refused(key, value) {
        SetStandardClean(m[key := value], fields[1..], banned);
      }
    }
  }

  lemma {:induction false} SetCustomClean(m: map<string, string>, fields: seq<string>, banned: set<char>)
    requires Clean(m, banned) && forall i | 0 <= i < |fields| :: Free(fields[i], banned)
    ensures Clean(SetCustom(m, fields), banned)
    decreases fields
  {
    if fields != [] {
      var (key, value) := Cut(fields[0], '=');
      CutIsClean(fields[0], banned);
      SetCustomClean(m[key := value], fields[1..], banned);
    }
  }

  lemma SplitFree(s: string, d: char)
    requires d !in s
    ensures forall i | 0 <= i < |Split(s, ';')| :: Free(Split(s, ';')[i], {';', d})
  {
    SplitParts(s, ';', d);
  }

  lemma ParametersClean(u: Station, s: string)
    requires Clean(u.standard, STANDARD_BANNED) && Clean(u.custom, CUSTOM_BANNED)
    ensures var r := ParseParameters(u, s); Clean(r.standard, STANDARD_BANNED) && Clean(r.custom, CUSTOM_BANNED)
  {
    if s != "" {
      var (standard, custom) := Cut(s, '#');
      SplitFree(standard, '#');
      SetStandardClean(u.standard, Split(standard, ';'), STANDARD_BANNED);
      SplitParts(custom, ';', ';');
      SetCustomClean(u.custom, Split(custom, ';'), CUSTOM_BANNED);
    }
  }

  lemma ParsedClean(text: string)
    ensures var r := Parse(FromText(text)); Clean(r.standard, STANDARD_BANNED) && Clean(r.custom, CUSTOM_BANNED)
  {
    var u, i := FromText(text), MarkAt(text);
    if i < |text| {
      ParametersClean(u.(kind := KindNamed(text[..i])), text[i + 2..]);
    }
  }

  // ---------- the round trip ----------

  function Insert(m: map<string, string>, ps: seq<Pair>): map<string, string>
    decreases ps
  {
    if ps == [] then m else Insert(m[ps[0].0 := ps[0].1], ps[1..])
  }

  lemma {:induction false} InsertCompletes(part: map<string, string>, ps: seq<Pair>, m: map<string, string>)
    requires forall k | k in part :: k in m && m[k] == part[k]
    requires AllFrom(ps, m) && forall k | k in m :: k in part || Meets(ps, k)
    ensures Insert(part, ps) == m
    decreases ps
  {
    if ps == [] {
      assert part.Keys == m.Keys;
    } else {
      var part' := part[ps[0].0 := ps[0].1];
      forall k | k in m
        ensures k in part' || Meets(ps[1..], k)
      {
        if k !in part {
          var i :| 0 <= i < |ps| && ps[i].0 == k;
          assert i > 0 ==> ps[1..][i - 1] == ps[i];
        }
      }
      InsertCompletes(part', ps[1..], m);
    }
  }

  ghost predicate KeysCut(ps: seq<Pair>) {
    forall i | 0 <= i < |ps| :: '=' !in ps[i].0
  }

  lemma {:induction false} StandardRead(m: map<string, string>, ps: seq<Pair>)
    requires KeysCut(ps) && NoneRefused(ps)
    ensures SetStandard(m, Fields(ps)) == (Insert(m, ps), true)
    decreases ps
  {
    if ps != [] {
      CutAtSeparator(ps[0].0, '=', ps[0].1);
      assert Fields(ps)[1..] == Fields(ps[1..]);
      StandardRead(m[ps[0].0 := ps[0].1], ps[1..]);
    }
  }

  lemma {:induction false} CustomRead(m: map<string, string>, ps: seq<Pair>)
    requires KeysCut(ps)
    ensures SetCustom(m, Fields(ps)) == Insert(m, ps)
    decreases ps
  {
    if ps != [] {
      CutAtSeparator(ps[0].0, '=', ps[0].1);
      assert Fields(ps)[1..] == Fields(ps[1..]);
      CustomRead(m[ps[0].0 := ps[0].1], ps[1..]);
    }
  }

  /** The fields of a clean map have no banned character. */
  lemma FieldsFree(ps: seq<Pair>, m: map<string, string>, banned: set<char>)
    requires AllFrom(ps, m) && Clean(m, banned) && '=' !in banned
    ensures KeysCut(ps) && forall i | 0 <= i < |ps| :: Free(Fields(ps)[i], banned)
  {
    forall i | 0 <= i < |ps|
      ensures Free(Fields(ps)[i], banned)
    {
      assert Fields(ps)[i] == ps[i].0 + "=" + ps[i].1;
      assert Free(ps[i].0, banned) && Free(m[ps[i].0], banned);
    }
  }

  lemma SplitFields(ps: seq<Pair>, m: map<string, string>, banned: set<char>)
    requires ps != [] && AllFrom(ps, m) && Clean(m, banned) && ';' in banned && '=' !in banned
    ensures KeysCut(ps) && Split(Join(Fields(ps), ';'), ';') == Fields(ps)
  {
    FieldsFree(ps, m, banned);
    SplitUndoesJoin(Fields(ps), ';');
  }

  /** The first '#' of the text stands between the two sections. */
  lemma SectionsCut(standard: seq<Pair>, custom: seq<Pair>, m: map<string, string>)
    requires AllFrom(standard, m) && Clean(m, STANDARD_BANNED)
    ensures Cut(ParameterText(standard, custom), '#') ==
            (Join(Fields(standard), ';'), if custom == [] then "" else Join(Fields(custom), ';'))
  {
    FieldsFree(standard, m, STANDARD_BANNED);
    JoinCharacters(Fields(standard), ';', '#');
    var left := Join(Fields(standard), ';');
    if custom == [] {
      assert left + "" == left;
      IndexOfNone(left, '#');
    } else {
      var right := Join(Fields(custom), ';');
      assert left + ("#" + right) == left + ['#'] + right;
      CutAtSeparator(left, '#', right);
    }
  }

  lemma FieldsNotEmpty(ps: seq<Pair>)
    requires ps != []
    ensures Join(Fields(ps), ';') != ""
  {
    assert Fields(ps)[0] == ps[0].0 + "=" + ps[0].1;
  }

  ghost predicate Orders(u: Station, standard: seq<Pair>, custom: seq<Pair>) {
    Iterates(standard, u.standard) && Iterates(custom, u.custom)
  }

  lemma OrderOfEmpty(ps: seq<Pair>, m: map<string, string>)
    requires Iterates(ps, m)
    ensures ps == [] <==> m == map[]
  {
    if ps == [] {
      assert forall k | k in m :: Meets(ps, k);
      assert m.Keys == {};
    } else {
      assert ps[0].0 in m;
    }
  }

  lemma SectionsRead(u: Station, standard: seq<Pair>, custom: seq<Pair>)
    requires Orders(u, standard, custom) && NoneRefused(standard)
    requires Clean(u.standard, STANDARD_BANNED) && Clean(u.custom, CUSTOM_BANNED)
    ensures standard != [] ==> SetStandard(map[], Split(Join(Fields(standard), ';'), ';')) == (u.standard, true)
    ensures custom != [] ==> SetCustom(map[], Split(Join(Fields(custom), ';'), ';')) == u.custom
  {
    if standard != [] {
      SplitFields(standard, u.standard, STANDARD_BANNED);
      StandardRead(map[], standard);
      InsertCompletes(map[], standard, u.standard);
    }
    if custom != [] {
      SplitFields(custom, u.custom, CUSTOM_BANNED);
      CustomRead(map[], custom);
      InsertCompletes(map[], custom, u.custom);
    }
  }

  lemma ParametersRead(u: Station, standard: seq<Pair>, custom: seq<Pair>, url: string)
    requires Orders(u, standard, custom) && Separable(u) && NoneRefused(standard)
    ensures ParseParameters(Station(u.kind, url, 0, map[], map[]), ParameterText(standard, custom)) == u.(url := url)
  {
    OrderOfEmpty(standard, u.standard);
    OrderOfEmpty(custom, u.custom);
    if standard != [] {
      FieldsNotEmpty(standard);
      SectionsCut(standard, custom, u.standard);
      SectionsRead(u, standard, custom);
      if custom != [] {
        FieldsNotEmpty(custom);
      }
    }
  }

  lemma {:induction false} MarkAfter(a: string, b: string)
    requires ':' !in a
    ensures MarkAt(a + ":/" + b) == |a|
  {
    var s := a + ":/" + b;
    if a == [] {
      assert s[0] == ':' && s[1] == '/';
    } else {
      assert s[0] == a[0] && s[1..] == a[1..] + ":/" + b;
      MarkAfter(a[1..], b);
    }
  }

  lemma SchemeRead(kind: Kind, rest: string)
    requires !kind.Unknown?
    ensures var s := SchemeName(kind) + ":/" + rest;
            var i := MarkAt(s);
            i + 2 <= |s| && KindNamed(s[..i]) == kind && s[i + 2..] == rest && s != ""
  {
    var name := SchemeName(kind);
    MarkAfter(name, rest);
    var s := name + ":/" + rest;
    assert s[..|name|] == name && s[|name| + 2..] == rest;
  }

  /** Whatever order the parameters are written in, a separable station is parsed back as it was. */
  lemma SeparableRoundTrip(u: Station, standard: seq<Pair>, custom: seq<Pair>)
    requires Orders(u, standard, custom) && Separable(u)
    ensures var text := TryFormat(u.kind, standard, custom);
            text.Some? ==> Parse(FromText(text.value)) == u.(url := text.value)
  {
    var text := TextOf(u.kind, standard, custom);
    if NoneRefused(standard) && |text| <= LONGEST_URL {
      if u.kind.Unknown? {
        OrderOfEmpty(standard, u.standard);
        OrderOfEmpty(custom, u.custom);
      } else {
        SchemeRead(u.kind, ParameterText(standard, custom));
        ParametersRead(u, standard, custom, text);
      }
    }
  }

  lemma ParsedKind(text: string)
    ensures var r := Parse(FromText(text)); r.kind.Unknown? ==> r == FromText(text)
  {
  }

  lemma StandardKept(m: map<string, string>, fields: seq<string>)
    requires fields != [] && SetStandard(m, fields).1
    ensures SetStandard(m, fields).0 != map[]
  {
    var (key, value) := Cut(fields[0], '=');
    KeysKept(m[key := value], fields[1..], key);
  }

  lemma {:induction false} KeysKept(m: map<string, string>, fields: seq<string>, key: string)
    requires key in m
    ensures key in SetStandard(m, fields).0
    decreases fields
  {
    if fields != [] {
      var (k, value) := Cut(fields[0], '=');
      if !Refused(k, value) {
        KeysKept(m[k := value], fields[1..], key);
      }
    }
  }

  lemma ParsedCustom(text: string)
    ensures var r := Parse(FromText(text)); r.custom != map[] ==> r.standard != map[]
  {
    var u, i := FromText(text), MarkAt(text);
    if i < |text| {
      var (standard, _) := Cut(text[i + 2..], '#');
      if SetStandard(map[], Split(standard, ';')).1 {
        StandardKept(map[], Split(standard, ';'));
      }
    }
  }

  /**
   For every order in which the parameters can be iterated, a station that can be formatted is
   parsed back as it was if and only if it is separable.
   */
  lemma RoundTripIff(u: Station, standard: seq<Pair>, custom: seq<Pair>)
    requires Orders(u, standard, custom) && TryFormat(u.kind, standard, custom).Some?
    ensures var text := TryFormat(u.kind, standard, custom).value;
            Parse(FromText(text)) == u.(url := text) <==> Separable(u)
  {
    var text := TryFormat(u.kind, standard, custom).value;
    if Separable(u) {
      SeparableRoundTrip(u, standard, custom);
    } else if Parse(FromText(text)) == u.(url := text) {
      ParsedClean(text);
      ParsedKind(text);
      ParsedCustom(text);
      var u' := u.(flags := if TypeOf(u.standard).Some? then TypeOf(u.standard).value else 0);
      SeparableRoundTrip(u', standard, custom);
    }
  }

  const CUSTOM_ONLY := Station(Prudp, "", 0, map[], map["a" := "b"])

  lemma CustomOnlyText()
    ensures Orders(CUSTOM_ONLY, [], [("a", "b")])
    ensures |TextOf(Prudp, [], [("a", "b")])| == |"prudp"| + |":/"| + 1 + |"a"| + 1 + |"b"|
  {
    var custom := [("a", "b")];
    assert custom[0].0 == "a";
    assert Meets(custom, "a");
    assert Fields(custom) == [custom[0].0 + "=" + custom[0].1];
    assert Join(Fields(custom), ';') == "a" + "=" + "b";
    var none: seq<Pair> := [];
    assert Fields(none) == [] && Join(Fields(none), ';') == "";
  }

  /** Custom parameters alone do not come back as they were: an empty standard parameter appears beside them. */
  lemma CustomAloneChanges()
    ensures var text := TryFormat(Prudp, [], [("a", "b")]);
            text.Some? && Parse(FromText(text.value)) != CUSTOM_ONLY.(url := text.value)
  {
    CustomOnlyText();
    RoundTripIff(CUSTOM_ONLY, [], [("a", "b")]);
  }

  // ---------- the relay's rewrite ----------

  function WithAddress(u: Station, host: string, port: nat): Station {
    u.(standard := u.standard["address" := host]["port" := Decimal(port)])
  }

  ghost predicate RefusesNone(m: map<string, string>) {
    forall k | k in m :: !Refused(k, m[k])
  }

  lemma {:induction false} SetStandardRefusesNone(m: map<string, string>, fields: seq<string>)
    requires RefusesNone(m)
    ensures RefusesNone(SetStandard(m, fields).0)
    decreases fields
  {
    if fields != [] {
      var (key, value) := Cut(fields[0], '=');
      if !Refused(key, value) {
        SetStandardRefusesNone(m[key := value], fields[1..]);
      }
    }
  }

  lemma ParametersRefuseNone(u: Station, s: string)
    requires RefusesNone(u.standard)
    ensures RefusesNone(ParseParameters(u, s).standard)
  {
    if s != "" {
      SetStandardRefusesNone(u.standard, Split(Cut(s, '#').0, ';'));
    }
  }

  lemma ParsedNoneRefused(text: string)
    ensures RefusesNone(Parse(FromText(text)).standard)
  {
    var i := MarkAt(text);
    if i < |text| {
      ParametersRefuseNone(FromText(text).(kind := KindNamed(text[..i])), text[i + 2..]);
    }
  }

  lemma RewrittenRefusedIff(text: string, host: string, port: nat, standard: seq<Pair>)
    requires port <= 65535 && Iterates(standard, WithAddress(Parse(FromText(text)), host, port).standard)
    ensures NoneRefused(standard) <==> |host| <= LONGEST_ADDRESS
  {
    ParsedNoneRefused(text);
    DecimalIsUnsigned(port);
    var m := WithAddress(Parse(FromText(text)), host, port).standard;
    assert forall k | k in m && k != "address" :: !Refused(k, m[k]);
    assert "address" in m && m["address"] == host;
    assert Meets(standard, "address");
  }

  /**
   A station that is parsed, given another address and port and written again reads as the same
   station with that address and port: every other parameter is kept. It is written unless the
   address or the text is too long.
   */
  lemma RewriteKeepsTheRest(text: string, host: string, port: nat, standard: seq<Pair>, custom: seq<Pair>)
    requires port <= 65535 && Free(host, STANDARD_BANNED)
    requires !Parse(FromText(text)).kind.Unknown?
    requires Orders(WithAddress(Parse(FromText(text)), host, port), standard, custom)
    ensures var u := Parse(FromText(text));
            var text' := TryFormat(u.kind, standard, custom);
            && (text'.Some? <==> |host| <= LONGEST_ADDRESS && |TextOf(u.kind, standard, custom)| <= LONGEST_URL)
            && (text'.Some? ==>
                  var r := Parse(FromText(text'.value));
                  && r.kind == u.kind && r.custom == u.custom
                  && r.standard == u.standard["address" := host]["port" := Decimal(port)]
                  && r.flags == (if TypeOf(u.standard).Some? then TypeOf(u.standard).value else 0))
  {
    var u := Parse(FromText(text));
    RewrittenRefusedIff(text, host, port, standard);
    ParsedClean(text);
    RewrittenClean(u.standard, host, port);
    var m := WithAddress(u, host, port).standard;
    assert TypeOf(m) == TypeOf(u.standard);
    var u' := WithAddress(u, host, port).(flags := if TypeOf(m).Some? then TypeOf(m).value else 0);
    assert "address" in m;
    SeparableRoundTrip(u', standard, custom);
  }

  /** The two parameters of a station that has nothing else are visited in one of two orders. */
  lemma TwoParameters(ps: seq<Pair>, host: string, port: string)
    requires Iterates(ps, map["address" := host, "port" := port])
    ensures ps == [("address", host), ("port", port)] || ps == [("port", port), ("address", host)]
  {
    assert Meets(ps, "address") && Meets(ps, "port");
    assert forall k | 0 <= k < |ps| :: ps[k].0 == "address" || ps[k].0 == "port";
    AtMostTwo(ps);
  }

  lemma AtMostTwo(ps: seq<Pair>)
    requires forall i, j | 0 <= i < j < |ps| :: ps[i].0 != ps[j].0
    requires forall k | 0 <= k < |ps| :: ps[k].0 == "address" || ps[k].0 == "port"
    ensures |ps| <= 2
  {
    var keys := [KeyAt(ps, 0), KeyAt(ps, 1), KeyAt(ps, 2)];
  }

  function KeyAt(ps: seq<Pair>, i: nat): string {
    if i < |ps| then ps[i].0 else ""
  }

  lemma {:induction false} PrefixBeforeMark(s: string, head: string)
    requires head <= s && ':' !in head
    ensures MarkAt(s) >= |head|
  {
    if head != [] {
      PrefixBeforeMark(s[1..], head[1..]);
    }
  }

  /** Text that starts with a parameter has no known scheme. */
  lemma ParameterIsNoScheme(s: string)
    requires "address=" <= s || "port=" <= s
    ensures Parse(FromText(s)) == FromText(s)
  {
    PrefixBeforeMark(s, if "address=" <= s then "address=" else "port=");
    var i := MarkAt(s);
    assert i >= 5;
    assert s[..i][0] == s[0] && s[..i][1] == s[1];
    assert KindNamed(s[..i]).Unknown?;
  }

  /**
   A text whose scheme is unknown is rewritten too: all of it is replaced by address and port,
   without a scheme, and whoever parses that learns nothing.
   */
  lemma RewriteOfUnknownScheme(text: string, host: string, port: nat, standard: seq<Pair>, custom: seq<Pair>)
    requires port <= 65535 && Parse(FromText(text)).kind.Unknown?
    requires Orders(WithAddress(Parse(FromText(text)), host, port), standard, custom)
    ensures var text' := TryFormat(Unknown, standard, custom);
            var address, number := "address=" + host, "port=" + Decimal(port);
            && (text'.Some? <==> |host| <= LONGEST_ADDRESS && |address| + 1 + |number| <= LONGEST_URL)
            && (text'.Some? ==> text'.value == address + ";" + number || text'.value == number + ";" + address)
            && (text'.Some? ==> Parse(FromText(text'.value)) == FromText(text'.value))
  {
    ParsedKind(text);
    RewrittenRefusedIff(text, host, port, standard);
    OrderOfEmpty(custom, map[]);
    assert WithAddress(Parse(FromText(text)), host, port).standard == map["address" := host, "port" := Decimal(port)];
    TwoParameters(standard, host, Decimal(port));
    assert "address" + "=" == "address=" && "port" + "=" == "port=";
    TwoParametersText(standard, "address=" + host, "port=" + Decimal(port));
  }

  lemma TwoParametersText(ps: seq<Pair>, address: string, number: string)
    requires |ps| == 2 && "address=" <= address && "port=" <= number
    requires (ps[0].0 + "=" + ps[0].1, ps[1].0 + "=" + ps[1].1) in {(address, number), (number, address)}
    ensures var text := TextOf(Unknown, ps, []);
            && (text == address + ";" + number || text == number + ";" + address)
            && Parse(FromText(text)) == FromText(text)
  {
    UnknownText(ps);
    var text := TextOf(Unknown, ps, []);
    if ps[0].0 + "=" + ps[0].1 == address {
      assert "address=" <= text;
    } else {
      assert "port=" <= text;
    }
    ParameterIsNoScheme(text);
  }

  lemma UnknownText(ps: seq<Pair>)
    requires |ps| == 2
    ensures TextOf(Unknown, ps, []) == ps[0].0 + "=" + ps[0].1 + ";" + (ps[1].0 + "=" + ps[1].1)
  {
    var fields := Fields(ps);
    assert fields[1..] == [fields[1]];
    assert Join(fields[1..], ';') == fields[1];
    var text := Join(fields, ';');
    assert text == fields[0] + [';'] + fields[1];
    assert text + "" == text && "" + text == text;
  }

  lemma RewrittenClean(m: map<string, string>, host: string, port: nat)
    requires Clean(m, STANDARD_BANNED) && Free(host, STANDARD_BANNED)
    ensures Clean(m["address" := host]["port" := Decimal(port)], STANDARD_BANNED)
  {
    DecimalRoundTrip(port);
    assert Free(Decimal(port), STANDARD_BANNED);
    assert Free("address", STANDARD_BANNED) && Free("port", STANDARD_BANNED);
  }

  // ---------- the station as an object ----------

  lemma OneMoreField(ps: seq<Pair>, i: nat)
    requires i < |ps|
    ensures Fields(ps[..i + 1]) == Fields(ps[..i]) + [ps[i].0 + "=" + ps[i].1]
    ensures NoneRefused(ps[..i + 1]) <==> NoneRefused(ps[..i]) && !Refused(ps[i].0, ps[i].1)
    ensures NoneRefused(ps) ==> !Refused(ps[i].0, ps[i].1)
  {
    assert ps[..i + 1] == ps[..i] + [ps[i]];
    FieldsAppend(ps[..i], ps[i]);
    RefusedAppend(ps[..i], ps[i]);
  }

  lemma RefusedAppend(ps: seq<Pair>, p: Pair)
    ensures NoneRefused(ps + [p]) <==> NoneRefused(ps) && !Refused(p.0, p.1)
  {
    var all := ps + [p];
    assert all[|ps|] == p;
    assert forall j | 0 <= j < |ps| :: all[j] == ps[j];
  }

  lemma FieldsAppend(ps: seq<Pair>, p: Pair)
    ensures Fields(ps + [p]) == Fields(ps) + [p.0 + "=" + p.1]
  {
    assert forall j | 0 <= j < |ps| :: (ps + [p])[j] == ps[j];
  }

  class StationURL {
    var kind: Kind
    var url: string
    var flags: nat
    var standard: map<string, string>
    var custom: map<string, string>

    function State(): Station
      reads this
    {
      Station(kind, url, flags, standard, custom)
    }

    constructor (text: string)
      ensures State() == Parse(FromText(text))
    {
      kind, url, flags, standard, custom := Unknown, text, 0, map[], map[];
      new;
      ParseUrl();
    }

    method ParseUrl()
      modifies this
      ensures State() == Parse(old(State()))
    {
      if url == "" || |url| > LONGEST_URL {
        return;
      }
      var i := MarkAt(url);
      if i == |url| {
        return;
      }
      var scheme, parameters := url[..i], url[i + 2..];
      if scheme == "prudp" {
        kind := Prudp;
      } else if scheme == "prudps" {
        kind := Prudps;
      } else if scheme == "udp" {
        kind := Udp;
      } else {
        return;
      }
      if parameters == "" {
        return;
      }
      ParseSections(parameters);
    }

    method ParseSections(parameters: string)
      requires parameters != ""
      modifies this
      ensures State() == ParseParameters(old(State()), parameters)
    {
      var (standardSection, customSection) := Cut(parameters, '#');
      var ok := SetStandardParameters(Split(standardSection, ';'));
      if !ok {
        return;
      }
      if customSection != "" {
        SetCustomParameters(Split(customSection, ';'));
      }
      var typeFlags := TypeOf(standard);
      if typeFlags.Some? {
        flags := typeFlags.value;
      }
    }

    method SetStandardParameters(fields: seq<string>) returns (ok: bool)
      modifies this`standard
      ensures (standard, ok) == SetStandard(old(standard), fields)
    {
      var i := 0;
      while i < |fields|
        invariant 0 <= i <= |fields|
        invariant SetStandard(standard, fields[i..]) == SetStandard(old(standard), fields)
      {
        var (key, value) := Cut(fields[i], '=');
        assert fields[i..][0] == fields[i] && fields[i..][1..] == fields[i + 1..];
        var refused := CheckParameter(key, value);
        if refused {
          return false;
        }
        standard := standard[key := value];
        i := i + 1;
      }
      ok := true;
    }

    method SetCustomParameters(fields: seq<string>)
      modifies this`custom
      ensures custom == SetCustom(old(custom), fields)
    {
      var i := 0;
      while i < |fields|
        invariant 0 <= i <= |fields|
        invariant SetCustom(custom, fields[i..]) == SetCustom(old(custom), fields)
      {
        var (key, value) := Cut(fields[i], '=');
        assert fields[i..][0] == fields[i] && fields[i..][1..] == fields[i + 1..];
        custom := custom[key := value];
        i := i + 1;
      }
    }

    /** The parameters are visited in the given orders. */
    method Format(standardOrder: seq<Pair>, customOrder: seq<Pair>)
      requires Iterates(standardOrder, standard) && Iterates(customOrder, custom)
      modifies this`url
      ensures State() == Formatted(old(State()), standardOrder, customOrder)
    {
      var scheme := if kind.Unknown? then "" else SchemeName(kind) + ":/";
      var fields, ok := FormatStandard(standardOrder);
      if !ok {
        return;
      }
      var parameters := Join(fields, ';');
      OrderOfEmpty(customOrder, custom);
      if custom != map[] {
        var customFields := FormatCustom(customOrder);
        parameters := parameters + ("#" + Join(customFields, ';'));
      } else {
        assert parameters + "" == parameters;
      }
      assert parameters == ParameterText(standardOrder, customOrder);
      var text := scheme + parameters;
      if |text| > LONGEST_URL {
        return;
      }
      url := text;
    }

    method FormatStandard(order: seq<Pair>) returns (fields: seq<string>, ok: bool)
      ensures ok <==> NoneRefused(order)
      ensures ok ==> fields == Fields(order)
    {
      fields := [];
      for i := 0 to |order|
        invariant fields == Fields(order[..i]) && NoneRefused(order[..i])
      {
        OneMoreField(order, i);
        var refused := CheckParameter(order[i].0, order[i].1);
        if refused {
          return fields, false;
        }
        fields := fields + [order[i].0 + "=" + order[i].1];
      }
      assert order[..|order|] == order;
      ok := true;
    }

    /** The guards that parser and formatter share. */
    method CheckParameter(key: string, value: string) returns (refused: bool)
      ensures refused == Refused(key, value)
    {
      if key == "address" && |value| > LONGEST_ADDRESS {
        return true;
      }
      if key == "port" {
        var port := ParseInt(value);
        if port.None? || port.value < 0 || port.value > 65535 {
          return true;
        }
      }
      refused := false;
    }

    method FormatCustom(order: seq<Pair>) returns (fields: seq<string>)
      ensures fields == Fields(order)
    {
      fields := [];
      for i := 0 to |order|
        invariant fields == Fields(order[..i])
      {
        OneMoreField(order, i);
        fields := fields + [order[i].0 + "=" + order[i].1];
      }
      assert order[..|order|] == order;
    }

    method SetAddress(address: string)
      modifies this`standard
      ensures standard == old(standard)["address" := address]
    {
      standard := standard["address" := address];
    }

    method SetPortNumber(port: nat)
      modifies this`standard
      ensures standard == old(standard)["port" := Decimal(port)]
    {
      standard := standard["port" := Decimal(port)];
    }
  }

  /** What the handlers do with a station: copy it, give it the relay's address, and write it again. */
  method Rewrite(text: string, host: string, port: nat, standardOrder: seq<Pair>, customOrder: seq<Pair>) returns (url: string)
    requires Orders(WithAddress(Parse(FromText(text)), host, port), standardOrder, customOrder)
    ensures url == Formatted(WithAddress(Parse(FromText(text)), host, port), standardOrder, customOrder).url
  {
    var station := new StationURL(text);
    station.SetAddress(host);
    station.SetPortNumber(port);
    station.Format(standardOrder, customOrder);
    url := station.url;
  }
}
