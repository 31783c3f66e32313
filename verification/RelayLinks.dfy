/**
 The table of relay links and the two handlers that hand out relay addresses: one link for each
 unordered pair of players, made on first use and never replaced.
 */
module RelayLinks {
  import opened Text
  import opened Wrappers
  import RelayPump

  type Pid = nat

  /** `portA` is where to send to reach player A, `portB` to reach player B. */
  datatype Link = Link(pidA: Pid, pidB: Pid, host: string, portA: nat, portB: nat)

  datatype Manager = Manager(publicHost: string, hosts: seq<string>, hostSeq: nat, links: map<string, Link>)

  /** What opening the two sockets of a new link gives: their ports, or None. */
  datatype Opening = Opening(first: Option<nat>, second: Option<nat>)

  function PairKey(a: Pid, b: Pid): string {
    if a > b then Decimal(b) + "-" + Decimal(a) else Decimal(a) + "-" + Decimal(b)
  }

  predicate SamePair(a: Pid, b: Pid, c: Pid, d: Pid) {
    (a == c && b == d) || (a == d && b == c)
  }

  lemma KeyRead(a: Pid, b: Pid)
    ensures Cut(Decimal(a) + "-" + Decimal(b), '-') == (Decimal(a), Decimal(b))
    ensures ParseNat(Decimal(a)) == Some(a) && ParseNat(Decimal(b)) == Some(b)
  {
    DecimalRoundTrip(a);
    DecimalRoundTrip(b);
    CutAtSeparator(Decimal(a), '-', Decimal(b));
  }

  /** Keys are equal exactly for the same two players, in either order. */
  lemma PairKeyIsInjective(a: Pid, b: Pid, c: Pid, d: Pid)
    ensures PairKey(a, b) == PairKey(c, d) <==> SamePair(a, b, c, d)
  {
    KeyRead(if a > b then b else a, if a > b then a else b);
    KeyRead(if c > d then d else c, if c > d then c else d);
  }

  /** The address pool goes round; without a pool there is the one public host. */
  function NextHost(m: Manager): string {
    if m.hosts == [] then "" else m.hosts[m.hostSeq % |m.hosts|]
  }

  /** The link of two players; the cursor moves even if the sockets cannot be opened. */
  function GetLink(m: Manager, a: Pid, b: Pid, o: Opening): (Manager, Option<Link>) {
    var key := PairKey(a, b);
    if key in m.links then (m, Some(m.links[key]))
    else
      var host := NextHost(m);
      var m' := m.(hostSeq := if m.hosts == [] then m.hostSeq else m.hostSeq + 1);
      if o.first.None? || o.second.None? then (m', None)
      else
        var link := Link(a, b, if host == "" then m.publicHost else host, o.first.value, o.second.value);
        (m'.(links := m'.links[key := link]), Some(link))
  }

  /** The port at which a player is reached. */
  function EndpointFor(link: Link, target: Pid): nat {
    if target == link.pidA then link.portA % 0x1_0000 else link.portB % 0x1_0000
  }

  // ---------- the handlers ----------

  /** A relay address told to `receiver` as the address of `about`. */
  datatype Handout = Handout(receiver: Pid, about: Pid, host: string, port: nat)

  datatype Event =
    | SetHosts(hosts: seq<string>)
    | GetSessionUrls(caller: Pid, hostPid: Pid, hostUrls: Option<nat>, opening: Opening)
    | RequestProbe(caller: Pid, hostPid: Pid, targets: seq<(Pid, Opening)>)

  datatype State = State(manager: Manager, handouts: seq<Handout>)

  function Told(link: Link, receiver: Pid, about: Pid): Handout {
    Handout(receiver, about, link.host, EndpointFor(link, about))
  }

  function Repeat(h: Handout, n: nat): (r: seq<Handout>)
    ensures |r| == n && forall i | 0 <= i < n :: r[i] == h
  {
    if n == 0 then [] else [h] + Repeat(h, n - 1)
  }

  /** The caller is told the stations of a host that is connected, each at the relay if there is a link. */
  function SessionUrls(s: State, caller: Pid, hostPid: Pid, urls: Option<nat>, o: Opening): State {
    if urls.None? then s
    else
      var (m, link) := GetLink(s.manager, hostPid, caller, o);
      State(m, s.handouts + if link.None? then [] else Repeat(Told(link.value, caller, hostPid), urls.value))
  }

  /** A target is told the caller's station, at the relay if one of the two is the host. */
  function ProbeOne(s: State, caller: Pid, hostPid: Pid, target: Pid, o: Opening): State {
    if hostPid != 0 && (caller == hostPid || target == hostPid) then
      var (m, link) := GetLink(s.manager, caller, target, o);
      State(m, s.handouts + if link.None? then [] else [Told(link.value, target, caller)])
    else s
  }

  function ProbeAll(s: State, caller: Pid, hostPid: Pid, targets: seq<(Pid, Opening)>): State
    decreases targets
  {
    if targets == [] then s
    else ProbeAll(ProbeOne(s, caller, hostPid, targets[0].0, targets[0].1), caller, hostPid, targets[1..])
  }

  function Step(s: State, e: Event): State {
    match e
    case SetHosts(hosts) => s.(manager := s.manager.(hosts := hosts))
    case GetSessionUrls(caller, hostPid, urls, opening) => SessionUrls(s, caller, hostPid, urls, opening)
    case RequestProbe(caller, hostPid, targets) => ProbeAll(s, caller, hostPid, targets)
  }

  function Run(s: State, es: seq<Event>): State
    decreases es
  {
    if es == [] then s else Run(Step(s, es[0]), es[1..])
  }

  function Start(publicHost: string): State {
    State(Manager(publicHost, [], 0, map[]), [])
  }

  // ---------- what every step keeps ----------

  ghost predicate Keyed(m: Manager) {
    forall key | key in m.links :: key == PairKey(m.links[key].pidA, m.links[key].pidB)
  }

  /** The handout is the address of `about` on the pair's link. */
  ghost predicate FromLink(m: Manager, h: Handout) {
    var key := PairKey(h.receiver, h.about);
    key in m.links && h == Told(m.links[key], h.receiver, h.about)
  }

  ghost predicate Sound(s: State) {
    Keyed(s.manager) && forall i | 0 <= i < |s.handouts| :: FromLink(s.manager, s.handouts[i])
  }

  /** Links are added, never replaced. */
  ghost predicate Extends(m: Manager, m': Manager) {
    forall key | key in m.links :: key in m'.links && m'.links[key] == m.links[key]
  }

  lemma GetLinkKeeps(m: Manager, a: Pid, b: Pid, o: Opening)
    requires Keyed(m)
    ensures var (m', link) := GetLink(m, a, b, o);
            && Keyed(m') && Extends(m, m')
            && (link.Some? ==> PairKey(a, b) in m'.links && m'.links[PairKey(a, b)] == link.value)
  {
  }

  lemma PairKeyIsSymmetric(a: Pid, b: Pid)
    ensures PairKey(a, b) == PairKey(b, a)
  {
  }

  lemma ProbeOneKeeps(s: State, caller: Pid, hostPid: Pid, target: Pid, o: Opening)
    requires Sound(s)
    ensures Sound(ProbeOne(s, caller, hostPid, target, o)) && Extends(s.manager, ProbeOne(s, caller, hostPid, target, o).manager)
  {
    GetLinkKeeps(s.manager, caller, target, o);
    PairKeyIsSymmetric(caller, target);
  }

  lemma {:induction false} ProbeAllKeeps(s: State, caller: Pid, hostPid: Pid, targets: seq<(Pid, Opening)>)
    requires Sound(s)
    ensures Sound(ProbeAll(s, caller, hostPid, targets)) && Extends(s.manager, ProbeAll(s, caller, hostPid, targets).manager)
    decreases targets
  {
    if targets != [] {
      ProbeOneKeeps(s, caller, hostPid, targets[0].0, targets[0].1);
      ProbeAllKeeps(ProbeOne(s, caller, hostPid, targets[0].0, targets[0].1), caller, hostPid, targets[1..]);
    }
  }

  lemma SessionUrlsKeeps(s: State, caller: Pid, hostPid: Pid, urls: Option<nat>, o: Opening)
    requires Sound(s)
    ensures var s' := SessionUrls(s, caller, hostPid, urls, o); Sound(s') && Extends(s.manager, s'.manager)
  {
    GetLinkKeeps(s.manager, hostPid, caller, o);
    PairKeyIsSymmetric(hostPid, caller);
  }

  lemma {:induction false} RunKeeps(s: State, es: seq<Event>)
    requires Sound(s)
    ensures Sound(Run(s, es)) && Extends(s.manager, Run(s, es).manager)
    decreases es
  {
    if es != [] {
      StepKeeps(s, es[0]);
      RunKeeps(Step(s, es[0]), es[1..]);
    }
  }

  lemma StepKeeps(s: State, e: Event)
    requires Sound(s)
    ensures Sound(Step(s, e)) && Extends(s.manager, Step(s, e).manager)
  {
    match e
    case SetHosts(_) =>
    case GetSessionUrls(caller, hostPid, urls, opening) =>
      SessionUrlsKeeps(s, caller, hostPid, urls, opening);
    case RequestProbe(caller, hostPid, targets) =>
      ProbeAllKeeps(s, caller, hostPid, targets);
  }

  /**
   In every run of the handlers, whatever relay addresses were handed out to two players about
   each other come from one link: the host is the same, handouts about the same player have the
   same port, and the two players' ports are the two ports of the link.
   */
  lemma HandoutsAgree(publicHost: string, es: seq<Event>, i: nat, j: nat)
    requires var hs := Run(Start(publicHost), es).handouts;
             && i < |hs| && j < |hs| && hs[i].receiver != hs[i].about
             && SamePair(hs[i].receiver, hs[i].about, hs[j].receiver, hs[j].about)
    ensures var s := Run(Start(publicHost), es);
            var h, k := s.handouts[i], s.handouts[j];
            var key := PairKey(h.receiver, h.about);
            && key in s.manager.links
            && var link := s.manager.links[key];
               && SamePair(link.pidA, link.pidB, h.receiver, h.about)
               && h.host == k.host == link.host
               && h.port == EndpointFor(link, h.about) && k.port == EndpointFor(link, k.about)
               && (h.about == k.about ==> h.port == k.port)
               && (h.about != k.about ==>
                     (h.port, k.port) == (link.portA % 0x1_0000, link.portB % 0x1_0000)
                     || (h.port, k.port) == (link.portB % 0x1_0000, link.portA % 0x1_0000))
  {
    var s := Run(Start(publicHost), es);
    RunKeeps(Start(publicHost), es);
    var h, k := s.handouts[i], s.handouts[j];
    assert FromLink(s.manager, h) && FromLink(s.manager, k);
    PairKeyIsInjective(h.receiver, h.about, k.receiver, k.about);
    var link := s.manager.links[PairKey(h.receiver, h.about)];
    PairKeyIsInjective(link.pidA, link.pidB, h.receiver, h.about);
  }

  // ---------- which handouts each event adds ----------

  predicate Opens(o: Opening) {
    o.first.Some? && o.second.Some?
  }

  /** Only the pairs of the gathering's host go through the relay; host 0 stands for no gathering. */
  predicate HostLink(caller: Pid, hostPid: Pid, target: Pid) {
    hostPid > 0 && hostPid in {caller, target}
  }

  ghost predicate Linked(m: Manager, a: Pid, b: Pid) {
    PairKey(a, b) in m.links
  }

  /** Asking for a link gives one exactly if the pair had one or both sockets open, and links no other pair. */
  lemma GetLinkIff(m: Manager, a: Pid, b: Pid, o: Opening, c: Pid, d: Pid)
    ensures var (m', link) := GetLink(m, a, b, o);
            && (link.Some? <==> Linked(m, a, b) || Opens(o))
            && (Linked(m', c, d) <==> Linked(m, c, d) || (SamePair(a, b, c, d) && Opens(o)))
  {
    PairKeyIsInjective(a, b, c, d);
  }

  /** In a new link the first socket's port is that of the player named first, the second's that of the other. */
  lemma NewLinkPorts(m: Manager, a: Pid, b: Pid, first: nat, second: nat)
    requires !Linked(m, a, b) && a != b
    ensures var link := GetLink(m, a, b, Opening(Some(first), Some(second))).1;
            && link.Some?
            && EndpointFor(link.value, a) == first % 0x1_0000 && EndpointFor(link.value, b) == second % 0x1_0000
  {
  }

  lemma {:induction false} ProbeAllSnoc(s: State, caller: Pid, hostPid: Pid, targets: seq<(Pid, Opening)>, last: (Pid, Opening))
    ensures ProbeAll(s, caller, hostPid, targets + [last]) ==
            ProbeOne(ProbeAll(s, caller, hostPid, targets), caller, hostPid, last.0, last.1)
    decreases targets
  {
    if targets == [] {
      assert [last][1..] == [];
      assert targets + [last] == [last];
    } else {
      assert (targets + [last])[1..] == targets[1..] + [last];
      ProbeAllSnoc(ProbeOne(s, caller, hostPid, targets[0].0, targets[0].1), caller, hostPid, targets[1..], last);
    }
  }

  /** What the targets are told: one handout for each target of a host link that has a link by then, in target order. */
  ghost function Answers(m: Manager, caller: Pid, hostPid: Pid, targets: seq<(Pid, Opening)>): seq<Handout> {
    if targets == [] then []
    else
      var before, target := targets[..|targets| - 1], targets[|targets| - 1].0;
      var links := ProbeAll(State(m, []), caller, hostPid, targets).manager.links;
      Answers(m, caller, hostPid, before) +
      if HostLink(caller, hostPid, target) && PairKey(target, caller) in links
      then [Handout(target, caller, links[PairKey(target, caller)].host, EndpointFor(links[PairKey(target, caller)], caller))]
      else []
  }

  /** The table a probe leaves does not depend on what was handed out before. */
  lemma {:induction false} ProbeTable(s: State, caller: Pid, hostPid: Pid, targets: seq<(Pid, Opening)>)
    ensures ProbeAll(s, caller, hostPid, targets).manager == ProbeAll(State(s.manager, []), caller, hostPid, targets).manager
    decreases |targets|
  {
    if targets != [] {
      var before, last := targets[..|targets| - 1], targets[|targets| - 1];
      assert targets == before + [last];
      ProbeTable(s, caller, hostPid, before);
      ProbeAllSnoc(s, caller, hostPid, before, last);
      ProbeAllSnoc(State(s.manager, []), caller, hostPid, before, last);
    }
  }

  lemma ProbeOneAdds(s: State, caller: Pid, hostPid: Pid, target: Pid, o: Opening)
    ensures var s' := ProbeOne(s, caller, hostPid, target, o);
            s'.handouts == s.handouts +
              if HostLink(caller, hostPid, target) && PairKey(target, caller) in s'.manager.links
              then [Told(s'.manager.links[PairKey(target, caller)], target, caller)] else []
  {
    PairKeyIsSymmetric(caller, target);
  }

  lemma {:induction false} ProbeAdds(s: State, caller: Pid, hostPid: Pid, targets: seq<(Pid, Opening)>)
    ensures ProbeAll(s, caller, hostPid, targets).handouts == s.handouts + Answers(s.manager, caller, hostPid, targets)
    decreases |targets|
  {
    if targets != [] {
      var before, last := targets[..|targets| - 1], targets[|targets| - 1];
      assert targets == before + [last];
      ProbeAdds(s, caller, hostPid, before);
      ProbeAllSnoc(s, caller, hostPid, before, last);
      ProbeTable(s, caller, hostPid, targets);
      ProbeOneAdds(ProbeAll(s, caller, hostPid, before), caller, hostPid, last.0, last.1);
    }
  }

  /** A pair of the caller is linked after a probe exactly if it was before, or sockets opened for a target of a host link. */
  lemma {:induction false} ProbeLinksIff(s: State, caller: Pid, hostPid: Pid, targets: seq<(Pid, Opening)>, t: Pid)
    ensures Linked(ProbeAll(s, caller, hostPid, targets).manager, caller, t) <==>
            || Linked(s.manager, caller, t)
            || exists j | 0 <= j < |targets| :: targets[j].0 == t && HostLink(caller, hostPid, t) && Opens(targets[j].1)
    decreases |targets|
  {
    if targets != [] {
      var before, last := targets[..|targets| - 1], targets[|targets| - 1];
      assert targets == before + [last];
      ProbeLinksIff(s, caller, hostPid, before, t);
      ProbeAllSnoc(s, caller, hostPid, before, last);
      GetLinkIff(ProbeAll(s, caller, hostPid, before).manager, caller, last.0, last.1, caller, t);
      assert targets[|before|] == last;
      assert forall j | 0 <= j < |before| :: before[j] == targets[j];
    }
  }

  /** What an event adds to the handouts in a given state. */
  ghost function Added(m: Manager, e: Event): seq<Handout> {
    match e
    case SetHosts(_) => []
    case GetSessionUrls(caller, hostPid, urls, opening) =>
      var link := GetLink(m, hostPid, caller, opening).1;
      if urls.Some? && (Linked(m, caller, hostPid) || Opens(opening)) && link.Some? then
        seq(urls.value, i => Handout(caller, hostPid, link.value.host, EndpointFor(link.value, hostPid)))
      else []
    case RequestProbe(caller, hostPid, targets) => Answers(m, caller, hostPid, targets)
  }

  lemma {:induction false} RunSnoc(s: State, es: seq<Event>, e: Event)
    ensures Run(s, es + [e]) == Step(Run(s, es), e)
    decreases es
  {
    if es == [] {
      assert [e][1..] == [];
      assert es + [e] == [e];
    } else {
      assert (es + [e])[1..] == es[1..] + [e];
      RunSnoc(Step(s, es[0]), es[1..], e);
    }
  }

  /**
   Over every run of the handlers: setting the pool hands out nothing; session URLs hand out
   exactly as many addresses of the host as it has stations, if it is connected and there is a
   link, and none otherwise; a probe hands out one address of the caller to each target of a host
   link that has a link by then, in the order of the targets.
   */
  lemma EventAdds(publicHost: string, es: seq<Event>, e: Event)
    ensures var s := Run(Start(publicHost), es);
            Run(Start(publicHost), es + [e]).handouts == s.handouts + Added(s.manager, e)
  {
    var s := Run(Start(publicHost), es);
    RunSnoc(Start(publicHost), es, e);
    match e
    case SetHosts(_) =>
    case GetSessionUrls(caller, hostPid, urls, opening) =>
      GetLinkIff(s.manager, hostPid, caller, opening, hostPid, caller);
      PairKeyIsSymmetric(hostPid, caller);
    case RequestProbe(caller, hostPid, targets) =>
      ProbeAdds(s, caller, hostPid, targets);
  }

  // ---------- the address pool ----------

  predicate AllOpen(targets: seq<(Pid, Opening)>) {
    forall t | t in targets :: Opens(t.1)
  }

  /** Players, all different, that the caller has no link with yet and whose sockets open. */
  ghost predicate FreshTargets(m: Manager, caller: Pid, targets: seq<(Pid, Opening)>) {
    && AllOpen(targets)
    && (forall i | 0 <= i < |targets| :: targets[i].0 != caller && !Linked(m, caller, targets[i].0))
    && forall i, j | 0 <= i < j < |targets| :: targets[i].0 != targets[j].0
  }

  lemma FreshTargetsLater(m: Manager, caller: Pid, targets: seq<(Pid, Opening)>)
    requires targets != [] && FreshTargets(m, caller, targets)
    ensures FreshTargets(GetLink(m, caller, targets[0].0, targets[0].1).0, caller, targets[1..])
  {
    forall i | 0 <= i < |targets| - 1
      ensures !Linked(GetLink(m, caller, targets[0].0, targets[0].1).0, caller, targets[1..][i].0)
    {
      GetLinkIff(m, caller, targets[0].0, targets[0].1, caller, targets[i + 1].0);
    }
  }

  /** The address of the `n`-th link ever made from a pool: the pool in turn, the public host where it has no address. */
  function PoolHost(publicHost: string, hosts: seq<string>, n: nat): string {
    if hosts == [] || hosts[n % |hosts|] == "" then publicHost else hosts[n % |hosts|]
  }

  /** The host probes one new player: the cursor moves, and one handout names the pool's address and the first port. */
  lemma HostProbesOne(s: State, host: Pid, targets: seq<(Pid, Opening)>) returns (s': State)
    requires host != 0 && targets != [] && FreshTargets(s.manager, host, targets)
    ensures targets[0] in targets && FreshTargets(s'.manager, host, targets[1..])
    ensures ProbeAll(s, host, host, targets) == ProbeAll(s', host, host, targets[1..])
    ensures s'.handouts == s.handouts + [Handout(targets[0].0, host, PoolHost(s.manager.publicHost, s.manager.hosts, s.manager.hostSeq),
                                                 targets[0].1.first.value % 0x1_0000)]
    ensures s'.manager.publicHost == s.manager.publicHost && s'.manager.hosts == s.manager.hosts
    ensures s.manager.hosts != [] ==> s'.manager.hostSeq == s.manager.hostSeq + 1
  {
    assert targets[0] in targets;
    s' := ProbeOne(s, host, host, targets[0].0, targets[0].1);
    FreshTargetsLater(s.manager, host, targets);
  }

  /** The handouts of one address after the other from the pool. */
  ghost function Dealt(publicHost: string, hosts: seq<string>, n: nat, host: Pid, targets: seq<(Pid, Opening)>): seq<Handout>
    requires AllOpen(targets)
    decreases targets
  {
    if targets == [] then []
    else
      assert targets[0] in targets;
      [Handout(targets[0].0, host, PoolHost(publicHost, hosts, n), targets[0].1.first.value % 0x1_0000)]
      + Dealt(publicHost, hosts, n + 1, host, targets[1..])
  }

  lemma {:induction false} DealtAt(publicHost: string, hosts: seq<string>, n: nat, host: Pid, targets: seq<(Pid, Opening)>, i: nat)
    requires i < |targets| && AllOpen(targets)
    ensures var hs := Dealt(publicHost, hosts, n, host, targets);
            && |hs| == |targets|
            && targets[i] in targets
            && hs[i] == Handout(targets[i].0, host, PoolHost(publicHost, hosts, n + i), targets[i].1.first.value % 0x1_0000)
    decreases targets
  {
    if |targets| > 1 {
      DealtAt(publicHost, hosts, n + 1, host, targets[1..], if i > 0 then i - 1 else 0);
    } else {
      assert Dealt(publicHost, hosts, n + 1, host, targets[1..]) == [];
    }
  }

  /** Without a pool the cursor does not matter. */
  lemma DealtStep(publicHost: string, hosts: seq<string>, cursor: nat, n: nat, host: Pid, targets: seq<(Pid, Opening)>, told: seq<Handout>)
    requires AllOpen(targets) && targets != [] && (hosts != [] ==> cursor == n)
    ensures targets[0] in targets
    ensures told + Dealt(publicHost, hosts, n, host, targets) ==
            (told + [Handout(targets[0].0, host, PoolHost(publicHost, hosts, cursor), targets[0].1.first.value % 0x1_0000)])
            + Dealt(publicHost, hosts, n + 1, host, targets[1..])
  {
    assert targets[0] in targets;
  }

  lemma {:induction false} PoolGoesRound(s: State, host: Pid, targets: seq<(Pid, Opening)>, n: nat)
    requires host != 0 && FreshTargets(s.manager, host, targets) && (s.manager.hosts != [] ==> s.manager.hostSeq == n)
    ensures ProbeAll(s, host, host, targets).handouts == s.handouts + Dealt(s.manager.publicHost, s.manager.hosts, n, host, targets)
    decreases targets
  {
    if targets != [] {
      var s' := HostProbesOne(s, host, targets);
      PoolGoesRound(s', host, targets[1..], n + 1);
      var m := s.manager;
      DealtStep(m.publicHost, m.hosts, if m.hosts == [] then m.hostSeq else n, n, host, targets, s.handouts);
    }
  }

  /** A host that probes new players tells each in turn the next address of the pool, and its own port on their link. */
  lemma HostsAreDealtInTurn(publicHost: string, hosts: seq<string>, host: Pid, targets: seq<(Pid, Opening)>, i: nat)
    requires host != 0 && i < |targets| && FreshTargets(Start(publicHost).manager, host, targets)
    ensures var hs := Run(Start(publicHost), [SetHosts(hosts), RequestProbe(host, host, targets)]).handouts;
            && |hs| == |targets|
            && targets[i] in targets
            && hs[i] == Handout(targets[i].0, host, PoolHost(publicHost, hosts, i), targets[i].1.first.value % 0x1_0000)
  {
    var start, probe := Start(publicHost), RequestProbe(host, host, targets);
    var s := State(Manager(publicHost, hosts, 0, map[]), []);
    RunSnoc(start, [], SetHosts(hosts));
    assert [] + [SetHosts(hosts)] == [SetHosts(hosts)];
    RunSnoc(start, [SetHosts(hosts)], probe);
    assert [SetHosts(hosts)] + [probe] == [SetHosts(hosts), probe];
    PoolGoesRound(s, host, targets, 0);
    DealtAt(publicHost, hosts, 0, host, targets, i);
  }

  /** Player 7, the host, probes player 9 over sockets 5000 and 5001: 9 is told that 7 is at port 5000, and 9 then learns the same from the session URLs. */
  lemma ProbeExample(publicHost: string)
    ensures var probe := RequestProbe(7, 7, [(9, Opening(Some(5000), Some(5001)))]);
            && Run(Start(publicHost), [probe]).handouts == [Handout(9, 7, publicHost, 5000)]
            && Run(Start(publicHost), [probe, GetSessionUrls(9, 7, Some(1), Opening(None, None))]).handouts ==
               [Handout(9, 7, publicHost, 5000), Handout(9, 7, publicHost, 5000)]
            && Run(Start(publicHost), [probe, RequestProbe(9, 7, [(7, Opening(None, None))])]).handouts ==
               [Handout(9, 7, publicHost, 5000), Handout(7, 9, publicHost, 5001)]
  {
    var targets := [(9, Opening(Some(5000), Some(5001)))];
    var probe := RequestProbe(7, 7, targets);
    var s := Start(publicHost);
    assert targets[1..] == [];
    var s1 := ProbeOne(s, 7, 7, 9, targets[0].1);
    assert s1 == Step(s, probe);
    var link := Link(7, 9, publicHost, 5000, 5001);
    assert s1 == State(Manager(publicHost, [], 0, map[PairKey(7, 9) := link]), [Handout(9, 7, publicHost, 5000)]);
    assert [probe][1..] == [];
    PairKeyIsSymmetric(7, 9);
    ghost var urls := GetSessionUrls(9, 7, Some(1), Opening(None, None));
    RunSnoc(s, [probe], urls);
    assert [probe] + [urls] == [probe, urls];
    var back := [(7, Opening(None, None))];
    assert back[1..] == [];
    RunSnoc(s, [probe], RequestProbe(9, 7, back));
    assert [probe] + [RequestProbe(9, 7, back)] == [probe, RequestProbe(9, 7, back)];
    assert Step(s1, RequestProbe(9, 7, back)) == ProbeOne(s1, 9, 7, 7, back[0].1);
  }

  // ---------- the told port and the pumps ----------

  function SideOf(link: Link, pid: Pid): RelayPump.Side {
    if pid == link.pidA then RelayPump.A else RelayPump.B
  }

  function PortOf(link: Link, socket: RelayPump.Socket): nat {
    match socket
    case SockA => link.portA % 0x1_0000
    case SockB => link.portB % 0x1_0000
  }

  /**
   In every run of the handlers and every interleaving of the link's pumps: the port a player was
   told for a peer is the one its own datagrams are read from, and every datagram of the peer is
   forwarded to it from that port.
   */
  lemma TrafficUsesTheToldPort(publicHost: string, es: seq<Event>, i: nat, steps: seq<RelayPump.Event>)
    requires var hs := Run(Start(publicHost), es).handouts; i < |hs| && hs[i].receiver != hs[i].about
    ensures var s := Run(Start(publicHost), es);
            var h := s.handouts[i];
            var key := PairKey(h.receiver, h.about);
            && key in s.manager.links
            && var link := s.manager.links[key];
               var sent := RelayPump.PumpOf(RelayPump.Run(RelayPump.OPEN, steps), SideOf(link, h.about)).sent;
               && PortOf(link, RelayPump.InSocket(SideOf(link, h.receiver))) == h.port
               && forall n | 0 <= n < |sent| :: PortOf(link, sent[n].via) == h.port
  {
    HandoutsAgree(publicHost, es, i, i);
    var s := Run(Start(publicHost), es);
    var h := s.handouts[i];
    var link := s.manager.links[PairKey(h.receiver, h.about)];
    RelayPump.PumpsForwardInOrder(steps, SideOf(link, h.about));
  }

  // ---------- the manager and the handlers as code ----------

  class RelayManager {
    const publicHost: string
    var hosts: seq<string>
    var hostSeq: nat
    var links: map<string, Link>

    ghost function Table(): Manager
      reads this
    {
      Manager(publicHost, hosts, hostSeq, links)
    }

    constructor (publicHost: string)
      ensures Table() == Manager(publicHost, [], 0, map[])
    {
      this.publicHost := publicHost;
      hosts, hostSeq, links := [], 0, map[];
    }

    method SetHosts(hosts: seq<string>)
      modifies this`hosts
      ensures Table() == old(Table()).(hosts := hosts)
    {
      this.hosts := hosts;
    }

    method GetOrOpen(pidA: Pid, pidB: Pid, opening: Opening) returns (link: Option<Link>)
      modifies this
      ensures (Table(), link) == GetLink(old(Table()), pidA, pidB, opening)
    {
      var key := PairKey(pidA, pidB);
      if key in links {
        return Some(links[key]);
      }
      var host := "";
      if |hosts| > 0 {
        host := hosts[hostSeq % |hosts|];
        hostSeq := hostSeq + 1;
      }
      if opening.first.None? {
        return None;
      }
      if opening.second.None? {
        return None;
      }
      var linkHost := host;
      if linkHost == "" {
        linkHost := publicHost;
      }
      var l := Link(pidA, pidB, linkHost, opening.first.value, opening.second.value);
      links := links[key := l];
      link := Some(l);
    }

    /** What the caller is told about the host, one relay address for each of the host's stations. */
    method RelayGetSessionURLs(caller: Pid, hostPid: Pid, hostUrls: Option<nat>, opening: Opening, ghost told: seq<Handout>)
      returns (handouts: seq<Handout>)
      modifies this
      ensures State(Table(), told + handouts) ==
              SessionUrls(State(old(Table()), told), caller, hostPid, hostUrls, opening)
    {
      handouts := [];
      assert told + handouts == told;
      if hostUrls.None? {
        return;
      }
      var link := GetOrOpen(hostPid, caller, opening);
      if link.None? {
        return;
      }
      ghost var h := Told(link.value, caller, hostPid);
      for i := 0 to hostUrls.value
        invariant handouts == Repeat(h, i)
      {
        handouts := handouts + [Handout(caller, hostPid, link.value.host, EndpointFor(link.value, hostPid))];
        assert handouts == Repeat(h, i + 1);
      }
    }

    /** What each target is told about the caller. */
    method RelayRequestProbeInitiationExt(caller: Pid, hostPid: Pid, targets: seq<(Pid, Opening)>, ghost told: seq<Handout>)
      returns (handouts: seq<Handout>)
      modifies this
      ensures State(Table(), told + handouts) == ProbeAll(State(old(Table()), told), caller, hostPid, targets)
    {
      handouts := [];
      assert told + handouts == told;
      var i := 0;
      while i < |targets|
        invariant 0 <= i <= |targets|
        invariant ProbeAll(State(Table(), told + handouts), caller, hostPid, targets[i..]) ==
                  ProbeAll(State(old(Table()), told), caller, hostPid, targets)
      {
        var (target, opening) := targets[i];
        assert targets[i..][0] == targets[i] && targets[i..][1..] == targets[i + 1..];
        ghost var before := State(Table(), told + handouts);
        if hostPid != 0 && (caller == hostPid || target == hostPid) {
          var link := GetOrOpen(caller, target, opening);
          if link.Some? {
            var h := Handout(target, caller, link.value.host, EndpointFor(link.value, caller));
            assert told + (handouts + [h]) == told + handouts + [h];
            handouts := handouts + [h];
          } else {
            assert told + handouts + [] == told + handouts;
          }
        }
        assert State(Table(), told + handouts) == ProbeOne(before, caller, hostPid, target, opening);
        i := i + 1;
      }
    }
  }
}
