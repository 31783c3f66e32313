/**
 The connection state machine of a secure endpoint: SYN, CONNECT, DATA, PING, DISCONNECT and
 the cleanup that timers cause, for any number of peers. One input is one atomic step, because
 a packet is handled under the lock of its connection. Inputs are named by their position in
 the run, so that an emitted packet can be traced back to its arrival. What a ticket decrypts
 to is an oracle: a CONNECT carries the PID of its ticket, or nothing when it is refused.
 */
module Session {
  import opened Bytes
  import opened Wrappers
  import opened DispatchQueue

  datatype ConnectionState = NotConnected | Connecting | Connected

  /** What tells connections apart: socket address, stream type and stream ID of the sender. */
  datatype Peer = Peer(address: string, streamType: nat, streamId: nat)

  datatype Input =
    | Syn(peer: Peer)
    | Connect(peer: Peer, maxSubstream: byte, ticket: Option<nat>)
    | Data(peer: Peer, reliable: bool, substream: byte, seqId: uint16, fragmentId: byte)
    | Ping(peer: Peer, reliable: bool, substream: byte, seqId: uint16)
    | Disconnect(peer: Peer)
    | Acknowledgment(peer: Peer)
    | TimerCleanup(peer: Peer)

  /** A queue of arrival positions. */
  type ArrivalQueue = q: Queue<nat> | Keyed(q) witness Queue(map[], 2)

  /** `buffers` holds, per substream, the arrivals whose payloads wait in the fragment buffer. */
  datatype Connection = Connection(state: ConnectionState, pid: nat,
                                   queues: map<byte, ArrivalQueue>, buffers: map<byte, seq<nat>>)

  /** One "data" event: at which step, on which reliable substream if any, for which arrival, on whose behalf, from which payloads. */
  datatype Emission = Emission(step: nat, peer: Peer, substream: Option<byte>, arrival: nat, state: ConnectionState, pid: nat, parts: seq<nat>)

  datatype Endpoint = Endpoint(connections: map<Peer, Connection>, emitted: seq<Emission>)

  const NEW := Connection(NotConnected, 0, map[], map[])

  function ResetConnection(c: Connection): Connection {
    c.(state := NotConnected, queues := map[])
  }

  function FreshQueues(n: nat): (r: map<byte, ArrivalQueue>)
    requires n < 256
    ensures forall m | m in r :: r[m] == Queue(map[], 2)
  {
    if n == 0 then map[] else FreshQueues(n - 1)[n - 1 := Queue(map[], 2)]
  }

  /**
   The queues are rebuilt before the ticket is looked at. `maxSubstream + 1` is an 8-bit sum:
   for 255 no queue is made here.
   */
  function AfterConnect(c: Connection, maxSubstream: byte, ticket: Option<nat>): Connection {
    if c.state.NotConnected? then c
    else
      var c1 := c.(queues := FreshQueues((maxSubstream + 1) % 256));
      if ticket.None? then c1 else c1.(pid := ticket.value, state := Connected)
  }

  function QueueOf(c: Connection, substream: byte): ArrivalQueue {
    if substream in c.queues then c.queues[substream] else Queue(map[], 2)
  }

  function BufferOf(c: Connection, substream: byte): seq<nat> {
    if substream in c.buffers then c.buffers[substream] else []
  }

  /** The events of one drain, and the arrivals left waiting in the fragment buffer. */
  function EmitAll(peer: Peer, m: byte, step: nat, c: Connection, buffer: seq<nat>, outs: seq<Packet<nat>>): (seq<Emission>, seq<nat>)
    decreases outs
  {
    if outs == [] then ([], buffer)
    else
      var p := outs[0];
      var held := if p.isData then buffer + [p.body] else buffer;
      if p.isData && p.fragmentId == 0 then
        var (more, left) := EmitAll(peer, m, step, c, [], outs[1..]);
        ([Emission(step, peer, Some(m), p.body, c.state, c.pid, held)] + more, left)
      else EmitAll(peer, m, step, c, held, outs[1..])
  }

  ghost function Reliable(peer: Peer, step: nat, c: Connection, substream: byte, p: Packet<nat>): (Connection, seq<Emission>) {
    var (outs, q) := Receive(QueueOf(c, substream), p);
    var (events, left) := EmitAll(peer, substream, step, c, BufferOf(c, substream), outs);
    (c.(queues := c.queues[substream := q], buffers := c.buffers[substream := left]), events)
  }

  /** What a packet does to the connection it was sent on, and the events it raises. */
  ghost function Handle(step: nat, c: Connection, input: Input): (Connection, seq<Emission>) {
    match input
    case Syn(_) => (ResetConnection(c).(state := Connecting), [])
    case Connect(_, maxSubstream, ticket) => (AfterConnect(c, maxSubstream, ticket), [])
    case Data(peer, reliable, substream, seqId, fragmentId) =>
      if !c.state.Connected? then (c, [])
      else if reliable then Reliable(peer, step, c, substream, Packet(true, seqId, fragmentId, step))
      else if fragmentId != 0 then (c, [])
      else (c, [Emission(step, peer, None, step, c.state, c.pid, [step])])
    case Ping(peer, reliable, substream, seqId) =>
      if c.state.Connected? && reliable then Reliable(peer, step, c, substream, Packet(false, seqId, 0, step)) else (c, [])
    case _ => (c, [])
  }

  ghost function Step(e: Endpoint, step: nat, input: Input): Endpoint {
    var p := input.peer;
    var c := if p in e.connections then e.connections[p] else NEW;
    match input
    case TimerCleanup(_) => e.(connections := e.connections - {p})
    case Disconnect(_) => e.(connections := e.connections - {p})
    case _ =>
      var (c', events) := Handle(step, c, input);
      Endpoint(e.connections[p := c'], e.emitted + events)
  }

  ghost function After(run: seq<Input>): Endpoint {
    if run == [] then Endpoint(map[], [])
    else Step(After(run[..|run| - 1]), |run| - 1, run[|run| - 1])
  }

  // ---------- the promise, in terms of the inputs alone ----------

  predicate Ends(i: Input, p: Peer) {
    (i.Disconnect? || i.TimerCleanup?) && i.peer == p
  }

  predicate Accepted(i: Input, p: Peer) {
    i.Connect? && i.peer == p && i.ticket.Some?
  }

  /** The last SYN of the peer is input `s`, and nothing has ended the connection since. */
  ghost predicate OpenSince(run: seq<Input>, p: Peer, s: nat) {
    && s < |run| && run[s] == Syn(p)
    && forall i | s < i < |run| :: run[i] != Syn(p) && !Ends(run[i], p)
  }

  /** Ticket `pid` was accepted by input `c`, after the last SYN, and it is the last one accepted. */
  ghost predicate Authenticated(run: seq<Input>, p: Peer, s: nat, c: nat, pid: nat) {
    && OpenSince(run, p, s) && s < c < |run|
    && Accepted(run[c], p) && run[c].ticket.value == pid
    && forall i | c < i < |run| :: !Accepted(run[i], p)
  }

  /** Input `a` is a packet of the peer, and there was no SYN, CONNECT or end of it since. */
  ghost predicate ArrivedInThisSession(run: seq<Input>, p: Peer, a: nat) {
    && a < |run| && (run[a].Data? || run[a].Ping?) && run[a].peer == p
    && forall i | a < i < |run| :: run[i] != Syn(p) && !Ends(run[i], p) && !(run[i].Connect? && run[i].peer == p)
  }

  /** The event is justified by the inputs before it. */
  ghost predicate Justified(run: seq<Input>, e: Emission) {
    && e.step < |run| && e.state == Connected
    && (exists s, c :: Authenticated(run[..e.step], e.peer, s, c, e.pid))
    && ArrivedInThisSession(run[..e.step + 1], e.peer, e.arrival) && run[e.arrival].Data?
  }

  // ---------- the invariant ----------

  ghost predicate Current(run: seq<Input>, p: Peer, packet: Packet<nat>) {
    ArrivedInThisSession(run, p, packet.body) &&
    (packet.isData ==> run[packet.body].Data? && run[packet.body].fragmentId == packet.fragmentId)
  }

  ghost predicate Sound(run: seq<Input>, p: Peer, c: Connection) {
    && (!c.state.NotConnected? ==> exists s :: OpenSince(run, p, s))
    && (c.state.Connected? ==> exists s, a :: Authenticated(run, p, s, a, c.pid))
    && (!c.state.Connected? ==> forall m | m in c.queues :: c.queues[m].slots == map[])
    && (forall m, w | m in c.queues && w in c.queues[m].slots :: Current(run, p, c.queues[m].slots[w]))
  }

  /** An input of another peer, or one that neither opens, ends nor authenticates, changes no promise. */
  lemma SoundKept(run: seq<Input>, x: Input, p: Peer, c: Connection)
    requires Sound(run, p, c)
    requires x.peer != p || !(x.Syn? || x.Connect? || Ends(x, p))
    ensures Sound(run + [x], p, c)
  {
    if !c.state.NotConnected? {
      var s :| OpenSince(run, p, s);
      assert OpenSince(run + [x], p, s);
    }
    if c.state.Connected? {
      var s, a :| Authenticated(run, p, s, a, c.pid);
      assert Authenticated(run + [x], p, s, a, c.pid);
    }
    forall m, w | m in c.queues && w in c.queues[m].slots
      ensures Current(run + [x], p, c.queues[m].slots[w])
    {
      CurrentKept(run, x, p, c.queues[m].slots[w]);
    }
  }

  lemma CurrentKept(run: seq<Input>, x: Input, p: Peer, packet: Packet<nat>)
    requires Current(run, p, packet)
    requires x.peer != p || !(x.Syn? || x.Connect? || Ends(x, p))
    ensures Current(run + [x], p, packet)
  {
  }

  lemma ConnectSound(run: seq<Input>, x: Input, c: Connection)
    requires x.Connect? && Sound(run, x.peer, c)
    ensures Sound(run + [x], x.peer, AfterConnect(c, x.maxSubstream, x.ticket))
  {
    var p := x.peer;
    if !c.state.NotConnected? {
      var s :| OpenSince(run, p, s);
      assert OpenSince(run + [x], p, s);
      if x.ticket.Some? {
        assert Authenticated(run + [x], p, s, |run|, x.ticket.value);
      } else if c.state.Connected? {
        var s, a :| Authenticated(run, p, s, a, c.pid);
        assert Authenticated(run + [x], p, s, a, c.pid);
      }
    }
  }

  /** Every event of a drain is justified when the packets drained are of this session. */
  lemma {:induction false} EventsJustified(run: seq<Input>, x: Input, c: Connection, m: byte, buffer: seq<nat>, outs: seq<Packet<nat>>)
    requires c.state.Connected? && Sound(run, x.peer, c)
    requires forall i | 0 <= i < |outs| :: Current(run + [x], x.peer, outs[i])
    ensures forall e | e in EmitAll(x.peer, m, |run|, c, buffer, outs).0 :: Justified(run + [x], e)
    decreases outs
  {
    if outs != [] {
      var p := outs[0];
      var held := if p.isData then buffer + [p.body] else buffer;
      EventsJustified(run, x, c, m, if p.isData && p.fragmentId == 0 then [] else held, outs[1..]);
      if p.isData && p.fragmentId == 0 {
        assert (run + [x])[..|run|] == run && (run + [x])[..|run| + 1] == run + [x];
        assert Justified(run + [x], Emission(|run|, x.peer, Some(m), p.body, c.state, c.pid, held));
      }
    }
  }

  lemma ReliableSound(run: seq<Input>, x: Input, c: Connection, packet: Packet<nat>, m: byte)
    requires x.Data? || x.Ping?
    requires c.state.Connected? && Sound(run, x.peer, c)
    requires packet.body == |run| && packet.isData == x.Data? && (x.Data? ==> packet.fragmentId == x.fragmentId)
    ensures var (c', events) := Reliable(x.peer, |run|, c, m, packet);
            && Sound(run + [x], x.peer, c')
            && forall e | e in events :: Justified(run + [x], e)
  {
    var run' := run + [x];
    var p := x.peer;
    SoundKept(run, x, p, c);
    assert Current(run', p, packet);
    var q := Enqueued(QueueOf(c, m), packet);
    var (outs, q') := Receive(QueueOf(c, m), packet);
    forall w | w in q.slots
      ensures Current(run', p, q.slots[w])
    {
    }
    DrainTakesFrom(q);
    EventsJustified(run, x, c, m, BufferOf(c, m), outs);
  }

  lemma HandleSound(run: seq<Input>, x: Input, c: Connection)
    requires Sound(run, x.peer, c) && !x.Disconnect? && !x.TimerCleanup?
    ensures var (c', events) := Handle(|run|, c, x);
            && Sound(run + [x], x.peer, c')
            && forall e | e in events :: Justified(run + [x], e)
  {
    match x
    case Syn(p) =>
      assert OpenSince(run + [x], p, |run|);
    case Connect(p, maxSubstream, ticket) =>
      ConnectSound(run, x, c);
    case Data(p, reliable, m, seqId, fragmentId) =>
      SoundKept(run, x, p, c);
      if c.state.Connected? {
        if reliable {
          ReliableSound(run, x, c, Packet(true, seqId, fragmentId, |run|), m);
        } else {
          assert (run + [x])[..|run|] == run && (run + [x])[..|run| + 1] == run + [x];
        }
      }
    case Ping(p, reliable, m, seqId) =>
      SoundKept(run, x, p, c);
      if c.state.Connected? && reliable {
        ReliableSound(run, x, c, Packet(false, seqId, 0, |run|), m);
      }
    case _ =>
      SoundKept(run, x, x.peer, c);
  }

  lemma JustifiedKept(run: seq<Input>, x: Input, e: Emission)
    requires Justified(run, e)
    ensures Justified(run + [x], e)
  {
    assert (run + [x])[..e.step] == run[..e.step];
    assert (run + [x])[..e.step + 1] == run[..e.step + 1];
  }

  /**
   Session safety over every run, with repeated SYNs, refused CONNECTs and CONNECTs while
   connected: whenever "data" is emitted, the connection is connected, a ticket was accepted
   since its last SYN, the PID is that of the ticket accepted last, and the packet arrived
   since that SYN and since the last CONNECT.
   */
  lemma {:induction false} SessionSafety(run: seq<Input>)
    ensures forall e | e in After(run).emitted :: Justified(run, e)
    ensures forall p | p in After(run).connections :: Sound(run, p, After(run).connections[p])
  {
    if run != [] {
      var init, x := run[..|run| - 1], run[|run| - 1];
      assert run == init + [x];
      SessionSafety(init);
      var before := After(init);
      var c := if x.peer in before.connections then before.connections[x.peer] else NEW;
      if !x.Disconnect? && !x.TimerCleanup? {
        HandleSound(init, x, c);
      }
      forall p | p in before.connections && p != x.peer
        ensures Sound(run, p, before.connections[p])
      {
        SoundKept(init, x, p, before.connections[p]);
      }
      forall e | e in before.emitted
        ensures Justified(run, e)
      {
        JustifiedKept(init, x, e);
      }
    }
  }

  // ---------- the converse: what the inputs oblige the endpoint to hold ----------

  lemma AfterExtends(run: seq<Input>, x: Input)
    ensures After(run + [x]) == Step(After(run), |run|, x)
  {
    assert (run + [x])[..|run|] == run;
  }

  /** What the endpoint holds for a peer; a peer it does not know counts as new. */
  ghost function ConnectionOf(e: Endpoint, p: Peer): Connection {
    if p in e.connections then e.connections[p] else NEW
  }

  /** Inputs that may change a connection. Acknowledgments, unreliable DATA and unreliable PINGs are not among them. */
  predicate Touches(x: Input, p: Peer) {
    && x.peer == p
    && match x
       case Syn(_) => true
       case Connect(_, _, _) => true
       case Data(_, reliable, _, _, _) => reliable
       case Ping(_, reliable, _, _) => reliable
       case Disconnect(_) => true
       case Acknowledgment(_) => false
       case TimerCleanup(_) => true
  }

  /** Every other input, of this peer or another, leaves state, PID, queues and fragment buffers of the connection as they were. */
  lemma OthersLeaveTheConnection(run: seq<Input>, x: Input, p: Peer)
    requires !Touches(x, p)
    ensures ConnectionOf(After(run + [x]), p) == ConnectionOf(After(run), p)
  {
    AfterExtends(run, x);
  }

  /** Only DATA raises events. */
  lemma OnlyDataRaises(run: seq<Input>, x: Input)
    requires !x.Data?
    ensures After(run + [x]).emitted == After(run).emitted
  {
    AfterExtends(run, x);
    if !x.Disconnect? && !x.TimerCleanup? {
      StepHandles(After(run), |run|, x, ConnectionOf(After(run), x.peer));
    }
  }

  /** A SYN that nothing has ended keeps the connection open, whatever else arrives. */
  lemma {:induction false} StaysOpen(run: seq<Input>, p: Peer, s: nat)
    requires OpenSince(run, p, s)
    ensures p in After(run).connections && !After(run).connections[p].state.NotConnected?
  {
    var init, x := run[..|run| - 1], run[|run| - 1];
    assert run == init + [x];
    AfterExtends(init, x);
    if s < |init| {
      assert OpenSince(init, p, s);
      StaysOpen(init, p, s);
    }
  }

  /** A ticket accepted since the last SYN keeps the peer connected under its PID, until a later one is accepted. */
  lemma {:induction false} StaysConnected(run: seq<Input>, p: Peer, s: nat, c: nat, pid: nat)
    requires Authenticated(run, p, s, c, pid)
    ensures p in After(run).connections
    ensures After(run).connections[p].state == Connected && After(run).connections[p].pid == pid
  {
    var init, x := run[..|run| - 1], run[|run| - 1];
    assert run == init + [x];
    AfterExtends(init, x);
    assert OpenSince(init, p, s);
    if c == |init| {
      StaysOpen(init, p, s);
    } else {
      assert Authenticated(init, p, s, c, pid);
      StaysConnected(init, p, s, c, pid);
    }
  }

  /** After every run a peer is open exactly if its last SYN was not ended. */
  lemma OpenIff(run: seq<Input>, p: Peer)
    ensures !ConnectionOf(After(run), p).state.NotConnected? <==> exists s :: OpenSince(run, p, s)
  {
    SessionSafety(run);
    if s :| OpenSince(run, p, s) {
      StaysOpen(run, p, s);
    }
  }

  /** After every run a peer is connected under a PID exactly if that is the PID of the last ticket accepted since its last SYN. */
  lemma ConnectedIff(run: seq<Input>, p: Peer, pid: nat)
    ensures (var c := ConnectionOf(After(run), p); c.state.Connected? && c.pid == pid)
            <==> exists s, c :: Authenticated(run, p, s, c, pid)
  {
    SessionSafety(run);
    if s, c :| Authenticated(run, p, s, c, pid) {
      StaysConnected(run, p, s, c, pid);
    }
  }

  /** A complete unreliable DATA of an authenticated peer raises exactly one event, at once; a fragment raises none. */
  lemma UnreliableRaisesOne(run: seq<Input>, p: Peer, s: nat, c: nat, pid: nat, m: byte, seqId: uint16, fragmentId: byte)
    requires Authenticated(run, p, s, c, pid)
    ensures After(run + [Data(p, false, m, seqId, fragmentId)]).emitted ==
            After(run).emitted + if fragmentId == 0 then [Emission(|run|, p, None, |run|, Connected, pid, [|run|])] else []
  {
    StaysConnected(run, p, s, c, pid);
    AfterExtends(run, Data(p, false, m, seqId, fragmentId));
  }

  /** DATA of a peer that no accepted ticket connects raises nothing and changes nothing. */
  lemma UnauthenticatedIsDropped(run: seq<Input>, x: Input)
    requires x.Data? || x.Ping?
    requires !exists s, c, pid :: Authenticated(run, x.peer, s, c, pid)
    ensures After(run + [x]).emitted == After(run).emitted
    ensures ConnectionOf(After(run + [x]), x.peer) == ConnectionOf(After(run), x.peer)
  {
    ConnectedIff(run, x.peer, ConnectionOf(After(run), x.peer).pid);
    AfterExtends(run, x);
    StepHandles(After(run), |run|, x, ConnectionOf(After(run), x.peer));
  }

  lemma {:induction false} FreshQueuesAre(n: nat)
    requires n < 256
    ensures forall m: byte :: m in FreshQueues(n) <==> m < n
  {
    if n > 0 {
      FreshQueuesAre(n - 1);
    }
  }

  /**
   CONNECT of an open peer empties its queues and makes one for each substream up to the maximum,
   each waiting for sequence ID 2, even if the ticket is refused; none at all for maximum 255.
   */
  lemma ConnectRebuildsQueues(run: seq<Input>, p: Peer, s: nat, maxSubstream: byte, ticket: Option<nat>, m: byte)
    requires OpenSince(run, p, s)
    ensures var queues := ConnectionOf(After(run + [Connect(p, maxSubstream, ticket)]), p).queues;
            && (m in queues <==> m <= maxSubstream && maxSubstream != 255)
            && (m in queues ==> queues[m] == Queue(map[], 2))
  {
    StaysOpen(run, p, s);
    AfterExtends(run, Connect(p, maxSubstream, ticket));
    FreshQueuesAre((maxSubstream + 1) % 256);
  }

  // ---------- the endpoint and its connections as objects ----------

  class PRUDPConnection {
    var state: ConnectionState
    var pid: nat
    var queues: map<byte, ArrivalQueue>
    var buffers: map<byte, seq<nat>>

    ghost function State(): Connection
      reads this
    {
      Connection(state, pid, queues, buffers)
    }

    constructor ()
      ensures State() == NEW
    {
      state, pid, queues, buffers := NotConnected, 0, map[], map[];
    }

    method Reset()
      modifies this
      ensures State() == ResetConnection(old(State()))
    {
      state := NotConnected;
      queues := map[];
    }

    method InitializePacketDispatchQueues(maxSubstream: byte)
      modifies this`queues
      ensures queues == FreshQueues((maxSubstream + 1) % 256)
    {
      queues := map[];
      var i := 0;
      while i < (maxSubstream + 1) % 256
        invariant 0 <= i <= (maxSubstream + 1) % 256
        invariant queues == FreshQueues(i)
      {
        queues := queues[i := Queue(map[], 2)];
        i := i + 1;
      }
    }
  }

  class PRUDPEndPoint {
    var connections: map<Peer, PRUDPConnection>
    var emitted: seq<Emission>
    var step: nat

    ghost predicate Valid()
      reads this
    {
      forall p, q | p in connections && q in connections && p != q :: connections[p] != connections[q]
    }

    ghost predicate Represents(e: Endpoint)
      reads this, connections.Values
    {
      && connections.Keys == e.connections.Keys && emitted == e.emitted
      && forall p | p in connections :: connections[p].State() == e.connections[p]
    }

    constructor ()
      ensures Valid() && Represents(After([])) && step == 0
    {
      connections, emitted, step := map[], [], 0;
    }

    method HandleConnect(c: PRUDPConnection, maxSubstream: byte, ticket: Option<nat>)
      modifies c
      ensures c.State() == AfterConnect(old(c.State()), maxSubstream, ticket)
    {
      if c.state.NotConnected? {
        return;
      }
      c.InitializePacketDispatchQueues(maxSubstream);
      if ticket.None? {
        return;
      }
      c.pid := ticket.value;
      c.state := Connected;
    }

    method HandleReliable(c: PRUDPConnection, peer: Peer, m: byte, packet: Packet<nat>)
      requires packet.isData
      modifies this`emitted, c`queues, c`buffers
      ensures var (c', events) := Reliable(peer, step, old(c.State()), m, packet);
              c.State() == c' && emitted == old(emitted) + events
    {
      var q := if m in c.queues then c.queues[m] else Queue(map[], 2);
      var buffer := if m in c.buffers then c.buffers[m] else [];
      q := q.(slots := q.slots[packet.seqId := packet]);
      ghost var before, end, all := c.State(), Drain(q).1, EmitAll(peer, m, step, c.State(), buffer, Drain(q).0);
      while q.next in q.slots
        invariant Keyed(q) && c.State() == before && Drain(q).1 == end
        invariant old(emitted) + all.0 == emitted + EmitAll(peer, m, step, before, buffer, Drain(q).0).0
        invariant all.1 == EmitAll(peer, m, step, before, buffer, Drain(q).0).1
        decreases |q.slots|
      {
        var next := q.slots[q.next];
        EmitNext(peer, m, step, before, buffer, q, emitted);
        DispatchShrinks(q);
        if next.isData {
          buffer := buffer + [next.body];
          if next.fragmentId == 0 {
            emitted := emitted + [Emission(step, peer, Some(m), next.body, c.state, c.pid, buffer)];
            buffer := [];
          }
        }
        q := Queue(q.slots - {next.seqId}, Wire(q.next + 1));
      }
      c.queues := c.queues[m := q];
      c.buffers := c.buffers[m := buffer];
    }

    method HandleData(c: PRUDPConnection, x: Input)
      requires x.Data?
      modifies this`emitted, c
      ensures var (c', events) := Handle(step, old(c.State()), x);
              c.State() == c' && emitted == old(emitted) + events
    {
      if !c.state.Connected? {
        return;
      }
      if x.reliable {
        HandleReliable(c, x.peer, x.substream, Packet(true, x.seqId, x.fragmentId, step));
      } else if x.fragmentId == 0 {
        emitted := emitted + [Emission(step, x.peer, None, step, c.state, c.pid, [step])];
      }
    }

    method HandlePing(c: PRUDPConnection, x: Input)
      requires x.Ping?
      modifies c
      ensures Handle(step, old(c.State()), x) == (c.State(), [])
    {
      if c.state.Connected? && x.reliable {
        var q := if x.substream in c.queues then c.queues[x.substream] else Queue(map[], 2);
        var buffer := if x.substream in c.buffers then c.buffers[x.substream] else [];
        c.queues := c.queues[x.substream := q.(slots := q.slots[x.seqId := Packet(false, x.seqId, 0, step)])];
        c.buffers := c.buffers[x.substream := buffer];
      }
    }

    method HandlePacket(c: PRUDPConnection, x: Input)
      requires !x.Disconnect? && !x.TimerCleanup?
      modifies this`emitted, c
      ensures var (c', events) := Handle(step, old(c.State()), x);
              c.State() == c' && emitted == old(emitted) + events
    {
      match x {
        case Syn(_) =>
          c.Reset();
          c.state := Connecting;
        case Connect(_, maxSubstream, ticket) => HandleConnect(c, maxSubstream, ticket);
        case Data(_, _, _, _, _) => HandleData(c, x);
        case Ping(_, _, _, _) => HandlePing(c, x);
        case _ =>
      }
    }

    method Deliver(x: Input, ghost e: Endpoint)
      requires Valid() && Represents(e) && !x.Disconnect? && !x.TimerCleanup?
      modifies this, connections.Values
      ensures Valid() && step == old(step)
      ensures Represents(Step(e, step, x))
    {
      var c := FindOrCreate(x.peer, e);
      ghost var was := c.State();
      StepHandles(e, step, x, was);
      ghost var e' := Step(e, step, x);
      HandlePacket(c, x);
      assert c.State() == e'.connections[x.peer];
      forall p | p in connections && p != x.peer
        ensures connections[p].State() == e'.connections[p]
      {
        assert connections[p] != c;
      }
    }

    /** The connection of a peer, made if there is none. */
    method FindOrCreate(p: Peer, ghost e: Endpoint) returns (c: PRUDPConnection)
      requires Valid() && Represents(e)
      modifies this`connections
      ensures Valid() && connections == old(connections)[p := c]
      ensures if p in old(connections) then c == old(connections[p]) else fresh(c)
      ensures c.State() == if p in e.connections then e.connections[p] else NEW
      ensures Represents(e.(connections := e.connections[p := if p in e.connections then e.connections[p] else NEW]))
    {
      if p !in connections {
        c := new PRUDPConnection();
        connections := connections[p := c];
      }
      c := connections[p];
    }

    /** Handles one packet of any peer, or a timer that gives a connection up. */
    method Process(x: Input, ghost e: Endpoint)
      requires Valid() && Represents(e)
      modifies this, connections.Values
      ensures Valid() && step == old(step) + 1
      ensures Represents(Step(e, old(step), x))
    {
      if x.Disconnect? || x.TimerCleanup? {
        CleanupConnection(x.peer, e);
      } else {
        Deliver(x, e);
      }
      step := step + 1;
    }

    method CleanupConnection(p: Peer, ghost e: Endpoint)
      requires Valid() && Represents(e)
      modifies this`connections, connections.Values
      ensures Valid() && Represents(e.(connections := e.connections - {p}))
    {
      if p in connections {
        connections[p].Reset();
        connections := connections - {p};
      }
    }
  }

  lemma StepHandles(e: Endpoint, step: nat, x: Input, c: Connection)
    requires !x.Disconnect? && !x.TimerCleanup? && c == if x.peer in e.connections then e.connections[x.peer] else NEW
    ensures Step(e, step, x) == Endpoint(e.connections[x.peer := Handle(step, c, x).0], e.emitted + Handle(step, c, x).1)
  {
  }

  lemma EmitNext(peer: Peer, m: byte, step: nat, c: Connection, buffer: seq<nat>, q: Queue<nat>, emitted: seq<Emission>)
    requires Keyed(q) && q.next in q.slots
    ensures var p := q.slots[q.next];
            var q' := Dispatched(q, p);
            && Keyed(q') && Drain(q').1 == Drain(q).1
            && var (events, left) := EmitAll(peer, m, step, c, buffer, Drain(q).0);
               var held := if p.isData then buffer + [p.body] else buffer;
               var closes := p.isData && p.fragmentId == 0;
               var (events', left') := EmitAll(peer, m, step, c, if closes then [] else held, Drain(q').0);
               && left == left'
               && emitted + events ==
                  (if closes then emitted + [Emission(step, peer, Some(m), p.body, c.state, c.pid, held)] else emitted) + events'
  {
    DrainStep(q, q.slots[q.next]);
    assert Drain(q).0[1..] == Drain(Dispatched(q, q.slots[q.next])).0;
  }
}
