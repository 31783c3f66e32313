/**
 What the messages of a session are made of. SYN empties the queues of a connection but not its
 fragment buffers, so a message can start with fragments that arrived before the SYN.
 */
module Leftovers {
  import opened Bytes
  import opened Wrappers
  import opened DispatchQueue
  import opened Session

  /** The arrivals whose payloads wait in the fragment buffer of a peer's substream. */
  ghost function Waiting(run: seq<Input>, p: Peer, m: byte): seq<nat> {
    if p in After(run).connections then BufferOf(After(run).connections[p], m) else []
  }

  lemma {:induction false} LeftIsFrom(peer: Peer, m: byte, step: nat, c: Connection, buffer: seq<nat>, outs: seq<Packet<nat>>, bound: nat)
    requires forall a | a in buffer :: a < bound
    requires forall i | 0 <= i < |outs| :: outs[i].body < bound
    ensures forall a | a in EmitAll(peer, m, step, c, buffer, outs).1 :: a < bound
    decreases outs
  {
    if outs != [] {
      var p := outs[0];
      var held := if p.isData then buffer + [p.body] else buffer;
      LeftIsFrom(peer, m, step, c, if p.isData && p.fragmentId == 0 then [] else held, outs[1..], bound);
    }
  }

  lemma ReliableLeaves(run: seq<Input>, p: Peer, c: Connection, m: byte, packet: Packet<nat>)
    requires Sound(run, p, c) && packet.body == |run|
    requires forall a | a in BufferOf(c, m) :: a < |run|
    ensures forall a | a in BufferOf(Reliable(p, |run|, c, m, packet).0, m) :: a <= |run|
  {
    var q: Queue<nat> := Enqueued<nat>(QueueOf(c, m), packet);
    DrainTakesFrom<nat>(q);
    forall w | w in q.slots
      ensures q.slots[w].body <= |run|
    {
      assert w != packet.seqId ==> Current(run, p, QueueOf(c, m).slots[w]);
    }
    var outs: seq<Packet<nat>> := Receive<nat>(QueueOf(c, m), packet).0;
    forall i | 0 <= i < |outs|
      ensures outs[i].body <= |run|
    {
      var w :| w in q.slots && q.slots[w] == outs[i];
    }
    LeftIsFrom(p, m, |run|, c, BufferOf(c, m), outs, |run| + 1);
    var left := EmitAll(p, m, |run|, c, BufferOf(c, m), outs).1;
    assert Reliable(p, |run|, c, m, packet).0.buffers == c.buffers[m := left];
  }

  lemma {:induction false} WaitingArrivedBefore(run: seq<Input>, p: Peer, m: byte)
    ensures forall a | a in Waiting(run, p, m) :: a < |run|
  {
    if run != [] {
      var init, x := run[..|run| - 1], run[|run| - 1];
      WaitingArrivedBefore(init, p, m);
      SessionSafety(init);
      var c := if x.peer in After(init).connections then After(init).connections[x.peer] else NEW;
      if !((x.Data? || x.Ping?) && x.peer == p && x.substream == m && c.state.Connected? && x.reliable) {
        assert Waiting(run, p, m) == Waiting(init, p, m) || Waiting(run, p, m) == [];
      } else {
        assert BufferOf(c, m) == Waiting(init, p, m);
        ReliableLeaves(init, p, c, m, Packet(x.Data?, x.seqId, if x.Data? then x.fragmentId else 0, |init|));
      }
    }
  }

  /**
   SYN empties the queues but not the fragment buffers. After any run, a new handshake and a
   one-fragment message, the event is raised with the new PID, and its payload starts with
   whatever was waiting before the SYN.
   */
  lemma FirstMessageAfterSyn(run: seq<Input>, p: Peer, maxSubstream: byte, pid: nat)
    ensures var n := |run|;
            After(run + [Syn(p), Connect(p, maxSubstream, Some(pid)), Data(p, true, 0, 2, 0)]).emitted ==
            After(run).emitted + [Emission(n + 2, p, Some(0), n + 2, Connected, pid, Waiting(run, p, 0) + [n + 2])]
  {
    var n := |run|;
    var run2 := run + [Syn(p), Connect(p, maxSubstream, Some(pid))];
    var run3 := run + [Syn(p), Connect(p, maxSubstream, Some(pid)), Data(p, true, 0, 2, 0)];
    assert run3[..n + 2] == run2;
    AfterHandshake(run, p, maxSubstream, pid);
    var e := After(run2);
    FirstMessage(p, n + 2, e.connections[p]);
    DataEmits(e, n + 2, Data(p, true, 0, 2, 0));
    assert After(run3) == Step(e, n + 2, Data(p, true, 0, 2, 0));
  }

  lemma DataEmits(e: Endpoint, step: nat, x: Input)
    requires x.Data? && x.peer in e.connections
    ensures Step(e, step, x).emitted == e.emitted + Handle(step, e.connections[x.peer], x).1
  {
  }

  lemma AfterHandshake(run: seq<Input>, p: Peer, maxSubstream: byte, pid: nat)
    ensures var e := After(run + [Syn(p), Connect(p, maxSubstream, Some(pid))]);
            && e.emitted == After(run).emitted && p in e.connections
            && var c := e.connections[p];
               c.state == Connected && c.pid == pid && BufferOf(c, 0) == Waiting(run, p, 0) && QueueOf(c, 0) == Queue(map[], 2)
  {
    var run1, run2 := run + [Syn(p)], run + [Syn(p), Connect(p, maxSubstream, Some(pid))];
    assert run1[..|run|] == run && run2[..|run| + 1] == run1;
    assert After(run1) == Step(After(run), |run|, Syn(p));
    assert After(run2) == Step(After(run1), |run| + 1, Connect(p, maxSubstream, Some(pid)));
  }

  lemma FirstMessage(p: Peer, step: nat, c: Connection)
    requires c.state == Connected && QueueOf(c, 0) == Queue(map[], 2)
    ensures Handle(step, c, Data(p, true, 0, 2, 0)).1 ==
            [Emission(step, p, Some(0), step, Connected, c.pid, BufferOf(c, 0) + [step])]
  {
    var packet := Packet(true, 2, 0, step);
    FirstPacketDispatched(packet);
    var outs := [packet];
    assert outs[1..] == [];
    assert EmitAll(p, 0, step, c, [], []) == ([], []);
  }

  lemma FirstPacketDispatched(packet: Packet<nat>)
    requires packet.isData && packet.seqId == 2
    ensures Receive(Queue(map[], 2), packet).0 == [packet]
  {
    var q := Enqueued(Queue(map[], 2), packet);
    DrainStep(q, packet);
    assert Dispatched(q, packet).slots == map[];
    assert [packet] + [] == [packet];
  }

  /** A fragment that waits when the peer starts over is handed on under the PID of the next ticket. */
  lemma FragmentCrossesSessions(p: Peer)
    ensures var run := [Syn(p), Connect(p, 0, Some(7)), Data(p, true, 0, 2, 1)];
            && Waiting(run, p, 0) == [2] && After(run).emitted == []
            && After(run + [Syn(p), Connect(p, 0, Some(8)), Data(p, true, 0, 2, 0)]).emitted ==
               [Emission(5, p, Some(0), 5, Connected, 8, [2, 5])]
  {
    var none: seq<Input> := [];
    var open := none + [Syn(p), Connect(p, 0, Some(7))];
    var run := [Syn(p), Connect(p, 0, Some(7)), Data(p, true, 0, 2, 1)];
    AfterHandshake(none, p, 0, 7);
    assert run[..2] == open;
    var e, x := After(open), Data(p, true, 0, 2, 1);
    var c, packet := e.connections[p], Packet(true, 2, 1, 2);
    assert After(run) == Step(e, 2, x);
    FirstPacketDispatched(packet);
    var outs := [packet];
    assert outs[1..] == [];
    var empty: seq<nat> := [];
    assert empty + [packet.body] == [2];
    assert EmitAll(p, 0, 2, c, [2], outs[1..]) == ([], [2]);
    assert EmitAll(p, 0, 2, c, empty, outs) == EmitAll(p, 0, 2, c, [2], outs[1..]);
    assert Handle(2, c, x) == Reliable(p, 2, c, 0, packet);
    FirstMessageAfterSyn(run, p, 0, 8);
    assert Waiting(run, p, 0) + [5] == [2, 5];
  }

  // ---------- which messages are made of this session's packets alone ----------

  /** The parts arrived after input `s`. */
  ghost predicate Since(parts: seq<nat>, s: nat) {
    forall i | 0 <= i < |parts| :: parts[i] > s
  }

  ghost predicate RaisedSince(es: seq<Emission>, p: Peer, m: byte, s: nat) {
    exists k | 0 <= k < |es| :: es[k].peer == p && es[k].substream == Some(m) && es[k].step > s
  }

  /** `x` is a reliable packet on substream `m` of a peer that is connected. */
  ghost predicate Reaches(before: Endpoint, x: Input, p: Peer, m: byte) {
    && (x.Data? || x.Ping?) && x.peer == p && x.reliable && x.substream == m
    && p in before.connections && before.connections[p].state.Connected?
  }

  function PacketOf(x: Input, step: nat): Packet<nat>
    requires x.Data? || x.Ping?
  {
    Packet(x.Data?, x.seqId, if x.Data? then x.fragmentId else 0, step)
  }

  /** What the input makes the queue of the substream dispatch. */
  ghost function DispatchedBy(run: seq<Input>, x: Input, p: Peer, m: byte): seq<Packet<nat>>
    requires Reaches(After(run), x, p, m)
  {
    Receive<nat>(QueueOf(After(run).connections[p], m), PacketOf(x, |run|)).0
  }

  ghost function Drained(run: seq<Input>, x: Input, p: Peer, m: byte): (seq<Emission>, seq<nat>)
    requires Reaches(After(run), x, p, m)
  {
    EmitAll(p, m, |run|, After(run).connections[p], Waiting(run, p, m), DispatchedBy(run, x, p, m))
  }

  /** A reliable packet of the substream drains; any other input leaves buffer and events of the substream alone. */
  lemma BufferStep(init: seq<Input>, x: Input, p: Peer, m: byte)
    requires !Ends(x, p)
    ensures var run := init + [x];
            if Reaches(After(init), x, p, m) then
              Waiting(run, p, m) == Drained(init, x, p, m).1 && After(run).emitted == After(init).emitted + Drained(init, x, p, m).0
            else
              Waiting(run, p, m) == Waiting(init, p, m) && OthersOnly(init, x, p, m)
  {
    var run := init + [x];
    assert run[..|run| - 1] == init;
    assert After(run) == Step(After(init), |init|, x);
    var before := After(init);
    var c := if x.peer in before.connections then before.connections[x.peer] else NEW;
    if !x.Disconnect? && !x.TimerCleanup? {
      StepHandles(before, |init|, x, c);
      if !Reaches(before, x, p, m) {
        HandleOther(|init|, c, x, p, m);
        assert forall k | 0 <= k < |Handle(|init|, c, x).1| ::
                 After(run).emitted[|before.emitted| + k] == Handle(|init|, c, x).1[k];
      }
    }
  }

  /** The new events are none of the substream's. */
  ghost predicate OthersOnly(init: seq<Input>, x: Input, p: Peer, m: byte) {
    var es, es' := After(init).emitted, After(init + [x]).emitted;
    es <= es' && forall k | |es| <= k < |es'| :: es'[k].peer != p || es'[k].substream != Some(m)
  }

  ghost predicate AllOn(events: seq<Emission>, p: Peer, m: byte, step: nat) {
    forall k | 0 <= k < |events| :: events[k].peer == p && events[k].substream == Some(m) && events[k].step == step
  }

  ghost predicate NoneOn(events: seq<Emission>, p: Peer, m: byte) {
    forall k | 0 <= k < |events| :: events[k].peer != p || events[k].substream != Some(m)
  }

  lemma {:induction false} EventsOf(peer: Peer, m: byte, step: nat, c: Connection, buffer: seq<nat>, outs: seq<Packet<nat>>)
    ensures AllOn(EmitAll(peer, m, step, c, buffer, outs).0, peer, m, step)
    decreases outs
  {
    if outs != [] {
      var p := outs[0];
      var held := if p.isData then buffer + [p.body] else buffer;
      EventsOf(peer, m, step, c, if p.isData && p.fragmentId == 0 then [] else held, outs[1..]);
    }
  }

  /** An input that does not reach the substream of the peer raises no event on it. */
  lemma HandleOther(step: nat, c: Connection, x: Input, p: Peer, m: byte)
    requires x.peer != p || !((x.Data? || x.Ping?) && x.reliable && x.substream == m && c.state.Connected?)
    ensures NoneOn(Handle(step, c, x).1, p, m)
    ensures x.peer == p ==> BufferOf(Handle(step, c, x).0, m) == BufferOf(c, m)
  {
    if (x.Data? || x.Ping?) && c.state.Connected? && x.reliable {
      var m', outs := x.substream, Receive<nat>(QueueOf(c, x.substream), PacketOf(x, step)).0;
      EventsOf(x.peer, m', step, c, BufferOf(c, m'), outs);
      var (events, left) := EmitAll(x.peer, m', step, c, BufferOf(c, m'), outs);
      assert Handle(step, c, x).1 == events && Handle(step, c, x).0.buffers == c.buffers[m' := left];
    }
  }

  /** The buffer, grown by parts that arrived after `s`. */
  ghost predicate GrownSince(buffer: seq<nat>, parts: seq<nat>, s: nat) {
    buffer <= parts && Since(parts[|buffer|..], s)
  }

  ghost predicate OutsSince(outs: seq<Packet<nat>>, s: nat) {
    forall i | 0 <= i < |outs| :: outs[i].body > s
  }

  ghost predicate LaterSince(events: seq<Emission>, s: nat) {
    forall k | 1 <= k < |events| :: Since(events[k].parts, s)
  }

  lemma GrownMore(buffer: seq<nat>, a: nat, parts: seq<nat>, s: nat)
    requires a > s && GrownSince(buffer + [a], parts, s)
    ensures GrownSince(buffer, parts, s)
  {
    assert parts[|buffer|] == (buffer + [a])[|buffer|] == a;
    forall i | 0 <= i < |parts[|buffer|..]|
      ensures parts[|buffer|..][i] > s
    {
      assert i > 0 ==> parts[|buffer|..][i] == parts[|buffer + [a]|..][i - 1];
    }
  }

  /** The first event of a drain starts with the buffer; all else is made of what was drained. */
  lemma {:induction false} DrainSince(peer: Peer, m: byte, step: nat, c: Connection, buffer: seq<nat>, outs: seq<Packet<nat>>, s: nat)
    requires OutsSince(outs, s)
    ensures var (events, left) := EmitAll(peer, m, step, c, buffer, outs);
            && (events == [] ==> GrownSince(buffer, left, s))
            && (events != [] ==> Since(left, s) && GrownSince(buffer, events[0].parts, s))
            && LaterSince(events, s)
    decreases outs
  {
    if outs != [] {
      var p, rest := outs[0], outs[1..];
      if !p.isData {
        DrainSince(peer, m, step, c, buffer, rest, s);
      } else {
        var held := buffer + [p.body];
        if p.fragmentId == 0 {
          DrainSince(peer, m, step, c, [], rest, s);
          ClosedSince(peer, m, step, c, held, p, rest, s);
        } else {
          DrainSince(peer, m, step, c, held, rest, s);
          var (events, left) := EmitAll(peer, m, step, c, held, rest);
          GrownMore(buffer, p.body, if events == [] then left else events[0].parts, s);
        }
      }
    }
  }

  lemma ClosedSince(peer: Peer, m: byte, step: nat, c: Connection, held: seq<nat>, p: Packet<nat>, rest: seq<Packet<nat>>, s: nat)
    requires var (more, left) := EmitAll(peer, m, step, c, [], rest);
             && (more == [] ==> GrownSince([], left, s))
             && (more != [] ==> Since(left, s) && GrownSince([], more[0].parts, s))
             && LaterSince(more, s)
    ensures var (more, left) := EmitAll(peer, m, step, c, [], rest);
            Since(left, s) && LaterSince([Emission(step, peer, Some(m), p.body, c.state, c.pid, held)] + more, s)
  {
    var (more, left) := EmitAll(peer, m, step, c, [], rest);
    if more == [] {
      assert left[0..] == left;
    } else {
      assert more[0].parts[0..] == more[0].parts;
      var first := [Emission(step, peer, Some(m), p.body, c.state, c.pid, held)];
      forall k | 1 <= k < |first + more|
        ensures Since((first + more)[k].parts, s)
      {
        assert (first + more)[k] == more[k - 1];
      }
    }
  }

  /** What is dispatched arrived after the SYN that opened the connection. */
  lemma DispatchedSince(init: seq<Input>, x: Input, p: Peer, m: byte, s: nat)
    requires OpenSince(init, p, s) && Reaches(After(init), x, p, m)
    ensures OutsSince(DispatchedBy(init, x, p, m), s)
  {
    SessionSafety(init);
    var c, packet := After(init).connections[p], PacketOf(x, |init|);
    var q: Queue<nat> := Enqueued<nat>(QueueOf(c, m), packet);
    DrainTakesFrom<nat>(q);
    var outs := DispatchedBy(init, x, p, m);
    forall w | w in q.slots
      ensures q.slots[w].body > s
    {
      if w != packet.seqId {
        assert Current(init, p, c.queues[m].slots[w]);
        var a := q.slots[w].body;
        assert a != s && !(a < s);
      }
    }
    forall i | 0 <= i < |outs|
      ensures outs[i].body > s
    {
      var w :| w in q.slots && q.slots[w] == outs[i];
    }
  }

  /** Until an event was raised on the substream since the SYN, its buffer starts with what waited at the SYN. */
  ghost predicate BufferSince(run: seq<Input>, p: Peer, m: byte, s: nat)
    requires s <= |run|
  {
    if RaisedSince(After(run).emitted, p, m, s) then Since(Waiting(run, p, m), s)
    else GrownSince(Waiting(run[..s], p, m), Waiting(run, p, m), s)
  }

  lemma EventsBounded(run: seq<Input>)
    ensures forall e | e in After(run).emitted :: e.step < |run|
  {
    SessionSafety(run);
  }

  lemma RaisedMore(es: seq<Emission>, more: seq<Emission>, p: Peer, m: byte, s: nat)
    ensures RaisedSince(es + more, p, m, s) <==> RaisedSince(es, p, m, s) || RaisedSince(more, p, m, s)
  {
    if RaisedSince(es, p, m, s) {
      var k :| 0 <= k < |es| && es[k].peer == p && es[k].substream == Some(m) && es[k].step > s;
      assert (es + more)[k] == es[k];
    }
    if RaisedSince(more, p, m, s) {
      var k :| 0 <= k < |more| && more[k].peer == p && more[k].substream == Some(m) && more[k].step > s;
      assert (es + more)[|es| + k] == more[k];
    }
  }

  lemma AtSyn(run: seq<Input>, p: Peer, m: byte, s: nat)
    requires OpenSince(run, p, s) && |run| == s + 1
    ensures BufferSince(run, p, m, s)
  {
    var before := run[..s];
    assert run == before + [Syn(p)];
    BufferStep(before, Syn(p), p, m);
    EventsBounded(run);
    assert !RaisedSince(After(run).emitted, p, m, s);
    assert Waiting(run, p, m)[|Waiting(before, p, m)|..] == [];
  }

  lemma GrownTwice(a: seq<nat>, b: seq<nat>, c: seq<nat>, s: nat)
    requires GrownSince(a, b, s) && GrownSince(b, c, s)
    ensures GrownSince(a, c, s)
  {
    forall i | 0 <= i < |c[|a|..]|
      ensures c[|a|..][i] > s
    {
      if i < |b| - |a| {
        assert c[|a|..][i] == b[|a|..][i];
      } else {
        assert c[|a|..][i] == c[|b|..][i - (|b| - |a|)];
      }
    }
  }

  lemma SinceGrown(a: seq<nat>, b: seq<nat>, s: nat)
    requires GrownSince(a, b, s)
    ensures Since(b, s) <==> Since(a, s)
  {
    forall i | 0 <= i < |b|
      ensures Since(a, s) ==> b[i] > s
    {
      assert i >= |a| ==> b[i] == b[|a|..][i - |a|];
    }
    assert forall i | 0 <= i < |a| :: a[i] == b[i];
  }

  lemma BufferDrained(init: seq<Input>, x: Input, p: Peer, m: byte, s: nat)
    requires OpenSince(init, p, s) && OpenSince(init + [x], p, s) && Reaches(After(init), x, p, m) && BufferSince(init, p, m, s)
    ensures BufferSince(init + [x], p, m, s)
  {
    var run := init + [x];
    var (events, left) := Drained(init, x, p, m);
    var outs := DispatchedBy(init, x, p, m);
    BufferStep(init, x, p, m);
    DispatchedSince(init, x, p, m, s);
    DrainSince(p, m, |init|, After(init).connections[p], Waiting(init, p, m), outs, s);
    EventsOf(p, m, |init|, After(init).connections[p], Waiting(init, p, m), outs);
    RaisedMore(After(init).emitted, events, p, m, s);
    assert run[..s] == init[..s];
    if events != [] {
      assert RaisedSince(events, p, m, s) by { assert events[0].step > s; }
    } else if RaisedSince(After(init).emitted, p, m, s) {
      SinceGrown(Waiting(init, p, m), left, s);
    } else {
      GrownTwice(Waiting(init[..s], p, m), Waiting(init, p, m), left, s);
    }
  }

  lemma BufferUntouched(init: seq<Input>, x: Input, p: Peer, m: byte, s: nat)
    requires OpenSince(init, p, s) && OpenSince(init + [x], p, s) && !Reaches(After(init), x, p, m) && BufferSince(init, p, m, s)
    ensures BufferSince(init + [x], p, m, s)
  {
    var run := init + [x];
    assert x == run[|init|];
    BufferStep(init, x, p, m);
    NotRaisedByOthers(After(init).emitted, After(run).emitted, p, m, s);
    assert run[..s] == init[..s];
  }

  lemma NotRaisedByOthers(es: seq<Emission>, es': seq<Emission>, p: Peer, m: byte, s: nat)
    requires es <= es' && forall k | |es| <= k < |es'| :: es'[k].peer != p || es'[k].substream != Some(m)
    ensures RaisedSince(es', p, m, s) <==> RaisedSince(es, p, m, s)
  {
    if RaisedSince(es, p, m, s) {
      var k :| 0 <= k < |es| && es[k].peer == p && es[k].substream == Some(m) && es[k].step > s;
      assert es'[k] == es[k];
    }
    if RaisedSince(es', p, m, s) {
      var k :| 0 <= k < |es'| && es'[k].peer == p && es'[k].substream == Some(m) && es'[k].step > s;
      assert es[k] == es'[k];
    }
  }

  lemma {:induction false} BufferKept(run: seq<Input>, p: Peer, m: byte, s: nat)
    requires OpenSince(run, p, s)
    ensures BufferSince(run, p, m, s)
  {
    if |run| == s + 1 {
      AtSyn(run, p, m, s);
    } else {
      var init, x := run[..|run| - 1], run[|run| - 1];
      assert run == init + [x] && OpenSince(init, p, s);
      BufferKept(init, p, m, s);
      if Reaches(After(init), x, p, m) {
        BufferDrained(init, x, p, m, s);
      } else {
        BufferUntouched(init, x, p, m, s);
      }
    }
  }

  lemma EmittedGrows(init: seq<Input>, x: Input)
    ensures After(init).emitted <= After(init + [x]).emitted
    ensures x.Disconnect? || x.TimerCleanup? ==> After(init + [x]).emitted == After(init).emitted
  {
    assert (init + [x])[..|init|] == init;
  }

  /** An event raised by the last input: the first of its drain starts with the buffer, the others do not. */
  lemma NewEvent(init: seq<Input>, x: Input, p: Peer, m: byte, s: nat, j: nat)
    requires OpenSince(init, p, s) && Reaches(After(init), x, p, m) && j < |Drained(init, x, p, m).0|
    ensures var (events, _) := Drained(init, x, p, m);
            Since(events[j].parts, s) <==>
            Waiting(init[..s], p, m) == [] || RaisedSince(After(init).emitted + events[..j], p, m, s)
  {
    var (events, _) := Drained(init, x, p, m);
    var es, buffer, outs := After(init).emitted, Waiting(init, p, m), DispatchedBy(init, x, p, m);
    DispatchedSince(init, x, p, m, s);
    DrainSince(p, m, |init|, After(init).connections[p], buffer, outs, s);
    EventsOf(p, m, |init|, After(init).connections[p], buffer, outs);
    RaisedMore(es, events[..j], p, m, s);
    if j > 0 {
      assert RaisedSince(events[..j], p, m, s) by { assert events[..j][0].step > s; }
    } else {
      assert !RaisedSince(events[..0], p, m, s);
      BufferKept(init, p, m, s);
      SinceGrown(buffer, events[0].parts, s);
      OldBuffer(init, p, m, s);
    }
  }

  lemma OldBuffer(init: seq<Input>, p: Peer, m: byte, s: nat)
    requires OpenSince(init, p, s) && BufferSince(init, p, m, s)
    ensures Since(Waiting(init, p, m), s) <==> Waiting(init[..s], p, m) == [] || RaisedSince(After(init).emitted, p, m, s)
  {
    if !RaisedSince(After(init).emitted, p, m, s) {
      var old' := Waiting(init[..s], p, m);
      SinceGrown(old', Waiting(init, p, m), s);
      WaitingArrivedBefore(init[..s], p, m);
      assert old' != [] ==> old'[0] in old';
    }
  }

  /** The event was raised by the last input, as event `j` of its drain. */
  lemma NewEventIsDrained(init: seq<Input>, x: Input, p: Peer, m: byte, k: nat) returns (j: nat)
    requires |After(init).emitted| <= k < |After(init + [x]).emitted|
    requires After(init + [x]).emitted[k].peer == p && After(init + [x]).emitted[k].substream == Some(m)
    ensures Reaches(After(init), x, p, m) && j < |Drained(init, x, p, m).0|
    ensures After(init + [x]).emitted[k] == Drained(init, x, p, m).0[j]
    ensures After(init + [x]).emitted[..k] == After(init).emitted + Drained(init, x, p, m).0[..j]
    ensures After(init + [x]).emitted[k].step == |init|
  {
    EmittedGrows(init, x);
    assert !Ends(x, p);
    BufferStep(init, x, p, m);
    assert Reaches(After(init), x, p, m);
    j := k - |After(init).emitted|;
    EventsOf(p, m, |init|, After(init).connections[p], Waiting(init, p, m), DispatchedBy(init, x, p, m));
  }

  /**
   For every event of every run: all its parts arrived since the SYN that opened the connection,
   if and only if the last DATA dispatched on the substream before that SYN had closed its
   message, or another event was raised on the substream since.
   */
  lemma {:induction false} MessageOfThisSessionIff(run: seq<Input>, k: nat, m: byte, s: nat)
    requires k < |After(run).emitted|
    requires var e := After(run).emitted[k]; e.substream == Some(m) && e.step <= |run| && OpenSince(run[..e.step], e.peer, s)
    ensures var e := After(run).emitted[k];
            Since(e.parts, s) <==> Closed(run[..s], e.peer, m) || RaisedSince(After(run).emitted[..k], e.peer, m, s)
  {
    var init, x := run[..|run| - 1], run[|run| - 1];
    assert run == init + [x];
    var e := After(run).emitted[k];
    EmittedGrows(init, x);
    if k < |After(init).emitted| {
      EventsBounded(init);
      assert After(init).emitted[k] == e && After(init).emitted[..k] == After(run).emitted[..k];
      assert init[..e.step] == run[..e.step] && init[..s] == run[..s];
      MessageOfThisSessionIff(init, k, m, s);
    } else {
      var j := NewEventIsDrained(init, x, e.peer, m, k);
      assert run[..e.step] == init && run[..s] == init[..s];
      NewEvent(init, x, e.peer, m, s, j);
      WaitingEmptyIff(run[..s], e.peer, m);
    }
  }

  // ---------- when nothing waits ----------

  function LastDataOf(outs: seq<Packet<nat>>): Option<Packet<nat>> {
    if outs == [] then None
    else
      var later := LastDataOf(outs[1..]);
      if later.Some? then later else if outs[0].isData then Some(outs[0]) else None
  }

  /** The arrival that was dispatched last as DATA on the substream of a peer's connection. */
  ghost function LastDispatched(run: seq<Input>, p: Peer, m: byte): Option<nat> {
    if run == [] then None
    else
      var init, x := run[..|run| - 1], run[|run| - 1];
      if Ends(x, p) then None
      else if Reaches(After(init), x, p, m) && LastDataOf(DispatchedBy(init, x, p, m)).Some? then
        Some(LastDataOf(DispatchedBy(init, x, p, m)).value.body)
      else LastDispatched(init, p, m)
  }

  /** The last DATA dispatched on the substream, if any, closed its message. */
  ghost predicate Closed(run: seq<Input>, p: Peer, m: byte) {
    var last := LastDispatched(run, p, m);
    last.Some? ==> CloserAt(run, last.value)
  }

  predicate CloserAt(run: seq<Input>, i: nat) {
    i < |run| && run[i].Data? && run[i].fragmentId == 0
  }

  lemma {:induction false} LeftEmptyIff(peer: Peer, m: byte, step: nat, c: Connection, buffer: seq<nat>, outs: seq<Packet<nat>>)
    ensures EmitAll(peer, m, step, c, buffer, outs).1 == [] <==>
            if LastDataOf(outs).Some? then LastDataOf(outs).value.fragmentId == 0 else buffer == []
    decreases outs
  {
    if outs != [] {
      var p := outs[0];
      var held := if p.isData then buffer + [p.body] else buffer;
      LeftEmptyIff(peer, m, step, c, if p.isData && p.fragmentId == 0 then [] else held, outs[1..]);
    }
  }

  lemma {:induction false} LastDataIsOne(outs: seq<Packet<nat>>)
    requires LastDataOf(outs).Some?
    ensures LastDataOf(outs).value in outs && LastDataOf(outs).value.isData
  {
    if LastDataOf(outs[1..]).Some? {
      LastDataIsOne(outs[1..]);
    }
  }

  /** What is dispatched as DATA is the DATA input it names. */
  lemma DispatchedIsInput(init: seq<Input>, x: Input, p: Peer, m: byte, packet: Packet<nat>)
    requires Reaches(After(init), x, p, m) && packet in DispatchedBy(init, x, p, m) && packet.isData
    ensures var run := init + [x];
            packet.body < |run| && run[packet.body].Data? && run[packet.body].fragmentId == packet.fragmentId
  {
    SessionSafety(init);
    var c, own := After(init).connections[p], PacketOf(x, |init|);
    var q: Queue<nat> := Enqueued<nat>(QueueOf(c, m), own);
    DrainTakesFrom<nat>(q);
    var w :| w in q.slots && q.slots[w] == packet;
    if w != own.seqId {
      assert Current(init, p, c.queues[m].slots[w]);
    }
  }

  lemma {:induction false} LastDispatchedIsInput(run: seq<Input>, p: Peer, m: byte)
    ensures var last := LastDispatched(run, p, m); last.Some? ==> last.value < |run| && run[last.value].Data?
  {
    if run != [] {
      var init, x := run[..|run| - 1], run[|run| - 1];
      assert run == init + [x];
      LastDispatchedIsInput(init, p, m);
      if !Ends(x, p) && Reaches(After(init), x, p, m) && LastDataOf(DispatchedBy(init, x, p, m)).Some? {
        LastDataIsOne(DispatchedBy(init, x, p, m));
        DispatchedIsInput(init, x, p, m, LastDataOf(DispatchedBy(init, x, p, m)).value);
      }
    }
  }

  /** Nothing waits in a fragment buffer exactly when the last DATA dispatched closed its message. */
  lemma {:induction false} WaitingEmptyIff(run: seq<Input>, p: Peer, m: byte)
    ensures Waiting(run, p, m) == [] <==> Closed(run, p, m)
  {
    if run != [] {
      var init, x := run[..|run| - 1], run[|run| - 1];
      assert run == init + [x];
      WaitingEmptyIff(init, p, m);
      LastDispatchedIsInput(init, p, m);
      if !Ends(x, p) {
        BufferStep(init, x, p, m);
        if Reaches(After(init), x, p, m) {
          DrainedEmptyIff(init, x, p, m);
        }
      }
    }
  }

  lemma DrainedEmptyIff(init: seq<Input>, x: Input, p: Peer, m: byte)
    requires Reaches(After(init), x, p, m)
    ensures var last := LastDataOf(DispatchedBy(init, x, p, m));
            Drained(init, x, p, m).1 == [] <==>
            if last.Some? then CloserAt(init + [x], last.value.body) else Waiting(init, p, m) == []
  {
    var outs := DispatchedBy(init, x, p, m);
    LeftEmptyIff(p, m, |init|, After(init).connections[p], Waiting(init, p, m), outs);
    if LastDataOf(outs).Some? {
      LastDataIsOne(outs);
      DispatchedIsInput(init, x, p, m, LastDataOf(outs).value);
    }
  }
}
