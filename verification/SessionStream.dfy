/**
 What one authenticated session hands on from a reliable substream: the endpoint's events, over
 every run with any other peers, substreams and packets in between, are those of one dispatch
 queue that saw only the packets of this substream.
 */
module SessionStream {
  import opened Bytes
  import opened Wrappers
  import opened DispatchQueue
  import opened Session
  import opened Leftovers

  /** The session was authenticated by input `c`, and no other CONNECT of the peer came after it. */
  ghost predicate SessionSince(run: seq<Input>, p: Peer, s: nat, c: nat, pid: nat) {
    Authenticated(run, p, s, c, pid) && forall i | c < i < |run| :: !(run[i].Connect? && run[i].peer == p)
  }

  predicate OnSubstream(x: Input, p: Peer, m: byte) {
    (x.Data? || x.Ping?) && x.peer == p && x.reliable && x.substream == m
  }

  /** The reliable packets of the substream that arrived after input `c`. */
  function ArrivalsOn(run: seq<Input>, p: Peer, m: byte, c: nat): seq<Packet<nat>> {
    if |run| <= c + 1 then []
    else
      var init, x := run[..|run| - 1], run[|run| - 1];
      ArrivalsOn(init, p, m, c) + if OnSubstream(x, p, m) then [PacketOf(x, |init|)] else []
  }

  /** The DATA packets that complete a message. */
  function Closers(outs: seq<Packet<nat>>): seq<nat> {
    if outs == [] then []
    else (if outs[0].isData && outs[0].fragmentId == 0 then [outs[0].body] else []) + Closers(outs[1..])
  }

  /** The arrivals for which events of the substream were raised after input `c`. */
  function RaisedOn(es: seq<Emission>, p: Peer, m: byte, c: nat): seq<nat> {
    if es == [] then []
    else
      (if es[0].peer == p && es[0].substream == Some(m) && es[0].step > c then [es[0].arrival] else [])
      + RaisedOn(es[1..], p, m, c)
  }

  lemma {:induction false} ClosersConcat(a: seq<Packet<nat>>, b: seq<Packet<nat>>)
    ensures Closers(a + b) == Closers(a) + Closers(b)
  {
    if a == [] {
      assert a + b == b;
    } else {
      assert (a + b)[1..] == a[1..] + b;
      ClosersConcat(a[1..], b);
    }
  }

  lemma {:induction false} RaisedConcat(a: seq<Emission>, b: seq<Emission>, p: Peer, m: byte, c: nat)
    ensures RaisedOn(a + b, p, m, c) == RaisedOn(a, p, m, c) + RaisedOn(b, p, m, c)
  {
    if a == [] {
      assert a + b == b;
    } else {
      assert (a + b)[1..] == a[1..] + b;
      RaisedConcat(a[1..], b, p, m, c);
    }
  }

  lemma {:induction false} NoneRaised(es: seq<Emission>, p: Peer, m: byte, c: nat)
    requires forall k | 0 <= k < |es| :: es[k].peer != p || es[k].substream != Some(m) || es[k].step <= c
    ensures RaisedOn(es, p, m, c) == []
  {
    if es != [] {
      NoneRaised(es[1..], p, m, c);
    }
  }

  lemma {:induction false} EmittedClosers(p: Peer, m: byte, step: nat, c: Connection, buffer: seq<nat>, outs: seq<Packet<nat>>, from: nat)
    requires step > from
    ensures RaisedOn(EmitAll(p, m, step, c, buffer, outs).0, p, m, from) == Closers(outs)
    decreases outs
  {
    if outs != [] {
      var o := outs[0];
      var held := if o.isData then buffer + [o.body] else buffer;
      if o.isData && o.fragmentId == 0 {
        EmittedClosers(p, m, step, c, [], outs[1..], from);
        var first, more := Emission(step, p, Some(m), o.body, c.state, c.pid, held), EmitAll(p, m, step, c, [], outs[1..]).0;
        assert ([first] + more)[1..] == more;
      } else {
        EmittedClosers(p, m, step, c, held, outs[1..], from);
      }
    }
  }

  /** An input that does not reach the substream leaves its queue alone. */
  lemma QueueUntouched(step: nat, c: Connection, x: Input, m: byte)
    requires !x.Syn? && !x.Connect? && !x.Disconnect? && !x.TimerCleanup?
    requires !((x.Data? || x.Ping?) && x.reliable && x.substream == m)
    ensures QueueOf(Handle(step, c, x).0, m) == QueueOf(c, m)
  {
  }

  lemma RunOne(q: Queue<nat>, xs: seq<Packet<nat>>, x: Packet<nat>)
    requires Keyed(q)
    ensures var (outs, q') := Run(q, xs);
            var (more, q'') := Receive(q', x);
            Run(q, xs + [x]) == (outs + more, q'')
  {
    RunConcat(q, xs, [x]);
    var (outs, q') := Run(q, xs);
    var (more, q'') := Receive(q', x);
    assert [x][1..] == [];
    assert Run(q'', []) == ([], q'');
    assert more + [] == more;
  }

  /** What the queue of the substream is, and what was raised, in terms of its own arrivals. */
  ghost predicate Follows(run: seq<Input>, p: Peer, m: byte, c: nat) {
    var (outs, q) := Run<nat>(Queue(map[], 2), ArrivalsOn(run, p, m, c));
    QueueOf(ConnectionOf(After(run), p), m) == q && RaisedOn(After(run).emitted, p, m, c) == Closers(outs)
  }

  lemma FollowsAtConnect(init: seq<Input>, x: Input, p: Peer, s: nat, m: byte)
    requires Accepted(x, p) && OpenSince(init, p, s)
    ensures Follows(init + [x], p, m, |init|)
  {
    AfterExtends(init, x);
    StaysOpen(init, p, s);
    EventsBounded(init);
    NoneRaised(After(init).emitted, p, m, |init|);
    assert After(init + [x]).emitted == After(init).emitted;
  }

  lemma FollowsArrival(init: seq<Input>, x: Input, p: Peer, m: byte, c: nat)
    requires c < |init| && Follows(init, p, m, c) && Reaches(After(init), x, p, m)
    ensures Follows(init + [x], p, m, c)
  {
    var packet := PacketOf(x, |init|);
    var arrivals := ArrivalsOn(init, p, m, c);
    assert (init + [x])[..|init|] == init;
    assert ArrivalsOn(init + [x], p, m, c) == arrivals + [packet];
    RunOne(Queue(map[], 2), arrivals, packet);
    AfterExtends(init, x);
    var conn := After(init).connections[p];
    var (outs, q) := Run<nat>(Queue(map[], 2), arrivals);
    var (more, q') := Receive(q, packet);
    ReceivedOn(init, x, p, m);
    EmittedClosers(p, m, |init|, conn, BufferOf(conn, m), more, c);
    RaisedConcat(After(init).emitted, EmitAll(p, m, |init|, conn, BufferOf(conn, m), more).0, p, m, c);
    ClosersConcat(outs, more);
  }

  lemma ReceivedOn(init: seq<Input>, x: Input, p: Peer, m: byte)
    requires Reaches(After(init), x, p, m)
    ensures var conn := After(init).connections[p];
            var (more, q) := Receive<nat>(QueueOf(conn, m), PacketOf(x, |init|));
            && QueueOf(ConnectionOf(After(init + [x]), p), m) == q
            && After(init + [x]).emitted == After(init).emitted + EmitAll(p, m, |init|, conn, BufferOf(conn, m), more).0
  {
    AfterExtends(init, x);
    StepHandles(After(init), |init|, x, After(init).connections[p]);
  }

  lemma FollowsOther(init: seq<Input>, x: Input, p: Peer, m: byte, c: nat)
    requires c < |init| && Follows(init, p, m, c) && !OnSubstream(x, p, m)
    requires x.peer == p ==> !x.Syn? && !x.Connect? && !x.Disconnect? && !x.TimerCleanup?
    ensures Follows(init + [x], p, m, c)
  {
    assert (init + [x])[..|init|] == init;
    assert ArrivalsOn(init + [x], p, m, c) == ArrivalsOn(init, p, m, c);
    OtherLeaves(init, x, p, m);
    var es, es' := After(init).emitted, After(init + [x]).emitted;
    var more := es'[|es|..];
    assert es' == es + more;
    assert forall k | 0 <= k < |more| :: more[k] == es'[|es| + k];
    NoneRaised(more, p, m, c);
    RaisedConcat(es, more, p, m, c);
  }

  lemma OtherLeaves(init: seq<Input>, x: Input, p: Peer, m: byte)
    requires !OnSubstream(x, p, m)
    requires x.peer == p ==> !x.Syn? && !x.Connect? && !x.Disconnect? && !x.TimerCleanup?
    ensures OthersOnly(init, x, p, m)
    ensures QueueOf(ConnectionOf(After(init + [x]), p), m) == QueueOf(ConnectionOf(After(init), p), m)
  {
    BufferStep(init, x, p, m);
    if x.peer == p {
      QueueUntouched(|init|, ConnectionOf(After(init), p), x, m);
      AfterExtends(init, x);
      StepHandles(After(init), |init|, x, ConnectionOf(After(init), p));
    } else {
      OthersLeaveTheConnection(init, x, p);
    }
  }

  /**
   After every run in which a session of the peer is still going on: the queue of a substream is
   the one that a new queue becomes when it receives just the reliable packets of this substream
   since the CONNECT, and the events raised on it since are, in order and each once, those of the
   complete messages that this queue dispatched.
   */
  lemma {:induction false} SubstreamFollowsQueue(run: seq<Input>, p: Peer, s: nat, c: nat, pid: nat, m: byte)
    requires SessionSince(run, p, s, c, pid)
    ensures var (outs, q) := Run<nat>(Queue(map[], 2), ArrivalsOn(run, p, m, c));
            QueueOf(ConnectionOf(After(run), p), m) == q && RaisedOn(After(run).emitted, p, m, c) == Closers(outs)
  {
    var init, x := run[..|run| - 1], run[|run| - 1];
    assert run == init + [x];
    assert OpenSince(init, p, s);
    if c == |init| {
      FollowsAtConnect(init, x, p, s, m);
    } else {
      assert SessionSince(init, p, s, c, pid);
      SubstreamFollowsQueue(init, p, s, c, pid, m);
      if OnSubstream(x, p, m) {
        StaysConnected(init, p, s, c, pid);
        FollowsArrival(init, x, p, m, c);
      } else {
        FollowsOther(init, x, p, m, c);
      }
    }
    assert Follows(run, p, m, c);
  }
}
