/**
 A numbered stream of reliable packets sent through a network that loses, repeats and reorders
 them, into a fresh queue: exactly which packets are dispatched, at every moment.
 */
module Streams {
  import opened Bytes
  import opened DispatchQueue

  ghost predicate Numbered<T>(ps: seq<Packet<T>>, n: nat) {
    forall i | 0 <= i < |ps| :: ps[i].seqId == Wire(n + i)
  }

  /** The network delivers identical copies of packets of the stream, picked in any order and number. */
  ghost predicate Picks<T>(ps: seq<Packet<T>>, picks: seq<nat>) {
    forall k | 0 <= k < |picks| :: picks[k] < |ps|
  }

  function Copies<T>(ps: seq<Packet<T>>, picks: seq<nat>): (r: seq<Packet<T>>)
    requires Picks(ps, picks)
    ensures |r| == |picks|
  {
    seq(|picks|, k requires 0 <= k < |picks| => ps[picks[k]])
  }

  /** A stream is short when its numbers, and the number after them, fit one lap. */
  predicate Short<T>(ps: seq<Packet<T>>) {
    |ps| <= 0xFFFF
  }

  /** The arrivals with their true numbers, the stream being numbered from 2. */
  function Arrivals<T>(ps: seq<Packet<T>>, picks: seq<nat>): (r: seq<Arrival<T>>)
    requires Picks(ps, picks)
    ensures |r| == |picks|
  {
    seq(|picks|, k requires 0 <= k < |picks| => Arrival(picks[k] + 2, ps[picks[k]]))
  }

  function FreshNumbers<T>(): NumberQueue<T> {
    NumberQueue(map[], 2)
  }

  /** Every copy arrives within a lap of the packet due next. */
  ghost predicate Timely<T>(ps: seq<Packet<T>>, picks: seq<nat>)
    requires Picks(ps, picks)
  {
    InWindow(FreshNumbers<T>(), Arrivals(ps, picks))
  }

  /** How many arrivals there are up to the last that was DATA, and so drained the queue. */
  function UpToData<T>(ps: seq<Packet<T>>, picks: seq<nat>): (k: nat)
    requires Picks(ps, picks)
    ensures k <= |picks| && (k > 0 ==> ps[picks[k - 1]].isData)
    ensures forall j | k <= j < |picks| :: !ps[picks[j]].isData
  {
    if picks == [] then 0
    else if ps[picks[|picks| - 1]].isData then |picks|
    else UpToData(ps, picks[..|picks| - 1])
  }

  /** The packets that had arrived when the queue was last drained. */
  function Seen<T>(ps: seq<Packet<T>>, picks: seq<nat>): (seen: seq<nat>)
    requires Picks(ps, picks)
    ensures Picks(ps, seen) && seen <= picks
  {
    picks[..UpToData(ps, picks)]
  }

  ghost function Output<T>(ps: seq<Packet<T>>, picks: seq<nat>): seq<Packet<T>>
    requires Picks(ps, picks)
  {
    Run(Fresh<T>(), Copies(ps, picks)).0
  }

  /** Arrivals after the last DATA change nothing of what is dispatched. */
  lemma OutputOfSeen<T>(ps: seq<Packet<T>>, picks: seq<nat>)
    requires Picks(ps, picks)
    ensures Output(ps, picks) == Output(ps, Seen(ps, picks))
  {
    var k := UpToData(ps, picks);
    var later := picks[k..];
    assert Copies(ps, picks) == Copies(ps, picks[..k]) + Copies(ps, later);
    var q := Run(Fresh<T>(), Copies(ps, picks[..k])).1;
    RunConcat(Fresh<T>(), Copies(ps, picks[..k]), Copies(ps, later));
    forall j | 0 <= j < |later|
      ensures !Copies(ps, later)[j].isData
    {
      assert later[j] == picks[k + j];
    }
    NothingWithoutData(q, Copies(ps, later));
  }

  /** `outs` is the part of the stream from packet `s` up to the first that is not among `seen`. */
  ghost predicate UpToMissing<T>(ps: seq<Packet<T>>, s: nat, seen: seq<nat>, outs: seq<Packet<T>>) {
    (forall i | 0 <= i < |outs| :: Arrived(ps, s + i, seen, outs[i])) && s + |outs| !in seen
  }

  /** `p` is packet `i` of the stream, and it is among `seen`. */
  ghost predicate Arrived<T>(ps: seq<Packet<T>>, i: nat, seen: seq<nat>, p: Packet<T>) {
    i in seen && i < |ps| && p == ps[i]
  }

  lemma SegmentIsPrefix<T>(ps: seq<Packet<T>>, s: nat, seen: seq<nat>, outs: seq<Packet<T>>)
    requires UpToMissing(ps, s, seen, outs) && s <= |ps|
    ensures outs <= ps[s..]
  {
    forall i | 0 <= i < |outs|
      ensures s + i < |ps| && outs[i] == ps[s + i]
    {
      assert Arrived(ps, s + i, seen, outs[i]);
    }
    if outs != [] {
      assert Arrived(ps, s + (|outs| - 1), seen, outs[|outs| - 1]);
    }
  }

  // ---------- short streams, numbered from anywhere ----------

  /** How far into a stream numbered from `n` the number 2 is, which a fresh queue waits for. */
  function Offset(n: nat): nat {
    (0x1_0002 - Wire(n)) % 0x1_0000
  }

  lemma OffsetLaw(n: nat, i: nat)
    ensures Offset(n) < 0x1_0000 && Wire(n + (Offset(n) + i)) == Wire(2 + i)
    ensures Offset(n) == 0 <==> Wire(n) == 2
  {
  }

  lemma {:induction false} ShortSegment<T>(ps: seq<Packet<T>>, n: nat, seen: seq<nat>, i: nat)
    requires Numbered(ps, n) && Short(ps) && Picks(ps, seen) && i < |Output(ps, seen)|
    ensures Arrived(ps, Offset(n) + i, seen, Output(ps, seen)[i])
  {
    var outs := Output(ps, seen);
    if i > 0 {
      ShortSegment(ps, n, seen, i - 1);
    }
    RunNumbered(Fresh<T>(), Copies(ps, seen));
    RunTakesFrom(Fresh<T>(), Copies(ps, seen));
    assert Known(Fresh<T>(), Copies(ps, seen), outs[i]);
    var k :| 0 <= k < |seen| && Copies(ps, seen)[k] == outs[i];
    OffsetLaw(n, i);
    WireInjective(n, n + seen[k], n + (Offset(n) + i));
  }

  /**
   A short stream, whatever number it starts from, and any loss, repetition and reordering: what
   is dispatched starts at number 2 and goes up to the first packet that had not arrived when
   the last DATA arrived.
   */
  lemma ShortStreamDispatched<T>(ps: seq<Packet<T>>, n: nat, picks: seq<nat>)
    requires Numbered(ps, n) && Short(ps) && Picks(ps, picks)
    ensures UpToMissing(ps, Offset(n), Seen(ps, picks), Output(ps, picks))
  {
    OutputOfSeen(ps, picks);
    ShortSeen(ps, n, Offset(n), Seen(ps, picks));
  }

  lemma ShortSeen<T>(ps: seq<Packet<T>>, n: nat, s: nat, seen: seq<nat>)
    requires Numbered(ps, n) && Short(ps) && Picks(ps, seen) && (seen != [] ==> ps[seen[|seen| - 1]].isData) && s == Offset(n)
    ensures UpToMissing(ps, s, seen, Output(ps, seen))
  {
    var outs := Output(ps, seen);
    forall i | 0 <= i < |outs|
      ensures Arrived(ps, s + i, seen, outs[i])
    {
      ShortSegment(ps, n, seen, i);
    }
    ShortMissing(ps, n, seen);
    assert s + |outs| !in seen;
  }

  /** Once drained, the packet due next is one that has not arrived. */
  lemma ShortMissing<T>(ps: seq<Packet<T>>, n: nat, seen: seq<nat>)
    requires Numbered(ps, n) && Short(ps) && Picks(ps, seen) && (seen != [] ==> ps[seen[|seen| - 1]].isData)
    ensures Offset(n) + |Output(ps, seen)| !in seen
  {
    var d := |Output(ps, seen)|;
    var j := Offset(n) + d;
    if j in seen {
      var k :| 0 <= k < |seen| && seen[k] == j;
      OffsetLaw(n, d);
      assert Copies(ps, seen)[k].seqId == Wire(2 + d);
      NextHasNotArrived(Copies(ps, seen), k);
    }
  }

  /** After DATA, no arrival of a fresh queue has the number due next, unless that number has been dispatched. */
  lemma NextHasNotArrived<T>(xs: seq<Packet<T>>, k: nat)
    requires k < |xs| && xs[|xs| - 1].isData && |Run(Fresh<T>(), xs).0| <= 0xFFFF
    ensures xs[k].seqId != Wire(2 + |Run(Fresh<T>(), xs).0|)
  {
    var (outs, q) := Run(Fresh<T>(), xs);
    RunNumbered(Fresh<T>(), xs);
    DrainedAfterData(Fresh<T>(), xs);
    if xs[k].seqId == q.next {
      RunRemembers(Fresh<T>(), xs, q.next);
      var i :| 0 <= i < |outs| && outs[i].seqId == q.next;
      WireInjective(2, 2 + i, 2 + |outs|);
    }
  }

  /** With everything arrived and DATA last, a short stream is dispatched whole if and only if it starts from number 2. */
  lemma WholeStreamIff<T>(ps: seq<Packet<T>>, n: nat, picks: seq<nat>)
    requires ps != [] && Numbered(ps, n) && Short(ps) && Picks(ps, picks)
    requires picks != [] && ps[picks[|picks| - 1]].isData && forall i | 0 <= i < |ps| :: i in picks
    ensures Output(ps, picks) == ps <==> Wire(n) == 2
    ensures Output(ps, picks) == if Offset(n) < |ps| then ps[Offset(n)..] else []
  {
    OffsetLaw(n, 0);
    ShortStreamDispatched(ps, n, picks);
    assert Seen(ps, picks) == picks;
    WholeSegment(ps, Offset(n), picks, Output(ps, picks));
  }

  lemma WholeSegment<T>(ps: seq<Packet<T>>, s: nat, seen: seq<nat>, outs: seq<Packet<T>>)
    requires UpToMissing(ps, s, seen, outs) && Picks(ps, seen) && forall i | 0 <= i < |ps| :: i in seen
    ensures outs == if s < |ps| then ps[s..] else []
  {
    assert s + |outs| >= |ps|;
    if s <= |ps| {
      SegmentIsPrefix(ps, s, seen, outs);
    } else {
      assert outs != [] ==> Arrived(ps, s + 0, seen, outs[0]);
    }
  }

  // ---------- streams of any length, numbered from 2 ----------

  lemma TimelySegment<T(!new)>(ps: seq<Packet<T>>, seen: seq<nat>)
    requires Numbered(ps, 2) && Picks(ps, seen) && Timely(ps, seen) && (seen != [] ==> ps[seen[|seen| - 1]].isData)
    ensures UpToMissing(ps, 0, seen, Output(ps, seen))
  {
    var xs := Arrivals(ps, seen);
    var a := FreshNumbers<T>();
    assert Packets(xs) == Copies(ps, seen);
    assert Refines(a, Fresh<T>());
    WraparoundRefinement(a, Fresh<T>(), xs);
    DispatchInOrderWithoutGaps(a, xs);
    var (outs, a') := RunNumbers(a, xs);
    forall i | 0 <= i < |outs|
      ensures Arrived(ps, 0 + i, seen, outs[i])
    {
      assert CameIn(a, xs, a.next + i, outs[i]);
      var k :| 0 <= k < |xs| && xs[k] == Arrival(2 + i, outs[i]);
      assert seen[k] == i;
    }
    if |outs| in seen {
      var k :| 0 <= k < |seen| && seen[k] == |outs|;
      assert xs[k].number == a'.next;
      RunNumbersKeeps(a, xs, a'.next);
    }
  }

  /**
   Whatever the network loses, repeats or reorders, the queue has dispatched exactly the packets
   up to the first that had not arrived when the last DATA arrived. The stream is short, or
   copies arrive within a lap of the packet due next.
   */
  lemma StreamDispatched<T(!new)>(ps: seq<Packet<T>>, picks: seq<nat>)
    requires Numbered(ps, 2) && Picks(ps, picks) && (Short(ps) || Timely(ps, picks))
    ensures UpToMissing(ps, 0, Seen(ps, picks), Output(ps, picks))
  {
    if Short(ps) {
      OffsetLaw(2, 0);
      ShortStreamDispatched(ps, 2, picks);
    } else {
      var k := UpToData(ps, picks);
      OutputOfSeen(ps, picks);
      assert Arrivals(ps, picks)[..k] == Arrivals(ps, Seen(ps, picks));
      InWindowPrefix(FreshNumbers<T>(), Arrivals(ps, picks), k);
      TimelySegment(ps, Seen(ps, picks));
    }
  }

  /** What is dispatched at any moment is a prefix of the stream. */
  lemma DispatchedIsPrefix<T(!new)>(ps: seq<Packet<T>>, picks: seq<nat>)
    requires Numbered(ps, 2) && Picks(ps, picks) && (Short(ps) || Timely(ps, picks))
    ensures Output(ps, picks) <= ps
  {
    StreamDispatched(ps, picks);
    SegmentIsPrefix(ps, 0, Seen(ps, picks), Output(ps, picks));
    assert ps[0..] == ps;
  }

  /** With `d` the first packet that had not arrived when the last DATA arrived, exactly the `d` before it are dispatched. */
  lemma DispatchedUpTo<T(!new)>(ps: seq<Packet<T>>, picks: seq<nat>, d: nat)
    requires Numbered(ps, 2) && Picks(ps, picks) && (Short(ps) || Timely(ps, picks))
    requires d !in Seen(ps, picks) && forall i | 0 <= i < d :: i in Seen(ps, picks)
    ensures d <= |ps| && Output(ps, picks) == ps[..d]
  {
    var outs := Output(ps, picks);
    StreamDispatched(ps, picks);
    DispatchedIsPrefix(ps, picks);
    forall i | 0 <= i < |outs|
      ensures i in Seen(ps, picks)
    {
      assert Arrived(ps, 0 + i, Seen(ps, picks), outs[i]);
    }
    assert |outs| <= d && |outs| >= d;
  }

  /**
   Short is exact: with one packet more than a short stream can have, a stream of DATA that
   arrives in order and whose first packet is then repeated is dispatched with the repeat.
   */
  lemma OnePacketMoreIsTooMany<T>(ps: seq<Packet<T>>)
    requires Numbered(ps, 2) && |ps| == 0x1_0000
    requires forall i | 0 <= i < |ps| :: ps[i].isData
    ensures Run(Fresh(), ps + [ps[0]]).0 == ps + [ps[0]]
  {
    InOrderRun(ps, 2);
    StaleCopyComesBack(ps[0], 2, 2 + |ps|, []);
    assert [ps[0]] + [] == [ps[0]] && [] + [ps[0]] == [ps[0]];
    RunConcat(Fresh(), ps, [ps[0]]);
  }
}
