/**
 The queue that puts incoming reliable packets back in order. Slots are keyed by the 16-bit
 sequence number on the wire; `next` is the 16-bit number to dispatch next.
 */
module DispatchQueue {
  import opened Bytes
  import opened Wrappers

  /** The 16-bit number that stands for packet number `n` on the wire. */
  function Wire(n: nat): uint16 {
    n % 0x1_0000
  }

  /** `body` is whatever a packet carries besides what the queue looks at. */
  datatype Packet<+T> = Packet(isData: bool, seqId: uint16, fragmentId: byte, body: T)

  datatype Queue<+T> = Queue(slots: map<uint16, Packet<T>>, next: uint16)

  /** Every packet sits in the slot of its own number. */
  ghost predicate Keyed<T>(q: Queue<T>) {
    forall w | w in q.slots :: q.slots[w].seqId == w
  }

  /** The first DATA packet of a peer has number 2, because its CONNECT took number 1. */
  function Fresh<T>(): Queue<T> {
    Queue(map[], 2)
  }

  function Enqueued<T>(q: Queue<T>, p: Packet<T>): Queue<T> {
    q.(slots := q.slots[p.seqId := p])
  }

  function Dispatched<T>(q: Queue<T>, p: Packet<T>): Queue<T> {
    Queue(q.slots - {p.seqId}, Wire(q.next + 1))
  }

  /** The packets one drain loop dispatches, in order, and the queue it leaves. */
  ghost function Drain<T>(q: Queue<T>): (r: (seq<Packet<T>>, Queue<T>))
    requires Keyed(q)
    ensures Keyed(r.1) && r.1.next !in r.1.slots
    decreases |q.slots|
  {
    if q.next !in q.slots then ([], q)
    else
      var p := q.slots[q.next];
      DispatchShrinks(q);
      var (outs, q') := Drain(Dispatched(q, p));
      ([p] + outs, q')
  }

  lemma DispatchShrinks<T>(q: Queue<T>)
    requires Keyed(q) && q.next in q.slots
    ensures Keyed(Dispatched(q, q.slots[q.next]))
    ensures |Dispatched(q, q.slots[q.next]).slots| == |q.slots| - 1
  {
    var rest := q.slots - {q.next};
    assert rest.Keys == q.slots.Keys - {q.next};
    assert |rest.Keys| == |rest| && |q.slots.Keys| == |q.slots|;
  }

  /** A drain only takes packets out: what it dispatches and what it leaves was there before. */
  lemma {:induction false} DrainTakesFrom<T>(q: Queue<T>)
    requires Keyed(q)
    ensures var (outs, q') := Drain(q);
            && (forall i | 0 <= i < |outs| :: outs[i] in q.slots.Values)
            && (forall w | w in q'.slots :: w in q.slots && q'.slots[w] == q.slots[w])
    decreases |q.slots|
  {
    if q.next in q.slots {
      var p := q.slots[q.next];
      DispatchShrinks(q);
      var q1 := Dispatched(q, p);
      DrainTakesFrom(q1);
      forall x | x in q1.slots.Values
        ensures x in q.slots.Values
      {
        var w :| w in q1.slots && q1.slots[w] == x;
        assert q.slots[w] == x;
      }
    }
  }

  class PacketDispatchQueue<T> {
    var slots: map<uint16, Packet<T>>
    var next: uint16

    ghost function State(): Queue<T>
      reads this
    {
      Queue(slots, next)
    }

    constructor ()
      ensures State() == Fresh()
    {
      slots, next := map[], 2;
    }

    method Enqueue(p: Packet<T>)
      modifies this
      ensures State() == Enqueued(old(State()), p)
    {
      slots := slots[p.seqId := p];
    }

    method GetNextToDispatch() returns (r: Option<Packet<T>>)
      ensures r == if next in slots then Some(slots[next]) else None
    {
      if next in slots {
        return Some(slots[next]);
      }
      return None;
    }

    method MarkDispatched(p: Packet<T>)
      modifies this
      ensures State() == Dispatched(old(State()), p)
    {
      next := Wire(next + 1);
      slots := slots - {p.seqId};
    }

    method Purge()
      modifies this
      ensures State() == Queue(map[], old(next))
    {
      slots := map[];
    }
  }

  // ---------- the same queue keyed by unbounded packet numbers ----------

  datatype NumberQueue<+T> = NumberQueue(slots: map<nat, Packet<T>>, next: nat)

  /** An arrival: the true number of the packet and the packet with its 16-bit number. */
  datatype Arrival<+T> = Arrival(number: nat, packet: Packet<T>)

  ghost function DrainNumbers<T>(a: NumberQueue<T>): (seq<Packet<T>>, NumberQueue<T>)
    decreases |a.slots|
  {
    if a.next !in a.slots then ([], a)
    else
      var rest := a.slots - {a.next};
      assert rest.Keys == a.slots.Keys - {a.next} && |rest.Keys| == |rest| && |a.slots.Keys| == |a.slots|;
      var (outs, a') := DrainNumbers(NumberQueue(rest, a.next + 1));
      ([a.slots[a.next]] + outs, a')
  }

  /** DATA is queued and the queue drained; PING is only queued. */
  ghost function Receive<T>(q: Queue<T>, p: Packet<T>): (r: (seq<Packet<T>>, Queue<T>))
    requires Keyed(q)
    ensures Keyed(r.1)
  {
    if p.isData then Drain(Enqueued(q, p)) else ([], Enqueued(q, p))
  }

  ghost function ReceiveNumber<T>(a: NumberQueue<T>, x: Arrival<T>): (seq<Packet<T>>, NumberQueue<T>) {
    var a' := a.(slots := a.slots[x.number := x.packet]);
    if x.packet.isData then DrainNumbers(a') else ([], a')
  }

  ghost function Run<T>(q: Queue<T>, arrivals: seq<Packet<T>>): (r: (seq<Packet<T>>, Queue<T>))
    requires Keyed(q)
    ensures Keyed(r.1)
    decreases arrivals
  {
    if arrivals == [] then ([], q)
    else
      var (outs, q') := Receive(q, arrivals[0]);
      var (more, q'') := Run(q', arrivals[1..]);
      (outs + more, q'')
  }

  ghost function RunNumbers<T>(a: NumberQueue<T>, arrivals: seq<Arrival<T>>): (seq<Packet<T>>, NumberQueue<T>)
    decreases arrivals
  {
    if arrivals == [] then ([], a)
    else
      var (outs, a') := ReceiveNumber(a, arrivals[0]);
      var (more, a'') := RunNumbers(a', arrivals[1..]);
      (outs + more, a'')
  }

  /** Each arrival carries its number modulo a lap and lies within one lap of the next number due. */
  ghost predicate InWindow<T>(a: NumberQueue<T>, arrivals: seq<Arrival<T>>)
    decreases arrivals
  {
    arrivals != [] ==>
      && arrivals[0].packet.seqId == Wire(arrivals[0].number)
      && a.next <= arrivals[0].number < a.next + 0x1_0000
      && InWindow(ReceiveNumber(a, arrivals[0]).1, arrivals[1..])
  }

  /** Within one lap a number is known by its 16 bits. */
  lemma WireInjective(lo: nat, m: nat, n: nat)
    requires lo <= m < lo + 0x1_0000 && lo <= n < lo + 0x1_0000
    ensures Wire(m) == Wire(n) <==> m == n
  {
  }

  lemma WireNext(n: nat)
    ensures Wire(Wire(n) + 1) == Wire(n + 1)
  {
  }

  ghost predicate Holds<T>(a: NumberQueue<T>, w: uint16, p: Packet<T>) {
    exists n :: n in a.slots && Wire(n) == w && a.slots[n] == p
  }

  /** The 16-bit queue holds exactly the packets of the unbounded one, all within a lap of `next`. */
  ghost predicate Refines<T>(a: NumberQueue<T>, q: Queue<T>) {
    && Keyed(q)
    && q.next == Wire(a.next)
    && (forall n | n in a.slots :: a.next <= n < a.next + 0x1_0000 && Wire(n) in q.slots)
    && (forall w {:trigger Holds(a, w, q.slots[w])} | w in q.slots :: Holds(a, w, q.slots[w]))
  }

  /** The slot of a held number holds that number's packet. */
  lemma SlotOf<T>(a: NumberQueue<T>, q: Queue<T>, n: nat)
    requires Refines(a, q) && a.next <= n < a.next + 0x1_0000
    ensures n in a.slots <==> Wire(n) in q.slots
    ensures n in a.slots ==> q.slots[Wire(n)] == a.slots[n]
  {
    if Wire(n) in q.slots {
      assert Holds(a, Wire(n), q.slots[Wire(n)]);
      var m :| m in a.slots && Wire(m) == Wire(n) && a.slots[m] == q.slots[Wire(n)];
      WireInjective(a.next, m, n);
    }
  }

  lemma EnqueueRefines<T>(a: NumberQueue<T>, q: Queue<T>, x: Arrival<T>)
    requires Refines(a, q)
    requires x.packet.seqId == Wire(x.number) && a.next <= x.number < a.next + 0x1_0000
    ensures Refines(a.(slots := a.slots[x.number := x.packet]), Enqueued(q, x.packet))
  {
    var a' := a.(slots := a.slots[x.number := x.packet]);
    var q' := Enqueued(q, x.packet);
    forall w | w in q'.slots
      ensures Holds(a', w, q'.slots[w])
    {
      if w == x.packet.seqId {
        assert a'.slots[x.number] == x.packet;
      } else {
        assert Holds(a, w, q.slots[w]);
        var n :| n in a.slots && Wire(n) == w && a.slots[n] == q.slots[w];
        assert a'.slots[n] == q.slots[w];
      }
    }
  }

  lemma DispatchRefines<T>(a: NumberQueue<T>, q: Queue<T>)
    requires Refines(a, q) && a.next in a.slots
    ensures q.next in q.slots && q.slots[q.next] == a.slots[a.next]
    ensures Refines(NumberQueue(a.slots - {a.next}, a.next + 1), Dispatched(q, q.slots[q.next]))
  {
    SlotOf(a, q, a.next);
    WireNext(a.next);
    assert q.slots[q.next] == a.slots[a.next];
    var a' := NumberQueue(a.slots - {a.next}, a.next + 1);
    var q' := Dispatched(q, q.slots[q.next]);
    forall n | n in a'.slots
      ensures a'.next <= n < a'.next + 0x1_0000 && Wire(n) in q'.slots
    {
      WireInjective(a.next, a.next, n);
    }
    assert Keyed(q') && q'.next == Wire(a'.next);
    forall w | w in q'.slots
      ensures Holds(a', w, q'.slots[w])
    {
      assert Holds(a, w, q.slots[w]);
      var n :| n in a.slots && Wire(n) == w && a.slots[n] == q.slots[w];
      assert a'.slots[n] == q.slots[w];
    }
  }

  lemma {:induction false} DrainRefines<T>(a: NumberQueue<T>, q: Queue<T>)
    requires Refines(a, q)
    ensures Drain(q).0 == DrainNumbers(a).0
    ensures Refines(DrainNumbers(a).1, Drain(q).1)
    decreases |a.slots|
  {
    SlotOf(a, q, a.next);
    if a.next in a.slots {
      DispatchRefines(a, q);
      var rest := a.slots - {a.next};
      assert rest.Keys == a.slots.Keys - {a.next} && |rest.Keys| == |rest| && |a.slots.Keys| == |a.slots|;
      DrainRefines(NumberQueue(rest, a.next + 1), Dispatched(q, q.slots[q.next]));
    }
  }

  /**
   Over runs of any length and across any number of wraparounds, the 16-bit queue dispatches
   exactly what a queue keyed by true numbers dispatches.
   */
  lemma {:induction false} WraparoundRefinement<T>(a: NumberQueue<T>, q: Queue<T>, arrivals: seq<Arrival<T>>)
    requires Refines(a, q) && InWindow(a, arrivals)
    ensures Run(q, Packets(arrivals)).0 == RunNumbers(a, arrivals).0
    ensures Refines(RunNumbers(a, arrivals).1, Run(q, Packets(arrivals)).1)
    decreases arrivals
  {
    if arrivals != [] {
      var x := arrivals[0];
      EnqueueRefines(a, q, x);
      if x.packet.isData {
        DrainRefines(a.(slots := a.slots[x.number := x.packet]), Enqueued(q, x.packet));
      }
      assert Packets(arrivals)[1..] == Packets(arrivals[1..]);
      WraparoundRefinement(ReceiveNumber(a, x).1, Receive(q, x.packet).1, arrivals[1..]);
    }
  }

  function Packets<T>(arrivals: seq<Arrival<T>>): (ps: seq<Packet<T>>)
    ensures |ps| == |arrivals|
  {
    seq(|arrivals|, i requires 0 <= i < |arrivals| => arrivals[i].packet)
  }

  /** Packet `p` was put into the queue under number `n`, before the run or by one of its arrivals. */
  ghost predicate CameIn<T(!new)>(a: NumberQueue<T>, arrivals: seq<Arrival<T>>, n: nat, p: Packet<T>) {
    At(a.slots, n, p) || Arrival(n, p) in arrivals
  }

  ghost predicate At<T>(slots: map<nat, Packet<T>>, n: nat, p: Packet<T>) {
    n in slots && slots[n] == p
  }

  lemma {:induction false} DrainInOrder<T(!new)>(a: NumberQueue<T>)
    ensures var (outs, a') := DrainNumbers(a);
            && a'.next == a.next + |outs|
            && (forall i | 0 <= i < |outs| :: At(a.slots, a.next + i, outs[i]))
            && (forall n | n in a'.slots :: n in a.slots && a'.slots[n] == a.slots[n])
    decreases |a.slots|
  {
    if a.next in a.slots {
      var rest := a.slots - {a.next};
      assert rest.Keys == a.slots.Keys - {a.next} && |rest.Keys| == |rest| && |a.slots.Keys| == |a.slots|;
      var b := NumberQueue(rest, a.next + 1);
      DrainInOrder(b);
      var outs := DrainNumbers(a).0;
      forall i | 0 <= i < |outs|
        ensures At(a.slots, a.next + i, outs[i])
      {
        if i > 0 {
          assert At(b.slots, b.next + (i - 1), DrainNumbers(b).0[i - 1]);
        }
      }
    }
  }

  /**
   Whatever the arrivals, dispatch goes through the numbers one by one from `next`, never
   skipping and never repeating one, and each dispatched packet came in under its number.
   */
  lemma {:induction false} DispatchInOrderWithoutGaps<T(!new)>(a: NumberQueue<T>, arrivals: seq<Arrival<T>>)
    ensures var (outs, a') := RunNumbers(a, arrivals);
            && a'.next == a.next + |outs|
            && forall i | 0 <= i < |outs| :: CameIn(a, arrivals, a.next + i, outs[i])
    decreases arrivals
  {
    if arrivals != [] {
      var x := arrivals[0];
      var b := a.(slots := a.slots[x.number := x.packet]);
      var (first, a') := ReceiveNumber(a, x);
      if x.packet.isData {
        DrainInOrder(b);
      }
      DispatchInOrderWithoutGaps(a', arrivals[1..]);
      var (more, _) := RunNumbers(a', arrivals[1..]);
      forall i | 0 <= i < |first + more|
        ensures CameIn(a, arrivals, a.next + i, (first + more)[i])
      {
        if i < |first| {
          assert At(b.slots, b.next + i, first[i]);
        } else {
          assert CameIn(a', arrivals[1..], a'.next + (i - |first|), more[i - |first|]);
        }
      }
    }
  }

  /** One drain step, as an equation on pairs. */
  lemma DrainStep<T>(q: Queue<T>, p: Packet<T>)
    requires Keyed(q) && q.next in q.slots && q.slots[q.next] == p
    ensures var q' := Dispatched(q, p);
            Keyed(q') && Drain(q) == ([p] + Drain(q').0, Drain(q').1)
  {
    DispatchShrinks(q);
  }

  lemma DrainPastStale<T>(stale: Packet<T>, p: Packet<T>, n: nat, t: nat)
    requires t < n < t + 0x1_0000
    requires stale.seqId == Wire(t) && p.seqId == Wire(n) && p.isData
    ensures var held := map[Wire(t) := stale];
            Receive(Queue(held, Wire(n)), p) ==
            if n + 1 < t + 0x1_0000 then ([p], Queue(held, Wire(n + 1)))
            else ([p] + [stale], Queue(map[], Wire(n + 2)))
  {
    WireInjective(t, t, n);
    WireNext(n);
    var q := Enqueued(Queue(map[Wire(t) := stale], Wire(n)), p);
    var q1 := Queue(map[Wire(t) := stale], Wire(n + 1));
    assert Dispatched(q, p) == q1;
    DrainStep(q, p);
    if n + 1 < t + 0x1_0000 {
      WireInjective(t, t, n + 1);
      assert [p] + [] == [p];
    } else {
      WireNext(n + 1);
      assert Wire(n + 1) == Wire(t);
      assert Dispatched(q1, stale) == Queue(map[], Wire(n + 2));
      DrainStep(q1, stale);
      assert [stale] + [] == [stale];
    }
  }

  /**
   The window is needed: a copy of a packet that was already dispatched is kept, and it is
   dispatched a second time one lap later, in place of a packet that never arrived.
   */
  lemma {:induction false} StaleCopyComesBack<T>(stale: Packet<T>, t: nat, next: nat, later: seq<Packet<T>>)
    requires t < next <= t + 0x1_0000 && |later| == t + 0x1_0000 - next
    requires stale.isData && stale.seqId == Wire(t)
    requires forall i | 0 <= i < |later| :: later[i].isData && later[i].seqId == Wire(next + i)
    ensures Run(Queue(map[], Wire(next)), [stale] + later).0 == later + [stale]
  {
    var q := Queue(map[], Wire(next));
    var held := Queue(map[Wire(t) := stale], Wire(next));
    assert Enqueued(q, stale) == held;
    if later == [] {
      WireNext(next);
      var q1: Queue<T> := Queue(map[], Wire(next + 1));
      assert Dispatched(held, stale) == q1 && Drain(q1) == ([], q1);
      assert Receive(q, stale) == ([stale] + [], q1);
    } else {
      WireInjective(t, t, next);
      assert Receive(q, stale) == ([], held);
      StaleStaysUntilItsSlot(stale, t, next, later);
      assert ([stale] + later)[1..] == later;
    }
  }

  lemma {:induction false} StaleStaysUntilItsSlot<T>(stale: Packet<T>, t: nat, next: nat, later: seq<Packet<T>>)
    requires t < next < t + 0x1_0000 && |later| == t + 0x1_0000 - next
    requires stale.seqId == Wire(t)
    requires forall i | 0 <= i < |later| :: later[i].isData && later[i].seqId == Wire(next + i)
    ensures Run(Queue(map[Wire(t) := stale], Wire(next)), later).0 == later + [stale]
    decreases later
  {
    DrainPastStale(stale, later[0], next, t);
    var rest := later[1..];
    assert later == [later[0]] + rest;
    if rest != [] {
      forall i | 0 <= i < |rest|
        ensures rest[i].isData && rest[i].seqId == Wire(next + 1 + i)
      {
        assert rest[i] == later[i + 1];
      }
      StaleStaysUntilItsSlot(stale, t, next + 1, rest);
    }
  }

  // ---------- what holds of every run ----------

  ghost predicate CountsFrom<T>(outs: seq<Packet<T>>, n: nat) {
    forall i | 0 <= i < |outs| :: outs[i].seqId == Wire(n + i)
  }

  lemma WireAdd(n: nat, k: nat)
    ensures Wire(Wire(n) + k) == Wire(n + k)
  {
  }

  lemma CountsOn<T>(first: seq<Packet<T>>, more: seq<Packet<T>>, n: nat)
    requires CountsFrom(first, n) && CountsFrom(more, Wire(n + |first|))
    ensures CountsFrom(first + more, n)
  {
    forall i | 0 <= i < |first + more|
      ensures (first + more)[i].seqId == Wire(n + i)
    {
      if i >= |first| {
        WireAdd(n + |first|, i - |first|);
      }
    }
  }

  /** Dispatch counts through the 16-bit numbers, whatever is in the queue. */
  lemma {:induction false} DrainNumbered<T>(q: Queue<T>)
    requires Keyed(q)
    ensures Drain(q).1.next == Wire(q.next + |Drain(q).0|) && CountsFrom(Drain(q).0, q.next)
    decreases |q.slots|
  {
    if q.next in q.slots {
      var p := q.slots[q.next];
      DrainStep(q, p);
      DispatchShrinks(q);
      DrainNumbered(Dispatched(q, p));
      var outs := Drain(Dispatched(q, p)).0;
      WireAdd(q.next + 1, |outs|);
      CountsOn([p], outs, q.next);
    }
  }

  /** Dispatch counts through the 16-bit numbers, whatever arrives. */
  lemma {:induction false} RunNumbered<T>(q: Queue<T>, arrivals: seq<Packet<T>>)
    requires Keyed(q)
    ensures Run(q, arrivals).1.next == Wire(q.next + |Run(q, arrivals).0|) && CountsFrom(Run(q, arrivals).0, q.next)
    decreases arrivals
  {
    if arrivals != [] {
      var (first, q1) := Receive(q, arrivals[0]);
      ReceiveNumbered(q, arrivals[0]);
      RunNumbered(q1, arrivals[1..]);
      var more := Run(q1, arrivals[1..]).0;
      WireAdd(q.next + |first|, |more|);
      CountsOn(first, more, q.next);
    }
  }

  lemma ReceiveNumbered<T>(q: Queue<T>, p: Packet<T>)
    requires Keyed(q)
    ensures Receive(q, p).1.next == Wire(q.next + |Receive(q, p).0|) && CountsFrom(Receive(q, p).0, q.next)
  {
    if p.isData {
      DrainNumbered(Enqueued(q, p));
    }
  }

  ghost predicate Known<T>(q: Queue<T>, arrivals: seq<Packet<T>>, p: Packet<T>) {
    p in q.slots.Values || p in arrivals
  }

  ghost predicate AllKnown<T>(q: Queue<T>, arrivals: seq<Packet<T>>, outs: seq<Packet<T>>) {
    forall i | 0 <= i < |outs| :: Known(q, arrivals, outs[i])
  }

  lemma ReceiveTakesFrom<T>(q: Queue<T>, p: Packet<T>)
    requires Keyed(q)
    ensures AllKnown(q, [p], Receive(q, p).0)
    ensures forall w | w in Receive(q, p).1.slots :: Known(q, [p], Receive(q, p).1.slots[w])
  {
    var q1 := Enqueued(q, p);
    DrainTakesFrom(q1);
    forall x | x in q1.slots.Values
      ensures Known(q, [p], x)
    {
    }
  }

  /** Everything that is dispatched was in the queue or arrived. */
  lemma {:induction false} RunTakesFrom<T>(q: Queue<T>, arrivals: seq<Packet<T>>)
    requires Keyed(q)
    ensures AllKnown(q, arrivals, Run(q, arrivals).0)
    decreases arrivals
  {
    if arrivals != [] {
      var p, rest := arrivals[0], arrivals[1..];
      ReceiveTakesFrom(q, p);
      var (first, q1) := Receive(q, p);
      RunTakesFrom(q1, rest);
      var more := Run(q1, rest).0;
      forall i | 0 <= i < |first + more|
        ensures Known(q, arrivals, (first + more)[i])
      {
        if i < |first| {
          assert Known(q, [p], first[i]);
        } else {
          assert Known(q1, rest, more[i - |first|]);
        }
      }
    }
  }

  ghost predicate Dispatches<T>(outs: seq<Packet<T>>, w: uint16) {
    exists i | 0 <= i < |outs| :: outs[i].seqId == w
  }

  lemma DispatchesMore<T>(first: seq<Packet<T>>, more: seq<Packet<T>>, w: uint16)
    ensures Dispatches(first + more, w) <==> Dispatches(first, w) || Dispatches(more, w)
  {
    if Dispatches(first, w) {
      var i :| 0 <= i < |first| && first[i].seqId == w;
      assert (first + more)[i].seqId == w;
    }
    if Dispatches(more, w) {
      var i :| 0 <= i < |more| && more[i].seqId == w;
      assert (first + more)[|first| + i].seqId == w;
    }
  }

  /** A slot is emptied only by dispatching what is in it. */
  lemma {:induction false} DrainRemembers<T>(q: Queue<T>, w: uint16)
    requires Keyed(q) && w in q.slots
    ensures var (outs, q') := Drain(q); w in q'.slots || Dispatches(outs, w)
    decreases |q.slots|
  {
    if q.next in q.slots {
      var p := q.slots[q.next];
      DrainStep(q, p);
      DispatchShrinks(q);
      var rest := Drain(Dispatched(q, p)).0;
      DispatchesMore([p], rest, w);
      if w == q.next {
        assert [p][0].seqId == w;
      } else {
        DrainRemembers(Dispatched(q, p), w);
      }
    }
  }

  /** What has arrived waits in its slot until its number is dispatched. */
  lemma {:induction false} RunRemembers<T>(q: Queue<T>, arrivals: seq<Packet<T>>, w: uint16)
    requires Keyed(q) && (w in q.slots || exists k | 0 <= k < |arrivals| :: arrivals[k].seqId == w)
    ensures var (outs, q') := Run(q, arrivals); w in q'.slots || Dispatches(outs, w)
    decreases arrivals
  {
    if arrivals != [] {
      var q1 := Enqueued(q, arrivals[0]);
      var (first, q2) := Receive(q, arrivals[0]);
      var more := Run(q2, arrivals[1..]).0;
      DispatchesMore(first, more, w);
      if w in q1.slots && arrivals[0].isData {
        DrainRemembers(q1, w);
      }
      if w in q2.slots {
        RunRemembers(q2, arrivals[1..], w);
      } else if w !in q1.slots {
        var k :| 0 <= k < |arrivals| && arrivals[k].seqId == w;
        assert arrivals[1..][k - 1].seqId == w;
        RunRemembers(q2, arrivals[1..], w);
      }
    }
  }

  /** A drain leaves the slot due next empty, and a run that ends with DATA ends with a drain. */
  lemma {:induction false} DrainedAfterData<T>(q: Queue<T>, arrivals: seq<Packet<T>>)
    requires Keyed(q) && arrivals != [] && arrivals[|arrivals| - 1].isData
    ensures var q' := Run(q, arrivals).1; q'.next !in q'.slots
    decreases arrivals
  {
    if |arrivals| > 1 {
      DrainedAfterData(Receive(q, arrivals[0]).1, arrivals[1..]);
    } else {
      assert arrivals[1..] == [];
    }
  }

  /** PINGs alone dispatch nothing. */
  lemma {:induction false} NothingWithoutData<T>(q: Queue<T>, arrivals: seq<Packet<T>>)
    requires Keyed(q) && forall k | 0 <= k < |arrivals| :: !arrivals[k].isData
    ensures Run(q, arrivals).0 == []
    decreases arrivals
  {
    if arrivals != [] {
      NothingWithoutData(Receive(q, arrivals[0]).1, arrivals[1..]);
    }
  }

  lemma {:induction false} InOrderRun<T>(ps: seq<Packet<T>>, n: nat)
    requires forall i | 0 <= i < |ps| :: ps[i].isData && ps[i].seqId == Wire(n + i)
    ensures Run(Queue(map[], Wire(n)), ps) == (ps, Queue(map[], Wire(n + |ps|)))
    decreases ps
  {
    if ps != [] {
      var q := Enqueued(Queue(map[], Wire(n)), ps[0]);
      WireNext(n);
      assert Dispatched(q, ps[0]) == Queue(map[], Wire(n + 1));
      DrainStep(q, ps[0]);
      assert [ps[0]] + [] == [ps[0]];
      forall i | 0 <= i < |ps[1..]|
        ensures ps[1..][i].isData && ps[1..][i].seqId == Wire(n + 1 + i)
      {
        assert ps[1..][i] == ps[i + 1];
      }
      InOrderRun(ps[1..], n + 1);
      assert ps == [ps[0]] + ps[1..];
    }
  }

  lemma {:induction false} RunConcat<T>(q: Queue<T>, xs: seq<Packet<T>>, ys: seq<Packet<T>>)
    requires Keyed(q)
    ensures Run(q, xs + ys) == (Run(q, xs).0 + Run(Run(q, xs).1, ys).0, Run(Run(q, xs).1, ys).1)
    decreases xs
  {
    if xs == [] {
      assert xs + ys == ys && [] + Run(q, ys).0 == Run(q, ys).0;
    } else {
      assert (xs + ys)[1..] == xs[1..] + ys;
      var (outs, q1) := Receive(q, xs[0]);
      RunConcat(q1, xs[1..], ys);
      var (more, q2) := Run(q1, xs[1..]);
      assert outs + (more + Run(q2, ys).0) == (outs + more) + Run(q2, ys).0;
    }
  }

  // ---------- the same for unbounded numbers ----------

  lemma {:induction false} DrainNumbersKeeps<T>(a: NumberQueue<T>, n: nat)
    requires n in a.slots
    ensures var a' := DrainNumbers(a).1; n in a'.slots || n < a'.next
    decreases |a.slots|
  {
    if a.next in a.slots {
      var rest := a.slots - {a.next};
      assert rest.Keys == a.slots.Keys - {a.next} && |rest.Keys| == |rest| && |a.slots.Keys| == |a.slots|;
      var b := NumberQueue(rest, a.next + 1);
      if n == a.next {
        DrainNumbersAdvances(b);
      } else {
        DrainNumbersKeeps(b, n);
      }
    }
  }

  lemma {:induction false} DrainNumbersAdvances<T>(a: NumberQueue<T>)
    ensures var a' := DrainNumbers(a).1; a'.next >= a.next && a'.next !in a'.slots
    decreases |a.slots|
  {
    if a.next in a.slots {
      var rest := a.slots - {a.next};
      assert rest.Keys == a.slots.Keys - {a.next} && |rest.Keys| == |rest| && |a.slots.Keys| == |a.slots|;
      DrainNumbersAdvances(NumberQueue(rest, a.next + 1));
    }
  }

  lemma ReceiveNumberKeeps<T>(a: NumberQueue<T>, x: Arrival<T>, n: nat)
    requires n in a.slots || n < a.next || n == x.number
    ensures var a' := ReceiveNumber(a, x).1; n in a'.slots || n < a'.next
    ensures x.packet.isData ==> ReceiveNumber(a, x).1.next !in ReceiveNumber(a, x).1.slots
  {
    var b := a.(slots := a.slots[x.number := x.packet]);
    DrainNumbersAdvances(b);
    if n in b.slots {
      DrainNumbersKeeps(b, n);
    }
  }

  /** What has arrived is dispatched or waits; after DATA the number due next has not arrived. */
  lemma {:induction false} RunNumbersKeeps<T>(a: NumberQueue<T>, arrivals: seq<Arrival<T>>, n: nat)
    requires n in a.slots || n < a.next || exists k | 0 <= k < |arrivals| :: arrivals[k].number == n
    ensures var a' := RunNumbers(a, arrivals).1; n in a'.slots || n < a'.next
    ensures var a' := RunNumbers(a, arrivals).1;
            arrivals != [] && arrivals[|arrivals| - 1].packet.isData ==> a'.next !in a'.slots
    decreases arrivals
  {
    if arrivals != [] {
      var a1 := ReceiveNumber(a, arrivals[0]).1;
      var rest := arrivals[1..];
      if n in a.slots || n < a.next || n == arrivals[0].number {
        ReceiveNumberKeeps(a, arrivals[0], n);
      } else {
        var k :| 0 <= k < |arrivals| && arrivals[k].number == n;
        assert rest[k - 1].number == n;
        ReceiveNumberKeeps(a, arrivals[0], arrivals[0].number);
      }
      RunNumbersKeeps(a1, rest, n);
    }
  }

  /** A run within the window is so from its beginning on. */
  lemma {:induction false} InWindowPrefix<T>(a: NumberQueue<T>, arrivals: seq<Arrival<T>>, k: nat)
    requires InWindow(a, arrivals) && k <= |arrivals|
    ensures InWindow(a, arrivals[..k])
    decreases k
  {
    if k > 0 {
      assert arrivals[..k][1..] == arrivals[1..][..k - 1];
      InWindowPrefix(ReceiveNumber(a, arrivals[0]).1, arrivals[1..], k - 1);
    }
  }
}
