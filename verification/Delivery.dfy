/**
 Reliable delivery end to end on one substream: a sender that cuts, numbers and encrypts,
 a network that loses, repeats and reorders, and the receiver of HandleReliable and handlePing.
 Compression is the identity, as configured.
 */
module Delivery {
  import opened Bytes
  import opened Wrappers
  import opened DispatchQueue
  import opened Streams
  import opened Fragments
  import opened Cipher

  type Wired = Packet<seq<byte>>

  // ---------- the sender ----------

  function UnitSize(u: Unit): nat {
    if u.Fragment? then |u.payload| else 0
  }

  function PacketFor(ks: KeyStream, u: Unit, number: nat, pos: nat): Wired {
    match u
    case Fragment(id, payload) => Packet(true, Wire(number), id, XorAt(ks, pos, payload))
    case Ping => Packet(false, Wire(number), 0, [])
  }

  /** The packets that carry the units when the last number used is `counter` and the cipher stands at `pos`. */
  function OnTheWire(ks: KeyStream, us: seq<Unit>, counter: nat, pos: nat): (ps: seq<Wired>)
    ensures |ps| == |us|
    decreases us
  {
    if us == [] then []
    else [PacketFor(ks, us[0], counter + 1, pos)] + OnTheWire(ks, us[1..], counter + 1, pos + UnitSize(us[0]))
  }

  lemma {:induction false} NumberedFrom(ks: KeyStream, us: seq<Unit>, counter: nat, pos: nat, i: nat)
    requires i < |us|
    ensures var p := OnTheWire(ks, us, counter, pos)[i];
            p.seqId == Wire(counter + 1 + i) && p.isData == us[i].Fragment?
    decreases us
  {
    if i > 0 {
      NumberedFrom(ks, us[1..], counter + 1, pos + UnitSize(us[0]), i - 1);
    }
  }

  lemma {:induction false} OnTheWireConcat(ks: KeyStream, us: seq<Unit>, vs: seq<Unit>, counter: nat, pos: nat)
    ensures OnTheWire(ks, us + vs, counter, pos) ==
            OnTheWire(ks, us, counter, pos) + OnTheWire(ks, vs, counter + |us|, pos + |Payloads(us)|)
    decreases us
  {
    if us == [] {
      assert us + vs == vs;
    } else {
      var rest, pos' := us[1..], pos + UnitSize(us[0]);
      OnTheWireConcat(ks, rest, vs, counter + 1, pos');
      PayloadsStep(us);
      var n, end := counter + |us|, pos + |Payloads(us)|;
      assert counter + 1 + |rest| == n && pos' + |Payloads(rest)| == end;
      OnTheWireStep(ks, us, counter, pos);
      OnTheWireStep(ks, us + vs, counter, pos);
      assert (us + vs)[1..] == rest + vs;
      Regrouped([PacketFor(ks, us[0], counter + 1, pos)], OnTheWire(ks, rest, counter + 1, pos'), OnTheWire(ks, vs, n, end));
    }
  }

  lemma OnTheWireStep(ks: KeyStream, us: seq<Unit>, counter: nat, pos: nat)
    requires us != []
    ensures OnTheWire(ks, us, counter, pos) ==
            [PacketFor(ks, us[0], counter + 1, pos)] + OnTheWire(ks, us[1..], counter + 1, pos + UnitSize(us[0]))
  {
  }

  lemma Regrouped(a: seq<Wired>, b: seq<Wired>, c: seq<Wired>)
    ensures a + (b + c) == a + b + c
  {
  }

  lemma PayloadsStep(us: seq<Unit>)
    requires us != []
    ensures |Payloads(us)| == UnitSize(us[0]) + |Payloads(us[1..])|
  {
  }

  /** Where an outgoing substream stands: last number used, cipher position, packets sent. */
  datatype Start = Start(counter: nat, pos: nat, wire: seq<Wired>)

  /** The outgoing half of a substream; `wire` is everything handed to the socket, oldest first. */
  class OutgoingSubstream {
    const fragmentSize: nat
    const cipher: RC4
    var counter: uint16
    var wire: seq<Wired>

    ghost predicate Valid()
      reads this, cipher, cipher.cipher, cipher.decipher
    {
      fragmentSize >= 1 && cipher.Valid()
    }

    constructor (fragmentSize: nat, cipher: RC4, counter: uint16)
      requires fragmentSize >= 1 && cipher.Valid()
      ensures Valid() && this.fragmentSize == fragmentSize && this.cipher == cipher
      ensures this.counter == counter && wire == []
    {
      this.fragmentSize := fragmentSize;
      this.cipher := cipher;
      this.counter := counter;
      wire := [];
    }

    /** Since it stood at `start`, the substream has sent exactly the units `us`. */
    ghost predicate Sent(start: Start, us: seq<Unit>)
      reads this, cipher, cipher.cipher, cipher.decipher
    {
      && counter == Wire(start.counter + |us|)
      && cipher.State().encPos == start.pos + |Payloads(us)|
      && wire == start.wire + OnTheWire(cipher.cipher.KeyBytes(), us, start.counter, start.pos)
    }

    method SendPacket(fragmentId: byte, payload: seq<byte>, ghost start: Start, ghost us: seq<Unit>)
      requires Valid() && Sent(start, us)
      modifies this, cipher, cipher.cipher
      ensures Valid() && cipher.cipher == old(cipher.cipher)
      ensures Sent(start, us + [Fragment(fragmentId, payload)])
    {
      SentGrows(cipher.cipher.KeyBytes(), us, Fragment(fragmentId, payload), start.counter, start.pos);
      WireNext(start.counter + |us|);
      counter := Wire(counter + 1);
      var body := payload;
      if |payload| != 0 {
        body := cipher.Encrypt(payload);
      }
      wire := wire + [Packet(true, counter, fragmentId, body)];
    }

    method Send(message: seq<byte>)
      requires Valid()
      modifies this, cipher, cipher.cipher
      ensures Valid() && cipher.cipher == old(cipher.cipher)
      ensures Sent(old(Here()), Cut(message, fragmentSize, 1))
    {
      var data := message;
      var fragments := |data| / fragmentSize;
      var fragmentId: byte := 1;
      ghost var start := Here();
      ghost var whole := Cut(message, fragmentSize, 1);
      ghost var sent := [];
      assert |whole| == fragments + 1 by {
        FragmenterLaw(message, fragmentSize, 1);
      }
      var i := 0;
      while i <= fragments
        invariant Valid() && cipher.cipher == old(cipher.cipher)
        invariant 0 <= i <= fragments + 1 && |sent| == i && (i <= fragments ==> fragmentId == IdOf(i + 1))
        invariant whole == sent + if i <= fragments then Cut(data, fragmentSize, i + 1) else []
        invariant Sent(start, sent)
      {
        CutStep(sent, data, fragmentSize, i + 1);
        var payload, id := data, 0;
        if |data| >= fragmentSize {
          payload, id := data[..fragmentSize], fragmentId;
          data := data[fragmentSize..];
          fragmentId := (fragmentId + 1) % 256;
        }
        SendPacket(id, payload, start, sent);
        sent := sent + [Fragment(id, payload)];
        i := i + 1;
      }
      assert sent + [] == sent;
    }

    ghost function Here(): Start
      reads this, cipher, cipher.cipher, cipher.decipher
    {
      Start(counter, cipher.State().encPos, wire)
    }
  }

  lemma CutStep(sent: seq<Unit>, data: seq<byte>, size: nat, g: nat)
    requires size >= 1
    ensures |data| < size ==> sent + Cut(data, size, g) == sent + [Fragment(0, data)] + []
    ensures |data| >= size ==> sent + Cut(data, size, g) ==
                               sent + [Fragment(IdOf(g), data[..size])] + Cut(data[size..], size, g + 1)
    ensures IdOf(g + 1) == (IdOf(g) + 1) % 256
  {
  }

  lemma SentGrows(ks: KeyStream, us: seq<Unit>, u: Unit, counter: nat, pos: nat)
    ensures OnTheWire(ks, us + [u], counter, pos) ==
            OnTheWire(ks, us, counter, pos) + [PacketFor(ks, u, counter + |us| + 1, pos + |Payloads(us)|)]
    ensures |Payloads(us + [u])| == |Payloads(us)| + UnitSize(u)
  {
    OnTheWireConcat(ks, us, [u], counter, pos);
    PayloadsConcat(us, [u]);
    assert [u][1..] == [];
  }

  lemma {:induction false} PayloadsConcat(us: seq<Unit>, vs: seq<Unit>)
    ensures Payloads(us + vs) == Payloads(us) + Payloads(vs)
  {
    if us == [] {
      assert us + vs == vs;
    } else {
      assert (us + vs)[1..] == us[1..] + vs;
      PayloadsConcat(us[1..], vs);
    }
  }

  // ---------- the receiver ----------

  /** Decipher position, fragment buffer, and the messages handed to the RMC layer. */
  datatype Inbox = Inbox(pos: nat, buffer: seq<byte>, messages: seq<seq<byte>>)

  datatype Channel = Channel(queue: Queue<seq<byte>>, inbox: Inbox)

  const FRESH := Channel(Fresh(), Inbox(0, [], []))

  function Consume(ks: KeyStream, b: Inbox, p: Wired): Inbox {
    if !p.isData then b
    else
      var held := b.buffer + XorAt(ks, b.pos, p.body);
      if p.fragmentId == 0 then Inbox(b.pos + |p.body|, [], b.messages + [held])
      else Inbox(b.pos + |p.body|, held, b.messages)
  }

  function ConsumeAll(ks: KeyStream, b: Inbox, ps: seq<Wired>): Inbox
    decreases ps
  {
    if ps == [] then b else ConsumeAll(ks, Consume(ks, b, ps[0]), ps[1..])
  }

  ghost function Arrive(ks: KeyStream, c: Channel, p: Wired): (c': Channel)
    requires Keyed(c.queue)
    ensures Keyed(c'.queue)
  {
    var (outs, q) := Receive(c.queue, p);
    Channel(q, ConsumeAll(ks, c.inbox, outs))
  }

  ghost function ArriveAll(ks: KeyStream, c: Channel, ps: seq<Wired>): (c': Channel)
    requires Keyed(c.queue)
    ensures Keyed(c'.queue)
    decreases ps
  {
    if ps == [] then c else ArriveAll(ks, Arrive(ks, c, ps[0]), ps[1..])
  }

  class IncomingSubstream {
    const queue: PacketDispatchQueue<seq<byte>>
    const cipher: RC4
    var fragmentBuffer: seq<byte>
    var emitted: seq<seq<byte>>

    ghost predicate Valid()
      reads this, queue, cipher, cipher.cipher, cipher.decipher
    {
      Keyed(queue.State()) && cipher.Valid()
    }

    ghost function State(): Channel
      reads this, queue, cipher, cipher.cipher, cipher.decipher
    {
      Channel(queue.State(), Inbox(cipher.State().decPos, fragmentBuffer, emitted))
    }

    constructor (queue: PacketDispatchQueue<seq<byte>>, cipher: RC4)
      requires Keyed(queue.State()) && cipher.Valid()
      ensures Valid() && this.queue == queue && this.cipher == cipher
      ensures State() == Channel(queue.State(), Inbox(cipher.State().decPos, [], []))
    {
      this.queue := queue;
      this.cipher := cipher;
      fragmentBuffer, emitted := [], [];
    }

    method HandlePing(packet: Wired)
      requires Valid() && !packet.isData
      modifies queue
      ensures Valid() && State() == Arrive(cipher.decipher.KeyBytes(), old(State()), packet)
    {
      queue.Enqueue(packet);
    }

    /** The body of the drain loop for one packet. */
    method Dispatch(p: Wired)
      requires Valid() && p.seqId == queue.next
      modifies this, queue, cipher, cipher.decipher
      ensures Valid() && cipher.decipher == old(cipher.decipher)
      ensures State() == Channel(Dispatched(old(queue.State()), p),
                                 Consume(cipher.decipher.KeyBytes(), old(State()).inbox, p))
    {
      if p.isData {
        var plain := cipher.Decrypt(p.body);
        fragmentBuffer := fragmentBuffer + plain;
        if p.fragmentId == 0 {
          emitted := emitted + [fragmentBuffer];
          fragmentBuffer := [];
        }
      }
      queue.MarkDispatched(p);
    }

    method HandleReliable(packet: Wired)
      requires Valid() && packet.isData
      modifies this, queue, cipher, cipher.decipher
      ensures Valid() && cipher.decipher == old(cipher.decipher)
      ensures State() == Arrive(cipher.decipher.KeyBytes(), old(State()), packet)
    {
      ghost var ks, inbox := cipher.decipher.KeyBytes(), State().inbox;
      queue.Enqueue(packet);
      ghost var all := Drain(queue.State());
      ghost var done: seq<Wired> := [];
      assert done + all.0 == all.0;
      var next := queue.GetNextToDispatch();
      while next.Some?
        invariant Valid() && cipher.decipher == old(cipher.decipher)
        invariant next == if queue.next in queue.slots then Some(queue.slots[queue.next]) else None
        invariant done + Drain(queue.State()).0 == all.0 && Drain(queue.State()).1 == all.1
        invariant State().inbox == ConsumeAll(ks, inbox, done)
        decreases |queue.slots|
      {
        var p := next.value;
        ghost var q := queue.State();
        DispatchOne(q, p, done);
        ConsumeAppend(ks, inbox, done, p);
        Dispatch(p);
        done := done + [p];
        next := queue.GetNextToDispatch();
      }
      assert Drain(queue.State()) == ([], queue.State()) && done + [] == done;
    }
  }

  lemma DispatchOne(q: Queue<seq<byte>>, p: Wired, done: seq<Wired>)
    requires Keyed(q) && q.next in q.slots && q.slots[q.next] == p
    ensures var q' := Dispatched(q, p);
            && Keyed(q') && |q'.slots| < |q.slots|
            && done + Drain(q).0 == (done + [p]) + Drain(q').0 && Drain(q).1 == Drain(q').1
  {
    DrainStep(q, p);
    DispatchShrinks(q);
  }

  lemma {:induction false} ConsumeAppend(ks: KeyStream, b: Inbox, ps: seq<Wired>, p: Wired)
    ensures ConsumeAll(ks, b, ps + [p]) == Consume(ks, ConsumeAll(ks, b, ps), p)
    decreases ps
  {
    if ps == [] {
      assert [p][1..] == [] && ps + [p] == [p];
    } else {
      assert (ps + [p])[1..] == ps[1..] + [p];
      ConsumeAppend(ks, Consume(ks, b, ps[0]), ps[1..], p);
    }
  }

  lemma {:induction false} ConsumeConcat(ks: KeyStream, b: Inbox, ps: seq<Wired>, rs: seq<Wired>)
    ensures ConsumeAll(ks, b, ps + rs) == ConsumeAll(ks, ConsumeAll(ks, b, ps), rs)
    decreases ps
  {
    if ps == [] {
      assert ps + rs == rs;
    } else {
      assert (ps + rs)[1..] == ps[1..] + rs;
      ConsumeConcat(ks, Consume(ks, b, ps[0]), ps[1..], rs);
    }
  }

  /** What a run hands on depends only on the packets its queue dispatches, in their order. */
  lemma {:induction false} ArrivalsDispatch(ks: KeyStream, c: Channel, ps: seq<Wired>)
    requires Keyed(c.queue)
    ensures ArriveAll(ks, c, ps) == Channel(Run(c.queue, ps).1, ConsumeAll(ks, c.inbox, Run(c.queue, ps).0))
    decreases ps
  {
    if ps != [] {
      var (outs, q) := Receive(c.queue, ps[0]);
      ArrivalsDispatch(ks, Arrive(ks, c, ps[0]), ps[1..]);
      ConsumeConcat(ks, c.inbox, outs, Run(q, ps[1..]).0);
    }
  }

  /** Taken in order by a receiver in step with the sender, encrypted packets reassemble like their units. */
  lemma {:induction false} ConsumeDecrypts(ks: KeyStream, us: seq<Unit>, counter: nat, b: Inbox)
    ensures var (outs, left) := Reassemble(b.buffer, us);
            ConsumeAll(ks, b, OnTheWire(ks, us, counter, b.pos)) ==
            Inbox(b.pos + |Payloads(us)|, left, b.messages + outs)
    decreases us
  {
    if us != [] {
      var u, rest := us[0], us[1..];
      var ps := OnTheWire(ks, us, counter, b.pos);
      var b' := Consume(ks, b, ps[0]);
      UnitConsumed(ks, u, counter + 1, b);
      assert ps[1..] == OnTheWire(ks, rest, counter + 1, b'.pos);
      ConsumeDecrypts(ks, rest, counter + 1, b');
      FirstUnit(b, us);
    }
  }

  lemma UnitConsumed(ks: KeyStream, u: Unit, number: nat, b: Inbox)
    ensures Consume(ks, b, PacketFor(ks, u, number, b.pos)) ==
            match u {
              case Ping => b
              case Fragment(id, payload) =>
                var held := b.buffer + payload;
                if id == 0 then Inbox(b.pos + |payload|, [], b.messages + [held]) else Inbox(b.pos + |payload|, held, b.messages)
            }
  {
    if u.Fragment? {
      XorAtUndo(ks, b.pos, u.payload);
    }
  }

  /** What reassembling does with the first unit. */
  lemma FirstUnit(b: Inbox, us: seq<Unit>)
    requires us != []
    ensures var (outs, left) := Reassemble(b.buffer, us);
            match us[0] {
              case Ping => Reassemble(b.buffer, us[1..]) == (outs, left)
              case Fragment(id, payload) =>
                var held := b.buffer + payload;
                if id != 0 then Reassemble(held, us[1..]) == (outs, left)
                else Reassemble([], us[1..]).1 == left && b.messages + outs == b.messages + [held] + Reassemble([], us[1..]).0
            }
  {
  }

  /** What a fresh receiver hands on after dispatching the first units of a stream. */
  lemma PrefixConsumed(ks: KeyStream, us: seq<Unit>, d: nat)
    requires d <= |us|
    ensures ConsumeAll(ks, FRESH.inbox, OnTheWire(ks, us, 1, 0)[..d]).messages == Reassemble([], us[..d]).0
    ensures Reassemble([], us[..d]).0 <= Reassemble([], us).0
  {
    PrefixOnTheWire(ks, us, d);
    var outs, empty := Reassemble([], us[..d]).0, Inbox(0, [], []);
    ConsumeDecrypts(ks, us[..d], 1, empty);
    assert empty.messages + outs == outs;
    PrefixReassembles(us, d);
  }

  lemma PrefixOnTheWire(ks: KeyStream, us: seq<Unit>, d: nat)
    requires d <= |us|
    ensures OnTheWire(ks, us, 1, 0)[..d] == OnTheWire(ks, us[..d], 1, 0)
  {
    assert us == us[..d] + us[d..];
    OnTheWireConcat(ks, us[..d], us[d..], 1, 0);
  }

  lemma PrefixReassembles(us: seq<Unit>, d: nat)
    requires d <= |us|
    ensures Reassemble([], us[..d]).0 <= Reassemble([], us).0
  {
    assert us == us[..d] + us[d..];
    ReassembleConcat([], us[..d], us[d..]);
  }

  lemma StreamIsNumbered(ks: KeyStream, us: seq<Unit>, counter: nat)
    ensures Numbered(OnTheWire(ks, us, counter, 0), counter + 1)
    ensures forall i | 0 <= i < |us| :: OnTheWire(ks, us, counter, 0)[i].isData == us[i].Fragment?
  {
    forall i | 0 <= i < |us|
      ensures OnTheWire(ks, us, counter, 0)[i].seqId == Wire(counter + 1 + i)
      ensures OnTheWire(ks, us, counter, 0)[i].isData == us[i].Fragment?
    {
      NumberedFrom(ks, us, counter, 0, i);
    }
  }

  // ---------- a peer that numbers from 2 ----------

  /** Any copies of the packets of the units, numbered from 2; the stream is short, or none comes too late. */
  ghost predicate Network(ks: KeyStream, us: seq<Unit>, picks: seq<nat>) {
    var ps := OnTheWire(ks, us, 1, 0);
    Picks(ps, picks) && (Short(ps) || Timely(ps, picks))
  }

  ghost function Handed(ks: KeyStream, us: seq<Unit>, picks: seq<nat>): seq<seq<byte>>
    requires Network(ks, us, picks)
  {
    ArriveAll(ks, FRESH, Copies(OnTheWire(ks, us, 1, 0), picks)).inbox.messages
  }

  /** The units that had arrived when the last DATA arrived. */
  function SeenUnits(ks: KeyStream, us: seq<Unit>, picks: seq<nat>): seq<nat>
    requires Picks(OnTheWire(ks, us, 1, 0), picks)
  {
    Seen(OnTheWire(ks, us, 1, 0), picks)
  }

  /**
   What has been handed on at any moment: with `d` the first unit that had not arrived when the
   last DATA arrived, the messages that the first `d` units make up.
   */
  lemma HandedAtEveryMoment(ks: KeyStream, us: seq<Unit>, picks: seq<nat>, d: nat)
    requires Network(ks, us, picks)
    requires d !in SeenUnits(ks, us, picks) && forall i | 0 <= i < d :: i in SeenUnits(ks, us, picks)
    ensures d <= |us| && Handed(ks, us, picks) == Reassemble([], us[..d]).0 <= Reassemble([], us).0
  {
    OutputUpTo(ks, us, picks, d);
    ArrivalsDispatch(ks, FRESH, Copies(OnTheWire(ks, us, 1, 0), picks));
    PrefixConsumed(ks, us, d);
  }

  lemma OutputUpTo(ks: KeyStream, us: seq<Unit>, picks: seq<nat>, d: nat)
    requires Network(ks, us, picks)
    requires d !in SeenUnits(ks, us, picks) && forall i | 0 <= i < d :: i in SeenUnits(ks, us, picks)
    ensures d <= |us| && Output(OnTheWire(ks, us, 1, 0), picks) == OnTheWire(ks, us, 1, 0)[..d]
  {
    var ps := OnTheWire(ks, us, 1, 0);
    assert Numbered(ps, 2) by {
      StreamIsNumbered(ks, us, 1);
    }
    DispatchedUpTo(ps, picks, d);
  }

  /** Some unit is the first that had not arrived. */
  lemma FirstMissing(ks: KeyStream, us: seq<Unit>, picks: seq<nat>) returns (d: nat)
    requires Network(ks, us, picks)
    ensures d !in SeenUnits(ks, us, picks) && forall i | 0 <= i < d :: i in SeenUnits(ks, us, picks)
  {
    var ps := OnTheWire(ks, us, 1, 0);
    StreamIsNumbered(ks, us, 1);
    StreamDispatched(ps, picks);
    var outs := Output(ps, picks);
    d := |outs|;
    forall i | 0 <= i < d
      ensures i in Seen(ps, picks)
    {
      assert Arrived(ps, 0 + i, Seen(ps, picks), outs[i]);
    }
  }

  /** Every unit up to the last fragment is among `seen`. */
  ghost predicate AllFragmentsReached(us: seq<Unit>, seen: seq<nat>) {
    forall i, j | 0 <= i <= j < |us| && us[j].Fragment? :: i in seen
  }

  lemma PrefixIsAllIff(items: seq<Item>, size: nat, d: nat)
    requires size >= 1 && d <= |Units(items, size)|
    ensures var us := Units(items, size);
            |Reassemble([], us[..d]).0| == |Reassemble([], us).0| <==> forall j | d <= j < |us| :: us[j].Ping?
  {
    var us := Units(items, size);
    assert us == us[..d] + us[d..];
    ClosersConcat(us[..d], us[d..]);
    ReassembleCount([], us[..d]);
    ReassembleCount([], us);
    ClosersAfter(items, size, d);
  }

  lemma ClosersAfter(items: seq<Item>, size: nat, d: nat)
    requires size >= 1 && d <= |Units(items, size)|
    ensures var us := Units(items, size); Closers(us[d..]) == 0 <==> forall j | d <= j < |us| :: us[j].Ping?
  {
    var us := Units(items, size);
    if j :| d <= j < |us| && us[j].Fragment? {
      FragmentsAreClosed(items, size, j);
      assert us[d..] == us[d..j] + us[j..];
      ClosersConcat(us[d..j], us[j..]);
    } else {
      NoFragmentsNoClosers(us[d..]);
    }
  }

  /**
   End to end: any messages and PINGs, cut, numbered from 2 and encrypted; any loss, repetition
   and reordering. What is handed to the RMC layer is always an exact prefix of the messages
   sent, and is all of them if and only if every unit up to the last fragment had arrived when
   the last DATA arrived.
   */
  lemma ReliableDelivery(ks: KeyStream, items: seq<Item>, size: nat, picks: seq<nat>)
    requires size >= 1 && Network(ks, Units(items, size), picks)
    requires forall i | 0 <= i < |items| && items[i].Message? :: |items[i].data| / size <= 255
    ensures var us := Units(items, size);
            && Handed(ks, us, picks) <= Messages(items)
            && (Handed(ks, us, picks) == Messages(items) <==> AllFragmentsReached(us, SeenUnits(ks, us, picks)))
  {
    var us := Units(items, size);
    var seen := SeenUnits(ks, us, picks);
    var d := FirstMissing(ks, us, picks);
    HandedAtEveryMoment(ks, us, picks, d);
    ItemsReassemble(items, size);
    PrefixIsAllIff(items, size, d);
    if AllFragmentsReached(us, seen) {
      forall j | d <= j < |us|
        ensures us[j].Ping?
      {
        assert us[j].Fragment? ==> d in seen;
      }
    } else {
      var i, j :| 0 <= i <= j < |us| && us[j].Fragment? && i !in seen;
      assert d <= j;
    }
  }

  /**
   So it is not enough that everything has arrived: a PING is queued without draining the queue,
   and with the PING last both packets have arrived and the message has not been handed on.
   */
  lemma PingDoesNotDrain(ks: KeyStream, m: seq<byte>, size: nat)
    requires size > |m|
    ensures var us := Units([KeepAlive, Message(m)], size);
            |us| == 2 && Network(ks, us, [1, 0]) && Handed(ks, us, [1, 0]) == []
  {
    var items := [KeepAlive, Message(m)];
    assert items[1..] == [Message(m)] && items[1..][1..] == [];
    assert Units(items[1..], size) == [Fragment(0, m)] + [];
    var us := [Ping, Fragment(0, m)];
    assert Units(items, size) == us;
    var ps := OnTheWire(ks, us, 1, 0);
    StreamIsNumbered(ks, us, 1);
    var picks: seq<nat> := [1, 0];
    assert ps[picks[1]].isData == us[0].Fragment? && ps[picks[0]].isData == us[1].Fragment?;
    assert UpToData(ps, picks) == 1 && Seen(ps, picks) == [1];
    HandedAtEveryMoment(ks, us, picks, 0);
    assert us[..0] == [];
  }

  // ---------- a peer that numbers from 1, as this code does ----------

  /** The lengths of the messages that packets make up, when `held` bytes wait already. */
  function Lengths(held: nat, ps: seq<Wired>): seq<nat>
    decreases ps
  {
    if ps == [] then []
    else if !ps[0].isData then Lengths(held, ps[1..])
    else if ps[0].fragmentId == 0 then [held + |ps[0].body|] + Lengths(0, ps[1..])
    else Lengths(held + |ps[0].body|, ps[1..])
  }

  function LengthsOf(ms: seq<seq<byte>>): (r: seq<nat>)
    ensures |r| == |ms| && forall i | 0 <= i < |ms| :: r[i] == |ms[i]|
  {
    seq(|ms|, i requires 0 <= i < |ms| => |ms[i]|)
  }

  /** Whatever the key stream makes of them, packets give messages of these lengths. */
  lemma {:induction false} ConsumedLengths(ks: KeyStream, b: Inbox, ps: seq<Wired>)
    ensures LengthsOf(ConsumeAll(ks, b, ps).messages) == LengthsOf(b.messages) + Lengths(|b.buffer|, ps)
    decreases ps
  {
    if ps != [] {
      ConsumedLengths(ks, Consume(ks, b, ps[0]), ps[1..]);
      if ps[0].isData && ps[0].fragmentId == 0 {
        var held := b.buffer + XorAt(ks, b.pos, ps[0].body);
        assert LengthsOf(b.messages + [held]) == LengthsOf(b.messages) + [|held|];
      }
    }
  }

  /** Bytes that wait make the first message longer, and no other. */
  lemma {:induction false} LengthsShift(held: nat, ps: seq<Wired>)
    ensures |Lengths(held, ps)| == |Lengths(0, ps)|
    ensures Lengths(0, ps) != [] ==> Lengths(held, ps)[0] == held + Lengths(0, ps)[0]
    decreases ps
  {
    if ps != [] {
      if !ps[0].isData {
        LengthsShift(held, ps[1..]);
      } else if ps[0].fragmentId != 0 {
        LengthsShift(held + |ps[0].body|, ps[1..]);
        LengthsShift(|ps[0].body|, ps[1..]);
      }
    }
  }

  lemma {:induction false} LengthsPrefix(held: nat, ps: seq<Wired>, k: nat)
    requires k <= |ps|
    ensures Lengths(held, ps[..k]) <= Lengths(held, ps)
    decreases k
  {
    if k > 0 {
      assert ps[..k][0] == ps[0] && ps[..k][1..] == ps[1..][..k - 1];
      LengthsPrefix(held, ps[1..], k - 1);
      LengthsPrefix(0, ps[1..], k - 1);
      LengthsPrefix(held + |ps[0].body|, ps[1..], k - 1);
    }
  }

  /** Without its first packet, a stream that starts with DATA does not give messages of the same lengths. */
  lemma FirstPacketMatters(ps: seq<Wired>, k: nat)
    requires ps != [] && ps[0].isData && (ps[0].fragmentId != 0 ==> |ps[0].body| > 0)
    requires k <= |ps[1..]| && Lengths(0, ps) != []
    ensures Lengths(0, ps[1..][..k]) != Lengths(0, ps)
  {
    LengthsPrefix(0, ps[1..], k);
    LengthsShift(|ps[0].body|, ps[1..]);
  }

  /**
   The substream's own counter starts at 0, so its first packet has number 1, while a fresh
   queue waits for number 2. For any short stream numbered that way and any arrivals, the first
   packet is never dispatched, and what is dispatched is a prefix of the rest.
   */
  lemma OwnNumberingLosesTheFirst(ks: KeyStream, us: seq<Unit>, picks: seq<nat>)
    requires us != [] && Picks(OnTheWire(ks, us, 0, 0), picks) && Short(OnTheWire(ks, us, 0, 0))
    ensures var ps := OnTheWire(ks, us, 0, 0); Output(ps, picks) <= ps[1..]
  {
    var ps := OnTheWire(ks, us, 0, 0);
    StreamIsNumbered(ks, us, 0);
    ShortStreamDispatched(ps, 1, picks);
    assert Offset(1) == 1;
    SegmentIsPrefix(ps, 1, Seen(ps, picks), Output(ps, picks));
  }

  /** So whatever is sent that way and starts with a message, what is handed on is never what was sent. */
  lemma OwnNumberingIsNotUnderstood(ks: KeyStream, items: seq<Item>, size: nat, picks: seq<nat>)
    requires size >= 1 && items != [] && items[0].Message?
    requires forall i | 0 <= i < |items| && items[i].Message? :: |items[i].data| / size <= 255
    requires var ps := OnTheWire(ks, Units(items, size), 0, 0); Picks(ps, picks) && Short(ps)
    ensures var ps := OnTheWire(ks, Units(items, size), 0, 0);
            ArriveAll(ks, FRESH, Copies(ps, picks)).inbox.messages != Messages(items)
  {
    var us := Units(items, size);
    var ps := OnTheWire(ks, us, 0, 0);
    var outs := Output(ps, picks);
    OwnNumberingLosesTheFirst(ks, us, picks);
    ArrivalsDispatch(ks, FRESH, Copies(ps, picks));
    ConsumedLengths(ks, FRESH.inbox, outs);
    SentLengths(ks, items, size);
    assert us[0] == Cut(items[0].data, size, 1)[0];
    assert outs == ps[1..][..|outs|];
    FirstPacketMatters(ps, |outs|);
    var handed := ArriveAll(ks, FRESH, Copies(ps, picks)).inbox.messages;
    assert LengthsOf(handed) == [] + Lengths(0, outs);
  }

  /** The lengths of the packets of a stream are those of its messages. */
  lemma SentLengths(ks: KeyStream, items: seq<Item>, size: nat)
    requires size >= 1
    requires forall i | 0 <= i < |items| && items[i].Message? :: |items[i].data| / size <= 255
    ensures LengthsOf(Messages(items)) == Lengths(0, OnTheWire(ks, Units(items, size), 0, 0))
  {
    var us, empty := Units(items, size), Inbox(0, [], []);
    ConsumeDecrypts(ks, us, 0, empty);
    ItemsReassemble(items, size);
    ConsumedLengths(ks, empty, OnTheWire(ks, us, 0, 0));
    assert [] + Messages(items) == Messages(items);
    var none: seq<nat> := [];
    assert LengthsOf([]) == none;
    assert none + Lengths(0, OnTheWire(ks, us, 0, 0)) == Lengths(0, OnTheWire(ks, us, 0, 0));
  }
}
