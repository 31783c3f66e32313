/**
 The two pumps of a relay link as atomic steps. Each pump waits for a datagram on its own socket,
 stores where it came from, then loads where the other side was last heard and forwards the
 datagram there from the other socket. Steps of the two pumps interleave in any way.
 */
module RelayPump {
  import opened Bytes
  import opened Wrappers

  datatype Address = Address(ip: uint32, port: uint16)

  /** The side that a pump's datagrams come from. */
  datatype Side = A | B

  /** The socket that the other side sends to in order to reach A, and the one to reach B. */
  datatype Socket = SockA | SockB

  const BUFFER := 2048

  function Other(side: Side): Side {
    if side.A? then B else A
  }

  /** A sends to the socket that reaches B, and is forwarded to B from the socket that reaches A. */
  function InSocket(side: Side): Socket {
    if side.A? then SockB else SockA
  }

  function OutSocket(side: Side): Socket {
    if side.A? then SockA else SockB
  }

  datatype Datagram = Datagram(from: Address, data: seq<byte>)

  datatype Forwarded = Forwarded(via: Socket, to: Address, data: seq<byte>)

  /** What a pump has in hand. */
  datatype Hand = Waiting | Received(from: Address, data: seq<byte>) | Stored(data: seq<byte>)

  /** One pump: its hand, where its side was last heard, all it has heard, all it has sent on, how many it has dropped. */
  datatype Pump = Pump(hand: Hand, source: Option<Address>, heard: seq<Datagram>, sent: seq<Forwarded>, dropped: nat)

  datatype Link = Link(a: Pump, b: Pump)

  datatype Event =
    | Arrive(side: Side, from: Address, data: seq<byte>)
    | Store(side: Side)
    | Forward(side: Side)

  function PumpOf(l: Link, side: Side): Pump {
    if side.A? then l.a else l.b
  }

  function WithPump(l: Link, side: Side, p: Pump): Link {
    if side.A? then l.(a := p) else l.(b := p)
  }

  /** A read fills the buffer and loses the rest. */
  function Clipped(data: seq<byte>): (r: seq<byte>)
    ensures |data| <= BUFFER <==> r == data
  {
    if |data| <= BUFFER then data else data[..BUFFER]
  }

  /** A pump does the step that is its turn; the other steps are not possible and change nothing. */
  function Step(l: Link, e: Event): Link {
    var p := PumpOf(l, e.side);
    match e
    case Arrive(_, from, data) =>
      if !p.hand.Waiting? then l
      else WithPump(l, e.side, p.(hand := Received(from, Clipped(data)), heard := p.heard + [Datagram(from, data)]))
    case Store(_) =>
      if !p.hand.Received? then l
      else WithPump(l, e.side, p.(hand := Stored(p.hand.data), source := Some(p.hand.from)))
    case Forward(_) =>
      if !p.hand.Stored? then l
      else
        var destination := PumpOf(l, Other(e.side)).source;
        WithPump(l, e.side,
                 if destination.None? then p.(hand := Waiting, dropped := p.dropped + 1)
                 else p.(hand := Waiting, sent := p.sent + [Forwarded(OutSocket(e.side), destination.value, p.hand.data)]))
  }

  function Run(l: Link, es: seq<Event>): Link
    decreases es
  {
    if es == [] then l else Run(Step(l, es[0]), es[1..])
  }

  const IDLE: Pump := Pump(Waiting, None, [], [], 0)
  const OPEN: Link := Link(IDLE, IDLE)

  // ---------- what every step keeps ----------

  ghost predicate Heard(p: Pump, address: Address) {
    exists j | 0 <= j < |p.heard| :: p.heard[j].from == address
  }

  function InHand(p: Pump): nat {
    if p.hand.Waiting? then 0 else 1
  }

  /** The hand holds the last datagram heard. */
  ghost predicate HandSound(p: Pump) {
    !p.hand.Waiting? ==>
      && p.heard != []
      && p.hand.data == Clipped(p.heard[|p.heard| - 1].data)
      && (p.hand.Received? ==> p.hand.from == p.heard[|p.heard| - 1].from)
  }

  /** All that was heard is accounted for: the first ones dropped, the others sent on in order, the last one in hand. */
  ghost predicate Accounted(p: Pump, q: Pump, side: Side) {
    && |p.heard| == p.dropped + |p.sent| + InHand(p)
    && forall i | 0 <= i < |p.sent| ::
         && p.sent[i].via == OutSocket(side)
         && p.sent[i].data == Clipped(p.heard[p.dropped + i].data)
         && Heard(q, p.sent[i].to)
  }

  /** A side that was stored was heard; who has dropped or sent on was stored; who has sent on had a peer. */
  ghost predicate SourceSound(p: Pump, q: Pump) {
    && (p.source.Some? ==> Heard(p, p.source.value))
    && (p.hand.Stored? || p.dropped > 0 || p.sent != [] ==> p.source.Some?)
    && (p.sent != [] ==> q.source.Some?)
  }

  ghost predicate PumpSound(p: Pump, q: Pump, side: Side) {
    HandSound(p) && Accounted(p, q, side) && SourceSound(p, q)
  }

  ghost predicate Sound(l: Link) {
    PumpSound(l.a, l.b, A) && PumpSound(l.b, l.a, B) && (l.a.dropped == 0 || l.b.dropped == 0)
  }

  lemma ArriveKeeps(p: Pump, q: Pump, side: Side, from: Address, data: seq<byte>)
    requires PumpSound(p, q, side) && PumpSound(q, p, Other(side)) && p.hand.Waiting?
    ensures var p' := p.(hand := Received(from, Clipped(data)), heard := p.heard + [Datagram(from, data)]);
            PumpSound(p', q, side) && PumpSound(q, p', Other(side))
  {
    var p' := p.(hand := Received(from, Clipped(data)), heard := p.heard + [Datagram(from, data)]);
    assert forall i | 0 <= i < |p.heard| :: p'.heard[i] == p.heard[i];
    HeardStays(p, p');
    assert Accounted(p', q, side) && Accounted(q, p', Other(side));
  }

  lemma HeardStays(p: Pump, p': Pump)
    requires |p.heard| <= |p'.heard| && forall i | 0 <= i < |p.heard| :: p'.heard[i] == p.heard[i]
    ensures forall x | Heard(p, x) :: Heard(p', x)
  {
    forall x | Heard(p, x)
      ensures Heard(p', x)
    {
      var j :| 0 <= j < |p.heard| && p.heard[j].from == x;
      assert p'.heard[j].from == x;
    }
  }

  lemma StoreKeeps(p: Pump, q: Pump, side: Side)
    requires PumpSound(p, q, side) && PumpSound(q, p, Other(side)) && p.hand.Received?
    ensures var p' := p.(hand := Stored(p.hand.data), source := Some(p.hand.from));
            PumpSound(p', q, side) && PumpSound(q, p', Other(side))
  {
    assert Heard(p, p.hand.from);
  }

  lemma SendKeeps(p: Pump, q: Pump, side: Side)
    requires PumpSound(p, q, side) && PumpSound(q, p, Other(side)) && p.hand.Stored? && q.source.Some?
    ensures var p' := p.(hand := Waiting, sent := p.sent + [Forwarded(OutSocket(side), q.source.value, p.hand.data)]);
            PumpSound(p', q, side) && PumpSound(q, p', Other(side))
  {
  }

  lemma DropKeeps(p: Pump, q: Pump, side: Side)
    requires PumpSound(p, q, side) && PumpSound(q, p, Other(side)) && p.hand.Stored? && q.source.None?
    ensures var p' := p.(hand := Waiting, dropped := p.dropped + 1);
            PumpSound(p', q, side) && PumpSound(q, p', Other(side)) && q.dropped == 0
  {
  }

  /** Seen from one side: both pumps are sound, and not both have dropped. */
  ghost predicate SoundFrom(p: Pump, q: Pump, side: Side) {
    PumpSound(p, q, side) && PumpSound(q, p, Other(side)) && (p.dropped == 0 || q.dropped == 0)
  }

  lemma SidesAgree(l: Link, side: Side)
    ensures Sound(l) <==> SoundFrom(PumpOf(l, side), PumpOf(l, Other(side)), side)
  {
  }

  lemma ForwardKeeps(p: Pump, q: Pump, side: Side)
    requires SoundFrom(p, q, side) && p.hand.Stored?
    ensures var p' := if q.source.None? then p.(hand := Waiting, dropped := p.dropped + 1)
                      else p.(hand := Waiting, sent := p.sent + [Forwarded(OutSocket(side), q.source.value, p.hand.data)]);
            SoundFrom(p', q, side)
  {
    if q.source.None? {
      DropKeeps(p, q, side);
    } else {
      SendKeeps(p, q, side);
    }
  }

  lemma StepKeeps(l: Link, e: Event)
    requires Sound(l)
    ensures Sound(Step(l, e))
  {
    var side := e.side;
    var p, q := PumpOf(l, side), PumpOf(l, Other(side));
    var l' := Step(l, e);
    SidesAgree(l, side);
    assert SoundFrom(PumpOf(l', side), PumpOf(l', Other(side)), side) by {
      if e.Arrive? && p.hand.Waiting? {
        ArriveKeeps(p, q, side, e.from, e.data);
      } else if e.Store? && p.hand.Received? {
        StoreKeeps(p, q, side);
      } else if e.Forward? && p.hand.Stored? {
        ForwardKeeps(p, q, side);
      }
    }
    SidesAgree(l', side);
  }

  lemma {:induction false} RunKeeps(l: Link, es: seq<Event>)
    requires Sound(l)
    ensures Sound(Run(l, es))
    decreases es
  {
    if es != [] {
      StepKeeps(l, es[0]);
      RunKeeps(Step(l, es[0]), es[1..]);
    }
  }

  /**
   In every interleaving: after the first few datagrams of a side, each is sent on exactly once,
   in order, unchanged if it fits the buffer, from the socket that reaches its sender, to an
   address heard on the other side. Only one of the two sides ever loses datagrams this way.
   */
  lemma PumpsForwardInOrder(es: seq<Event>, side: Side)
    ensures var l := Run(OPEN, es);
            var p, q := PumpOf(l, side), PumpOf(l, Other(side));
            && Accounted(p, q, side) && (p.dropped > 0 ==> q.dropped == 0)
            && (forall i | 0 <= i < |p.sent| && |p.heard[p.dropped + i].data| <= BUFFER ::
                  p.sent[i].data == p.heard[p.dropped + i].data)
  {
    RunKeeps(OPEN, es);
    SidesAgree(Run(OPEN, es), side);
  }

  // ---------- where datagrams go ----------

  /** How many of the datagrams heard have been stored: all, but for one that has just been received. */
  function StoredCount(p: Pump): int {
    |p.heard| - if p.hand.Received? then 1 else 0
  }

  /** The source is that of the last datagram stored. */
  ghost predicate Latest(p: Pump) {
    && (p.hand.Received? ==> p.heard != [] && p.hand.from == p.heard[|p.heard| - 1].from)
    && p.source == if StoredCount(p) == 0 then None else Some(p.heard[StoredCount(p) - 1].from)
  }

  lemma {:induction false} LatestKept(l: Link, es: seq<Event>)
    requires Latest(l.a) && Latest(l.b)
    ensures Latest(Run(l, es).a) && Latest(Run(l, es).b)
    decreases es
  {
    if es != [] {
      LatestStep(l, es[0]);
      LatestKept(Step(l, es[0]), es[1..]);
    }
  }

  lemma LatestStep(l: Link, e: Event)
    requires Latest(l.a) && Latest(l.b)
    ensures Latest(Step(l, e).a) && Latest(Step(l, e).b)
  {
  }

  lemma {:induction false} RunSnoc(l: Link, es: seq<Event>, e: Event)
    ensures Run(l, es + [e]) == Step(Run(l, es), e)
    decreases es
  {
    if es == [] {
      assert [e][1..] == [];
      assert es + [e] == [e];
    } else {
      assert (es + [e])[1..] == es[1..] + [e];
      RunSnoc(Step(l, es[0]), es[1..], e);
    }
  }

  /**
   After every interleaving, a pump whose turn it is to forward sends the last datagram it heard,
   cut to 2048 bytes, to where the other side's last stored datagram came from, or drops it if
   none was stored. A side that changes its address is thus followed from its next datagram on.
   */
  lemma ForwardsToLatestAddress(es: seq<Event>, side: Side)
    requires PumpOf(Run(OPEN, es), side).hand.Stored?
    ensures var p, q := PumpOf(Run(OPEN, es), side), PumpOf(Run(OPEN, es), Other(side));
            var p' := PumpOf(Run(OPEN, es + [Forward(side)]), side);
            && p.heard != [] && p'.hand.Waiting? && p'.heard == p.heard
            && var data := p.heard[|p.heard| - 1].data;
               if StoredCount(q) <= 0 then p'.sent == p.sent && p'.dropped == p.dropped + 1
               else
                 && p'.dropped == p.dropped && StoredCount(q) <= |q.heard|
                 && p'.sent == p.sent + [Forwarded(OutSocket(side), q.heard[StoredCount(q) - 1].from, if |data| <= 2048 then data else data[..2048])]
  {
    var l := Run(OPEN, es);
    assert HandSound(PumpOf(l, side)) by {
      RunKeeps(OPEN, es);
    }
    assert Latest(PumpOf(l, Other(side))) by {
      LatestKept(OPEN, es);
    }
    RunSnoc(OPEN, es, Forward(side));
  }

  /** The sockets are crossed: what A sends comes in where B is reached, and goes out to B from where A is reached. */
  lemma SocketsAreCrossed(es: seq<Event>)
    requires PumpOf(Run(OPEN, es), A).hand.Stored? && PumpOf(Run(OPEN, es), B).source.Some?
    ensures InSocket(A) == SockB && InSocket(B) == SockA
    ensures var sent := PumpOf(Run(OPEN, es + [Forward(A)]), A).sent; sent != [] && sent[|sent| - 1].via == SockA
  {
    RunSnoc(OPEN, es, Forward(A));
  }

  /** Once both sides have been heard and stored, nothing more is dropped. */
  lemma {:induction false} NothingIsLostOnceBothAreHeard(l: Link, es: seq<Event>)
    requires l.a.source.Some? && l.b.source.Some?
    ensures var r := Run(l, es);
            r.a.source.Some? && r.b.source.Some? && r.a.dropped == l.a.dropped && r.b.dropped == l.b.dropped
    decreases es
  {
    if es != [] {
      NothingIsLostOnceBothAreHeard(Step(l, es[0]), es[1..]);
    }
  }

  /** A datagram that comes from one side while the other has not been heard is lost. */
  lemma FirstDatagramIsLost(from: Address, data: seq<byte>)
    ensures Run(OPEN, [Arrive(A, from, data), Store(A), Forward(A)]).a.dropped == 1
  {
    var es := [Arrive(A, from, data), Store(A), Forward(A)];
    var l1 := Step(OPEN, es[0]);
    var l2 := Step(l1, es[1]);
    assert es[1..] == [Store(A), Forward(A)] && es[1..][1..] == [Forward(A)];
    var none := [Forward(A)][1..];
    assert none == [];
    assert Run(l2, [Forward(A)]) == Step(l2, Forward(A));
  }

  // ---------- the pump as code ----------

  /** A link with its two sockets; each method is one atomic step of the pump of a side. */
  class RelayLink {
    var hands: map<Side, Hand>
    var sources: map<Side, Option<Address>>
    ghost var heard: map<Side, seq<Datagram>>
    ghost var sent: map<Side, seq<Forwarded>>
    ghost var dropped: map<Side, nat>

    ghost predicate Valid()
      reads this
    {
      {A, B} <= hands.Keys && {A, B} <= sources.Keys && {A, B} <= heard.Keys && {A, B} <= sent.Keys && {A, B} <= dropped.Keys
    }

    ghost function State(): Link
      requires Valid()
      reads this
    {
      Link(Pump(hands[A], sources[A], heard[A], sent[A], dropped[A]), Pump(hands[B], sources[B], heard[B], sent[B], dropped[B]))
    }

    constructor ()
      ensures Valid() && State() == OPEN
    {
      hands, sources := map[A := Waiting, B := Waiting], map[A := None, B := None];
      heard, sent, dropped := map[A := [], B := []], map[A := [], B := []], map[A := 0, B := 0];
    }

    method ReadFromUDP(side: Side, from: Address, data: seq<byte>)
      requires Valid() && hands[side].Waiting?
      modifies this`hands, this`heard
      ensures Valid() && State() == Step(old(State()), Arrive(side, from, data))
    {
      var n := if |data| < BUFFER then |data| else BUFFER;
      assert data[..n] == Clipped(data);
      hands := hands[side := Received(from, data[..n])];
      heard := heard[side := heard[side] + [Datagram(from, data)]];
    }

    method StoreSource(side: Side)
      requires Valid() && hands[side].Received?
      modifies this`hands, this`sources
      ensures Valid() && State() == Step(old(State()), Store(side))
    {
      sources := sources[side := Some(hands[side].from)];
      hands := hands[side := Stored(hands[side].data)];
    }

    /** Loads the other side's address and, if there is one, sends the datagram there. */
    method WriteToPeer(side: Side) returns (out: Option<Forwarded>)
      requires Valid() && hands[side].Stored?
      modifies this`hands, this`sent, this`dropped
      ensures Valid() && State() == Step(old(State()), Forward(side))
      ensures sent[side] == old(sent[side]) + (if out.Some? then [out.value] else [])
    {
      var destination := sources[Other(side)];
      if destination.Some? {
        out := Some(Forwarded(OutSocket(side), destination.value, hands[side].data));
        sent := sent[side := sent[side] + [out.value]];
      } else {
        out := None;
        dropped := dropped[side := dropped[side] + 1];
      }
      hands := hands[side := Waiting];
    }
  }
}
