/**
 The timeout manager of one sliding window: reliable packets wait for their acknowledgement,
 are sent again when their timer fires, and end the connection when they were sent too often.
 A send, an acknowledgement, a timer that fires and a cleanup are atomic steps in any order.
 A packet is named by its place in the order of sending. The end of the connection drops its
 windows; a send after it opens a fresh window, numbered from 1 again, and transmits.
 */
module Retransmission {
  import opened Bytes
  import opened DispatchQueue

  /** `timer` tells whether a goroutine still waits for this packet's timeout. */
  datatype Sent = Sent(seqId: uint16, sendCount: nat, timer: bool)

  datatype Event = Transmitted(id: nat) | Acked(id: nat) | Sampled(id: nat) | Ended

  datatype Action = Send | Acknowledge(seqId: uint16) | Timeout(id: nat) | Cleanup

  datatype Settings = Settings(maxPacketRetransmissions: nat, rttRetransmit: nat)

  /** `counter` is the last number used; `log` is everything that happened, oldest first. */
  datatype Manager = Manager(connected: bool, counter: uint16, packets: seq<Sent>, pending: map<uint16, nat>, log: seq<Event>)

  const DEFAULTS := Settings(0x14, 2)
  const FRESH := Manager(true, 0, [], map[], [])

  ghost predicate Wellformed(m: Manager) {
    forall w | w in m.pending :: m.pending[w] < |m.packets|
  }

  function Cleaned(m: Manager): Manager {
    m.(connected := false, counter := 0, pending := map[], log := m.log + [Ended])
  }

  function Scheduled(m: Manager): Manager {
    var n := Wire(m.counter + 1);
    var id := |m.packets|;
    m.(counter := n, packets := m.packets + [Sent(n, 1, true)], pending := m.pending[n := id],
       log := m.log + [Transmitted(id)])
  }

  /** The round-trip time is sampled when the packet was sent at least `rttRetransmit` times. */
  function Acknowledged(s: Settings, m: Manager, w: uint16): Manager
    requires Wellformed(m)
  {
    if w !in m.pending then m
    else
      var id := m.pending[w];
      var sample := if m.packets[id].sendCount >= s.rttRetransmit then [Sampled(id)] else [];
      m.(pending := m.pending - {w}, log := m.log + sample + [Acked(id)])
  }

  function TimedOut(s: Settings, m: Manager, id: nat): Manager {
    if id >= |m.packets| || !m.packets[id].timer then m
    else
      var p := m.packets[id];
      if !m.connected || p.seqId !in m.pending then m.(packets := m.packets[id := p.(timer := false)])
      else if p.sendCount < s.maxPacketRetransmissions then
        m.(packets := m.packets[id := p.(sendCount := p.sendCount + 1)], log := m.log + [Transmitted(id)])
      else Cleaned(m.(packets := m.packets[id := p.(timer := false)]))
  }

  function Step(s: Settings, m: Manager, a: Action): (m': Manager)
    requires Wellformed(m)
    ensures Wellformed(m')
  {
    match a
    case Send => Scheduled(m)
    case Acknowledge(w) => if m.connected then Acknowledged(s, m, w) else m
    case Timeout(id) => TimedOut(s, m, id)
    case Cleanup => Cleaned(m)
  }

  function Run(s: Settings, actions: seq<Action>): (m: Manager)
    ensures Wellformed(m)
  {
    if actions == [] then FRESH else Step(s, Run(s, actions[..|actions| - 1]), actions[|actions| - 1])
  }

  class TimeoutManager {
    const settings: Settings
    var connected: bool
    var counter: uint16
    var packets: seq<Sent>
    var pending: map<uint16, nat>
    ghost var log: seq<Event>

    ghost function State(): Manager
      reads this
    {
      Manager(connected, counter, packets, pending, log)
    }

    constructor (settings: Settings)
      ensures State() == FRESH && this.settings == settings
    {
      this.settings := settings;
      connected, counter, packets, pending, log := true, 0, [], map[], [];
    }

    method SchedulePacketTimeout()
      modifies this
      ensures State() == Scheduled(old(State()))
    {
      counter := Wire(counter + 1);
      pending := pending[counter := |packets|];
      log := log + [Transmitted(|packets|)];
      packets := packets + [Sent(counter, 1, true)];
    }

    method AcknowledgePacket(w: uint16) returns (sampled: bool)
      requires Wellformed(State())
      modifies this
      ensures State() == Acknowledged(settings, old(State()), w)
      ensures sampled <==> w in old(pending) && packets[old(pending)[w]].sendCount >= settings.rttRetransmit
    {
      sampled := false;
      if w in pending {
        var id := pending[w];
        if packets[id].sendCount >= settings.rttRetransmit {
          sampled := true;
          log := log + [Sampled(id)];
        }
        pending := pending - {w};
        log := log + [Acked(id)];
      }
    }

    /** The timer of packet `id` fires. */
    method Start(id: nat)
      requires id < |packets| && packets[id].timer
      modifies this
      ensures State() == TimedOut(settings, old(State()), id)
    {
      var p := packets[id];
      packets := packets[id := p.(timer := false)];
      if !connected {
        return;
      }
      if p.seqId in pending {
        if p.sendCount < settings.maxPacketRetransmissions {
          packets := packets[id := p.(sendCount := p.sendCount + 1)];
          log := log + [Transmitted(id)];
        } else {
          Cleanup();
        }
      }
    }

    /** The connection is closed and its windows are stopped and dropped. */
    method Cleanup()
      modifies this
      ensures State() == Cleaned(old(State()))
    {
      connected := false;
      Stop();
      counter := 0;
      log := log + [Ended];
    }

    method Stop()
      modifies this`pending
      ensures pending == map[]
    {
      pending := map[];
    }
  }

  // ---------- every interleaving ----------

  /** While the connection lives, no send takes a number that the timer of an earlier packet still carries. */
  ghost predicate NoNumberReuse(s: Settings, actions: seq<Action>) {
    forall k | 0 <= k < |actions| && actions[k].Send? && Run(s, actions[..k]).connected :: NumberIsFree(Run(s, actions[..k]))
  }

  ghost predicate NumberIsFree(m: Manager) {
    forall id | 0 <= id < |m.packets| && m.packets[id].timer :: m.packets[id].seqId != Wire(m.counter + 1)
  }

  function Count(log: seq<Event>, e: Event): nat {
    if log == [] then 0 else Count(log[..|log| - 1], e) + (if log[|log| - 1] == e then 1 else 0)
  }

  /** Nothing is transmitted after its acknowledgement. */
  ghost predicate SilentAfterAck(log: seq<Event>) {
    forall i, j | 0 <= i < j < |log| && log[i].Acked? :: log[j] != Transmitted(log[i].id)
  }

  /** The packet was transmitted after the connection ended. */
  predicate SentAfterEnd(log: seq<Event>, id: nat) {
    log != [] &&
    var init := log[..|log| - 1];
    SentAfterEnd(init, id) || (Ended in init && log[|log| - 1] == Transmitted(id))
  }

  /** Who waits: exactly the packets that were sent and not acknowledged, until the connection ends. */
  ghost predicate Waiting(m: Manager) {
    && Wellformed(m)
    && (!m.connected ==> forall w | w in m.pending :: SentAfterEnd(m.log, m.pending[w]))
    && (m.connected ==> forall id | 0 <= id < |m.packets| && Acked(id) !in m.log :: WaitsAs(m, id))
    && (forall w | w in m.pending :: m.packets[m.pending[w]].seqId == w && Acked(m.pending[w]) !in m.log)
    // a timer that still runs can only find its own packet
    && (m.connected ==> forall id | 0 <= id < |m.packets| && m.packets[id].timer && m.packets[id].seqId in m.pending ::
                          m.pending[m.packets[id].seqId] == id)
  }

  ghost predicate WaitsAs(m: Manager, id: nat)
    requires id < |m.packets|
  {
    m.packets[id].timer && m.packets[id].seqId in m.pending && m.pending[m.packets[id].seqId] == id
  }

  /** What happened: every transmission is counted, and the log speaks of packets that were sent. */
  ghost predicate Logged(s: Settings, m: Manager) {
    LogSound(m.log, m.connected, |m.packets|) && forall id | 0 <= id < |m.packets| :: CountedRight(s, m, id)
  }

  ghost predicate CountedRight(s: Settings, m: Manager, id: nat)
    requires id < |m.packets|
  {
    var n := m.packets[id].sendCount;
    && Count(m.log, Transmitted(id)) == n >= 1
    && (n == 1 || n <= s.maxPacketRetransmissions)
    && (SentAfterEnd(m.log, id) ==> n == 1)
    && (Sampled(id) in m.log <==> Acked(id) in m.log && n >= s.rttRetransmit)
  }

  lemma CountAppend(log: seq<Event>, x: Event, e: Event)
    ensures Count(log + [x], e) == Count(log, e) + (if x == e then 1 else 0)
  {
    assert (log + [x])[..|log|] == log;
  }

  lemma {:induction false} CountAbsent(log: seq<Event>, e: Event)
    requires forall k | 0 <= k < |log| :: log[k] != e
    ensures Count(log, e) == 0
  {
    if log != [] {
      CountAbsent(log[..|log| - 1], e);
    }
  }

  lemma SentAfterEndAppend(log: seq<Event>, x: Event, id: nat)
    ensures SentAfterEnd(log + [x], id) <==> SentAfterEnd(log, id) || (Ended in log && x == Transmitted(id))
  {
    assert (log + [x])[..|log|] == log;
  }

  lemma {:induction false} SentAfterEndAt(log: seq<Event>, id: nat, i: nat, j: nat)
    requires i < j < |log| && log[i] == Ended && log[j] == Transmitted(id)
    ensures SentAfterEnd(log, id)
  {
    var init := log[..|log| - 1];
    assert init[i] == Ended;
    if j < |init| {
      SentAfterEndAt(init, id, i, j);
    }
  }

  lemma {:induction false} NotAfterEnd(log: seq<Event>, id: nat)
    requires Ended !in log
    ensures !SentAfterEnd(log, id)
  {
    if log != [] {
      NotAfterEnd(log[..|log| - 1], id);
    }
  }

  lemma SendKeepsWaiting(s: Settings, m: Manager)
    requires Waiting(m) && Logged(s, m) && (m.connected ==> NumberIsFree(m))
    ensures Waiting(Scheduled(m))
  {
    var m', new' := Scheduled(m), |m.packets|;
    if m.connected {
      forall id | 0 <= id < |m.packets| && Acked(id) !in m'.log
        ensures WaitsAs(m', id)
      {
        assert WaitsAs(m, id);
      }
    } else {
      forall w | w in m'.pending
        ensures SentAfterEnd(m'.log, m'.pending[w])
      {
        SentAfterEndAppend(m.log, Transmitted(new'), m'.pending[w]);
      }
    }
  }

  lemma SendKeepsCount(s: Settings, m: Manager, id: nat)
    requires Logged(s, m) && id <= |m.packets|
    ensures CountedRight(s, Scheduled(m), id)
  {
    var x := Transmitted(|m.packets|);
    CountAppend(m.log, x, Transmitted(id));
    SentAfterEndAppend(m.log, x, id);
    if id == |m.packets| {
      CountAbsent(m.log, Transmitted(id));
    } else {
      assert CountedRight(s, m, id);
    }
  }

  lemma SendKeepsLog(s: Settings, m: Manager)
    requires Logged(s, m)
    ensures Logged(s, Scheduled(m))
  {
    forall id | 0 <= id < |m.packets| + 1
      ensures CountedRight(s, Scheduled(m), id)
    {
      SendKeepsCount(s, m, id);
    }
  }

  lemma AckKeepsWaiting(s: Settings, m: Manager, w: uint16)
    requires Waiting(m) && m.connected && w in m.pending
    ensures Waiting(Acknowledged(s, m, w))
  {
    var m' := Acknowledged(s, m, w);
    assert m'.log[|m'.log| - 1] == Acked(m.pending[w]);
    forall id | 0 <= id < |m'.packets| && Acked(id) !in m'.log && m'.connected
      ensures WaitsAs(m', id)
    {
      assert WaitsAs(m, id);
    }
  }

  /** An event that is no transmission keeps the log silent and every count of transmissions. */
  lemma QuietEvent(log: seq<Event>, x: Event, id: nat)
    requires !x.Transmitted?
    ensures SilentAfterAck(log) ==> SilentAfterAck(log + [x])
    ensures Count(log + [x], Transmitted(id)) == Count(log, Transmitted(id))
    ensures SentAfterEnd(log + [x], id) <==> SentAfterEnd(log, id)
  {
    CountAppend(log, x, Transmitted(id));
    SentAfterEndAppend(log, x, id);
  }

  lemma AckKeepsCount(s: Settings, m: Manager, w: uint16, id: nat)
    requires Waiting(m) && Logged(s, m) && w in m.pending && id < |m.packets|
    ensures CountedRight(s, Acknowledged(s, m, w), id)
  {
    var m', a := Acknowledged(s, m, w), m.pending[w];
    var log := if m.packets[a].sendCount >= s.rttRetransmit then m.log + [Sampled(a)] else m.log;
    assert m'.log == log + [Acked(a)];
    assert CountedRight(s, m, id) && CountedRight(s, m, a);
    QuietEvent(m.log, Sampled(a), id);
    QuietEvent(log, Acked(a), id);
    assert Acked(id) in m'.log <==> Acked(id) in m.log || id == a;
    assert Sampled(id) in m'.log <==> Sampled(id) in log;
  }

  /** The log speaks of packets that were sent, of the end exactly when it came, and never of a packet after its acknowledgement. */
  ghost predicate LogSound(log: seq<Event>, connected: bool, n: nat) {
    && (connected <==> Ended !in log) && SilentAfterAck(log)
    && (forall k | 0 <= k < |log| && !log[k].Ended? :: log[k].id < n)
  }

  lemma QuietLogSound(log: seq<Event>, connected: bool, n: nat, x: Event)
    requires LogSound(log, connected, n) && (x.Acked? || x.Sampled?) && x.id < n
    ensures LogSound(log + [x], connected, n)
  {
    QuietEvent(log, x, 0);
  }

  lemma AckKeepsLog(s: Settings, m: Manager, w: uint16)
    requires Waiting(m) && Logged(s, m) && w in m.pending
    ensures Logged(s, Acknowledged(s, m, w))
  {
    var a, n := m.pending[w], |m.packets|;
    var log := if m.packets[a].sendCount >= s.rttRetransmit then m.log + [Sampled(a)] else m.log;
    QuietLogSound(m.log, m.connected, n, Sampled(a));
    QuietLogSound(log, m.connected, n, Acked(a));
    assert Acknowledged(s, m, w).log == log + [Acked(a)];
    forall id | 0 <= id < n
      ensures CountedRight(s, Acknowledged(s, m, w), id)
    {
      AckKeepsCount(s, m, w, id);
    }
  }

  lemma CleanupKeeps(s: Settings, m: Manager)
    requires Waiting(m) && Logged(s, m)
    ensures Waiting(Cleaned(m)) && Logged(s, Cleaned(m))
  {
    forall id | 0 <= id < |m.packets|
      ensures CountedRight(s, Cleaned(m), id)
    {
      assert CountedRight(s, m, id);
      QuietEvent(m.log, Ended, id);
    }
  }

  /** A timer that finds nothing to do stops; the packet is not waiting any more. */
  lemma TimerStopKeeps(s: Settings, m: Manager, id: nat)
    requires Waiting(m) && Logged(s, m) && id < |m.packets|
    requires !m.connected || m.packets[id].seqId !in m.pending
    ensures var m' := m.(packets := m.packets[id := m.packets[id].(timer := false)]); Waiting(m') && Logged(s, m')
  {
    var m' := m.(packets := m.packets[id := m.packets[id].(timer := false)]);
    forall j | 0 <= j < |m.packets|
      ensures CountedRight(s, m', j)
      ensures m.connected && Acked(j) !in m.log ==> WaitsAs(m', j)
    {
      assert CountedRight(s, m, j);
      assert m.connected && Acked(j) !in m.log ==> WaitsAs(m, j);
    }
  }

  lemma ResendKeeps(s: Settings, m: Manager, id: nat)
    requires Waiting(m) && Logged(s, m) && m.connected && id < |m.packets| && m.packets[id].timer
    requires m.packets[id].seqId in m.pending && m.packets[id].sendCount < s.maxPacketRetransmissions
    ensures Waiting(TimedOut(s, m, id)) && Logged(s, TimedOut(s, m, id))
  {
    var m' := TimedOut(s, m, id);
    assert Acked(id) !in m.log;
    assert Sampled(id) !in m.log by {
      assert CountedRight(s, m, id);
    }
    forall j | 0 <= j < |m.packets|
      ensures CountedRight(s, m', j)
      ensures Acked(j) !in m.log ==> WaitsAs(m', j)
    {
      assert CountedRight(s, m, j);
      assert Acked(j) !in m.log ==> WaitsAs(m, j);
      CountAppend(m.log, Transmitted(id), Transmitted(j));
      NotAfterEnd(m'.log, j);
    }
  }

  lemma TimeoutKeeps(s: Settings, m: Manager, id: nat)
    requires Waiting(m) && Logged(s, m)
    ensures Waiting(TimedOut(s, m, id)) && Logged(s, TimedOut(s, m, id))
  {
    if id < |m.packets| && m.packets[id].timer {
      if !m.connected || m.packets[id].seqId !in m.pending {
        TimerStopKeeps(s, m, id);
      } else if m.packets[id].sendCount < s.maxPacketRetransmissions {
        ResendKeeps(s, m, id);
      } else {
        CleanupKeeps(s, m);
        TimerStopKeeps(s, Cleaned(m), id);
      }
    }
  }

  lemma {:induction false} RunKeeps(s: Settings, actions: seq<Action>)
    requires NoNumberReuse(s, actions)
    ensures Waiting(Run(s, actions)) && Logged(s, Run(s, actions))
  {
    if actions != [] {
      var init, a := actions[..|actions| - 1], actions[|actions| - 1];
      forall k | 0 <= k < |init| && init[k].Send? && Run(s, init[..k]).connected
        ensures NumberIsFree(Run(s, init[..k]))
      {
        assert init[..k] == actions[..k];
      }
      RunKeeps(s, init);
      var m := Run(s, init);
      match a
      case Send =>
        SendKeepsWaiting(s, m);
        SendKeepsLog(s, m);
      case Acknowledge(w) =>
        if m.connected && w in m.pending {
          AckKeepsWaiting(s, m, w);
          AckKeepsLog(s, m, w);
        }
      case Timeout(id) => TimeoutKeeps(s, m, id);
      case Cleanup => CleanupKeeps(s, m);
    }
  }

  // ---------- the promises ----------

  /**
   Until the connection ends, the packets pending are the packets sent minus those acknowledged;
   after it, none of those sent before.
   */
  lemma PendingIsSentMinusAcknowledged(s: Settings, actions: seq<Action>)
    requires NoNumberReuse(s, actions)
    ensures var m := Run(s, actions);
            && (m.connected ==> m.pending.Values == set id | 0 <= id < |m.packets| && Acked(id) !in m.log)
            && (m.connected ==> forall w | w in m.pending :: m.packets[m.pending[w]].seqId == w)
            && (!m.connected ==> forall w | w in m.pending :: SentAfterEnd(m.log, m.pending[w]))
  {
    RunKeeps(s, actions);
    var m := Run(s, actions);
    if m.connected {
      forall id | 0 <= id < |m.packets| && Acked(id) !in m.log
        ensures id in m.pending.Values
      {
        assert WaitsAs(m, id);
      }
    }
  }

  /**
   Every packet is transmitted at most `maxPacketRetransmissions` times (20 by default), and
   never after its acknowledgement.
   */
  lemma BoundedTransmission(s: Settings, actions: seq<Action>, id: nat)
    requires NoNumberReuse(s, actions) && id < |Run(s, actions).packets| && s.maxPacketRetransmissions >= 1
    ensures 1 <= Count(Run(s, actions).log, Transmitted(id)) <= s.maxPacketRetransmissions
    ensures SilentAfterAck(Run(s, actions).log)
  {
    RunKeeps(s, actions);
    assert CountedRight(s, Run(s, actions), id);
  }

  /**
   With the default settings: at most 20 transmissions of a packet; the timer of one that was sent
   20 times and is still not acknowledged ends the connection, and no timer does so before.
   */
  lemma TwentyByDefault(actions: seq<Action>, id: nat)
    requires NoNumberReuse(DEFAULTS, actions) && id < |Run(DEFAULTS, actions).packets|
    ensures 1 <= Count(Run(DEFAULTS, actions).log, Transmitted(id)) <= 20
    ensures var m, m' := Run(DEFAULTS, actions), Run(DEFAULTS, actions + [Timeout(id)]);
            m.connected && Acked(id) !in m.log ==>
              if Count(m.log, Transmitted(id)) == 20 then !m'.connected && m'.log == m.log + [Ended]
              else m'.connected && m'.log == m.log + [Transmitted(id)]
  {
    BoundedTransmission(DEFAULTS, actions, id);
    if Run(DEFAULTS, actions).connected && Acked(id) !in Run(DEFAULTS, actions).log {
      UnacknowledgedIsResentOrEndsTheConnection(DEFAULTS, actions, id);
    }
  }

  lemma {:induction false} CountTwo(log: seq<Event>, e: Event, h: nat, j: nat)
    requires h < j < |log| && log[h] == e && log[j] == e
    ensures Count(log, e) >= 2
  {
    var init := log[..|log| - 1];
    if j < |init| {
      CountTwo(init, e, h, j);
    } else {
      CountOne(init, e, h);
    }
  }

  lemma {:induction false} CountOne(log: seq<Event>, e: Event, h: nat)
    requires h < |log| && log[h] == e
    ensures Count(log, e) >= 1
  {
    if h < |log| - 1 {
      CountOne(log[..|log| - 1], e, h);
    }
  }

  /**
   When the connection has ended at event `i`: a packet transmitted before is never transmitted
   again, and one that is transmitted after was sent after it, and is transmitted exactly once.
   */
  lemma AfterTheEnd(s: Settings, actions: seq<Action>, id: nat, i: nat)
    requires NoNumberReuse(s, actions) && i < |Run(s, actions).log| && Run(s, actions).log[i] == Ended
    ensures var log := Run(s, actions).log;
            && (Transmitted(id) in log[..i] ==> Transmitted(id) !in log[i..])
            && (Transmitted(id) in log[i..] ==> Count(log, Transmitted(id)) == 1)
  {
    RunKeeps(s, actions);
    var m := Run(s, actions);
    if Transmitted(id) in m.log {
      assert id < |m.packets|;
      assert CountedRight(s, m, id);
      OnceAfterEnd(m.log, id, i);
    } else {
      assert forall e | e in m.log[..i] :: e in m.log;
      assert forall e | e in m.log[i..] :: e in m.log;
    }
  }

  lemma OnceAfterEnd(log: seq<Event>, id: nat, i: nat)
    requires i < |log| && log[i] == Ended && (SentAfterEnd(log, id) ==> Count(log, Transmitted(id)) == 1)
    ensures Transmitted(id) in log[..i] ==> Transmitted(id) !in log[i..]
    ensures Transmitted(id) in log[i..] ==> Count(log, Transmitted(id)) == 1
  {
    var e := Transmitted(id);
    if e in log[i..] {
      var k :| 0 <= k < |log[i..]| && log[i..][k] == e;
      SentAfterEndAt(log, id, i, i + k);
      if e in log[..i] {
        var h :| 0 <= h < i && log[..i][h] == e;
        CountTwo(log, e, h, i + k);
      }
    }
  }

  /** A send after the end is transmitted all the same, and its timer does nothing. */
  lemma SendAfterTheEnd(s: Settings, actions: seq<Action>)
    requires !Run(s, actions).connected
    ensures var m := Run(s, actions);
            var id := |m.packets|;
            && Run(s, actions + [Send]).log == m.log + [Transmitted(id)]
            && Run(s, actions + [Send, Timeout(id)]).log == m.log + [Transmitted(id)]
  {
    var one := actions + [Send];
    var two := actions + [Send, Timeout(|Run(s, actions).packets|)];
    assert one[..|one| - 1] == actions && two[..|two| - 1] == one;
  }

  /**
   An unacknowledged packet of a live connection always has a timer; when it fires the packet
   is sent once more, unless it was sent as often as allowed, and then the connection ends.
   */
  lemma UnacknowledgedIsResentOrEndsTheConnection(s: Settings, actions: seq<Action>, id: nat)
    requires NoNumberReuse(s, actions) && id < |Run(s, actions).packets| && s.maxPacketRetransmissions >= 1
    requires Run(s, actions).connected && Acked(id) !in Run(s, actions).log
    ensures var m, m' := Run(s, actions), Run(s, actions + [Timeout(id)]);
            && m.packets[id].timer
            && (if Count(m.log, Transmitted(id)) == s.maxPacketRetransmissions then !m'.connected && m'.log == m.log + [Ended]
                else m'.connected && m'.log == m.log + [Transmitted(id)])
  {
    RunKeeps(s, actions);
    assert (actions + [Timeout(id)])[..|actions|] == actions;
    assert WaitsAs(Run(s, actions), id) && CountedRight(s, Run(s, actions), id);
  }

  /** A timer of an acknowledged packet, or of a dead connection, does nothing when it fires. */
  lemma AcknowledgedIsLeftAlone(s: Settings, actions: seq<Action>, id: nat)
    requires NoNumberReuse(s, actions)
    requires Acked(id) in Run(s, actions).log || !Run(s, actions).connected
    ensures var m, m' := Run(s, actions), Run(s, actions + [Timeout(id)]);
            m'.log == m.log && m'.connected == m.connected && m'.pending == m.pending
  {
    RunKeeps(s, actions);
    assert (actions + [Timeout(id)])[..|actions|] == actions;
  }

  /** The round trip is sampled for exactly the acknowledged packets that had been sent again. */
  lemma OnlyResentPacketsAreSampled(actions: seq<Action>, id: nat)
    requires NoNumberReuse(DEFAULTS, actions) && id < |Run(DEFAULTS, actions).packets|
    ensures var log := Run(DEFAULTS, actions).log;
            Sampled(id) in log <==> Acked(id) in log && Count(log, Transmitted(id)) >= 2
  {
    RunKeeps(DEFAULTS, actions);
    assert CountedRight(DEFAULTS, Run(DEFAULTS, actions), id);
  }

  // ---------- when numbers are reused ----------

  function Sends(actions: seq<Action>): nat {
    if actions == [] then 0
    else Sends(actions[..|actions| - 1]) + (if actions[|actions| - 1].Send? then 1 else 0)
  }

  /** `n` packets were sent, numbered one after the other as long as the connection lives. */
  ghost predicate NumberedUpTo(m: Manager, n: nat) {
    |m.packets| == n &&
    (m.connected ==> m.counter == Wire(n) && forall id | 0 <= id < n :: m.packets[id].seqId == Wire(id + 1))
  }

  lemma StepNumbered(s: Settings, m: Manager, a: Action, n: nat)
    requires Wellformed(m) && NumberedUpTo(m, n)
    ensures NumberedUpTo(Step(s, m, a), if a.Send? then n + 1 else n)
  {
    WireNext(n);
  }

  lemma {:induction false} NumberedBySending(s: Settings, actions: seq<Action>)
    ensures NumberedUpTo(Run(s, actions), Sends(actions))
  {
    if actions != [] {
      var init := actions[..|actions| - 1];
      NumberedBySending(s, init);
      StepNumbered(s, Run(s, init), actions[|actions| - 1], Sends(init));
    }
  }

  lemma {:induction false} FewerSendsBefore(actions: seq<Action>, k: nat)
    requires k < |actions| && actions[k].Send?
    ensures Sends(actions[..k]) < Sends(actions)
    decreases |actions|
  {
    var init := actions[..|actions| - 1];
    if k < |init| {
      assert init[..k] == actions[..k];
      FewerSendsBefore(init, k);
    }
  }

  /** A session of at most 65536 reliable sends reuses no number, whatever its timers do. */
  lemma OneLapReusesNoNumber(s: Settings, actions: seq<Action>)
    requires Sends(actions) <= 0x1_0000
    ensures NoNumberReuse(s, actions)
  {
    forall k | 0 <= k < |actions| && actions[k].Send? && Run(s, actions[..k]).connected
      ensures NumberIsFree(Run(s, actions[..k]))
    {
      FewerSendsBefore(actions, k);
      NumberStillFree(s, actions[..k]);
    }
  }

  lemma NumberStillFree(s: Settings, actions: seq<Action>)
    requires Sends(actions) < 0x1_0000 && Run(s, actions).connected
    ensures NumberIsFree(Run(s, actions))
  {
    var m := Run(s, actions);
    NumberedBySending(s, actions);
    WireNext(|m.packets|);
    forall id | 0 <= id < |m.packets|
      ensures m.packets[id].seqId != Wire(m.counter + 1)
    {
      WireInjective(1, id + 1, |m.packets| + 1);
    }
  }

  /** `n` packets, each acknowledged as soon as it is sent. */
  function Rounds(n: nat): seq<Action> {
    if n == 0 then [] else Rounds(n - 1) + [Send, Acknowledge(Wire(n))]
  }

  /** All packets acknowledged, the first of them after being sent once. */
  ghost predicate Idle(m: Manager, n: nat) {
    && m.connected && m.counter == Wire(n) && m.pending == map[] && |m.packets| == n
    && (n > 0 ==> m.packets[0] == Sent(1, 1, true) && Acked(0) in m.log)
  }

  lemma OneRound(s: Settings, m: Manager, n: nat)
    requires n >= 1 && Idle(m, n - 1) && Wellformed(Scheduled(m))
    ensures Idle(Acknowledged(s, Scheduled(m), Wire(n)), n)
  {
    WireNext(n - 1);
    var m1 := Scheduled(m);
    assert m1.pending == map[Wire(n) := n - 1];
    var m2 := Acknowledged(s, m1, Wire(n));
    assert m2.pending == map[];
    assert m2.log[|m2.log| - 1] == Acked(n - 1);
    assert forall e | e in m.log :: e in m2.log;
  }

  lemma {:induction false} AfterRounds(s: Settings, n: nat)
    ensures Idle(Run(s, Rounds(n)), n)
  {
    if n > 0 {
      AfterRounds(s, n - 1);
      var one, two := Rounds(n - 1) + [Send], Rounds(n);
      assert one[..|one| - 1] == Rounds(n - 1) && two[..|two| - 1] == one;
      assert Run(s, one) == Scheduled(Run(s, Rounds(n - 1)));
      assert Run(s, two) == Acknowledged(s, Run(s, one), Wire(n));
      OneRound(s, Run(s, Rounds(n - 1)), n);
    }
  }

  /**
   Freedom of the number is needed: after one full lap the next packet takes the number of the
   first, and the timer of the first, long acknowledged, transmits it again.
   */
  lemma ReuseResendsAcknowledgedPacket(s: Settings)
    requires s.maxPacketRetransmissions >= 2
    ensures var m := Run(s, Rounds(0x1_0000));
            var m' := Run(s, Rounds(0x1_0000) + [Send, Timeout(0)]);
            Acked(0) in m.log && m'.log == m.log + [Transmitted(0x1_0000), Transmitted(0)]
  {
    ReuseAfter(s, 0x1_0000);
  }

  lemma ReuseAfter(s: Settings, n: nat)
    requires s.maxPacketRetransmissions >= 2 && n == 0x1_0000
    ensures var m := Run(s, Rounds(n));
            var m' := Run(s, Rounds(n) + [Send, Timeout(0)]);
            Acked(0) in m.log && m'.log == m.log + [Transmitted(n), Transmitted(0)]
  {
    AfterRounds(s, n);
    var m := Run(s, Rounds(n));
    var one, two := Rounds(n) + [Send], Rounds(n) + [Send, Timeout(0)];
    assert one[..|one| - 1] == Rounds(n) && two[..|two| - 1] == one;
    assert Run(s, one) == Scheduled(m);
    assert Run(s, two) == TimedOut(s, Scheduled(m), 0);
    ReuseStep(s, m, n);
  }

  lemma ReuseStep(s: Settings, m: Manager, n: nat)
    requires s.maxPacketRetransmissions >= 2 && n == 0x1_0000 && Idle(m, n)
    ensures TimedOut(s, Scheduled(m), 0).log == m.log + [Transmitted(n), Transmitted(0)]
  {
    assert Scheduled(m).pending == map[1 := n];
    assert Scheduled(m).log + [Transmitted(0)] == m.log + [Transmitted(n), Transmitted(0)];
  }
}
