/**
 Aggregate acknowledgements: one packet acknowledges every pending packet up to a base number,
 and any further numbers it lists. Read errors are ignored by the code: a read that finds too
 few bytes yields 0 and leaves the cursor where it is.
 */
module AggregateAck {
  import opened Bytes
  import opened Wrappers
  import opened DispatchQueue
  import opened Retransmission

  /** Which window is meant, up to which number, and which numbers besides. */
  datatype Aggregate = Aggregate(window: byte, base: uint16, listed: seq<uint16>)

  function ReadOrZero(s: seq<byte>, width: nat): (nat, seq<byte>) {
    if |s| < width then (0, s) else (FromLE(s[..width]), s[width..])
  }

  function ReadWord(s: seq<byte>): (uint16, seq<byte>) {
    Widths();
    (ReadOrZero(s, SHORT).0, ReadOrZero(s, SHORT).1)
  }

  function Words(s: seq<byte>, n: nat): (ws: seq<uint16>)
    ensures |ws| == n
    decreases n
  {
    if n == 0 then [] else [ReadWord(s).0] + Words(ReadWord(s).1, n - 1)
  }

  /** The new form names its window and counts its numbers; the old form fills the payload with them. */
  function Parse(newForm: bool, sequenceId: uint16, payload: seq<byte>): Aggregate {
    Widths();
    if newForm then
      var (window, s1) := ReadOrZero(payload, 1);
      var (count, s2) := ReadOrZero(s1, 1);
      var (base, s3) := ReadWord(s2);
      Aggregate(window, base, Words(s3, count))
    else Aggregate(0, sequenceId, Words(payload, |payload| / 2))
  }

  // ---------- the loop of the old form ----------

  /** The bytes left and the numbers read after `n` rounds of a loop that runs while bytes are left. */
  function OldFormRounds(payload: seq<byte>, n: nat): (seq<byte>, seq<uint16>) {
    if n == 0 then (payload, [])
    else
      var (rest, ids) := OldFormRounds(payload, n - 1);
      if |rest| == 0 then (rest, ids) else (ReadWord(rest).1, ids + [ReadWord(rest).0])
  }

  lemma {:induction false} OldFormParity(payload: seq<byte>, n: nat)
    ensures |OldFormRounds(payload, n).0| % 2 == |payload| % 2
    ensures |OldFormRounds(payload, n).0| <= if |payload| >= 2 * n then |payload| - 2 * n else 1
  {
    if n > 0 {
      OldFormParity(payload, n - 1);
    }
  }

  /** The loop comes to an end exactly on payloads of even length: a last odd byte is never consumed. */
  lemma OldFormTerminatesIff(payload: seq<byte>)
    ensures (exists n :: OldFormRounds(payload, n).0 == []) <==> |payload| % 2 == 0
  {
    OldFormParity(payload, |payload|);
    forall n
      ensures OldFormRounds(payload, n).0 == [] ==> |payload| % 2 == 0
    {
      OldFormParity(payload, n);
    }
    if |payload| % 2 == 0 {
      assert OldFormRounds(payload, |payload|).0 == [];
    }
  }

  method ReadWordIgnoringErrors(stream: ByteStreamIn) returns (w: uint16)
    requires stream.Valid()
    modifies stream`offset
    ensures stream.Valid() && (w, stream.Rest()) == ReadWord(old(stream.Rest()))
    ensures |old(stream.Rest())| >= 2 ==> stream.offset == old(stream.offset) + 2
  {
    Widths();
    var r := stream.ReadUIntLE(SHORT);
    w := if r.Some? then r.value else 0;
  }

  method ReadByteIgnoringErrors(stream: ByteStreamIn) returns (b: byte)
    requires stream.Valid()
    modifies stream`offset
    ensures stream.Valid() && (b, stream.Rest()) == ReadOrZero(old(stream.Rest()), 1)
  {
    Widths();
    var r := stream.ReadUIntLE(1);
    b := if r.Some? then r.value else 0;
  }

  lemma OneMoreWord(ids: seq<uint16>, s: seq<byte>, n: nat)
    requires n > 0
    ensures ids + Words(s, n) == ids + [ReadWord(s).0] + Words(ReadWord(s).1, n - 1)
  {
  }

  method ReadCounted(stream: ByteStreamIn, count: nat) returns (ids: seq<uint16>)
    requires stream.Valid()
    modifies stream`offset
    ensures stream.Valid() && ids == Words(old(stream.Rest()), count)
  {
    ids := [];
    var i := 0;
    while i < count
      invariant stream.Valid() && 0 <= i <= count
      invariant Words(old(stream.Rest()), count) == ids + Words(stream.Rest(), count - i)
    {
      OneMoreWord(ids, stream.Rest(), count - i);
      var id := ReadWordIgnoringErrors(stream);
      ids := ids + [id];
      i := i + 1;
    }
  }

  /** Terminates because the number of bytes left is even; see OldFormTerminatesIff. */
  method ReadAll(stream: ByteStreamIn) returns (ids: seq<uint16>)
    requires stream.Valid() && |stream.Rest()| % 2 == 0
    modifies stream`offset
    ensures stream.Valid() && ids == Words(old(stream.Rest()), |old(stream.Rest())| / 2)
  {
    ids := [];
    ghost var all := Words(stream.Rest(), |stream.Rest()| / 2);
    var remaining := stream.Remaining();
    while remaining > 0
      invariant stream.Valid() && remaining == |stream.Rest()| && remaining % 2 == 0
      invariant all == ids + Words(stream.Rest(), remaining / 2)
    {
      OneMoreWord(ids, stream.Rest(), remaining / 2);
      var id := ReadWordIgnoringErrors(stream);
      ids := ids + [id];
      remaining := stream.Remaining();
    }
  }

  method Decode(newForm: bool, sequenceId: uint16, payload: seq<byte>) returns (a: Aggregate)
    requires !newForm ==> |payload| % 2 == 0
    ensures a == Parse(newForm, sequenceId, payload)
  {
    var stream := new ByteStreamIn(payload);
    if newForm {
      var window := ReadByteIgnoringErrors(stream);
      var count := ReadByteIgnoringErrors(stream);
      var base := ReadWordIgnoringErrors(stream);
      var ids := ReadCounted(stream, count);
      a := Aggregate(window, base, ids);
    } else {
      var ids := ReadAll(stream);
      a := Aggregate(0, sequenceId, ids);
    }
  }

  // ---------- the packets that are acknowledged ----------

  predicate Covered(a: Aggregate, w: uint16) {
    w <= a.base || w in a.listed
  }

  function Surviving(pending: map<uint16, nat>, a: Aggregate): map<uint16, nat> {
    map w | w in pending && !Covered(a, w) :: pending[w]
  }

  /** Acknowledges, in the window it names, exactly the pending packets the aggregate covers. */
  method HandleMultiAcknowledgment(windows: map<byte, TimeoutManager>, newForm: bool, sequenceId: uint16, payload: seq<byte>)
    requires !newForm ==> |payload| % 2 == 0
    requires forall i, j | i in windows && j in windows && i != j :: windows[i] != windows[j]
    requires forall i | i in windows :: Wellformed(windows[i].State())
    modifies windows.Values
    ensures var a := Parse(newForm, sequenceId, payload);
            && (forall i | i in windows && i != a.window :: windows[i].State() == old(windows[i].State()))
            && (a.window in windows ==>
                  var w := windows[a.window];
                  && w.pending == Surviving(old(w.pending), a)
                  && AcknowledgesSome(w.settings, old(w.State()), w.State()))
  {
    var a := Decode(newForm, sequenceId, payload);
    if a.window in windows {
      var ids := AcknowledgeCovered(windows[a.window], a);
      assert windows[a.window].State() == AcknowledgeAll(windows[a.window].settings, old(windows[a.window].State()), ids);
    }
  }

  /** The state after single acknowledgements, one after the other. */
  function AcknowledgeAll(s: Settings, m: Manager, ids: seq<uint16>): (m': Manager)
    requires Wellformed(m)
    ensures Wellformed(m')
  {
    if ids == [] then m else Acknowledged(s, AcknowledgeAll(s, m, ids[..|ids| - 1]), ids[|ids| - 1])
  }

  ghost predicate AcknowledgesSome(s: Settings, m: Manager, m': Manager) {
    Wellformed(m) && exists ids :: m' == AcknowledgeAll(s, m, ids)
  }

  function AckActions(ids: seq<uint16>): seq<Action> {
    seq(|ids|, i requires 0 <= i < |ids| => Acknowledge(ids[i]))
  }

  /** On a live connection an aggregate is the same as its single acknowledgements, so every run with aggregates is one without. */
  lemma {:induction false} AggregateIsARun(s: Settings, actions: seq<Action>, ids: seq<uint16>)
    requires Retransmission.Run(s, actions).connected
    ensures Retransmission.Run(s, actions + AckActions(ids)) == AcknowledgeAll(s, Retransmission.Run(s, actions), ids)
    ensures Retransmission.Run(s, actions + AckActions(ids)).connected
  {
    if ids == [] {
      assert actions + AckActions(ids) == actions;
    } else {
      var init := ids[..|ids| - 1];
      AggregateIsARun(s, actions, init);
      var all := actions + AckActions(ids);
      assert all[..|all| - 1] == actions + AckActions(init);
      assert all[|all| - 1] == Acknowledge(ids[|ids| - 1]);
    }
  }

  method AcknowledgeCovered(tm: TimeoutManager, a: Aggregate) returns (ids: seq<uint16>)
    requires Wellformed(tm.State())
    modifies tm
    ensures tm.pending == Surviving(old(tm.pending), a)
    ensures tm.State() == AcknowledgeAll(tm.settings, old(tm.State()), ids)
  {
    ids := CollectCovered(tm.pending, a);
    var i := 0;
    while i < |ids|
      invariant 0 <= i <= |ids| && Wellformed(tm.State())
      invariant forall w :: w in tm.pending <==> w in old(tm.pending) && w !in ids[..i]
      invariant forall w | w in tm.pending :: tm.pending[w] == old(tm.pending)[w]
      invariant tm.State() == AcknowledgeAll(tm.settings, old(tm.State()), ids[..i])
    {
      assert ids[..i + 1][..i] == ids[..i];
      var _ := tm.AcknowledgePacket(ids[i]);
      i := i + 1;
    }
    assert ids[..i] == ids;
  }

  /** The listed numbers, and every pending number up to the base that is not listed, in any order. */
  method CollectCovered(pending: map<uint16, nat>, a: Aggregate) returns (ids: seq<uint16>)
    ensures forall w | w in pending :: w in ids <==> Covered(a, w)
  {
    ids := a.listed;
    var todo := pending.Keys;
    while todo != {}
      invariant todo <= pending.Keys
      invariant forall w | w in pending && w !in todo :: w in ids <==> Covered(a, w)
      invariant forall w | w in todo :: w in ids <==> w in a.listed
      decreases |todo|
    {
      var w :| w in todo;
      if w <= a.base && w !in ids {
        ids := ids + [w];
      }
      todo := todo - {w};
    }
  }

  // ---------- what the two forms say ----------

  /** Numbers side by side, low byte first. */
  function NumberBytes(ids: seq<uint16>): (s: seq<byte>)
    ensures |s| == 2 * |ids|
  {
    if ids == [] then [] else [ids[0] % 256, ids[0] / 256] + NumberBytes(ids[1..])
  }

  lemma WordRead(id: uint16, rest: seq<byte>)
    ensures ReadWord([id % 256, id / 256] + rest) == (id, rest)
  {
    Widths();
    var s := [id % 256, id / 256];
    assert LE(id, SHORT) == s by {
      assert LE(id, SHORT) == [id % 256] + LE(id / 256, 1);
      assert LE(id / 256, 1) == [id / 256 % 256] + [];
    }
    ReadWritten(id, SHORT, rest);
  }

  lemma {:induction false} NumbersRead(ids: seq<uint16>, rest: seq<byte>)
    ensures Words(NumberBytes(ids) + rest, |ids|) == ids
  {
    if ids != [] {
      var s := [ids[0] % 256, ids[0] / 256];
      Regroup(s, NumberBytes(ids[1..]), rest);
      WordRead(ids[0], NumberBytes(ids[1..]) + rest);
      NumbersRead(ids[1..], rest);
    }
  }

  lemma ByteRead(b: byte, rest: seq<byte>)
    ensures ReadOrZero([b] + rest, 1) == (b, rest)
  {
    ReadByteWritten(b, rest);
  }

  /** The new form as a client writes it: the window, how many numbers are listed, the base, the numbers. */
  function NewFormBytes(window: byte, base: uint16, ids: seq<uint16>): seq<byte>
    requires |ids| <= 255
  {
    [window] + ([|ids|] + ([base % 256, base / 256] + NumberBytes(ids)))
  }

  lemma FieldsRead(window: byte, count: byte, base: uint16, numbers: seq<byte>, sequenceId: uint16)
    ensures Parse(true, sequenceId, [window] + ([count] + ([base % 256, base / 256] + numbers))) ==
            Aggregate(window, base, Words(numbers, count))
  {
    ByteRead(window, [count] + ([base % 256, base / 256] + numbers));
    ByteRead(count, [base % 256, base / 256] + numbers);
    WordRead(base, numbers);
  }

  /** The new form is read as it was written. The number of the packet that carries it counts for nothing. */
  lemma NewFormRead(window: byte, base: uint16, ids: seq<uint16>, sequenceId: uint16)
    requires |ids| <= 255
    ensures Parse(true, sequenceId, NewFormBytes(window, base, ids)) == Aggregate(window, base, ids)
  {
    FieldsRead(window, |ids|, base, NumberBytes(ids), sequenceId);
    NumbersRead(ids, []);
    assert NumberBytes(ids) + [] == NumberBytes(ids);
  }

  /** Old form: the packet's own number is the base, the numbers fill the payload, and the window is window 0. */
  lemma OldFormRead(ids: seq<uint16>, sequenceId: uint16)
    ensures Parse(false, sequenceId, NumberBytes(ids)) == Aggregate(0, sequenceId, ids)
  {
    NumbersRead(ids, []);
    assert NumberBytes(ids) + [] == NumberBytes(ids);
  }

  /** The pending numbers of all windows after an aggregate. */
  function AfterAggregate(pending: map<byte, map<uint16, nat>>, a: Aggregate): map<byte, map<uint16, nat>> {
    if a.window in pending then pending[a.window := Surviving(pending[a.window], a)] else pending
  }

  /** Number `x` of window `i` is still waiting. */
  predicate Waits(pending: map<byte, map<uint16, nat>>, i: byte, x: uint16) {
    i in pending && x in pending[i]
  }

  lemma AggregateEffect(pending: map<byte, map<uint16, nat>>, a: Aggregate, i: byte, x: uint16)
    ensures Waits(AfterAggregate(pending, a), i, x) <==> Waits(pending, i, x) && (i != a.window || (x > a.base && x !in a.listed))
  {
  }

  /** A new-form packet takes away exactly the numbers of its window up to its base and those it lists. */
  lemma NewFormEffect(pending: map<byte, map<uint16, nat>>, window: byte, base: uint16, ids: seq<uint16>, sequenceId: uint16, i: byte, x: uint16)
    requires |ids| <= 255
    ensures Waits(AfterAggregate(pending, Parse(true, sequenceId, NewFormBytes(window, base, ids))), i, x) <==>
            Waits(pending, i, x) && (i != window || (x > base && x !in ids))
  {
    NewFormRead(window, base, ids, sequenceId);
    AggregateEffect(pending, Aggregate(window, base, ids), i, x);
  }

  /** An old-form packet takes away exactly the numbers of window 0 up to its own and those it lists. */
  lemma OldFormEffect(pending: map<byte, map<uint16, nat>>, ids: seq<uint16>, sequenceId: uint16, i: byte, x: uint16)
    ensures Waits(AfterAggregate(pending, Parse(false, sequenceId, NumberBytes(ids))), i, x) <==>
            Waits(pending, i, x) && (i != 0 || (x > sequenceId && x !in ids))
  {
    OldFormRead(ids, sequenceId);
    AggregateEffect(pending, Aggregate(0, sequenceId, ids), i, x);
  }

  // ---------- what this means for packets numbered beyond 16 bits ----------

  /** In the lap of the base, the 16-bit comparison is the true one. */
  lemma SameLapComparesTruly(base: nat, n: nat)
    requires n / 0x1_0000 == base / 0x1_0000
    ensures Wire(n) <= Wire(base) <==> n <= base
  {
  }

  /**
   A packet sent after the base, less than a lap later and not listed, is dropped from the
   pending packets exactly when a lap ends between the two.
   */
  lemma LaterPacketLostIff(a: Aggregate, base: nat, n: nat, pending: map<uint16, nat>)
    requires a.base == Wire(base) && base < n < base + 0x1_0000
    requires Wire(n) in pending && Wire(n) !in a.listed
    ensures Wire(n) !in Surviving(pending, a) <==> n / 0x1_0000 != base / 0x1_0000
  {
    var k, j := n / 0x1_0000, base / 0x1_0000;
    assert n == k * 0x1_0000 + Wire(n) && base == j * 0x1_0000 + Wire(base);
  }
}
