/** How Send cuts a message into fragments, and how the receiving side puts it together again. */
module Fragments {
  import opened Bytes
  import Bits

  /** What takes one sequence number on a reliable substream: a fragment of a message, or a PING. */
  datatype Unit = Fragment(fragmentId: byte, payload: seq<byte>) | Ping

  datatype Item = Message(data: seq<byte>) | KeepAlive

  /** The ID of the `g`-th full fragment: an 8-bit counter that starts at 1. */
  function IdOf(g: nat): byte {
    g % 256
  }

  /** The fragments of `data`; `g` is the number of the next full fragment. */
  function Cut(data: seq<byte>, size: nat, g: nat): (us: seq<Unit>)
    requires size >= 1
    ensures |us| >= 1
  {
    if |data| < size then [Fragment(0, data)]
    else [Fragment(IdOf(g), data[..size])] + Cut(data[size..], size, g + 1)
  }

  function Units(items: seq<Item>, size: nat): seq<Unit>
    requires size >= 1
  {
    if items == [] then []
    else (if items[0].Message? then Cut(items[0].data, size, 1) else [Ping]) + Units(items[1..], size)
  }

  function Messages(items: seq<Item>): seq<seq<byte>> {
    if items == [] then []
    else (if items[0].Message? then [items[0].data] else []) + Messages(items[1..])
  }

  function Payloads(us: seq<Unit>): seq<byte> {
    if us == [] then []
    else (if us[0].Fragment? then us[0].payload else []) + Payloads(us[1..])
  }

  /** The messages a receiver hands on when it takes the units in order, and the bytes it is left holding. */
  function Reassemble(buffer: seq<byte>, us: seq<Unit>): (seq<seq<byte>>, seq<byte>)
    decreases us
  {
    if us == [] then ([], buffer)
    else if us[0].Ping? then Reassemble(buffer, us[1..])
    else
      var held := buffer + us[0].payload;
      if us[0].fragmentId == 0 then
        var (more, left) := Reassemble([], us[1..]);
        ([held] + more, left)
      else Reassemble(held, us[1..])
  }

  lemma DivStep(n: nat, size: nat)
    requires 1 <= size <= n
    ensures (n - size) / size == n / size - 1 && (n - size) % size == n % size
  {
    var q, r := n / size, n % size;
    assert n - size == (q - 1) * size + r;
    Bits.DivUnique(n - size, size, q - 1, r);
  }

  /** How many full fragments there are, counted by taking them away. */
  function FullFragments(n: nat, size: nat): nat
    requires size >= 1
  {
    if n < size then 0 else 1 + FullFragments(n - size, size)
  }

  lemma {:induction false} CountIsQuotient(n: nat, size: nat)
    requires size >= 1
    ensures FullFragments(n, size) == n / size
  {
    if n < size {
      Bits.DivUnique(n, size, 0, n);
    } else {
      DivStep(n, size);
      CountIsQuotient(n - size, size);
    }
  }

  ghost predicate FullFrom(us: seq<Unit>, q: nat, size: nat, g: nat) {
    q <= |us| && forall i | 0 <= i < q :: us[i].Fragment? && us[i].fragmentId == IdOf(g + i) && |us[i].payload| == size
  }

  /** `q` full fragments numbered from `g`, then a shorter one that closes. */
  ghost predicate Shape(us: seq<Unit>, q: nat, size: nat, g: nat) {
    |us| == q + 1 && FullFrom(us, q, size, g) && us[q].Fragment? && us[q].fragmentId == 0 && |us[q].payload| < size
  }

  lemma ShapeGrows(u: Unit, rest: seq<Unit>, q: nat, size: nat, g: nat)
    requires Shape(rest, q, size, g + 1) && u.Fragment? && u.fragmentId == IdOf(g) && |u.payload| == size
    ensures Shape([u] + rest, q + 1, size, g)
  {
    var us := [u] + rest;
    forall i | 0 <= i < q + 1
      ensures us[i].Fragment? && us[i].fragmentId == IdOf(g + i) && |us[i].payload| == size
    {
      assert i > 0 ==> us[i] == rest[i - 1] && g + 1 + (i - 1) == g + i;
    }
  }

  lemma {:induction false} CutShape(data: seq<byte>, size: nat, g: nat)
    requires size >= 1
    ensures Shape(Cut(data, size, g), FullFragments(|data|, size), size, g)
    ensures Payloads(Cut(data, size, g)) == data
    decreases |data|
  {
    var us := Cut(data, size, g);
    if |data| >= size {
      var rest := Cut(data[size..], size, g + 1);
      CutShape(data[size..], size, g + 1);
      ShapeGrows(us[0], rest, FullFragments(|data| - size, size), size, g);
      assert us[1..] == rest;
      assert data == data[..size] + data[size..];
    } else {
      assert us[1..] == [];
      assert data + [] == data;
    }
  }

  lemma {:induction false} LastLength(us: seq<Unit>, q: nat, size: nat, g: nat)
    requires size >= 1 && |us| == q + 1 && FullFrom(us, q, size, g) && us[q].Fragment? && |us[q].payload| < size
    ensures |us[q].payload| == |Payloads(us)| % size
    decreases q
  {
    var r := |us[q].payload|;
    if q == 0 {
      assert us[1..] == [];
      assert Payloads(us) == us[0].payload + [];
      Bits.DivUnique(r, size, 0, r);
    } else {
      var rest := us[1..];
      forall i | 0 <= i < q - 1
        ensures rest[i].Fragment? && rest[i].fragmentId == IdOf(g + 1 + i) && |rest[i].payload| == size
      {
        assert rest[i] == us[i + 1] && g + (i + 1) == g + 1 + i;
      }
      LastLength(rest, q - 1, size, g + 1);
      assert |Payloads(us)| == size + |Payloads(rest)|;
      DivStep(|Payloads(us)|, size);
    }
  }

  /**
   Fragmenter law: every length and every fragment size give `len / size` full fragments with
   IDs counting from 1 modulo 256, then one with ID 0 and the `len % size` bytes that remain;
   nothing is lost or reordered.
   */
  lemma FragmenterLaw(data: seq<byte>, size: nat, g: nat)
    requires size >= 1
    ensures var us := Cut(data, size, g); var q := |data| / size;
            && |us| == q + 1
            && (forall i | 0 <= i < q :: us[i].Fragment? && us[i].fragmentId == IdOf(g + i) && |us[i].payload| == size)
            && us[q].Fragment? && us[q].fragmentId == 0 && |us[q].payload| == |data| % size
            && Payloads(us) == data
  {
    CutShape(data, size, g);
    CountIsQuotient(|data|, size);
    LastLength(Cut(data, size, g), FullFragments(|data|, size), size, g);
  }

  /** While the ID does not wrap, only the last fragment closes the message. */
  lemma {:induction false} CutReassembles(buffer: seq<byte>, data: seq<byte>, size: nat, g: nat)
    requires size >= 1 && 1 <= g && g + |data| / size <= 256
    ensures Reassemble(buffer, Cut(data, size, g)) == ([buffer + data], [])
    decreases |data|
  {
    var us := Cut(data, size, g);
    if |data| < size {
      assert Reassemble([], us[1..]) == ([], []);
      assert [buffer + data] + [] == [buffer + data];
    } else {
      DivStep(|data|, size);
      CutReassembles(buffer + data[..size], data[size..], size, g + 1);
      assert us[1..] == Cut(data[size..], size, g + 1);
      assert buffer + data[..size] + data[size..] == buffer + data;
    }
  }

  /** The number of messages the receiver makes of one message. */
  lemma {:induction false} CutClosures(buffer: seq<byte>, data: seq<byte>, size: nat, g: nat)
    requires size >= 1 && g >= 1
    ensures |Reassemble(buffer, Cut(data, size, g)).0| == 1 + (g + |data| / size - 1) / 256 - (g - 1) / 256
    decreases |data|
  {
    var us := Cut(data, size, g);
    if |data| < size {
      Bits.DivUnique(|data|, size, 0, |data|);
      assert us[1..] == [];
    } else {
      DivStep(|data|, size);
      assert us[1..] == Cut(data[size..], size, g + 1);
      CutClosures([], data[size..], size, g + 1);
      CutClosures(buffer + data[..size], data[size..], size, g + 1);
    }
  }

  /**
   A message survives fragmentation exactly when it has at most 255 full fragments. The 256th
   carries ID 0 and closes the message early, so a longer one arrives as several.
   */
  lemma MessageSurvivesIff(data: seq<byte>, size: nat)
    requires size >= 1
    ensures |Reassemble([], Cut(data, size, 1)).0| == 1 + |data| / size / 256
    ensures Reassemble([], Cut(data, size, 1)) == ([data], []) <==> |data| / size <= 255
  {
    CutClosures([], data, size, 1);
    if |data| / size <= 255 {
      CutReassembles([], data, size, 1);
      assert [] + data == data;
    }
  }

  lemma {:induction false} ReassembleConcat(buffer: seq<byte>, us: seq<Unit>, vs: seq<Unit>)
    ensures var (first, held) := Reassemble(buffer, us);
            var (second, left) := Reassemble(held, vs);
            Reassemble(buffer, us + vs) == (first + second, left)
    decreases us
  {
    if us == [] {
      assert us + vs == vs;
      assert [] + Reassemble(buffer, vs).0 == Reassemble(buffer, vs).0;
    } else {
      assert (us + vs)[1..] == us[1..] + vs;
      if us[0].Ping? {
        ReassembleConcat(buffer, us[1..], vs);
      } else {
        var held := buffer + us[0].payload;
        ReassembleConcat(if us[0].fragmentId == 0 then [] else held, us[1..], vs);
        if us[0].fragmentId == 0 {
          var (first, left) := Reassemble([], us[1..]);
          assert [held] + (first + Reassemble(left, vs).0) == ([held] + first) + Reassemble(left, vs).0;
        }
      }
    }
  }

  /** Taken in order, the units of any items give back the messages of those items, one for one. */
  lemma {:induction false} ItemsReassemble(items: seq<Item>, size: nat)
    requires size >= 1
    requires forall i | 0 <= i < |items| && items[i].Message? :: |items[i].data| / size <= 255
    ensures Reassemble([], Units(items, size)) == (Messages(items), [])
  {
    if items != [] {
      ItemsReassemble(items[1..], size);
      var rest := Units(items[1..], size);
      if items[0].Message? {
        var us := Cut(items[0].data, size, 1);
        MessageSurvivesIff(items[0].data, size);
        ReassembleConcat([], us, rest);
      } else {
        ReassembleConcat([], [Ping], rest);
        assert [Ping][1..] == [];
        assert Reassemble([], [Ping]) == ([], []);
        assert [] + Messages(items[1..]) == Messages(items[1..]);
      }
    }
  }

  // ---------- closing fragments ----------

  predicate Closes(u: Unit) {
    u.Fragment? && u.fragmentId == 0
  }

  function Closers(us: seq<Unit>): nat {
    if us == [] then 0 else (if Closes(us[0]) then 1 else 0) + Closers(us[1..])
  }

  /** Every fragment that closes gives one message. */
  lemma {:induction false} ReassembleCount(buffer: seq<byte>, us: seq<Unit>)
    ensures |Reassemble(buffer, us).0| == Closers(us)
    decreases us
  {
    if us != [] {
      if us[0].Ping? {
        ReassembleCount(buffer, us[1..]);
      } else {
        ReassembleCount(if us[0].fragmentId == 0 then [] else buffer + us[0].payload, us[1..]);
      }
    }
  }

  lemma {:induction false} ClosersConcat(us: seq<Unit>, vs: seq<Unit>)
    ensures Closers(us + vs) == Closers(us) + Closers(vs)
  {
    if us == [] {
      assert us + vs == vs;
    } else {
      assert (us + vs)[1..] == us[1..] + vs;
      ClosersConcat(us[1..], vs);
    }
  }

  lemma CloserCounts(us: seq<Unit>, j: nat, k: nat)
    requires j <= k < |us| && Closes(us[k])
    ensures Closers(us[j..]) >= 1
  {
    var first, second := us[j..k], us[k..];
    assert us[j..] == first + second;
    ClosersConcat(first, second);
  }

  lemma {:induction false} NoFragmentsNoClosers(us: seq<Unit>)
    requires forall i | 0 <= i < |us| :: us[i].Ping?
    ensures Closers(us) == 0
  {
    if us != [] {
      NoFragmentsNoClosers(us[1..]);
    }
  }

  /** From any fragment on, some fragment closes a message. */
  lemma {:induction false} FragmentsAreClosed(items: seq<Item>, size: nat, j: nat)
    requires size >= 1 && j < |Units(items, size)| && Units(items, size)[j].Fragment?
    ensures Closers(Units(items, size)[j..]) >= 1
  {
    var us, rest := Units(items, size), Units(items[1..], size);
    if items[0].Message? {
      var first := Cut(items[0].data, size, 1);
      if j < |first| {
        CutCloses(items[0].data, size, 1);
        CloserCounts(us, j, |first| - 1);
      } else {
        FragmentsAreClosed(items[1..], size, j - |first|);
        Beyond(first, rest, j);
      }
    } else {
      FragmentsAreClosed(items[1..], size, j - 1);
      Beyond([Ping], rest, j);
    }
  }

  lemma Beyond(first: seq<Unit>, rest: seq<Unit>, j: nat)
    requires |first| <= j <= |first + rest|
    ensures (first + rest)[j..] == rest[j - |first|..]
  {
  }

  lemma {:induction false} CutCloses(data: seq<byte>, size: nat, g: nat)
    requires size >= 1
    ensures var us := Cut(data, size, g); Closes(us[|us| - 1])
    decreases |data|
  {
    if |data| >= size {
      CutCloses(data[size..], size, g + 1);
    }
  }
}
