/**
 Little-endian integers and the two cursor streams that every codec is written over.
 A parser of the model takes the bytes that are left to read and returns a value together
 with the bytes that are left after it.
 */
module Bytes {
  import opened Wrappers
  import Bits

  type byte = n: int | 0 <= n < 0x100
  type uint16 = n: int | 0 <= n < 0x1_0000
  type uint32 = n: int | 0 <= n < 0x1_0000_0000
  type uint64 = n: int | 0 <= n < 0x1_0000_0000_0000_0000

  /** Widths of the integers on the wire. */
  const SHORT: nat := 2
  const WORD: nat := 4

  function Pow256(w: nat): (p: nat)
    ensures p > 0
  {
    if w == 0 then 1 else 256 * Pow256(w - 1)
  }

  /** The low `w` bytes of `n`, least significant first. */
  function LE(n: nat, w: nat): (s: seq<byte>)
    ensures |s| == w
  {
    if w == 0 then [] else [n % 256] + LE(n / 256, w - 1)
  }

  function FromLE(s: seq<byte>): (n: nat)
    ensures n < Pow256(|s|)
  {
    if s == [] then 0 else s[0] + 256 * FromLE(s[1..])
  }

  lemma Widths()
    ensures Pow256(1) == 0x100 && Pow256(2) == 0x1_0000
    ensures Pow256(4) == 0x1_0000_0000 && Pow256(8) == 0x1_0000_0000_0000_0000
  {
    assert Pow256(4) == 0x1_0000 * Pow256(2);
    assert Pow256(6) == 0x1_0000 * Pow256(4);
    assert Pow256(8) == 0x1_0000 * Pow256(6);
  }

  /** Writing `w` bytes keeps exactly the value modulo `256^w`. */
  lemma {:induction false} FromLEOfLE(n: nat, w: nat)
    requires n < Pow256(w)
    ensures FromLE(LE(n, w)) == n
  {
    if w != 0 {
      FromLEOfLE(n / 256, w - 1);
      assert LE(n, w)[1..] == LE(n / 256, w - 1);
    }
  }

  /** Byte `i` on the wire is digit `i` of the number to the base 256, the lowest first. */
  lemma {:induction false} LEDigits(n: nat, w: nat, i: nat)
    requires i < w
    ensures LE(n, w)[i] == n / Pow256(i) % 256
  {
    if i > 0 {
      LEDigits(n / 256, w - 1, i - 1);
      Bits.DivDiv(n, 256, Pow256(i - 1));
    }
  }

  function TakeBytes(s: seq<byte>, n: nat): Option<(seq<byte>, seq<byte>)> {
    if |s| < n then None else Some((s[..n], s[n..]))
  }

  function ReadUInt(s: seq<byte>, w: nat): Option<(nat, seq<byte>)> {
    if |s| < w then None else Some((FromLE(s[..w]), s[w..]))
  }

  lemma Regroup(a: seq<byte>, b: seq<byte>, c: seq<byte>)
    ensures a + b + c == a + (b + c)
  {
  }

  lemma TakeWritten(data: seq<byte>, rest: seq<byte>)
    ensures TakeBytes(data + rest, |data|) == Some((data, rest))
  {
  }

  lemma ReadWritten(n: nat, w: nat, rest: seq<byte>)
    requires n < Pow256(w)
    ensures ReadUInt(LE(n, w) + rest, w) == Some((n, rest))
  {
    FromLEOfLE(n, w);
    assert (LE(n, w) + rest)[..w] == LE(n, w);
    assert (LE(n, w) + rest)[w..] == rest;
  }

  lemma ReadByteWritten(b: byte, rest: seq<byte>)
    ensures ReadUInt([b] + rest, 1) == Some((b, rest))
  {
    assert LE(b, 1) == [b] + LE(0, 0) == [b];
    ReadWritten(b, 1, rest);
  }

  /** A buffer that is read from the front; a failed read leaves the cursor where it was. */
  class ByteStreamIn {
    const data: seq<byte>
    var offset: nat

    constructor (data: seq<byte>)
      ensures Valid() && Rest() == data && this.data == data
    {
      this.data := data;
      offset := 0;
    }

    ghost predicate Valid()
      reads this
    {
      offset <= |data|
    }

    function Rest(): seq<byte>
      requires Valid()
      reads this
    {
      data[offset..]
    }

    method Remaining() returns (n: nat)
      requires Valid()
      ensures n == |Rest()|
    {
      n := |data| - offset;
    }

    method Read(length: nat) returns (r: Option<seq<byte>>)
      requires Valid()
      modifies this`offset
      ensures Valid()
      ensures TakeBytes(old(Rest()), length) == if r.None? then None else Some((r.value, Rest()))
      ensures offset == if r.None? then old(offset) else old(offset) + length
    {
      if |data| - offset < length {
        return None;
      }
      r := Some(data[offset..offset + length]);
      assert Rest()[..length] == r.value && Rest()[length..] == data[offset + length..];
      offset := offset + length;
    }

    method ReadUIntLE(width: nat) returns (r: Option<nat>)
      requires Valid()
      modifies this`offset
      ensures Valid()
      ensures ReadUInt(old(Rest()), width) == if r.None? then None else Some((r.value, Rest()))
      ensures offset == if r.None? then old(offset) else old(offset) + width
    {
      var bytes := Read(width);
      r := if bytes.Some? then Some(FromLE(bytes.value)) else None;
    }
  }

  /** A buffer that grows at the back. */
  class ByteStreamOut {
    var data: seq<byte>

    constructor ()
      ensures data == []
    {
      data := [];
    }

    method Write(bytes: seq<byte>)
      modifies this
      ensures data == old(data) + bytes
    {
      data := data + bytes;
    }

    method WriteUIntLE(n: nat, width: nat)
      modifies this
      ensures data == old(data) + LE(n, width)
    {
      data := data + LE(n, width);
    }
  }
}
