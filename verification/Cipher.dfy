/**
 The running stream cipher of one reliable substream. RC4 itself is left abstract: a key
 stream is any function from keys and positions to bytes, and the cipher objects are
 positions in it.
 */
module Cipher {
  import opened Bytes
  import Bits

  type KeyStream = nat -> byte
  type Rc4Stream = (seq<byte>, nat) -> byte

  const DEFAULT_KEY: seq<byte> := [0x43, 0x44, 0x26, 0x4D, 0x4C]

  function XorByte(a: byte, b: byte): byte {
    assert Bits.Pow2(8) == 256;
    Bits.Xor(a, b, 8)
  }

  /** What the cipher makes of `data` when its key stream stands at position `pos`. */
  function XorAt(ks: KeyStream, pos: nat, data: seq<byte>): (r: seq<byte>)
    ensures |r| == |data|
  {
    seq(|data|, i requires 0 <= i < |data| => XorByte(data[i], ks(pos + i)))
  }

  lemma XorAtUndo(ks: KeyStream, pos: nat, data: seq<byte>)
    ensures XorAt(ks, pos, XorAt(ks, pos, data)) == data
  {
    assert Bits.Pow2(8) == 256;
    forall i | 0 <= i < |data|
      ensures XorAt(ks, pos, XorAt(ks, pos, data))[i] == data[i]
    {
      Bits.XorUndo(data[i], ks(pos + i), 8);
    }
  }

  /** Each bit that goes out is the bit of the data, turned over where the key stream has a bit. */
  lemma XorAtBits(ks: KeyStream, pos: nat, data: seq<byte>, i: nat, k: nat)
    requires i < |data| && k < 8
    ensures Bits.HasBit(XorAt(ks, pos, data)[i], k) <==> Bits.HasBit(data[i], k) != Bits.HasBit(ks(pos + i), k)
  {
    Bits.XorBits(data[i], ks(pos + i), 8, k);
  }

  /** Encrypted zeros are the key stream itself. */
  lemma EncryptedZeros(ks: KeyStream, pos: nat, data: seq<byte>)
    requires forall i | 0 <= i < |data| :: data[i] == 0
    ensures forall i | 0 <= i < |data| :: XorAt(ks, pos, data)[i] == ks(pos + i)
  {
    assert Bits.Pow2(8) == 256;
    forall i | 0 <= i < |data|
      ensures XorAt(ks, pos, data)[i] == ks(pos + i)
    {
      Bits.XorWithZero(ks(pos + i), 8);
    }
  }

  lemma KeyByteFromText(a: byte, b: byte)
    ensures XorByte(XorByte(a, b), a) == b
  {
    assert Bits.Pow2(8) == 256;
    Bits.XorCommutes(a, b, 8);
    Bits.XorUndo(b, a, 8);
  }

  /** Two key streams make the same text of some data if and only if they agree where the data is. */
  lemma SameTextIff(ks: KeyStream, ks': KeyStream, pos: nat, data: seq<byte>)
    ensures XorAt(ks, pos, data) == XorAt(ks', pos, data) <==> forall j | pos <= j < pos + |data| :: ks(j) == ks'(j)
  {
    if XorAt(ks, pos, data) == XorAt(ks', pos, data) {
      forall j | pos <= j < pos + |data|
        ensures ks(j) == ks'(j)
      {
        var i := j - pos;
        assert XorAt(ks, pos, data)[i] == XorAt(ks', pos, data)[i];
        KeyByteFromText(data[i], ks(j));
        KeyByteFromText(data[i], ks'(j));
      }
    } else {
      var i :| 0 <= i < |data| && XorAt(ks, pos, data)[i] != XorAt(ks', pos, data)[i];
      assert ks(pos + i) != ks'(pos + i);
    }
  }

  lemma XorAtConcat(ks: KeyStream, pos: nat, a: seq<byte>, b: seq<byte>)
    ensures XorAt(ks, pos, a + b) == XorAt(ks, pos, a) + XorAt(ks, pos + |a|, b)
  {
  }

  function Concat(pieces: seq<seq<byte>>): seq<byte> {
    if pieces == [] then [] else pieces[0] + Concat(pieces[1..])
  }

  /** The pieces as a cipher turns them out when it is given them one after the other. */
  function XorPieces(ks: KeyStream, pos: nat, pieces: seq<seq<byte>>): (r: seq<seq<byte>>)
    ensures |r| == |pieces|
    decreases pieces
  {
    if pieces == [] then []
    else [XorAt(ks, pos, pieces[0])] + XorPieces(ks, pos + |pieces[0]|, pieces[1..])
  }

  /** Encrypting pieces in order is encrypting their concatenation, whatever the cuts. */
  lemma {:induction false} PiecesAreOneStream(ks: KeyStream, pos: nat, pieces: seq<seq<byte>>)
    ensures Concat(XorPieces(ks, pos, pieces)) == XorAt(ks, pos, Concat(pieces))
    decreases pieces
  {
    if pieces != [] {
      PiecesAreOneStream(ks, pos + |pieces[0]|, pieces[1..]);
      XorAtConcat(ks, pos, pieces[0], Concat(pieces[1..]));
    }
  }

  /** A receiver whose stream stands where the sender's stood recovers every piece. */
  lemma {:induction false} PiecesRoundTrip(ks: KeyStream, pos: nat, pieces: seq<seq<byte>>)
    ensures XorPieces(ks, pos, XorPieces(ks, pos, pieces)) == pieces
    decreases pieces
  {
    if pieces != [] {
      XorAtUndo(ks, pos, pieces[0]);
      PiecesRoundTrip(ks, pos + |pieces[0]|, pieces[1..]);
    }
  }

  /** crypto/rc4's Cipher: a key and the number of key bytes emitted so far. */
  class StreamCipher {
    const stream: Rc4Stream
    const key: seq<byte>
    var pos: nat

    constructor (stream: Rc4Stream, key: seq<byte>)
      ensures this.stream == stream && this.key == key && pos == 0
    {
      this.stream := stream;
      this.key := key;
      pos := 0;
    }

    ghost function KeyBytes(): KeyStream
    {
      i => stream(key, i)
    }

    method XorKeyStream(src: seq<byte>) returns (dst: seq<byte>)
      modifies this
      ensures dst == XorAt(KeyBytes(), old(pos), src)
      ensures pos == old(pos) + |src|
    {
      dst := [];
      var i := 0;
      while i < |src|
        invariant 0 <= i <= |src|
        invariant pos == old(pos) + i
        invariant dst == XorAt(KeyBytes(), old(pos), src)[..i]
      {
        dst := dst + [XorByte(src[i], stream(key, pos))];
        pos := pos + 1;
        i := i + 1;
      }
    }
  }

  /** The state of an RC4 object. The counts are never reset; the positions are, by SetKey. */
  datatype Rc4State = Rc4State(key: seq<byte>, cipherKey: seq<byte>,
                               encPos: nat, decPos: nat, encCount: nat, decCount: nat)

  datatype Op = SetKey(key: seq<byte>) | Encrypt(payload: seq<byte>) | Decrypt(payload: seq<byte>)

  const INITIAL := Rc4State(DEFAULT_KEY, DEFAULT_KEY, 0, 0, 0, 0)

  predicate ValidKey(key: seq<byte>) {
    1 <= |key| <= 256
  }

  function Apply(s: Rc4State, op: Op): Rc4State {
    match op
    case SetKey(key) =>
      if ValidKey(key) then s.(key := key, cipherKey := key, encPos := 0, decPos := 0) else s.(key := key)
    case Encrypt(p) => s.(encPos := s.encPos + |p|, encCount := s.encCount + |p|)
    case Decrypt(p) => s.(decPos := s.decPos + |p|, decCount := s.decCount + |p|)
  }

  function After(ops: seq<Op>): Rc4State {
    if ops == [] then INITIAL else Apply(After(ops[..|ops| - 1]), ops[|ops| - 1])
  }

  function Copied(s: Rc4State): Rc4State {
    Apply(INITIAL, SetKey(s.key)).(encPos := s.encCount, decPos := s.decCount,
                                   encCount := s.encCount, decCount := s.decCount)
  }

  class RC4 {
    const stream: Rc4Stream
    var key: seq<byte>
    var cipher: StreamCipher
    var decipher: StreamCipher
    var cipheredCount: nat
    var decipheredCount: nat

    ghost predicate Valid()
      reads this, cipher, decipher
    {
      cipher != decipher && cipher.stream == stream == decipher.stream && cipher.key == decipher.key
    }

    ghost function State(): Rc4State
      reads this, cipher, decipher
    {
      Rc4State(key, cipher.key, cipher.pos, decipher.pos, cipheredCount, decipheredCount)
    }

    constructor (stream: Rc4Stream)
      ensures Valid() && fresh(cipher) && fresh(decipher)
      ensures this.stream == stream && State() == INITIAL
    {
      this.stream := stream;
      key := DEFAULT_KEY;
      cipher := new StreamCipher(stream, DEFAULT_KEY);
      decipher := new StreamCipher(stream, DEFAULT_KEY);
      cipheredCount, decipheredCount := 0, 0;
    }

    method SetKey(newKey: seq<byte>) returns (ok: bool)
      requires Valid()
      modifies this
      ensures Valid() && ok == ValidKey(newKey)
      ensures if ok then fresh(cipher) && fresh(decipher) else cipher == old(cipher) && decipher == old(decipher)
      ensures State() == Apply(old(State()), Op.SetKey(newKey))
    {
      key := newKey;
      ok := ValidKey(newKey);
      if ok {
        cipher := new StreamCipher(stream, newKey);
        decipher := new StreamCipher(stream, newKey);
      }
    }

    method Encrypt(payload: seq<byte>) returns (r: seq<byte>)
      requires Valid()
      modifies this, cipher
      ensures Valid() && cipher == old(cipher) && decipher == old(decipher)
      ensures r == XorAt(cipher.KeyBytes(), old(State()).encPos, payload)
      ensures State() == Apply(old(State()), Op.Encrypt(payload))
    {
      r := cipher.XorKeyStream(payload);
      cipheredCount := cipheredCount + |payload|;
    }

    method Decrypt(payload: seq<byte>) returns (r: seq<byte>)
      requires Valid()
      modifies this, decipher
      ensures Valid() && cipher == old(cipher) && decipher == old(decipher)
      ensures r == XorAt(decipher.KeyBytes(), old(State()).decPos, payload)
      ensures State() == Apply(old(State()), Op.Decrypt(payload))
    {
      r := decipher.XorKeyStream(payload);
      decipheredCount := decipheredCount + |payload|;
    }

    /** Replays one discarded key byte for every byte the original ever processed. */
    method Copy() returns (copied: RC4)
      requires Valid()
      ensures fresh(copied) && copied.Valid() && copied.stream == stream
      ensures copied.State() == Copied(State())
    {
      copied := new RC4(stream);
      var _ := copied.SetKey(key);
      var i := 0;
      while i < cipheredCount
        invariant copied.Valid() && fresh(copied.cipher) && fresh(copied.decipher)
        invariant 0 <= i <= cipheredCount
        invariant copied.State() == Apply(INITIAL, Op.SetKey(key)).(encPos := i)
      {
        var _ := copied.cipher.XorKeyStream([0]);
        i := i + 1;
      }
      i := 0;
      while i < decipheredCount
        invariant copied.Valid() && fresh(copied.cipher) && fresh(copied.decipher)
        invariant 0 <= i <= decipheredCount
        invariant copied.State() == Apply(INITIAL, Op.SetKey(key)).(encPos := cipheredCount, decPos := i)
      {
        var _ := copied.decipher.XorKeyStream([0]);
        i := i + 1;
      }
      copied.cipheredCount, copied.decipheredCount := cipheredCount, decipheredCount;
    }
  }

  /** The number of operations up to and including the last SetKey whose key was accepted. */
  function KeyedAt(ops: seq<Op>): (n: nat)
    ensures n <= |ops|
  {
    if ops == [] then 0
    else if ops[|ops| - 1].SetKey? && ValidKey(ops[|ops| - 1].key) then |ops|
    else KeyedAt(ops[..|ops| - 1])
  }

  /** The last key accepted, which the ciphers run on. */
  function AcceptedKey(ops: seq<Op>): seq<byte> {
    if KeyedAt(ops) == 0 then DEFAULT_KEY else
      var last := ops[KeyedAt(ops) - 1];
      if last.SetKey? then last.key else DEFAULT_KEY
  }

  /** The last key given, accepted or not. */
  function GivenKey(ops: seq<Op>): seq<byte> {
    if ops == [] then DEFAULT_KEY
    else if ops[|ops| - 1].SetKey? then ops[|ops| - 1].key
    else GivenKey(ops[..|ops| - 1])
  }

  function EncryptedBytes(ops: seq<Op>): nat {
    if ops == [] then 0
    else EncryptedBytes(ops[..|ops| - 1]) + (if ops[|ops| - 1].Encrypt? then |ops[|ops| - 1].payload| else 0)
  }

  function DecryptedBytes(ops: seq<Op>): nat {
    if ops == [] then 0
    else DecryptedBytes(ops[..|ops| - 1]) + (if ops[|ops| - 1].Decrypt? then |ops[|ops| - 1].payload| else 0)
  }

  /** Over every history the counts exceed the positions by the bytes processed before the last accepted key. */
  lemma {:induction false} CountsRunAheadByEarlierKeys(ops: seq<Op>)
    ensures After(ops).encCount == EncryptedBytes(ops) && After(ops).decCount == DecryptedBytes(ops)
    ensures After(ops).encCount == After(ops).encPos + EncryptedBytes(ops[..KeyedAt(ops)])
    ensures After(ops).decCount == After(ops).decPos + DecryptedBytes(ops[..KeyedAt(ops)])
  {
    if ops != [] {
      var init := ops[..|ops| - 1];
      CountsRunAheadByEarlierKeys(init);
      assert ops[..|ops|] == ops;
      assert init[..KeyedAt(init)] == ops[..KeyedAt(init)];
    }
  }

  lemma {:induction false} KeysOf(ops: seq<Op>)
    ensures After(ops).key == GivenKey(ops) && After(ops).cipherKey == AcceptedKey(ops)
    ensures ValidKey(GivenKey(ops)) ==> GivenKey(ops) == AcceptedKey(ops)
  {
    if ops != [] {
      KeysOf(ops[..|ops| - 1]);
    }
  }

  /**
   Copy keeps the state after every history in which no byte was processed before the last
   accepted key, and in which the last key given was accepted or the ciphers run on the default
   key; and after no other history.
   */
  lemma CopyKeepsPositionsIff(ops: seq<Op>)
    ensures Copied(After(ops)) == After(ops) <==>
            && EncryptedBytes(ops[..KeyedAt(ops)]) == 0 && DecryptedBytes(ops[..KeyedAt(ops)]) == 0
            && (ValidKey(GivenKey(ops)) || AcceptedKey(ops) == DEFAULT_KEY)
  {
    CountsRunAheadByEarlierKeys(ops);
    KeysOf(ops);
  }
}
