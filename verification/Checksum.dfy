/**
 The PRUDP version 0 checksum in its two forms. Both start from the sum of the access key's
 bytes; `key` below is that sum.
 */
module Checksum {
  import opened Bytes
  import Bits

  function SumBytes(s: seq<byte>): nat {
    if s == [] then 0 else s[0] + SumBytes(s[1..])
  }

  /** The 32-bit sum of the little-endian words of `s`; up to three bytes at the end are not part of a word. */
  function WordSum(s: seq<byte>): uint32 {
    Widths();
    if |s| < 4 then 0 else (FromLE(s[..4]) + WordSum(s[4..])) % 0x1_0000_0000
  }

  function Tail(s: seq<byte>): seq<byte> {
    s[|s| - |s| % 4..]
  }

  function Padded(s: seq<byte>): seq<byte> {
    s + seq((4 - |s| % 4) % 4, _ => 0)
  }

  /** Quazal games: the words of the padded data, as 32 bits. */
  function Enhanced(key: nat, s: seq<byte>): uint32 {
    Sum32(key % 256, WordSum(Padded(s)))
  }

  function Sum32(a: nat, b: nat): uint32 {
    (a + b) % 0x1_0000_0000
  }

  /** NEX: the bytes of the word sum and the bytes left over, as 8 bits. */
  function Folded(key: nat, s: seq<byte>): byte {
    LowByte(key, SumBytes(Tail(s)), SumBytes(LE(WordSum(s), 4)))
  }

  function LowByte(key: nat, tail: nat, word: nat): byte {
    (key + tail + word) % 256
  }

  function Of(enhanced: bool, key: nat, s: seq<byte>): uint32 {
    if enhanced then Enhanced(key, s) else Folded(key, s)
  }

  method SumWords(data: seq<byte>) returns (sum: uint32)
    ensures sum == WordSum(data)
  {
    Widths();
    sum := 0;
    var i := 0;
    while i < |data| / 4
      invariant 0 <= i <= |data| / 4
      invariant (sum + WordSum(data[4 * i..])) % 0x1_0000_0000 == WordSum(data)
    {
      var word := FromLE(data[4 * i..4 * i + 4]);
      assert data[4 * i..][..4] == data[4 * i..4 * i + 4];
      assert data[4 * i..][4..] == data[4 * (i + 1)..];
      ModAdd(sum, word, WordSum(data[4 * (i + 1)..]));
      sum := (sum + word) % 0x1_0000_0000;
      i := i + 1;
    }
  }

  lemma ModAdd(a: uint32, b: nat, c: nat)
    ensures (a + (b + c) % 0x1_0000_0000) % 0x1_0000_0000 == ((a + b) % 0x1_0000_0000 + c) % 0x1_0000_0000
  {
  }

  method SumOf(data: seq<byte>) returns (sum: nat)
    ensures sum == SumBytes(data)
  {
    sum := 0;
    var i := 0;
    while i < |data|
      invariant 0 <= i <= |data|
      invariant sum + SumBytes(data[i..]) == SumBytes(data)
    {
      sum := sum + data[i];
      i := i + 1;
    }
  }

  method Calculate(enhanced: bool, accessKey: seq<byte>, data: seq<byte>) returns (checksum: uint32)
    ensures checksum == Of(enhanced, SumBytes(accessKey), data)
  {
    var key := SumOf(accessKey);
    if enhanced {
      var padding := (4 - |data| % 4) % 4;
      var words := SumWords(data + seq(padding, _ => 0));
      checksum := (key % 256 + words) % 0x1_0000_0000;
    } else {
      var words := SumWords(data);
      var tail := SumOf(data[|data| - |data| % 4..]);
      var bytes := SumOf(LE(words, 4));
      checksum := (key + tail + bytes) % 256;
    }
  }

  // ---------- the key and the base value ----------

  /** A larger key sum moves the 8-bit form by as much. */
  lemma KeyMovesFolded(key: nat, d: nat, s: seq<byte>)
    ensures Of(false, key + d, s) == (Of(false, key, s) + d) % 256
  {
    LowByteMoves(key, d, SumBytes(Tail(s)), SumBytes(LE(WordSum(s), 4)));
  }

  lemma LowByteMoves(key: nat, d: nat, tail: nat, word: nat)
    ensures LowByte(key + d, tail, word) == (LowByte(key, tail, word) + d) % 256
  {
  }

  /** The 32-bit form moves by the change of the key sum's low byte. */
  lemma KeyMovesEnhanced(key: nat, key': nat, s: seq<byte>)
    ensures Of(true, key', s) == (Of(true, key, s) + (key' % 256 - key % 256)) % 0x1_0000_0000
  {
    Sum32Moves(key % 256, key' % 256, WordSum(Padded(s)));
  }

  lemma Sum32Moves(a: nat, a': nat, w: nat)
    ensures Sum32(a', w) == (Sum32(a, w) + (a' - a)) % 0x1_0000_0000
  {
    ModShift(a + w, a' - a);
  }

  ghost predicate AllZero(s: seq<byte>) {
    forall i | 0 <= i < |s| :: s[i] == 0
  }

  lemma {:induction false} ZerosSumToZero(s: seq<byte>)
    requires AllZero(s)
    ensures SumBytes(s) == 0 && FromLE(s) == 0
  {
    if s != [] {
      ZerosSumToZero(s[1..]);
    }
  }

  lemma {:induction false} ZeroWords(s: seq<byte>)
    requires AllZero(s)
    ensures WordSum(s) == 0
    decreases |s|
  {
    if |s| >= 4 {
      ZerosSumToZero(s[..4]);
      ZeroWords(s[4..]);
    }
  }

  lemma {:induction false} ZeroBytes(w: nat)
    ensures AllZero(LE(0, w))
  {
    if w > 0 {
      ZeroBytes(w - 1);
    }
  }

  /** Without a key, zeros of any length have checksum zero. Every other value follows by changing bytes and key. */
  lemma BaseValue(enhanced: bool, s: seq<byte>)
    requires AllZero(s)
    ensures Of(enhanced, 0, s) == 0
  {
    if enhanced {
      ZeroWords(Padded(s));
    } else {
      ZeroWords(s);
      ZerosSumToZero(Tail(s));
      ZeroBytes(4);
      ZerosSumToZero(LE(0, 4));
    }
  }

  /** Two keys give the same checksum of any data if and only if their sums agree in the low byte. */
  lemma SameChecksumIff(enhanced: bool, key: nat, key': nat, s: seq<byte>)
    ensures Of(enhanced, key, s) == Of(enhanced, key', s) <==> key % 256 == key' % 256
  {
    if enhanced {
      KeyMovesEnhanced(key, key', s);
    } else {
      KeyMovesFolded(0, key, s);
      KeyMovesFolded(0, key', s);
      ByteShiftIff(Of(false, 0, s), key, key');
    }
  }

  lemma ByteShiftIff(c: nat, a: nat, b: nat)
    ensures (c + a) % 256 == (c + b) % 256 <==> a % 256 == b % 256
  {
  }

  // ---------- a flipped bit never goes unnoticed ----------

  /** The two bytes differ in exactly one bit. */
  ghost predicate OneBitApart(a: byte, b: byte) {
    exists k: nat :: k < 8 && Bits.Xor(a, b, 8) == Bits.Pow2(k)
  }

  lemma {:induction false} XorZero(a: nat, b: nat, n: nat)
    requires a < Bits.Pow2(n) && b < Bits.Pow2(n) && Bits.Xor(a, b, n) == 0
    ensures a == b
  {
    if n > 0 {
      var low, rest := (a + b) % 2, Bits.Xor(a / 2, b / 2, n - 1);
      assert low == 0 && rest == 0;
      XorZero(a / 2, b / 2, n - 1);
      SameParity(a, b, 0);
    }
  }

  lemma {:induction false} XorPower(a: nat, b: nat, n: nat, k: nat)
    requires a < Bits.Pow2(n) && b < Bits.Pow2(n) && k < n && Bits.Xor(a, b, n) == Bits.Pow2(k)
    ensures a == b + Bits.Pow2(k) || b == a + Bits.Pow2(k)
  {
    var low, rest := (a + b) % 2, Bits.Xor(a / 2, b / 2, n - 1);
    if k == 0 {
      assert low == 1 && rest == 0;
      XorZero(a / 2, b / 2, n - 1);
    } else {
      var p := Bits.Pow2(k - 1);
      assert low == 0 && rest == p;
      XorPower(a / 2, b / 2, n - 1, k - 1);
      SameParity(a, b, p);
    }
  }

  lemma SameParity(a: nat, b: nat, p: nat)
    requires (a + b) % 2 == 0
    ensures a / 2 == b / 2 + p ==> a == b + 2 * p
    ensures b / 2 == a / 2 + p ==> b == a + 2 * p
  {
    var ra, rb := a % 2, b % 2;
    assert a == 2 * (a / 2) + ra && b == 2 * (b / 2) + rb;
    assert ra == 0 || ra == 1;
    assert rb == 0 || rb == 1;
    assert ra == rb;
  }

  lemma OneBitDistance(a: byte, b: byte)
    requires OneBitApart(a, b)
    ensures 1 <= b - a <= 128 || 1 <= a - b <= 128
  {
    assert Bits.Pow2(8) == 256;
    var k: nat :| k < 8 && Bits.Xor(a, b, 8) == Bits.Pow2(k);
    XorPower(a, b, 8, k);
    PowBound(k);
  }

  lemma PowBound(k: nat)
    requires k < 8
    ensures 1 <= Bits.Pow2(k) <= 128
  {
    assert Bits.Pow2(7) == 128;
    Power(k, 7);
  }

  lemma {:induction false} Power(k: nat, n: nat)
    requires k <= n
    ensures Bits.Pow2(k) <= Bits.Pow2(n)
    decreases n
  {
    if k < n {
      Power(k, n - 1);
    }
  }

  /** `d` times the weight of byte `j` in a little-endian number. */
  function Weigh(d: int, j: nat): int {
    if j == 0 then d else 256 * Weigh(d, j - 1)
  }

  lemma WeighSmall(d: int, j: nat)
    requires (1 <= d <= 128 || -128 <= d <= -1) && j < 4
    ensures 1 <= Weigh(d, j) <= 0x8000_0000 || -0x8000_0000 <= Weigh(d, j) <= -1
  {
    assert Weigh(d, 1) == 256 * d && Weigh(d, 2) == 256 * Weigh(d, 1) && Weigh(d, 3) == 256 * Weigh(d, 2);
  }

  /** Adding `d` to byte `j` of a number adds the weight of `d` there. */
  lemma {:induction false} FromLEUpdate(s: seq<byte>, j: nat, b: byte)
    requires j < |s|
    ensures FromLE(s[j := b]) == FromLE(s) + Weigh(b - s[j], j)
  {
    var s' := s[j := b];
    if j == 0 {
      assert s'[1..] == s[1..];
    } else {
      FromLEUpdate(s[1..], j - 1, b);
      assert s'[1..] == s[1..][j - 1 := b];
    }
  }

  lemma FirstWordUpdate(s: seq<byte>, i: nat, b: byte)
    requires i < 4 <= |s|
    ensures WordSum(s[i := b]) == (WordSum(s) + Weigh(b - s[i], i)) % 0x1_0000_0000
  {
    var s' := s[i := b];
    FromLEUpdate(s[..4], i, b);
    assert s'[..4] == s[..4][i := b] && s'[4..] == s[4..];
    ModShift(FromLE(s[..4]) + WordSum(s[4..]), Weigh(b - s[i], i));
  }

  lemma LaterWords(s: seq<byte>, i: nat, b: byte)
    requires 4 <= i < |s|
    ensures WordSum(s) == (FromLE(s[..4]) + WordSum(s[4..])) % 0x1_0000_0000
    ensures WordSum(s[i := b]) == (FromLE(s[..4]) + WordSum(s[4..][i - 4 := b])) % 0x1_0000_0000
  {
    assert s[i := b][..4] == s[..4] && s[i := b][4..] == s[4..][i - 4 := b];
  }

  /** Changing byte `j` of word `k` changes the word sum by the weight of the difference. */
  lemma {:induction false} WordSumUpdate(s: seq<byte>, k: nat, j: nat, b: byte)
    requires j < 4 && 4 * k + 4 <= |s|
    ensures var i := 4 * k + j;
            WordSum(s[i := b]) == (WordSum(s) + Weigh(b - s[i], j)) % 0x1_0000_0000
    decreases k
  {
    var i := 4 * k + j;
    if k == 0 {
      FirstWordUpdate(s, i, b);
    } else {
      WordSumUpdate(s[4..], k - 1, j, b);
      LaterWords(s, i, b);
      ModInner(FromLE(s[..4]), WordSum(s[4..]), Weigh(b - s[i], j));
    }
  }

  lemma ModShift(a: int, d: int)
    ensures (a % 0x1_0000_0000 + d) % 0x1_0000_0000 == (a + d) % 0x1_0000_0000
  {
  }

  lemma ModInner(a: int, b: int, d: int)
    ensures (a + (b + d) % 0x1_0000_0000) % 0x1_0000_0000 == ((a + b) % 0x1_0000_0000 + d) % 0x1_0000_0000
  {
  }

  lemma EnhancedDetects(key: nat, s: seq<byte>, i: nat, b: byte)
    requires i < |s| && OneBitApart(s[i], b)
    ensures Enhanced(key, s[i := b]) != Enhanced(key, s)
  {
    OneBitDistance(s[i], b);
    var k, j := i / 4, i % 4;
    WeighSmall(b - s[i], j);
    PaddedUpdate(s, i, b);
    WordSumUpdate(Padded(s), k, j, b);
    ShiftDiffers(key % 256, WordSum(Padded(s)), WordSum(Padded(s[i := b])), Weigh(b - s[i], j));
  }

  lemma PaddedUpdate(s: seq<byte>, i: nat, b: byte)
    requires i < |s|
    ensures Padded(s)[i := b] == Padded(s[i := b]) && Padded(s)[i] == s[i]
    ensures 4 * (i / 4) + i % 4 == i && 4 * (i / 4) + 4 <= |Padded(s)|
  {
  }

  lemma ShiftDiffers(a: nat, w: uint32, w': uint32, d: int)
    requires 1 <= d <= 0x8000_0000 || -0x8000_0000 <= d <= -1
    requires w' == (w + d) % 0x1_0000_0000
    ensures Sum32(a, w') != Sum32(a, w)
  {
    ModInner(a, w, d);
  }

  /**
   Carries: adding `d` to byte `j` adds `d` to the sum of the low `n` bytes, takes 256 away for
   every carry, and adds 1 for every carry that goes into another of those bytes.
   */
  lemma {:induction false} AddCarries(n: nat, t: nat, j: nat, d: nat) returns (into: nat, carries: nat)
    requires j < n && 1 <= d <= 128 && t + Weigh(d, j) >= 0
    ensures into < n
    ensures SumBytes(LE(t + Weigh(d, j), n)) == SumBytes(LE(t, n)) + d + into - 256 * carries
    decreases n
  {
    var t' := t + Weigh(d, j);
    LESum(t, n);
    LESum(t', n);
    if j > 0 {
      UpperPart(t, Weigh(d, j - 1));
      into, carries := AddCarries(n - 1, t / 256, j - 1, d);
    } else if t % 256 + d < 256 {
      assert t' / 256 == t / 256;
      into, carries := 0, 0;
    } else if n == 1 {
      into, carries := 0, 1;
    } else {
      assert t' / 256 == t / 256 + 1 && t' % 256 == t % 256 + d - 256;
      into, carries := AddCarries(n - 1, t / 256, 0, 1);
      into, carries := into + 1, carries + 1;
    }
  }

  lemma UpperPart(t: nat, up: int)
    requires t + 256 * up >= 0
    ensures (t + 256 * up) / 256 == t / 256 + up && (t + 256 * up) % 256 == t % 256
  {
  }

  lemma LESum(t: nat, n: nat)
    requires n >= 1
    ensures SumBytes(LE(t, n)) == t % 256 + SumBytes(LE(t / 256, n - 1))
  {
    assert LE(t, n)[1..] == LE(t / 256, n - 1);
  }

  lemma {:induction false} LELowBytes(t: nat, n: nat, k: nat)
    requires t + Weigh(k, n) >= 0
    ensures LE(t + Weigh(k, n), n) == LE(t, n)
  {
    if n > 0 {
      WeighNatural(k, n - 1);
      UpperPart(t, Weigh(k, n - 1));
      LELowBytes(t / 256, n - 1, k);
    }
  }

  lemma {:induction false} WeighNatural(k: nat, n: nat)
    ensures Weigh(k, n) >= 0
  {
    if n > 0 {
      WeighNatural(k, n - 1);
    }
  }

  /** A word sum that grows by the weight of a small number folds to a different byte sum. */
  lemma FoldDiffers(t: uint32, t': uint32, j: nat, d: nat, n: nat)
    requires j < n == 4 && 1 <= d <= 128
    requires t' == (t + Weigh(d, j)) % 0x1_0000_0000
    ensures SumBytes(LE(t', n)) % 256 != SumBytes(LE(t, n)) % 256
  {
    WeighNatural(d, j);
    var into, carries := AddCarries(n, t, j, d);
    SameLowBytes(t + Weigh(d, j), t', n);
    NotCongruent(SumBytes(LE(t, n)), SumBytes(LE(t', n)), d + into, carries);
  }

  lemma NotCongruent(x: nat, y: nat, e: nat, c: nat)
    requires y == x + e - 256 * c && 1 <= e < 256
    ensures y % 256 != x % 256
  {
  }

  lemma SameLowBytes(full: nat, t: uint32, n: nat)
    requires t == full % 0x1_0000_0000 && n == 4
    ensures LE(full, n) == LE(t, n)
  {
    var laps := full / 0x1_0000_0000;
    assert Weigh(laps, 1) == 256 * laps && Weigh(laps, 2) == 256 * Weigh(laps, 1);
    assert Weigh(laps, 3) == 256 * Weigh(laps, 2) && Weigh(laps, 4) == 256 * Weigh(laps, 3);
    LELowBytes(t, n, laps);
  }

  lemma {:induction false} SumBytesUpdate(s: seq<byte>, i: nat, b: byte)
    requires i < |s|
    ensures SumBytes(s[i := b]) == SumBytes(s) + b - s[i]
  {
    var s' := s[i := b];
    if i == 0 {
      assert s'[1..] == s[1..];
    } else {
      SumBytesUpdate(s[1..], i - 1, b);
      assert s'[1..] == s[1..][i - 1 := b];
    }
  }

  lemma {:induction false} WordSumIgnoresTail(s: seq<byte>, i: nat, b: byte)
    requires |s| - |s| % 4 <= i < |s|
    ensures WordSum(s[i := b]) == WordSum(s)
    decreases |s|
  {
    if |s| >= 4 {
      WordSumIgnoresTail(s[4..], i - 4, b);
      assert s[i := b][..4] == s[..4] && s[i := b][4..] == s[4..][i - 4 := b];
    }
  }

  lemma FoldedDetects(key: nat, s: seq<byte>, i: nat, b: byte)
    requires i < |s| && OneBitApart(s[i], b)
    ensures Folded(key, s[i := b]) != Folded(key, s)
  {
    OneBitDistance(s[i], b);
    if i >= |s| - |s| % 4 {
      FoldedDetectsInTail(key, s, i, b);
    } else {
      FoldedDetectsInWords(key, s, i, b);
    }
  }

  lemma FoldedDetectsInTail(key: nat, s: seq<byte>, i: nat, b: byte)
    requires |s| - |s| % 4 <= i < |s|
    requires 1 <= b - s[i] <= 128 || 1 <= s[i] - b <= 128
    ensures Folded(key, s[i := b]) != Folded(key, s)
  {
    WordSumIgnoresTail(s, i, b);
    TailBitCounts(s, i, b);
    var word := SumBytes(LE(WordSum(s), 4));
    LowByteDiffers(key, SumBytes(Tail(s)), word, SumBytes(Tail(s[i := b])), word);
  }

  lemma FoldedDetectsInWords(key: nat, s: seq<byte>, i: nat, b: byte)
    requires i < |s| - |s| % 4
    requires 1 <= b - s[i] <= 128 || 1 <= s[i] - b <= 128
    ensures Folded(key, s[i := b]) != Folded(key, s)
  {
    assert Tail(s[i := b]) == Tail(s);
    WordBitFolds(s, i, b);
    var tail := SumBytes(Tail(s));
    LowByteDiffers(key, tail, SumBytes(LE(WordSum(s), 4)), tail, SumBytes(LE(WordSum(s[i := b]), 4)));
  }

  lemma TailBitCounts(s: seq<byte>, i: nat, b: byte)
    requires |s| - |s| % 4 <= i < |s|
    requires 1 <= b - s[i] <= 128 || 1 <= s[i] - b <= 128
    ensures SumBytes(Tail(s[i := b])) % 256 != SumBytes(Tail(s)) % 256
  {
    var cut := |s| - |s| % 4;
    assert Tail(s[i := b]) == Tail(s)[i - cut := b];
    SumBytesUpdate(Tail(s), i - cut, b);
  }

  lemma LowByteDiffers(key: nat, tail: nat, word: nat, tail': nat, word': nat)
    requires (tail == tail' && word % 256 != word' % 256) || (word == word' && tail % 256 != tail' % 256)
    ensures LowByte(key, tail, word) != LowByte(key, tail', word')
  {
  }

  lemma WordBitFolds(s: seq<byte>, i: nat, b: byte)
    requires i < |s| - |s| % 4
    requires 1 <= b - s[i] <= 128 || 1 <= s[i] - b <= 128
    ensures SumBytes(LE(WordSum(s[i := b]), 4)) % 256 != SumBytes(LE(WordSum(s), 4)) % 256
  {
    var s' := s[i := b];
    if b > s[i] {
      WordSumUpdate(s, i / 4, i % 4, b);
      FoldDiffers(WordSum(s), WordSum(s'), i % 4, b - s[i], 4);
    } else {
      assert s == s'[i := s[i]];
      WordSumUpdate(s', i / 4, i % 4, s[i]);
      FoldDiffers(WordSum(s'), WordSum(s), i % 4, s[i] - b, 4);
    }
  }

  /** Both forms tell apart any two strings that differ in exactly one bit. */
  lemma SingleBitErrorDetected(enhanced: bool, key: nat, s: seq<byte>, i: nat, b: byte)
    requires i < |s| && OneBitApart(s[i], b)
    ensures Of(enhanced, key, s[i := b]) != Of(enhanced, key, s)
  {
    if enhanced {
      EnhancedDetects(key, s, i, b);
    } else {
      FoldedDetects(key, s, i, b);
    }
  }
}
