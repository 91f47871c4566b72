/**
 * Bit vectors as the DUT interface exchanges them: a value of n bits is a
 * sequence of booleans, least significant bit first (the Lsb0 order of
 * BitVec<u32>), and travels as ⌈n/32⌉ 32-bit words (uint32_t), low word
 * first.
 */
module Bits {
  /** A uint32_t. */
  type Word = x: nat | x < 0x1_0000_0000

  /** A bit vector, least significant bit first. */
  type BitVec = seq<bool>

  function Pow2(k: nat): (r: nat)
    ensures r >= 1
  {
    if k == 0 then 1 else 2 * Pow2(k - 1)
  }

  /** Bit j of a number. */
  function Bit(w: nat, j: nat): bool {
    if j == 0 then w % 2 == 1 else Bit(w / 2, j - 1)
  }

  /** The low k bits of a number, least significant first. */
  function LowBits(w: nat, k: nat): (r: seq<bool>)
    ensures |r| == k
  {
    if k == 0 then [] else [w % 2 == 1] + LowBits(w / 2, k - 1)
  }

  /** The 32 bits of a word. */
  function WordBits(w: Word): (r: seq<bool>)
    ensures |r| == 32
  {
    LowBits(w, 32)
  }

  /** The words laid end to end, low word first: BitVec::from_slice. */
  function WordsToBits(ws: seq<Word>): (r: BitVec)
    ensures |r| == 32 * |ws|
  {
    if ws == [] then [] else WordBits(ws[0]) + WordsToBits(ws[1..])
  }

  /** The number of words needed for n bits. */
  function CeilDiv32(n: nat): (r: nat)
    ensures 32 * r >= n
    ensures n > 0 ==> 32 * (r - 1) < n
  {
    n / 32 + if n % 32 != 0 then 1 else 0
  }

  /** Bits packed into the low bits of a number; the rest are zero. */
  function PackBits(bs: seq<bool>): (r: nat)
    ensures r < Pow2(|bs|)
  {
    if bs == [] then 0
    else (if bs[0] then 1 else 0) + 2 * PackBits(bs[1..])
  }

  lemma {:induction false} Pow2Monotone(k: nat, m: nat)
    requires k <= m
    ensures Pow2(k) <= Pow2(m)
    decreases m
  {
    if k < m {
      Pow2Monotone(k, m - 1);
    }
  }

  lemma {:induction false} Pow2Add(a: nat, b: nat)
    ensures Pow2(a + b) == Pow2(a) * Pow2(b)
    decreases a
  {
    if a > 0 {
      Pow2Add(a - 1, b);
      assert Pow2(a + b) == 2 * Pow2(a - 1 + b);
    }
  }

  lemma {:induction false} Pow2Word(k: nat)
    requires k <= 32
    ensures Pow2(k) <= 0x1_0000_0000
  {
    Pow2Monotone(k, 32);
    assert Pow2(1) == 2;
    assert Pow2(2) == 4;
    assert Pow2(3) == 8;
    assert Pow2(4) == 16;
    Pow2Add(4, 4);
    assert Pow2(8) == 256;
    Pow2Add(8, 8);
    assert Pow2(16) == 0x1_0000;
    Pow2Add(16, 16);
  }

  /** At most 32 bits as a word. */
  function PackWord(bs: seq<bool>): Word
    requires |bs| <= 32
  {
    Pow2Word(|bs|);
    PackBits(bs)
  }

  function Min(a: int, b: int): int {
    if a < b then a else b
  }

  /** Chunk k of a bit vector: bits [32k, min(32k + 32, n)). */
  function Chunk(bs: BitVec, k: nat): (r: BitVec)
    requires k < CeilDiv32(|bs|)
    ensures 1 <= |r| <= 32
  {
    bs[32 * k .. Min(32 * k + 32, |bs|)]
  }

  /** A bit vector as words: word k holds chunk k in its low bits, the rest zero. */
  function Pack(bs: BitVec): (r: seq<Word>)
    ensures |r| == CeilDiv32(|bs|)
  {
    seq(CeilDiv32(|bs|), k requires 0 <= k < CeilDiv32(|bs|) => PackWord(Chunk(bs, k)))
  }

  /** n bits read from words: the words laid out, truncated to n. */
  function Unpack(ws: seq<Word>, n: nat): (r: BitVec)
    requires n <= 32 * |ws|
    ensures |r| == n
  {
    WordsToBits(ws)[..n]
  }

  // ---------------------------------------------------------------------------
  // Number-level facts
  // ---------------------------------------------------------------------------

  lemma {:induction false} LowBitsIndex(w: nat, k: nat, j: nat)
    requires j < k
    ensures LowBits(w, k)[j] == Bit(w, j)
    decreases k
  {
    if j > 0 {
      LowBitsIndex(w / 2, k - 1, j - 1);
    }
  }

  /** Reading back the low bits of packed bits gives them unchanged. */
  lemma {:induction false} LowBitsOfPack(bs: seq<bool>)
    ensures LowBits(PackBits(bs), |bs|) == bs
    decreases |bs|
  {
    if bs != [] {
      var p := PackBits(bs);
      assert p / 2 == PackBits(bs[1..]);
      assert (p % 2 == 1) == bs[0];
      LowBitsOfPack(bs[1..]);
    }
  }

  /** Packing the low m bits of a number keeps it modulo 2^m. */
  lemma {:induction false} PackOfLowBits(w: nat, m: nat)
    ensures PackBits(LowBits(w, m)) == w % Pow2(m)
    decreases m
  {
    if m > 0 {
      PackOfLowBits(w / 2, m - 1);
      assert LowBits(w, m)[1..] == LowBits(w / 2, m - 1);
      ModPow2Step(w, m);
    }
  }

  lemma {:induction false} ModPow2Step(w: nat, m: nat)
    requires m >= 1
    ensures w % 2 + 2 * ((w / 2) % Pow2(m - 1)) == w % Pow2(m)
  {
    var p := Pow2(m - 1);
    var q := w / 2;
    var r := w % 2;
    var a := q / p;
    var b := q % p;
    assert w == 2 * q + r;
    assert q == p * a + b;
    assert w == (2 * p) * a + (2 * b + r);
    assert 0 <= 2 * b + r < 2 * p;
    DivModUnique(w, 2 * p, a, 2 * b + r);
  }

  lemma {:induction false} DivModUnique(w: nat, d: nat, a: nat, r: nat)
    requires d > 0 && r < d && w == d * a + r
    ensures w % d == r
  {
    var q := w / d;
    var r' := w % d;
    assert d * q + r' == d * a + r;
    if q > a {
      MulAtLeast(d, q - a);
    } else if q < a {
      MulAtLeast(d, a - q);
    }
  }

  lemma {:induction false} MulAtLeast(d: nat, x: nat)
    requires x >= 1
    ensures d * x >= d
  {
    assert d * x == d + d * (x - 1);
  }

  // ---------------------------------------------------------------------------
  // Words and bit vectors
  // ---------------------------------------------------------------------------

  /** Bit i of the laid-out words is bit i mod 32 of word i / 32. */
  lemma {:induction false} WordsToBitsIndex(ws: seq<Word>, i: nat)
    requires i < 32 * |ws|
    ensures WordsToBits(ws)[i] == Bit(ws[i / 32], i % 32)
    decreases |ws|
  {
    if i >= 32 {
      WordsToBitsIndex(ws[1..], i - 32);
    } else {
      LowBitsIndex(ws[0], 32, i);
    }
  }

  /** Bit j of packed bits is bit j of the input. */
  lemma {:induction false} BitOfPackBits(bs: seq<bool>, j: nat)
    requires j < |bs|
    ensures Bit(PackBits(bs), j) == bs[j]
  {
    LowBitsOfPack(bs);
    LowBitsIndex(PackBits(bs), |bs|, j);
  }

  /** Bits read back from packed words are the bits that were packed. */
  lemma {:induction false} UnpackPack(bs: BitVec)
    ensures 32 * |Pack(bs)| >= |bs|
    ensures Unpack(Pack(bs), |bs|) == bs
  {
    forall i | 0 <= i < |bs|
      ensures Unpack(Pack(bs), |bs|)[i] == bs[i]
    {
      UnpackPackAt(bs, i);
    }
  }

  lemma {:induction false} UnpackPackAt(bs: BitVec, i: nat)
    requires i < |bs|
    ensures Unpack(Pack(bs), |bs|)[i] == bs[i]
  {
    var ws := Pack(bs);
    var k, j := i / 32, i % 32;
    WordsToBitsIndex(ws, i);
    var c := Chunk(bs, k);
    assert ws[k] == PackWord(c);
    BitOfPackBits(c, j);
    assert c[j] == bs[i];
  }

  /**
   * n bits read from words and packed again give the words, each masked to
   * the bits it holds: word k keeps its low min(32, n - 32k) bits.
   */
  lemma {:induction false} PackUnpack(ws: seq<Word>, n: nat)
    requires |ws| == CeilDiv32(n)
    ensures |Pack(Unpack(ws, n))| == |ws|
    ensures forall k :: 0 <= k < |ws| ==> Pack(Unpack(ws, n))[k] == ws[k] % Pow2(Min(32, n - 32 * k))
  {
    forall k | 0 <= k < |ws|
      ensures Pack(Unpack(ws, n))[k] == ws[k] % Pow2(Min(32, n - 32 * k))
    {
      var m := Min(32, n - 32 * k);
      ChunkOfUnpack(ws, n, k);
      PackOfLowBits(ws[k], m);
    }
  }

  /** Chunk k of bits read from words is the low bits of word k. */
  lemma {:induction false} ChunkOfUnpack(ws: seq<Word>, n: nat, k: nat)
    requires |ws| == CeilDiv32(n) && k < |ws|
    ensures Chunk(Unpack(ws, n), k) == LowBits(ws[k], Min(32, n - 32 * k))
  {
    var c := Chunk(Unpack(ws, n), k);
    var m := Min(32, n - 32 * k);
    forall j | 0 <= j < m
      ensures c[j] == LowBits(ws[k], m)[j]
    {
      WordsToBitsIndex(ws, 32 * k + j);
      assert (32 * k + j) / 32 == k && (32 * k + j) % 32 == j;
      LowBitsIndex(ws[k], m, j);
    }
  }
}
