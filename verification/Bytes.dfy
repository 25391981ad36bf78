/** Disk blocks of BSIZE bytes and the little-endian 32-bit words stored in them
    (the log header and indirect blocks are arrays of such words). */
module Bytes {
  const BSIZE: nat := 512
  const WORDS: nat := 128          // BSIZE / sizeof(uint)
  const U32: nat := 0x1_0000_0000

  type byte = x: int | 0 <= x < 256
  type Block = b: seq<byte> | |b| == BSIZE witness seq(BSIZE, _ => 0)

  /** memset(bp->data, 0, BSIZE) */
  function ZeroBlock(): (b: Block)
    ensures forall i :: 0 <= i < WORDS ==> Word(b, i) == 0
  {
    seq(BSIZE, _ => 0)
  }

  /** ((uint*)b)[i] */
  function Word(b: Block, i: nat): (w: nat)
    requires i < WORDS
    ensures w < U32
  {
    var b0: int, b1: int, b2: int, b3: int := b[4 * i], b[4 * i + 1], b[4 * i + 2], b[4 * i + 3];
    b0 + 0x100 * b1 + 0x1_0000 * b2 + 0x100_0000 * b3
  }

  /** ((uint*)b)[i] = w: reading word i gives w back and no other word changes. */
  function PutWord(b: Block, i: nat, w: nat): (r: Block)
    requires i < WORDS && w < U32
    ensures Word(r, i) == w
    ensures forall j :: 0 <= j < WORDS && j != i ==> Word(r, j) == Word(b, j)
  {
    Digits(w);
    b[4 * i := w % 0x100][4 * i + 1 := w / 0x100 % 0x100]
     [4 * i + 2 := w / 0x1_0000 % 0x100][4 * i + 3 := w / 0x100_0000]
  }

  /** A word is its four bytes. */
  lemma Digits(w: nat)
    requires w < U32
    ensures w / 0x100_0000 < 0x100
    ensures w % 0x100 + 0x100 * (w / 0x100 % 0x100) + 0x1_0000 * (w / 0x1_0000 % 0x100)
            + 0x100_0000 * (w / 0x100_0000) == w
  {
    assert w / 0x100 / 0x100 == w / 0x1_0000;
    assert w / 0x1_0000 / 0x100 == w / 0x100_0000;
  }

  /** Words at .. at + n - 1. */
  function Words(b: Block, at: nat, n: nat): (ws: seq<nat>)
    requires at + n <= WORDS
    ensures |ws| == n && forall i :: 0 <= i < n ==> ws[i] == Word(b, at + i)
  {
    seq<nat>(n, i requires 0 <= i < n => Word(b, at + i))
  }

  /** Stores ws in words at .. at + |ws| - 1, in order. */
  function PutWords(b: Block, at: nat, ws: seq<nat>): (r: Block)
    requires at + |ws| <= WORDS && forall i :: 0 <= i < |ws| ==> ws[i] < U32
    ensures Words(r, at, |ws|) == ws
    ensures forall j :: 0 <= j < WORDS && !(at <= j < at + |ws|) ==> Word(r, j) == Word(b, j)
    decreases |ws|
  {
    if ws == [] then b
    else PutWord(PutWords(b, at, ws[..|ws| - 1]), at + |ws| - 1, ws[|ws| - 1])
  }

  // ---- Bits of a byte -------------------------------------------------------------------

  function Pow2(n: nat): nat {
    if n == 0 then 1 else 2 * Pow2(n - 1)
  }

  /** (x & (1 << k)) != 0 */
  predicate Bit(x: nat, k: nat) {
    if k == 0 then x % 2 == 1 else Bit(x / 2, k - 1)
  }

  /** With `on`, x | (1 << k), otherwise x & ~(1 << k), in n bits: bit k changes and no other does. */
  function PutBit(x: nat, k: nat, on: bool, n: nat): (y: nat)
    requires k < n && x < Pow2(n)
    ensures y < Pow2(n)
    ensures forall j: nat :: Bit(y, j) == if j == k then on else Bit(x, j)
  {
    Halves(x / 2, if on then 1 else 0);
    if k == 0 then 2 * (x / 2) + if on then 1 else 0
    else Halves(PutBit(x / 2, k - 1, on, n - 1), x % 2); 2 * PutBit(x / 2, k - 1, on, n - 1) + x % 2
  }

  lemma Halves(a: nat, c: nat)
    requires c < 2
    ensures (2 * a + c) / 2 == a && (2 * a + c) % 2 == c
  {
  }

  lemma ByteRange()
    ensures Pow2(8) == 256
  {
  }
}
