// Bytes, 32-bit words and bits inside a 512-byte disk block (Ass2/fs.h).

module Codec {
  const BSIZE := 512
  const WORDS := 128          // BSIZE / sizeof(uint)
  const WORD_LIMIT := 0x1_0000_0000

  type Byte = x: int | 0 <= x < 256
  type Block = b: seq<Byte> | |b| == BSIZE witness seq(BSIZE, i => 0)

  function ZeroBlock(): Block { seq(BSIZE, i => 0) }

  /** The i-th little-endian word of a block. */
  function WordAt(b: Block, i: nat): (w: int)
    requires i < WORDS
    ensures 0 <= w < WORD_LIMIT
  {
    (b[4 * i] as int) + 0x100 * (b[4 * i + 1] as int) + 0x1_0000 * (b[4 * i + 2] as int) +
      0x100_0000 * (b[4 * i + 3] as int)
  }

  /** The four bytes of a word. */
  lemma WordBytes(w: int)
    requires 0 <= w < WORD_LIMIT
    ensures 0 <= w / 0x100_0000 < 256
    ensures w == w % 0x100 + 0x100 * (w / 0x100 % 0x100) + 0x1_0000 * (w / 0x1_0000 % 0x100) +
      0x100_0000 * (w / 0x100_0000)
  {
    var h := w / 0x100;
    assert w / 0x1_0000 == h / 0x100 && w / 0x100_0000 == h / 0x100 / 0x100;
  }

  function SetWord(b: Block, i: nat, w: int): (b': Block)
    requires i < WORDS && 0 <= w < WORD_LIMIT
    ensures WordAt(b', i) == w
    ensures forall j: nat :: j < WORDS && j != i ==> WordAt(b', j) == WordAt(b, j)
    ensures forall j :: 0 <= j < BSIZE && !(4 * i <= j < 4 * i + 4) ==> b'[j] == b[j]
  {
    WordBytes(w);
    b[4 * i := w % 0x100][4 * i + 1 := w / 0x100 % 0x100][4 * i + 2 := w / 0x1_0000 % 0x100][4 * i +
      3 := w / 0x100_0000]
  }

  predicate Fits32(ws: seq<int>) {
    forall j :: 0 <= j < |ws| ==> 0 <= ws[j] < WORD_LIMIT
  }

  /** Words k, k + 1, ... of a block replaced by ws. */
  function PutWords(b: Block, k: nat, ws: seq<int>): (b': Block)
    requires k + |ws| <= WORDS && Fits32(ws)
    ensures forall j: nat :: j < WORDS ==> WordAt(b', j) == if k <= j < k + |ws| then ws[j - k] else WordAt(b, j)
    decreases |ws|
  {
    if ws == [] then b else SetWord(PutWords(b, k, ws[..|ws| - 1]), k + |ws| - 1, ws[|ws| - 1])
  }

  lemma ZeroWords(i: nat)
    requires i < WORDS
    ensures WordAt(ZeroBlock(), i) == 0
  {
  }

  // ---------- bits of the free map ----------

  /** (x & (1 << k)) != 0 */
  predicate Bit(x: nat, k: nat) {
    if k == 0 then x % 2 == 1 else Bit(x / 2, k - 1)
  }

  /** x | (1 << k), or x & ~(1 << k), bit by bit. */
  function PutBit(x: nat, k: nat, v: bool): nat {
    if k == 0 then x - x % 2 + (if v then 1 else 0)
    else 2 * PutBit(x / 2, k - 1, v) + x % 2
  }

  lemma Halves(q: nat, b: nat)
    requires b < 2
    ensures (2 * q + b) / 2 == q && (2 * q + b) % 2 == b
  {
  }

  lemma {:induction false} PutBitBits(x: nat, k: nat, v: bool, j: nat)
    ensures Bit(PutBit(x, k, v), j) == if j == k then v else Bit(x, j)
  {
    if k > 0 && j > 0 {
      PutBitBits(x / 2, k - 1, v, j - 1);
      Halves(PutBit(x / 2, k - 1, v), x % 2);
    } else if k > 0 {
      Halves(PutBit(x / 2, k - 1, v), x % 2);
    } else {
      Halves(x / 2, if v then 1 else 0);
    }
  }

  /** A byte stays a byte. */
  lemma {:induction false} PutBitRange(x: nat, k: nat, v: bool, n: nat)
    requires k < n && x < Power(n)
    ensures PutBit(x, k, v) < Power(n)
  {
    assert Power(n) == 2 * Power(n - 1);
    if k > 0 {
      PutBitRange(x / 2, k - 1, v, n - 1);
      assert PutBit(x, k, v) == 2 * PutBit(x / 2, k - 1, v) + x % 2;
    } else {
      assert x / 2 < Power(n - 1);
      assert PutBit(x, k, v) <= 2 * (x / 2) + 1;
    }
  }

  function Power(n: nat): nat {
    if n == 0 then 1 else 2 * Power(n - 1)
  }

  /** The free-map byte with bit k written. */
  function WithBit(x: Byte, k: nat, v: bool): (y: Byte)
    requires k < 8
    ensures forall j: nat :: Bit(y, j) == if j == k then v else Bit(x, j)
  {
    PutBitRange(x, k, v, 8);
    assert Power(8) == 256;
    assert forall j: nat :: Bit(PutBit(x, k, v), j) == if j == k then v else Bit(x, j) by {
      forall j: nat ensures Bit(PutBit(x, k, v), j) == if j == k then v else Bit(x, j) {
        PutBitBits(x, k, v, j);
      }
    }
    PutBit(x, k, v)
  }
}
