/** Disk blocks as bytes, as little-endian words, and as bitmaps.

    The bitmap is kept in bytes and changed with shifted masks; the rest of the model reads it as the set
    of marked blocks. */
module Blocks {
  const BSIZE: nat := 512          // bytes in a block
  const NINDIRECT: nat := 128      // words in a block
  const BPB: nat := 4096           // bits in a block

  type byte = b: int | 0 <= b < 256
  type Block = s: seq<byte> | |s| == BSIZE witness seq(BSIZE, i => 0)

  function ZeroBlock(): (r: Block)
    ensures forall i :: 0 <= i < BSIZE ==> r[i] == 0
  {
    seq(BSIZE, i => 0)
  }

  // ------------------------------------------------------------------ words

  function Word(b: Block, j: nat): (r: nat)
    requires j < NINDIRECT
    ensures r < 0x1_0000_0000
  {
    (b[4 * j] as int) + 256 * (b[4 * j + 1] as int) + 65536 * (b[4 * j + 2] as int) + 16777216 * (b[4 * j + 3] as int)
  }

  function PutWord(b: Block, j: nat, w: nat): (r: Block)
    requires j < NINDIRECT && w < 0x1_0000_0000
  {
    b[4 * j := w % 256][4 * j + 1 := w / 256 % 256][4 * j + 2 := w / 65536 % 256][4 * j + 3 := w / 16777216]
  }

  lemma WordBytes(w: nat)
    requires w < 0x1_0000_0000
    ensures w / 16777216 < 256
    ensures w == w % 256 + 256 * (w / 256 % 256) + 65536 * (w / 65536 % 256) + 16777216 * (w / 16777216)
  {
  }

  /** A word that is written is read back, and no other word changes. */
  lemma PutWordMeaning(b: Block, j: nat, w: nat, k: nat)
    requires j < NINDIRECT && w < 0x1_0000_0000 && k < NINDIRECT
    ensures Word(PutWord(b, j, w), k) == if k == j then w else Word(b, k)
  {
    WordBytes(w);
  }

  // ------------------------------------------------------------------ bits

  type BitBlock = s: seq<bv8> | |s| == BSIZE witness seq(BSIZE, i => 0)

  function Mask(k: nat): (m: bv8)
    requires k < 8
  {
    match k
    case 0 => 1
    case 1 => 2
    case 2 => 4
    case 3 => 8
    case 4 => 16
    case 5 => 32
    case 6 => 64
    case _ => 128
  }

  predicate HasBit(x: bv8, k: nat)
    requires k < 8
  {
    x & Mask(k) != 0
  }

  /** Bit k of a byte is 1 << k. */
  lemma BitValue(x: bv8, k: nat)
    requires k < 8
    ensures Mask(k) == 1 << k && (HasBit(x, k) <==> (x >> k) % 2 == 1)
  {
  }

  function PlusBit(x: bv8, k: nat): (r: bv8)
    requires k < 8
    ensures forall j :: 0 <= j < 8 ==> (HasBit(r, j) <==> j == k || HasBit(x, j))
  {
    x | Mask(k)
  }

  function MinusBit(x: bv8, k: nat): (r: bv8)
    requires k < 8
    ensures forall j :: 0 <= j < 8 ==> (HasBit(r, j) <==> j != k && HasBit(x, j))
  {
    x & !Mask(k)
  }

  predicate GetBit(b: BitBlock, i: nat)
    requires i < BPB
  {
    HasBit(b[i / 8], i % 8)
  }

  function SetBit(b: BitBlock, i: nat): (r: BitBlock)
    requires i < BPB
  {
    b[i / 8 := PlusBit(b[i / 8], i % 8)]
  }

  function ClearBit(b: BitBlock, i: nat): (r: BitBlock)
    requires i < BPB
  {
    b[i / 8 := MinusBit(b[i / 8], i % 8)]
  }

  lemma BitMeaning(b: BitBlock, i: nat, k: nat)
    requires i < BPB && k < BPB
    ensures GetBit(SetBit(b, i), k) <==> k == i || GetBit(b, k)
    ensures GetBit(ClearBit(b, i), k) <==> k != i && GetBit(b, k)
  {
    hide HasBit; hide PlusBit; hide MinusBit;
    assert i == k <==> i / 8 == k / 8 && i % 8 == k % 8;
  }

  /** Bit i of a block: byte i / 8, and there the bit worth 2 to the i % 8. */
  lemma BitPlace(b: BitBlock, i: nat)
    requires i < BPB
    ensures GetBit(b, i) <==> (b[i / 8] >> (i % 8)) % 2 == 1
  {
    BitValue(b[i / 8], i % 8);
  }

  /** The free map: block b of the disk is bit b % BPB of bitmap block b / BPB. */
  type Bitmap = seq<BitBlock>

  predicate Bit(m: Bitmap, b: nat)
    requires b < |m| * BPB
  {
    b / BPB < |m| && GetBit(m[b / BPB], b % BPB)
  }

  function Marked(m: Bitmap, b: nat): (r: Bitmap)
    requires b < |m| * BPB && b / BPB < |m|
  {
    m[b / BPB := SetBit(m[b / BPB], b % BPB)]
  }

  function Unmarked(m: Bitmap, b: nat): (r: Bitmap)
    requires b < |m| * BPB && b / BPB < |m|
  {
    m[b / BPB := ClearBit(m[b / BPB], b % BPB)]
  }

  lemma BitmapMeaning(m: Bitmap, b: nat, k: nat)
    requires b < |m| * BPB && b / BPB < |m| && k < |m| * BPB
    ensures Bit(Marked(m, b), k) <==> k == b || Bit(m, k)
    ensures Bit(Unmarked(m, b), k) <==> k != b && Bit(m, k)
  {
    hide GetBit; hide SetBit; hide ClearBit;
    assert b == k <==> b / BPB == k / BPB && b % BPB == k % BPB;
    assert k / BPB < |m|;
    BitMeaning(m[b / BPB], b % BPB, k % BPB);
  }
}
