/** How kernel/fs.c packs numbers into block bytes: the free bitmap, one bit for each block, and the
    uint entries of an indirect block. */
module BlockBits {

  type byte = x: int | 0 <= x < 256

  // ---------------------------------------------------------------- the free bitmap

  /** m = 1 << (bi % 8). */
  function Mask(k: nat): bv8
    requires k < 8
  {
    match k
    case 0 => 1 case 1 => 2 case 2 => 4 case 3 => 8
    case 4 => 16 case 5 => 32 case 6 => 64 case 7 => 128
  }

  predicate TestMask(x: bv8, k: nat)
    requires k < 8
  {
    x & Mask(k) != 0
  }

  lemma MaskSet(x: bv8, i: nat, j: nat)
    requires i < 8 && j < 8
    ensures TestMask(x | Mask(i), j) <==> i == j || TestMask(x, j)
  {
    if i == j {
      assert (x | Mask(i)) & Mask(i) == Mask(i);
    } else {
      assert Mask(i) & Mask(j) == 0;
      assert (x | Mask(i)) & Mask(j) == (x & Mask(j)) | (Mask(i) & Mask(j));
    }
  }

  lemma MaskClear(x: bv8, i: nat, j: nat)
    requires i < 8 && j < 8
    ensures TestMask(x & !Mask(i), j) <==> i != j && TestMask(x, j)
  {
    if i == j {
      assert !Mask(i) & Mask(i) == 0;
      assert x & !Mask(i) & Mask(j) == x & (!Mask(i) & Mask(j));
    } else {
      assert !Mask(i) & Mask(j) == Mask(j);
      assert x & !Mask(i) & Mask(j) == x & (!Mask(i) & Mask(j));
    }
  }

  /** Is block b in use? */
  predicate Bit(bitmap: seq<bv8>, b: nat)
    requires b / 8 < |bitmap|
  {
    TestMask(bitmap[b / 8], b % 8)
  }

  function SetBit(bitmap: seq<bv8>, b: nat): (r: seq<bv8>)
    requires b / 8 < |bitmap|
    ensures |r| == |bitmap|
  {
    bitmap[b / 8 := bitmap[b / 8] | Mask(b % 8)]
  }

  function ClearBit(bitmap: seq<bv8>, b: nat): (r: seq<bv8>)
    requires b / 8 < |bitmap|
    ensures |r| == |bitmap|
  {
    bitmap[b / 8 := bitmap[b / 8] & !Mask(b % 8)]
  }

  lemma SameByte(b: nat, c: nat)
    requires b / 8 == c / 8
    ensures b == c <==> b % 8 == c % 8
  {
  }

  /** Setting a bit changes that bit and no other. */
  lemma SetBitIs(bitmap: seq<bv8>, b: nat, c: nat)
    requires b / 8 < |bitmap| && c / 8 < |bitmap|
    ensures Bit(SetBit(bitmap, b), c) <==> b == c || Bit(bitmap, c)
  {
    if b / 8 == c / 8 {
      SameByte(b, c);
      MaskSet(bitmap[b / 8], b % 8, c % 8);
    }
  }

  lemma ClearBitIs(bitmap: seq<bv8>, b: nat, c: nat)
    requires b / 8 < |bitmap| && c / 8 < |bitmap|
    ensures Bit(ClearBit(bitmap, b), c) <==> b != c && Bit(bitmap, c)
  {
    if b / 8 == c / 8 {
      SameByte(b, c);
      MaskClear(bitmap[b / 8], b % 8, c % 8);
    }
  }

  // ---------------------------------------------------------------- uint entries

  const WORD: nat := 0x1_0000_0000

  /** Entry j of a block read as an array of little-endian uints. */
  function Word(blk: seq<byte>, j: nat): (w: nat)
    requires 4 * j + 3 < |blk|
    ensures w < WORD
  {
    var b0: int, b1: int, b2: int, b3: int := blk[4 * j], blk[4 * j + 1], blk[4 * j + 2], blk[4 * j + 3];
    b0 + 0x100 * b1 + 0x1_0000 * b2 + 0x100_0000 * b3
  }

  function PutWord(blk: seq<byte>, j: nat, w: nat): (r: seq<byte>)
    requires 4 * j + 3 < |blk| && w < WORD
    ensures |r| == |blk|
  {
    blk[4 * j := w % 0x100][4 * j + 1 := w / 0x100 % 0x100][4 * j + 2 := w / 0x1_0000 % 0x100]
      [4 * j + 3 := w / 0x100_0000]
  }

  /** Storing an entry changes that entry and no other. */
  lemma PutWordIs(blk: seq<byte>, j: nat, w: nat, k: nat)
    requires 4 * j + 3 < |blk| && 4 * k + 3 < |blk| && w < WORD
    ensures Word(PutWord(blk, j, w), k) == if j == k then w else Word(blk, k)
  {
    if j == k {
      assert w == w % 0x100 + 0x100 * (w / 0x100 % 0x100) + 0x1_0000 * (w / 0x1_0000 % 0x100)
        + 0x100_0000 * (w / 0x100_0000) by {
        assert w / 0x1_0000 == w / 0x100 / 0x100;
        assert w / 0x100_0000 == w / 0x1_0000 / 0x100;
      }
    }
  }
}
