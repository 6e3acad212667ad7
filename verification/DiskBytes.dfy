/** Where the fields of the on-disk records lie in their blocks, byte by byte. */
module DiskBytes {
  import opened Bytes
  import opened Bitmaps
  import opened Codec
  import opened Volumes

  /** Word i of a block is at byte 4 * i. */
  lemma PtrBytes(b: Block, i: nat)
    requires i < N_PTRS
    ensures Little(b, 4 * i, 4, Ptrs(b)[i])
  {
    WordIsLittle(b, 4 * i);
  }

  /** The six fields of the superblock are at bytes 0, 4, 8, 12, 16 and 20. */
  lemma SuperBytes(b: Block)
    ensures var sb := SuperOf(b);
      && Little(b, 0, 4, sb.magic) && Little(b, 4, 4, sb.inodeMapSz) && Little(b, 8, 4, sb.inodeRegionSz)
      && Little(b, 12, 4, sb.blockMapSz) && Little(b, 16, 4, sb.numBlocks) && Little(b, 20, 4, sb.rootInode)
  {
    hide Little, Word;
    PtrBytes(b, 0);
    PtrBytes(b, 1);
    PtrBytes(b, 2);
    PtrBytes(b, 3);
    PtrBytes(b, 4);
    PtrBytes(b, 5);
  }

  lemma FirstDigits(d: nat, rest: nat)
    ensures var x := d + 256 * rest;
      x % 2 == d % 2 && x / 2 % 2 == d / 2 % 2 && x / 4 == d / 4 + 64 * rest
  {
    assert (d + 256 * rest) / 2 == d / 2 + 128 * rest;
  }

  /** Entry i of a directory has its flags in the low two bits of byte 32 * i, its inode number in the other 30 bits of
      the first four bytes, and its name in the next 28 bytes. */
  lemma EntryBytes(b: Block, i: nat)
    requires i < N_DIRENTS
    ensures var e := Entries(b)[i];
      && (e.valid <==> FromByte(b[32 * i]) % 2 == 1) && (e.isDir <==> FromByte(b[32 * i]) / 2 % 2 == 1)
      && e.inode == FromByte(b[32 * i]) / 4 + 0x40 * FromByte(b[32 * i + 1]) + 0x4000 * FromByte(b[32 * i + 2])
                    + 0x40_0000 * FromByte(b[32 * i + 3])
      && e.name == b[32 * i + 4..32 * i + 32]
  {
    hide FromByte;
    FirstDigits(FromByte(b[32 * i]),
                FromByte(b[32 * i + 1]) + 256 * FromByte(b[32 * i + 2]) + 0x1_0000 * FromByte(b[32 * i + 3]));
  }

  /** Inode i of a block of the inode region is at byte 64 * i, its user and group id in two bytes each, and the other
      fields in four. A negative size is stored as its two's complement. */
  lemma InodeBytes(b: Block, i: nat)
    requires i < INODES_PER_BLK
    ensures var n, at := InodesIn(b)[i], 64 * i;
      && Little(b, at, 2, n.uid) && Little(b, at + 2, 2, n.gid) && Little(b, at + 4, 4, n.mode)
      && Little(b, at + 8, 4, n.ctime) && Little(b, at + 12, 4, n.mtime)
      && Little(b, at + 16, 4, if n.size >= 0 then n.size else n.size + 0x1_0000_0000)
      && (forall k :: 0 <= k < N_DIRECT ==> Little(b, at + 20 + 4 * k, 4, n.direct[k]))
      && Little(b, at + 44, 4, n.indir1) && Little(b, at + 48, 4, n.indir2)
  {
    hide Little, Word;
    var p, at := Ptrs(b), 64 * i;
    var w := p[16 * i..16 * i + 16];
    assert InodesIn(b)[i] == InodeOf(w);
    forall k: nat | k < 16 ensures w[k] == Word(b, at + 4 * k) && Little(b, at + 4 * k, 4, w[k]) {
      PtrBytes(b, 16 * i + k);
    }
    WordIsLittle(b, at);
    forall k | 0 <= k < N_DIRECT ensures Little(b, at + 20 + 4 * k, 4, InodeOf(w).direct[k]) {
      assert InodeOf(w).direct[k] == w[5 + k] && Little(b, at + 4 * (5 + k), 4, w[5 + k]);
    }
    assert Little(b, at + 4 * 1, 4, w[1]) && Little(b, at + 4 * 2, 4, w[2]) && Little(b, at + 4 * 3, 4, w[3]);
    assert Little(b, at + 4 * 4, 4, w[4]) && Little(b, at + 4 * 11, 4, w[11]) && Little(b, at + 4 * 12, 4, w[12]);
  }

  /** Bit i of a bitmap is binary digit i % 8 of byte i / 8. */
  lemma BitIsDigit(m: seq<byte>, i: nat)
    requires i < 8 * |m|
    ensures Bit(m, i) <==> Bin(FromByte(m[i / 8]), i % 8)
  {
    hide FromByte, Bin;
    MaskTable(i);
    BinOfByte(m[i / 8], i % 8);
  }

  /** Bit i of a bitmap whose region starts at block base is in block base + i / 8192. */
  lemma BitOnDisk(disk: seq<Block>, base: nat, m: seq<byte>, n: nat, i: nat)
    requires HoldsBytes(disk, base, m) && |m| == n * BLOCK_SIZE && i < 8 * |m| && base + n <= |disk|
    ensures base + i / 8192 < |disk|
    ensures Bit(m, i) <==> Bin(FromByte(disk[base + i / 8192][i % 8192 / 8]), i % 8)
  {
    hide FromByte, Bin, Bit;
    var k, r := i / 8192, i % 8192 / 8;
    assert i / 8 == BLOCK_SIZE * k + r && r < BLOCK_SIZE && k < n;
    assert disk[base + k] == m[BLOCK_SIZE * k..BLOCK_SIZE * (k + 1)];
    BitIsDigit(m, i);
  }

  /** Inode i of a table whose region starts at block base is in block base + i / 16. */
  lemma InodeOnDisk(disk: seq<Block>, base: nat, m: seq<Inode>, n: nat, i: nat)
    requires HoldsInodes(disk, base, m) && |m| == 16 * n && i < |m| && base + n <= |disk|
    ensures base + i / 16 < |disk| && InodesIn(disk[base + i / 16])[i % 16] == m[i]
  {
    hide InodesIn;
    var k := i / 16;
    assert InodesIn(disk[base + k]) == m[16 * k..16 * (k + 1)];
  }
}
