/** The on-disk records: pointer blocks, directory entries, inodes and the
    superblock, each as a decoding of a block with an encoding that it inverts. */
module Codec {
  import opened Bytes

  const N_DIRECT: nat := 6
  const N_PTRS: nat := 256
  const N_DIRENTS: nat := 32
  const NAME_SIZE: nat := 28
  const INODES_PER_BLK: nat := 16
  const FS_MAGIC: u32 := 0x37363030

  // ---- equal-sized records laid out one after the other -----------------------------

  ghost predicate Sized<T>(parts: seq<seq<T>>, n: nat) {
    forall i :: 0 <= i < |parts| ==> |parts[i]| == n
  }

  function Flatten<T>(parts: seq<seq<T>>, ghost n: nat): (s: seq<T>)
    requires Sized(parts, n)
    ensures |s| == n * |parts|
  {
    if parts == [] then [] else parts[0] + Flatten(parts[1..], n)
  }

  lemma {:induction false} FlattenSlice<T>(parts: seq<seq<T>>, n: nat, i: nat)
    requires Sized(parts, n) && i < |parts|
    ensures 0 <= n * i <= n * i + n <= |Flatten(parts, n)|
    ensures Flatten(parts, n)[n * i..n * i + n] == parts[i]
  {
    if i > 0 {
      FlattenSlice(parts[1..], n, i - 1);
      assert n * i == n * (i - 1) + n;
    }
  }

  // ---- a block as 256 words (a pointer block) -----------------------------------

  type Words = p: seq<u32> | |p| == N_PTRS witness seq(N_PTRS, _ => 0)

  function Nulls(): Words { seq(N_PTRS, _ => 0) }

  function Ptrs(b: Block): (p: Words) {
    seq(N_PTRS, i requires 0 <= i < N_PTRS => Word(b, 4 * i))
  }

  function PtrParts(p: Words): (parts: seq<seq<byte>>)
    ensures |parts| == N_PTRS && Sized(parts, 4)
  {
    seq(N_PTRS, i requires 0 <= i < N_PTRS => WordBytes(p[i]))
  }

  function PtrBlock(p: Words): Block {
    Flatten(PtrParts(p), 4)
  }

  lemma PtrsRoundTrip(p: Words)
    ensures Ptrs(PtrBlock(p)) == p
  {
    forall i | 0 <= i < N_PTRS
      ensures Ptrs(PtrBlock(p))[i] == p[i]
    {
      FlattenSlice(PtrParts(p), 4, i);
      WordRoundTrip(p[i], PtrBlock(p), 4 * i);
    }
  }

  /** A zero block is a table of 256 null pointers. */
  lemma PtrsOfZero()
    ensures Ptrs(ZeroBlock()) == Nulls()
  {
    forall i | 0 <= i < N_PTRS
      ensures Ptrs(ZeroBlock())[i] == 0
    {
      assert forall j :: 0 <= j < BLOCK_SIZE ==> FromByte(ZeroBlock()[j]) == 0;
    }
  }

  // ---- directory entries ----------------------------------------------------------

  type u30 = x: int | 0 <= x < 0x4000_0000

  datatype DirentRec = Dirent(valid: bool, isDir: bool, inode: u30, name: seq<byte>)
  type Dirent = e: DirentRec | |e.name| == NAME_SIZE
    witness Dirent(false, false, 0, seq(NAME_SIZE, _ => 0))

  type Dirents = es: seq<Dirent> | |es| == N_DIRENTS
    witness seq(N_DIRENTS, _ => Dirent(false, false, 0, seq(NAME_SIZE, _ => 0)))

  function Flags(e: Dirent): u32 {
    (if e.valid then 1 else 0) + (if e.isDir then 2 else 0) + 4 * e.inode
  }

  function DirentAt(b: Block, i: nat): Dirent
    requires i < N_DIRENTS
  {
    var f := Word(b, 32 * i);
    Dirent(f % 2 == 1, f / 2 % 2 == 1, f / 4, b[32 * i + 4..32 * i + 32])
  }

  function DirentBytes(e: Dirent): (b: seq<byte>)
    ensures |b| == 32
  {
    WordBytes(Flags(e)) + e.name
  }

  function Entries(b: Block): (es: Dirents) {
    seq(N_DIRENTS, i requires 0 <= i < N_DIRENTS => DirentAt(b, i))
  }

  function DirentParts(es: Dirents): (parts: seq<seq<byte>>)
    ensures |parts| == N_DIRENTS && Sized(parts, 32)
  {
    seq(N_DIRENTS, i requires 0 <= i < N_DIRENTS => DirentBytes(es[i]))
  }

  function DirBlock(es: Dirents): Block {
    Flatten(DirentParts(es), 32)
  }

  lemma FlagsRoundTrip(e: Dirent)
    ensures var f := Flags(e); (f % 2 == 1 <==> e.valid) && (f / 2 % 2 == 1 <==> e.isDir) && f / 4 == e.inode
  {
    var low := (if e.valid then 1 else 0) + (if e.isDir then 2 else 0);
    assert Flags(e) / 2 == (if e.isDir then 1 else 0) + 2 * e.inode;
  }

  lemma SplitRecord(s: seq<byte>, at: nat, w: seq<byte>, name: seq<byte>)
    requires |w| == 4 && at + 4 + |name| <= |s| && s[at..at + 4 + |name|] == w + name
    ensures s[at..at + 4] == w && s[at + 4..at + 4 + |name|] == name
  {
    var d := s[at..at + 4 + |name|];
    assert s[at..at + 4] == d[..4];
    assert s[at + 4..at + 4 + |name|] == d[4..];
  }

  lemma DirentRoundTrip(e: Dirent, b: Block, i: nat)
    requires i < N_DIRENTS && b[32 * i..32 * i + 32] == DirentBytes(e)
    ensures DirentAt(b, i) == e
  {
    SplitRecord(b, 32 * i, WordBytes(Flags(e)), e.name);
    WordRoundTrip(Flags(e), b, 32 * i);
    FlagsRoundTrip(e);
  }

  lemma EntriesRoundTrip(es: Dirents)
    ensures Entries(DirBlock(es)) == es
  {
    forall i | 0 <= i < N_DIRENTS
      ensures Entries(DirBlock(es))[i] == es[i]
    {
      FlattenSlice(DirentParts(es), 32, i);
      DirentRoundTrip(es[i], DirBlock(es), i);
    }
  }

  /** A zero block is a directory of 32 invalid entries. */
  lemma EntriesOfZero()
    ensures forall i :: 0 <= i < N_DIRENTS ==> !Entries(ZeroBlock())[i].valid
  {
    assert forall j :: 0 <= j < BLOCK_SIZE ==> FromByte(ZeroBlock()[j]) == 0;
  }

  // ---- inodes ------------------------------------------------------------------------

  datatype InodeRec = Inode(uid: u16, gid: u16, mode: u32, ctime: u32, mtime: u32, size: i32,
                            direct: seq<u32>, indir1: u32, indir2: u32, pad: seq<u32>)
  type Inode = n: InodeRec | |n.direct| == N_DIRECT && |n.pad| == 3
    witness Inode(0, 0, 0, 0, 0, 0, [0, 0, 0, 0, 0, 0], 0, 0, [0, 0, 0])

  const ZERO_INODE: Inode := Inode(0, 0, 0, 0, 0, 0, [0, 0, 0, 0, 0, 0], 0, 0, [0, 0, 0])

  function ToI32(x: u32): i32 { if x < 0x8000_0000 then x else x - 0x1_0000_0000 }
  function FromI32(x: i32): u32 { if x >= 0 then x else x + 0x1_0000_0000 }

  /** The 16 words of an inode record. */
  function InodeWords(n: Inode): (w: seq<u32>)
    ensures |w| == INODES_PER_BLK
  {
    [n.uid + 0x1_0000 * n.gid, n.mode, n.ctime, n.mtime, FromI32(n.size)] + n.direct + [n.indir1, n.indir2] + n.pad
  }

  function InodeOf(w: seq<u32>): Inode
    requires |w| == INODES_PER_BLK
  {
    Inode(w[0] % 0x1_0000, w[0] / 0x1_0000, w[1], w[2], w[3], ToI32(w[4]), w[5..11], w[11], w[12], w[13..16])
  }

  lemma InodeRoundTrip(n: Inode)
    ensures InodeOf(InodeWords(n)) == n
  {
    var w := InodeWords(n);
    assert w[5..11] == n.direct;
    assert w[13..16] == n.pad;
  }

  type InodeRow = r: seq<Inode> | |r| == INODES_PER_BLK witness seq(INODES_PER_BLK, _ => ZERO_INODE)

  /** The 16 inodes of one block of the inode region. */
  function InodesIn(b: Block): (r: InodeRow) {
    var w := Ptrs(b);
    seq(INODES_PER_BLK, i requires 0 <= i < INODES_PER_BLK => InodeOf(w[16 * i..16 * i + 16]))
  }

  function InodeParts(r: InodeRow): (parts: seq<seq<u32>>)
    ensures |parts| == INODES_PER_BLK && Sized(parts, 16)
  {
    seq(INODES_PER_BLK, i requires 0 <= i < INODES_PER_BLK => InodeWords(r[i]))
  }

  function InodeBlock(r: InodeRow): Block {
    PtrBlock(Flatten(InodeParts(r), 16))
  }

  lemma InodesRoundTrip(r: InodeRow)
    ensures InodesIn(InodeBlock(r)) == r
  {
    hide Ptrs, PtrBlock, InodeWords, InodeOf;
    PtrsRoundTrip(Flatten(InodeParts(r), 16));
    forall i | 0 <= i < INODES_PER_BLK
      ensures InodesIn(InodeBlock(r))[i] == r[i]
    {
      FlattenSlice(InodeParts(r), 16, i);
      InodeRoundTrip(r[i]);
    }
  }

  // ---- the superblock ------------------------------------------------------------------

  datatype Super = Super(magic: u32, inodeMapSz: u32, inodeRegionSz: u32, blockMapSz: u32, numBlocks: u32,
    rootInode: u32)
  {
    /** The block number of the first data block. */
    function First(): nat { 1 + inodeMapSz + blockMapSz + inodeRegionSz }

    /** The number of inodes of the inode region. */
    function Inodes(): nat { 16 * inodeRegionSz }
  }

  function SuperOf(b: Block): Super {
    var w := Ptrs(b);
    Super(w[0], w[1], w[2], w[3], w[4], w[5])
  }

  function SuperBlock(sb: Super): Block {
    PtrBlock([sb.magic, sb.inodeMapSz, sb.inodeRegionSz, sb.blockMapSz, sb.numBlocks, sb.rootInode]
             + seq(N_PTRS - 6, _ => 0))
  }

  lemma SuperRoundTrip(sb: Super)
    ensures SuperOf(SuperBlock(sb)) == sb
  {
    PtrsRoundTrip([sb.magic, sb.inodeMapSz, sb.inodeRegionSz, sb.blockMapSz, sb.numBlocks, sb.rootInode]
                  + seq(N_PTRS - 6, _ => 0));
  }

  /** The superblock, read as a directory, has no valid entry. */
  lemma SuperAsDir(sb: Super)
    requires sb.magic == FS_MAGIC
    ensures forall i :: 0 <= i < N_DIRENTS ==> !Entries(SuperBlock(sb))[i].valid
  {
    hide WordBytes, Word, PtrBlock;
    var w: Words := [sb.magic, sb.inodeMapSz, sb.inodeRegionSz, sb.blockMapSz, sb.numBlocks, sb.rootInode]
      + seq(N_PTRS - 6, _ => 0);
    PtrsRoundTrip(w);
    forall i | 0 <= i < N_DIRENTS ensures !Entries(SuperBlock(sb))[i].valid {
      assert Ptrs(SuperBlock(sb))[8 * i] == w[8 * i];
    }
  }

  // ---- file types (the S_IFMT bits of a mode) --------------------------------------------

  const S_IFDIR: u32 := 0x4000
  const S_IFREG: u32 := 0x8000

  /** S_ISDIR: the four type bits are those of a directory. */
  predicate IsDirMode(mode: u32) {
    mode / 0x1000 % 16 == 4
  }

  /** mode | bit, for a single bit. */
  function OrBit(mode: u32, bit: u32): u32
    requires bit == S_IFDIR || bit == S_IFREG
  {
    if mode / bit % 2 == 1 then mode else mode + bit
  }

  lemma PowersOfTwo()
    ensures Pow2(14) == S_IFDIR && Pow2(15) == S_IFREG
  {
    assert Pow2(4) == 16 && Pow2(8) == 256;
    assert Pow2(12) == 0x1000;
  }

  /** The or with a type bit sets that binary digit and changes no other. */
  lemma OrBitDigits(mode: u32, k: nat)
    ensures Bin(OrBit(mode, S_IFDIR), k) <==> k == 14 || Bin(mode, k)
    ensures Bin(OrBit(mode, S_IFREG), k) <==> k == 15 || Bin(mode, k)
  {
    PowersOfTwo();
    if !Bin(mode, 14) { BinAdd(mode, 14, k); }
    if !Bin(mode, 15) { BinAdd(mode, 15, k); }
  }

  /** The type bits are the binary digits 12 to 15, and a directory has the third of them only. */
  lemma DirModeDigits(mode: u32)
    ensures IsDirMode(mode) <==> !Bin(mode, 15) && Bin(mode, 14) && !Bin(mode, 13) && !Bin(mode, 12)
  {
    PowersOfTwo();
    assert Pow2(12) == 0x1000 && Pow2(13) == 0x2000;
    var q := mode / 0x1000;
    assert mode / 0x2000 == q / 2 && mode / 0x4000 == q / 4 && mode / 0x8000 == q / 8;
    LowDigits(q);
  }

  lemma LowDigits(q: nat)
    ensures q % 16 == 4 <==> q / 8 % 2 == 0 && q / 4 % 2 == 1 && q / 2 % 2 == 0 && q % 2 == 0
  {
    var h, l := q / 16, q % 16;
    LowBits(h, l);
    assert (16 * h + l) / 2 == 8 * h + l / 2;
  }

  /** A mode made with S_IFREG never names a directory; a mode made with S_IFDIR names one
      exactly when the caller's mode brings no other type bit. */
  lemma ModeBits(mode: u32)
    ensures !IsDirMode(OrBit(mode, S_IFREG))
    ensures IsDirMode(OrBit(mode, S_IFDIR)) <==> mode / 0x1000 % 4 == 0 && mode / S_IFREG % 2 == 0
  {
    var q := mode / 0x1000;
    assert mode / S_IFDIR == q / 4;
    assert mode / S_IFREG == q / 8;
    assert (mode + S_IFDIR) / 0x1000 == q + 4;
    assert (mode + S_IFREG) / 0x1000 == q + 8;
    TypeBits(q);
  }

  /** The four type bits are the low four bits of q = 16 * h + l. */
  lemma LowBits(h: nat, l: nat)
    requires l < 16
    ensures (16 * h + l) % 16 == l && (16 * h + l) % 4 == l % 4
    ensures (16 * h + l) / 8 % 2 == l / 8 && (16 * h + l) / 4 % 2 == l / 4 % 2
  {
    assert (16 * h + l) / 8 == 2 * h + l / 8;
    assert (16 * h + l) / 4 == 4 * h + l / 4;
  }

  lemma TypeBits(q: nat)
    ensures (if q / 8 % 2 == 1 then q else q + 8) % 16 != 4
    ensures (if q / 4 % 2 == 1 then q else q + 4) % 16 == 4 <==> q % 4 == 0 && q / 8 % 2 == 0
  {
    var h, l := q / 16, q % 16;
    LowBits(h, l);
    if l < 8 { LowBits(h, l + 8); }
    if l < 12 { LowBits(h, l + 4); } else { LowBits(h + 1, l - 12); }
  }
}
