/** The state of a mounted file system (the globals of homework.c), block input and output,
    and the two first-fit allocators. */
module Volumes {
  import opened Bytes
  import opened Bitmaps
  import opened Codec
  import opened FileTrees

  const ENOENT: int := 2
  const EEXIST: int := 17
  const ENOTDIR: int := 20
  const EISDIR: int := 21
  const EINVAL: int := 22
  const ENOSPC: int := 28
  const ENOTEMPTY: int := 39

  /** Where a block map, an owner map and the contents of the disk agree: the marked blocks are
      the metadata region and the owned blocks, and every unmarked block is all zero. */
  ghost predicate BlocksOk(first: nat, disk: seq<Block>, used: set<nat>, owner: Owner) {
    && 0 < first <= |disk|
    && (forall p :: p in owner ==> first <= p < |disk|)
    && (forall p: nat :: p in used <==> p < first || p in owner)
    && (forall p: nat :: p < |disk| && p !in used ==> disk[p] == ZeroBlock())
  }

  /** The metadata regions of the disk hold the two bitmaps and the inode table. */
  ghost predicate Holds(sb: Super, disk: seq<Block>, inodeMap: seq<byte>, blockMap: seq<byte>, inodes: seq<Inode>) {
    && |inodeMap| == sb.inodeMapSz * BLOCK_SIZE && |blockMap| == sb.blockMapSz * BLOCK_SIZE
    && |inodes| == sb.Inodes() && sb.First() <= |disk|
    && HoldsBytes(disk, 1, inodeMap) && HoldsBytes(disk, 1 + sb.inodeMapSz, blockMap)
    && HoldsInodes(disk, 1 + sb.inodeMapSz + sb.blockMapSz, inodes)
  }

  /** The blocks from `base` on hold the bytes m. */
  ghost predicate HoldsBytes(disk: seq<Block>, base: nat, m: seq<byte>) {
    forall k: nat :: BLOCK_SIZE * (k + 1) <= |m| && base + k < |disk| ==>
      disk[base + k] == m[BLOCK_SIZE * k..BLOCK_SIZE * (k + 1)]
  }

  ghost predicate HoldsInodes(disk: seq<Block>, base: nat, m: seq<Inode>) {
    forall k: nat :: 16 * (k + 1) <= |m| && base + k < |disk| ==> InodesIn(disk[base + k]) == m[16 * k..16 * (k + 1)]
  }

  /** The entry of a directory that names an inode. */
  datatype Place = Place(dir: nat, slot: nat)

  /** What the proofs know about every allocated inode: its pointer tree, the number of its data blocks,
      the directory entry that names it, and its distance from the root. */
  datatype Shadow = Shadow(trees: map<nat, Tree>, extent: map<nat, nat>, place: map<nat, Place>, depth: map<nat, nat>)

  class Volume {
    const sb: Super
    const disk: array<Block>
    const inodeMap: array<byte>
    const blockMap: array<byte>
    const inodes: array<Inode>

    /** The marked blocks and inodes, as sets. */
    ghost var used: set<nat>
    ghost var live: set<nat>
    /** For every marked data block, the place it hangs from. */
    ghost var owner: Owner
    ghost var shadow: Shadow

    /** fs_init: the superblock, the bitmaps and the inode table are read from the disk. */
    constructor (blocks: array<Block>, ghost used0: set<nat>, ghost live0: set<nat>, ghost owner0: Owner,
                 ghost shadow0: Shadow)
      requires 0 < blocks.Length && SuperOf(blocks[0]).First() <= blocks.Length
      ensures disk == blocks && sb == SuperOf(blocks[0])
      ensures used == used0 && live == live0 && owner == owner0 && shadow == shadow0
      ensures Separate() && Synced() && fresh(inodeMap) && fresh(blockMap) && fresh(inodes)
    {
      hide Holds, SuperOf;
      var s := SuperOf(blocks[0]);
      sb, disk := s, blocks;
      inodeMap := new byte[s.inodeMapSz * BLOCK_SIZE];
      blockMap := new byte[s.blockMapSz * BLOCK_SIZE];
      inodes := new Inode[s.Inodes()];
      used, live, owner, shadow := used0, live0, owner0, shadow0;
      new;
      MetaRead(disk, sb, inodeMap, blockMap, inodes);
    }

    /** The arrays of the volume; a caller's buffer is none of them. */
    ghost function Arrays(): set<object> {
      {disk, inodeMap, blockMap, inodes}
    }

    /** The arrays are four different ones. */
    ghost predicate Separate() {
      && disk as object != inodeMap && disk as object != blockMap && disk as object != inodes
      && inodeMap != blockMap && inodeMap as object != inodes && blockMap as object != inodes
    }

    ghost predicate MapsOk()
      reads this`used, this`live, blockMap, inodeMap
    {
      && Separate()
      && disk.Length == sb.numBlocks && disk.Length * BLOCK_SIZE < 0x8000_0000
      && blockMap.Length == sb.blockMapSz * BLOCK_SIZE
      && inodeMap.Length == sb.inodeMapSz * BLOCK_SIZE
      && inodes.Length == sb.Inodes()
      && disk.Length <= 8 * blockMap.Length
      && inodes.Length <= 8 * inodeMap.Length
      && StandsFor(blockMap[..], used)
      && StandsFor(inodeMap[..], live)
    }

    /** A remount would find the state that is in memory. */
    ghost predicate Synced()
      reads inodeMap, blockMap, inodes, disk
    {
      Holds(sb, disk[..], inodeMap[..], blockMap[..], inodes[..])
    }

    ghost predicate DiskOk()
      reads this`used, this`live, this`owner, blockMap, inodeMap, disk
    {
      MapsOk() && BlocksOk(sb.First(), disk[..], used, owner)
    }
  }

  lemma DiskFacts(v: Volume)
    requires v.DiskOk()
    ensures v.Separate() && 0 < v.sb.First() <= v.disk.Length && v.disk.Length * BLOCK_SIZE < 0x8000_0000
    ensures forall p :: p in v.owner ==> v.sb.First() <= p < v.disk.Length && p in v.used
    ensures 0 !in v.owner
  {
  }

  // ---- block input and output -----------------------------------------------------------

  method BlockRead(v: Volume, data: array<byte>, lba: nat)
    requires 0 < lba < v.disk.Length && data.Length == BLOCK_SIZE && data !in v.Arrays()
    modifies data
    ensures data[..] == v.disk[lba]
  {
    var b := v.disk[lba];
    forall j | 0 <= j < BLOCK_SIZE { data[j] := b[j]; }
  }

  method BlockWrite(v: Volume, data: array<byte>, lba: nat)
    requires lba < v.disk.Length && data.Length == BLOCK_SIZE && data !in v.Arrays()
    modifies v.disk
    ensures v.disk[..] == old(v.disk[..])[lba := data[..]]
    ensures old(v.DiskOk()) && lba in v.used ==> v.DiskOk()
  {
    v.disk[lba] := data[..];
  }

  /** Reads a block into a buffer of 256 pointers. */
  method ReadPtrs(v: Volume, table: array<u32>, lba: nat)
    requires 0 < lba < v.disk.Length && table.Length == N_PTRS && table !in v.Arrays()
    modifies table
    ensures table[..] == Ptrs(v.disk[lba])
  {
    var p := Ptrs(v.disk[lba]);
    forall j | 0 <= j < N_PTRS { table[j] := p[j]; }
  }

  method WritePtrs(v: Volume, table: array<u32>, lba: nat)
    requires lba < v.disk.Length && table.Length == N_PTRS && table !in v.Arrays()
    modifies v.disk
    ensures v.disk[..] == old(v.disk[..])[lba := PtrBlock(table[..])]
    ensures Ptrs(v.disk[lba]) == table[..]
    ensures old(v.DiskOk()) && lba in v.used ==> v.DiskOk()
  {
    v.disk[lba] := PtrBlock(table[..]);
    PtrsRoundTrip(table[..]);
  }

  // ---- the metadata regions --------------------------------------------------------------

  /** The blocks of both disks agree outside lo .. hi-1. */
  ghost predicate SameOutside(disk: seq<Block>, disk': seq<Block>, lo: nat, hi: nat) {
    |disk'| == |disk| && forall p :: 0 <= p < |disk| && !(lo <= p < hi) ==> disk'[p] == disk[p]
  }

  /** The blocks below first are the same. */
  ghost predicate SameBelow(first: nat, disk: seq<Block>, disk': seq<Block>) {
    |disk'| == |disk| && forall p: nat :: p < first && p < |disk| ==> disk'[p] == disk[p]
  }

  /** block_write of a byte array over several blocks. */
  method BytesWrite(disk: array<Block>, m: array<byte>, base: nat, n: nat)
    requires m.Length == n * BLOCK_SIZE && base + n <= disk.Length && disk as object != m
    modifies disk
    ensures SameOutside(old(disk[..]), disk[..], base, base + n)
    ensures HoldsBytes(disk[..], base, m[..])
  {
    var k := 0;
    while k < n
      invariant 0 <= k <= n && m[..] == old(m[..])
      invariant SameOutside(old(disk[..]), disk[..], base, base + k)
      invariant forall j: nat :: j < k ==> disk[base + j] == m[BLOCK_SIZE * j..BLOCK_SIZE * (j + 1)]
    {
      disk[base + k] := m[BLOCK_SIZE * k..BLOCK_SIZE * (k + 1)];
      k := k + 1;
    }
  }

  /** block_write of an inode table. */
  method InodesWrite(disk: array<Block>, inodes: array<Inode>, base: nat, n: nat)
    requires inodes.Length == 16 * n && base + n <= disk.Length && disk as object != inodes
    modifies disk
    ensures SameOutside(old(disk[..]), disk[..], base, base + n)
    ensures HoldsInodes(disk[..], base, inodes[..])
  {
    hide FromByte;
    var k := 0;
    while k < n
      invariant 0 <= k <= n && inodes[..] == old(inodes[..])
      invariant SameOutside(old(disk[..]), disk[..], base, base + k)
      invariant forall j: nat :: j < k ==> InodesIn(disk[base + j]) == inodes[16 * j..16 * (j + 1)]
    {
      disk[base + k] := InodeBlock(inodes[16 * k..16 * (k + 1)]);
      InodesRoundTrip(inodes[16 * k..16 * (k + 1)]);
      k := k + 1;
    }
  }

  /** block_read into a byte array over several blocks. */
  method BytesRead(disk: array<Block>, m: array<byte>, base: nat, n: nat)
    requires m.Length == n * BLOCK_SIZE && base + n <= disk.Length && disk as object != m
    modifies m
    ensures HoldsBytes(disk[..], base, m[..])
  {
    var k := 0;
    while k < n
      invariant 0 <= k <= n && disk[..] == old(disk[..])
      invariant forall j: nat :: j < k ==> disk[base + j] == m[BLOCK_SIZE * j..BLOCK_SIZE * (j + 1)]
    {
      var b := disk[base + k];
      ghost var m0 := m[..];
      forall j | 0 <= j < BLOCK_SIZE { m[BLOCK_SIZE * k + j] := b[j]; }
      SliceWritten(m0, m[..], b, BLOCK_SIZE, k);
      k := k + 1;
    }
  }

  /** block_read of an inode table. */
  method InodesRead(disk: array<Block>, inodes: array<Inode>, base: nat, n: nat)
    requires inodes.Length == 16 * n && base + n <= disk.Length && disk as object != inodes
    modifies inodes
    ensures HoldsInodes(disk[..], base, inodes[..])
  {
    hide InodesIn;
    var k := 0;
    while k < n
      invariant 0 <= k <= n && disk[..] == old(disk[..])
      invariant forall j: nat :: j < k ==> InodesIn(disk[base + j]) == inodes[16 * j..16 * (j + 1)]
    {
      var b := InodesIn(disk[base + k]);
      ghost var m0 := inodes[..];
      forall j | 0 <= j < 16 { inodes[16 * k + j] := b[j]; }
      SliceWritten(m0, inodes[..], b, 16, k);
      k := k + 1;
    }
  }

  /** The bitmaps and the inode table are read from their regions. */
  method MetaRead(disk: array<Block>, sb: Super, inodeMap: array<byte>, blockMap: array<byte>, inodes: array<Inode>)
    requires disk as object != inodeMap && disk as object != blockMap && disk as object != inodes
    requires sb.First() <= disk.Length
    requires inodeMap != blockMap && inodeMap as object != inodes && blockMap as object != inodes
    requires inodeMap.Length == sb.inodeMapSz * BLOCK_SIZE && blockMap.Length == sb.blockMapSz * BLOCK_SIZE
    requires inodes.Length == sb.Inodes()
    modifies inodeMap, blockMap, inodes
    ensures Holds(sb, disk[..], inodeMap[..], blockMap[..], inodes[..])
  {
    hide HoldsBytes, HoldsInodes;
    ghost var d := disk[..];
    BytesRead(disk, inodeMap, 1, sb.inodeMapSz);
    BytesRead(disk, blockMap, 1 + sb.inodeMapSz, sb.blockMapSz);
    InodesRead(disk, inodes, 1 + sb.inodeMapSz + sb.blockMapSz, sb.inodeRegionSz);
    assert disk[..] == d;
  }

  /** Row k of a table of rows of n elements has been written. */
  lemma SliceWritten<T>(m0: seq<T>, m: seq<T>, b: seq<T>, n: nat, k: nat)
    requires |m| == |m0| && |b| == n && 0 <= n * k <= n * k + n == n * (k + 1) <= |m|
    requires forall i :: 0 <= i < |m| ==> m[i] == if n * k <= i < n * k + n then b[i - n * k] else m0[i]
    ensures m[n * k..n * (k + 1)] == b
    ensures forall j: nat :: j < k && 0 <= n * j <= n * (j + 1) <= n * k ==>
      m[n * j..n * (j + 1)] == m0[n * j..n * (j + 1)]
  {
  }

  /** The bitmaps and the inode table are written to their regions. */
  method MetaWrite(disk: array<Block>, sb: Super, inodeMap: array<byte>, blockMap: array<byte>, inodes: array<Inode>)
    requires disk as object != inodeMap && disk as object != blockMap && disk as object != inodes
    requires sb.First() <= disk.Length
    requires inodeMap.Length == sb.inodeMapSz * BLOCK_SIZE && blockMap.Length == sb.blockMapSz * BLOCK_SIZE
    requires inodes.Length == sb.Inodes()
    modifies disk
    ensures SameOutside(old(disk[..]), disk[..], 1, sb.First())
    ensures Holds(sb, disk[..], inodeMap[..], blockMap[..], inodes[..])
  {
    hide HoldsInodes;
    ghost var d0 := disk[..];
    BytesWrite(disk, inodeMap, 1, sb.inodeMapSz);
    ghost var d1 := disk[..];
    BytesWrite(disk, blockMap, 1 + sb.inodeMapSz, sb.blockMapSz);
    ghost var d2 := disk[..];
    InodesWrite(disk, inodes, 1 + sb.inodeMapSz + sb.blockMapSz, sb.inodeRegionSz);
  }

  /** update_disk. */
  method UpdateDisk(v: Volume)
    requires v.DiskOk()
    modifies v.disk
    ensures v.DiskOk()
    ensures SameOutside(old(v.disk[..]), v.disk[..], 1, v.sb.First())
    ensures v.Synced()
  {
    hide Holds, StandsFor, SameOutside;
    ghost var d0 := v.disk[..];
    MetaWrite(v.disk, v.sb, v.inodeMap, v.blockMap, v.inodes);
    BlocksOkMeta(v.sb.First(), d0, v.disk[..], v.used, v.owner);
  }

  lemma BlocksOkMeta(first: nat, disk: seq<Block>, disk': seq<Block>, used: set<nat>, owner: Owner)
    requires BlocksOk(first, disk, used, owner) && SameOutside(disk, disk', 1, first)
    ensures BlocksOk(first, disk', used, owner)
  {
  }

  // ---- allocation -----------------------------------------------------------------------

  /** First fit: the least unmarked inode, or failure exactly when all are marked. */
  method GetNextInode(v: Volume) returns (r: int)
    requires v.MapsOk()
    ensures r < 0 <==> forall i: nat :: i < v.inodes.Length ==> i in v.live
    ensures r < 0 ==> r == -ENOSPC
    ensures r >= 0 ==> r < v.inodes.Length && r !in v.live && forall i: nat :: i < r ==> i in v.live
  {
    var numInodes := v.sb.inodeRegionSz * BLOCK_SIZE / 64;
    var i := 0;
    while i < numInodes
      invariant 0 <= i <= numInodes == v.inodes.Length
      invariant forall j: nat :: j < i ==> j in v.live
    {
      var marked := BitTest(v.inodeMap, i, v.live);
      if !marked { return i; }
      i := i + 1;
    }
    return -ENOSPC;
  }

  /** First fit: the least unmarked block, or failure exactly when all are marked. */
  method GetNextBlock(v: Volume) returns (r: int)
    requires v.MapsOk()
    ensures r < 0 <==> forall p: nat :: p < v.disk.Length ==> p in v.used
    ensures r < 0 ==> r == -ENOSPC
    ensures r >= 0 ==> r < v.disk.Length && r !in v.used && forall p: nat :: p < r ==> p in v.used
  {
    var i := 0;
    while i < v.disk.Length
      invariant 0 <= i <= v.disk.Length
      invariant forall p: nat :: p < i ==> p in v.used
    {
      var marked := BitTest(v.blockMap, i, v.used);
      if !marked { return i; }
      i := i + 1;
    }
    return -ENOSPC;
  }

  /** Finds an unmarked block and marks it; the block is all zero and hangs from slot s from now on. */
  method TakeBlock(v: Volume, ghost s: Slot) returns (r: int)
    requires v.DiskOk()
    modifies v`used, v`owner, v.blockMap
    ensures v.DiskOk()
    ensures r < 0 ==> r == -ENOSPC && v.used == old(v.used) && v.owner == old(v.owner)
    ensures r < 0 ==> forall p: nat :: p < v.disk.Length ==> p in v.used
    ensures r >= 0 ==> v.sb.First() <= r < v.disk.Length && r !in old(v.used) && r !in old(v.owner)
    ensures r >= 0 ==> v.used == old(v.used) + {r} && v.owner == old(v.owner)[r := s]
    ensures r >= 0 ==> v.disk[r] == ZeroBlock()
  {
    r := GetNextBlock(v);
    if r >= 0 {
      BitSet(v.blockMap, r, v.used);
      v.used := v.used + {r};
      v.owner := v.owner[r := s];
    }
  }

  /** Marks block p free and clears it. */
  method ReleaseBlock(v: Volume, zero: array<byte>, p: nat)
    requires v.DiskOk() && p in v.owner
    requires zero.Length == BLOCK_SIZE && zero[..] == ZeroBlock()
    requires zero !in v.Arrays()
    modifies v`used, v`owner, v.blockMap, v.disk
    ensures v.DiskOk()
    ensures v.used == old(v.used) - {p} && v.owner == old(v.owner) - {p}
    ensures v.disk[..] == old(v.disk[..])[p := ZeroBlock()]
  {
    BitClear(v.blockMap, p, v.used);
    v.used := v.used - {p};
    v.owner := v.owner - {p};
    BlockWrite(v, zero, p);
  }
}
