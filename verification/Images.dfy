/** fs_init and mkfs: consistent disk images, mounting them, and making a new one. */
module Images {
  import opened Bytes
  import opened Bitmaps
  import opened Codec
  import opened FileTrees
  import opened Volumes
  import opened Consistency
  import opened Writing
  import opened Mounted
  import opened Metadata
  import opened DiskBytes
  import opened Behind
  import opened Accounting
  import opened Paths
  import opened Names
  import opened NameChanges
  import opened DirSteps
  import opened DirOps

  // ---- mounting -----------------------------------------------------------------------------------------

  /** The disk holds the bitmaps im and bm and the inode table of the consistent state s. */
  ghost predicate ImageOf(disk: seq<Block>, s: State, im: seq<byte>, bm: seq<byte>) {
    && disk == s.disk && 0 < |disk| && |disk| * BLOCK_SIZE < 0x8000_0000
    && (var sb := SuperOf(disk[0]);
        |disk| == sb.numBlocks && Holds(sb, disk, im, bm, s.inodes) && Inv(sb.First(), s))
    && |disk| <= 8 * |bm| && |s.inodes| <= 8 * |im| && StandsFor(bm, s.used) && StandsFor(im, s.live)
  }

  /** Mounting the image of a consistent state gives that state. */
  method Mount(disk: array<Block>, ghost s: State, ghost im: seq<byte>, ghost bm: seq<byte>) returns (v: Volume)
    requires ImageOf(disk[..], s, im, bm)
    ensures Valid(v) && v.Synced() && StateOf(v) == s && v.disk == disk && fresh(v) && fresh(v.Arrays() - {disk})
    ensures v.inodeMap[..] == im && v.blockMap[..] == bm && v.sb == SuperOf(s.disk[0])
  {
    hide Inv, SuperOf, StandsFor;
    assert SuperOf(disk[0]).First() <= disk.Length by { RegionsFit(disk[..], s, im, bm); }
    v := new Volume(disk, s.used, s.live, s.owner, s.sh);
    assert disk[..] == s.disk;
    HoldsDetermined(v.sb, s.disk, im, bm, s.inodes, v.inodeMap[..], v.blockMap[..], v.inodes[..]);
  }

  lemma RegionsFit(disk: seq<Block>, s: State, im: seq<byte>, bm: seq<byte>)
    requires ImageOf(disk, s, im, bm)
    ensures |disk| > 0 && SuperOf(disk[0]).First() <= |disk|
  {
    hide Inv, SuperOf, StandsFor, HoldsBytes, HoldsInodes;
  }

  /** Reads the bitmaps and the inode table of an image. */
  method Load(disk: array<Block>, ghost s: State, ghost im: seq<byte>, ghost bm: seq<byte>)
    returns (inodeMap: array<byte>, blockMap: array<byte>, inodes: array<Inode>)
    requires ImageOf(disk[..], s, im, bm)
    ensures fresh(inodeMap) && fresh(blockMap) && fresh(inodes) && inodeMap[..] == im && blockMap[..] == bm
    ensures inodes[..] == s.inodes
  {
    hide Inv, Holds, StandsFor, SuperOf;
    RegionsFit(disk[..], s, im, bm);
    var sb := SuperOf(disk[0]);
    inodeMap := new byte[sb.inodeMapSz * BLOCK_SIZE];
    blockMap := new byte[sb.blockMapSz * BLOCK_SIZE];
    inodes := new Inode[sb.Inodes()];
    MetaRead(disk, sb, inodeMap, blockMap, inodes);
    assert disk[..] == s.disk;
    HoldsDetermined(sb, s.disk, im, bm, s.inodes, inodeMap[..], blockMap[..], inodes[..]);
  }

  /** A volume whose metadata is on its disk is an image of its state. */
  lemma SyncedImage(v: Volume)
    requires Valid(v) && v.Synced()
    ensures ImageOf(v.disk[..], StateOf(v), v.inodeMap[..], v.blockMap[..])
  {
    hide Inv, StandsFor, HoldsBytes, HoldsInodes, SuperOf;
    ValidParts(v);
    DiskFacts(v);
  }

  /** Remounting: fs_init on the disk of a volume finds the bitmaps and the inode table that the disk records, those of
      some state s. The result is consistent exactly if some state with these and this disk is; if s is what is in
      memory, the result is s. */
  method Remount(v: Volume, ghost s: State) returns (u: Volume)
    requires Valid(v) && Records(v.sb, v.disk[..], s)
    ensures fresh(u) && fresh(u.Arrays() - {v.disk}) && u.disk == v.disk && u.sb == v.sb && u.MapsOk() && u.Synced()
    ensures u.inodes[..] == s.inodes && u.live == s.live && u.used == s.used
    ensures Valid(u) <==> Recoverable(v.sb.First(), s, v.disk[..])
    ensures s == StateOf(v) ==> Valid(u) && StateOf(u) == s
  {
    hide Valid, Inv, Holds, SuperOf, StandsFor, Recoverable;
    ValidParts(v);
    DiskFacts(v);
    RecordsFit(v.sb, v.disk[..], s);
    ghost var t := RemountState(v, s);
    u := new Volume(v.disk, s.used, s.live, t.owner, t.sh);
    ghost var im, bm :| RecordedBy(v.sb, v.disk[..], s, im, bm);
    HoldsDetermined(v.sb, v.disk[..], im, bm, s.inodes, u.inodeMap[..], u.blockMap[..], u.inodes[..]);
    RemountMaps(v, u, s);
    RemountValid(u, s, t);
  }

  lemma RecordsFit(sb: Super, disk: seq<Block>, s: State)
    requires Records(sb, disk, s)
    ensures sb.First() <= |disk| && |s.inodes| == sb.Inodes()
  {
    hide StandsFor, HoldsBytes, HoldsInodes;
  }

  lemma RemountMaps(v: Volume, u: Volume, s: State)
    requires v.MapsOk() && u.Separate() && u.Synced() && u.disk == v.disk && u.sb == v.sb
    requires StandsFor(u.inodeMap[..], s.live) && StandsFor(u.blockMap[..], s.used)
    requires u.live == s.live && u.used == s.used
    ensures u.MapsOk()
  {
    hide StandsFor, HoldsBytes, HoldsInodes;
  }

  /** The state to assume of a remounted disk. */
  lemma RemountState(v: Volume, s: State) returns (t: State)
    requires Valid(v)
    ensures Recoverable(v.sb.First(), s, v.disk[..]) ==> SameMetadata(s, v.disk[..], t) && Inv(v.sb.First(), t)
    ensures s == StateOf(v) ==> t == s && Recoverable(v.sb.First(), s, v.disk[..])
  {
    hide Inv, SuperOf, Volume.MapsOk;
    t := s;
    if s != StateOf(v) && Recoverable(v.sb.First(), s, v.disk[..]) {
      t :| SameMetadata(s, v.disk[..], t) && Inv(v.sb.First(), t);
    }
    assert s == StateOf(v) ==> SameMetadata(s, v.disk[..], s);
  }

  lemma RemountValid(u: Volume, s: State, t: State)
    requires u.MapsOk() && 0 < u.disk.Length && SuperOf(u.disk[0]) == u.sb && SameMetadata(s, u.disk[..], StateOf(u))
    requires u.owner == t.owner && u.shadow == t.sh
    requires Recoverable(u.sb.First(), s, u.disk[..]) ==> SameMetadata(s, u.disk[..], t) && Inv(u.sb.First(), t)
    ensures Valid(u) <==> Recoverable(u.sb.First(), s, u.disk[..])
  {
    hide Inv, SuperOf, Volume.MapsOk;
    if Valid(u) { assert SameMetadata(s, u.disk[..], StateOf(u)) && Inv(u.sb.First(), StateOf(u)); }
    if Recoverable(u.sb.First(), s, u.disk[..]) { assert StateOf(u) == t; }
  }

  /** Would a remount find what is in memory? */
  method RemountAgrees(v: Volume) returns (same: bool)
    requires Valid(v)
    ensures same <==> v.Synced()
  {
    hide Valid, Inv, Holds, SuperOf, StandsFor;
    ValidParts(v);
    DiskFacts(v);
    var u := new Volume(v.disk, {}, {}, map[], v.shadow);
    same := u.inodeMap[..] == v.inodeMap[..] && u.blockMap[..] == v.blockMap[..] && u.inodes[..] == v.inodes[..];
    if v.Synced() {
      HoldsDetermined(v.sb, v.disk[..], v.inodeMap[..], v.blockMap[..], v.inodes[..], u.inodeMap[..], u.blockMap[..],
                      u.inodes[..]);
    }
  }

  // ---- mkfs ------------------------------------------------------------------------------------------------

  /** The superblock of an image of n blocks. */
  function Layout(n: nat): Super
    requires n < 0x20_0000
  {
    var inos := n / 4;
    Super(FS_MAGIC, DivRoundUp(inos, 8 * BLOCK_SIZE), DivRoundUp(inos * 64, BLOCK_SIZE), DivRoundUp(n, 8 * BLOCK_SIZE),
      n, 1)
  }

  /** There is room for the metadata and the root directory, for inode 1, and for a bit of every block and inode. */
  predicate LayoutOk(n: nat)
    requires n < 0x20_0000
  {
    var sb := Layout(n);
    sb.First() < n && 1 < sb.Inodes() <= 8 * (sb.inodeMapSz * BLOCK_SIZE) && n <= 8 * (sb.blockMapSz * BLOCK_SIZE)
  }

  /** mkfs lays out a usable file system exactly on images of five blocks or more. */
  lemma LayoutFits(n: nat)
    requires n < 0x20_0000
    ensures LayoutOk(n) <==> n >= 5
  {
    var inos := n / 4;
    if n >= 5 {
      assert DivRoundUp(inos, 8192) <= inos / 8192 + 1 && DivRoundUp(inos * 64, 1024) <= inos / 16 + 1;
      assert DivRoundUp(n, 8192) <= n / 8192 + 1;
      assert inos >= 1 && 8192 * DivRoundUp(n, 8192) >= n;
      assert 16 * DivRoundUp(inos * 64, 1024) <= inos + 15 && 8192 * DivRoundUp(inos, 8192) >= inos;
    }
  }

  const ROOT_MODE: u32 := 0x41FF

  function RootInode(p: u32, now: u32): Inode {
    Inode(1001, 125, ROOT_MODE, now, now, BLOCK_SIZE, NO_DIRECT[0 := p], 0, 0, [0, 0, 0])
  }

  /** The state of a new file system on a disk: an empty root directory. */
  ghost function NewState(sb: Super, disk: seq<Block>, now: u32): State
    requires 1 < sb.Inodes() && sb.First() < 0x1_0000_0000
  {
    var p := sb.First() as u32;
    State(disk, seq(sb.Inodes(), _ => ZERO_INODE)[1 := RootInode(p, now)], Below(p + 1), {0, 1},
      map[p as nat := Data(1, Direct, 0)],
          Shadow(map[1 := NewTree(true, p)], map[1 := 1], map[], map[1 := 0]))
  }

  lemma NewRoot(p: u32, now: u32)
    ensures NewInode(RootInode(p, now), true, p)
  {
  }

  lemma NewFiles(sb: Super, disk: seq<Block>, now: u32)
    requires 1 < sb.Inodes() && sb.First() < |disk| < 0x1_0000_0000
    ensures FilesOk(NewState(sb, disk, now)) && InodesOk(NewState(sb, disk, now))
  {
    hide FileOk, NewTree, IsDirMode;
    var s, p := NewState(sb, disk, now), sb.First() as u32;
    NewRoot(p, now);
    NewFileOk(1, s.inodes[1], true, p, disk, s.owner);
  }

  /** A new file system is consistent. */
  lemma NewStateOk(sb: Super, disk: seq<Block>, now: u32)
    requires 1 < sb.Inodes() && sb.First() < |disk| < 0x1_0000_0000
    requires forall p: nat :: sb.First() <= p < |disk| ==> disk[p] == ZeroBlock()
    ensures Inv(sb.First(), NewState(sb, disk, now)) && Clean(NewState(sb, disk, now))
    ensures NoEntries(DirOf(NewState(sb, disk, now).inodes[1], disk))
  {
    hide FilesOk, InodesOk, Entries, ZeroBlock, NoEntries, IsDirMode;
    var s, p := NewState(sb, disk, now), sb.First() as u32;
    NewFiles(sb, disk, now);
    ZeroDir(s.inodes[1], disk);
    NewNames(sb, disk, now);
    assert Tight(NewTree(true, p), 1) && DivRoundUp(BLOCK_SIZE, BLOCK_SIZE) == 1;
  }

  lemma NewNames(sb: Super, disk: seq<Block>, now: u32)
    requires 1 < sb.Inodes() && sb.First() < 0x1_0000_0000
    requires NoEntries(DirOf(NewState(sb, disk, now).inodes[1], disk))
    ensures var s := NewState(sb, disk, now); NamesOk(s.inodes, s.sh.trees.Keys, s.disk, s.sh.place, s.sh.depth)
  {
    hide Entries, NewTree;
  }

  /** The bitmaps of a new file system. */
  method NewMaps(inodeMap: array<byte>, blockMap: array<byte>, rootdirBase: nat)
    requires inodeMap != blockMap && 2 <= 8 * inodeMap.Length && rootdirBase < 8 * blockMap.Length
    requires StandsFor(inodeMap[..], {}) && StandsFor(blockMap[..], {})
    modifies inodeMap, blockMap
    ensures StandsFor(inodeMap[..], {0, 1}) && StandsFor(blockMap[..], Below(rootdirBase + 1))
  {
    hide StandsFor;
    BitSet(inodeMap, 0, {});
    BitSet(inodeMap, 1, {} + {0});
    assert {} + {0} + {1} == {0, 1};
    var i := 0;
    while i <= rootdirBase
      invariant 0 <= i <= rootdirBase + 1
      invariant StandsFor(inodeMap[..], {0, 1}) && StandsFor(blockMap[..], Below(i))
    {
      BitSet(blockMap, i, Below(i));
      assert Below(i) + {i} == Below(i + 1);
      i := i + 1;
    }
  }

  /** What mkfs has written is the image of a new file system. */
  lemma NewImage(n: nat, d0: seq<Block>, disk: seq<Block>, im: seq<byte>, bm: seq<byte>, inodes: seq<Inode>, now: u32)
    requires 5 <= n < 0x20_0000 && |d0| == n && SuperOf(d0[0]) == Layout(n) && forall p :: 0 < p < n ==>
      d0[p] == ZeroBlock()
    requires SameOutside(d0, disk, 1, Layout(n).First())
    requires Layout(n).First() < n && 1 < Layout(n).Inodes() <= 8 * |im| && n <= 8 * |bm|
    requires Holds(Layout(n), disk, im, bm, inodes) && inodes == NewState(Layout(n), disk, now).inodes
    requires StandsFor(im, {0, 1}) && StandsFor(bm, Below(Layout(n).First() + 1))
    ensures ImageOf(disk, NewState(Layout(n), disk, now), im, bm) && Clean(NewState(Layout(n), disk, now))
    ensures NoEntries(DirOf(NewState(Layout(n), disk, now).inodes[1], disk))
    ensures forall q: seq<Name> :: Find(TreeOf(NewState(Layout(n), disk, now)), q) == if q == [] then 1 else -ENOENT
  {
    hide Layout, Inv, Clean, Find, StandsFor, Holds, SuperOf, ZeroBlock, NoEntries, DirOf, NewTree;
    NewStateOk(Layout(n), disk, now);
    NewPaths(Layout(n), disk, now);
    assert Layout(n).numBlocks == n by { LayoutSize(n); }
  }

  lemma LayoutSize(n: nat)
    requires n < 0x20_0000
    ensures Layout(n).numBlocks == n && Layout(n).First() < 0x1_0000_0000 && Layout(n).magic == FS_MAGIC
  {
  }

  /** From block base on, the bits 0 .. last are set, and no others below size: bit i is binary digit i % 8 of its
      byte. */
  ghost predicate MapAt(disk: seq<Block>, base: nat, size: nat, last: nat) {
    forall i: nat :: i < size ==>
      base + i / 8192 < |disk| && (Bin(FromByte(disk[base + i / 8192][i % 8192 / 8]), i % 8) <==> i <= last)
  }

  /** The fields of the superblock. */
  ghost predicate SuperAt(b: Block, ims: nat, ins: nat, bms: nat, n: nat) {
    && Little(b, 0, 4, 0x3736_3030) && Little(b, 4, 4, ims) && Little(b, 8, 4, ins) && Little(b, 12, 4, bms)
    && Little(b, 16, 4, n) && Little(b, 20, 4, 1)
  }

  /** The inode of the root, the second of its block: user, group, mode, times, size, and the block of the directory. */
  ghost predicate RootAt(b: Block, p: nat, now: nat) {
    && Little(b, 64, 2, 1001) && Little(b, 66, 2, 125) && Little(b, 68, 4, 0x41FF) && Little(b, 72, 4, now)
    && Little(b, 76, 4, now) && Little(b, 80, 4, 1024) && Little(b, 84, 4, p)
    && Little(b, 88, 4, 0) && Little(b, 92, 4, 0) && Little(b, 96, 4, 0) && Little(b, 100, 4, 0) && Little(b, 104, 4, 0)
    && Little(b, 108, 4, 0) && Little(b, 112, 4, 0)
  }

  /** What mkfs writes, byte by byte: the superblock, a map of the inodes with two bits set, a map of the blocks with a
      bit for each up to that of the root directory, the inode of the root, and an empty root directory. */
  ghost predicate ImageBytes(n: nat, disk: seq<Block>, now: nat) {
    var ims, ins, bms := (n / 4 + 8191) / 8192, (n / 4 * 64 + 1023) / 1024, (n + 8191) / 8192;
    var root := 1 + ims + bms + ins;
    && |disk| == n && root < n && SuperAt(disk[0], ims, ins, bms, n)
    && MapAt(disk, 1, 16 * ins, 1) && MapAt(disk, 1 + ims, n, root) && RootAt(disk[1 + ims + bms], root, now)
    && forall p: nat :: root <= p < n ==> disk[p] == ZeroBlock()
  }

  lemma LayoutIs(n: nat)
    requires n < 0x20_0000
    ensures Layout(n) == Super(0x3736_3030, (n / 4 + 8191) / 8192, (n / 4 * 64 + 1023) / 1024, (n + 8191) / 8192, n, 1)
  {
  }

  lemma InodeMapBytes(sb: Super, disk: seq<Block>, s: State, im: seq<byte>, bm: seq<byte>)
    requires Holds(sb, disk, im, bm, s.inodes) && StandsFor(im, s.live) && s.live == {0, 1} && |s.inodes| <= 8 * |im|
    ensures MapAt(disk, 1, |s.inodes|, 1)
  {
    hide FromByte, Bin, StandsFor, HoldsBytes, HoldsInodes;
    forall j: nat | j < |s.inodes|
      ensures 1 + j / 8192 < |disk| && (Bin(FromByte(disk[1 + j / 8192][j % 8192 / 8]), j % 8) <==> j <= 1)
    {
      BitOnDisk(disk, 1, im, sb.inodeMapSz, j);
      SetBit(im, s.live, j);
    }
  }

  lemma BlockMapBytes(sb: Super, disk: seq<Block>, s: State, im: seq<byte>, bm: seq<byte>, last: nat)
    requires Holds(sb, disk, im, bm, s.inodes) && StandsFor(bm, s.used) && |disk| <= 8 * |bm|
    requires forall p: nat :: p in s.used <==> p <= last
    ensures MapAt(disk, 1 + sb.inodeMapSz, |disk|, last)
  {
    hide FromByte, Bin, StandsFor, HoldsBytes, HoldsInodes;
    var base := 1 + sb.inodeMapSz;
    forall p: nat | p < |disk|
      ensures base + p / 8192 < |disk|
      ensures Bin(FromByte(disk[base + p / 8192][p % 8192 / 8]), p % 8) <==> p <= last
    {
      BitOnDisk(disk, base, bm, sb.blockMapSz, p);
      SetBit(bm, s.used, p);
    }
  }

  lemma RootBytes(b: Block, p: u32, now: u32)
    requires InodesIn(b)[1] == RootInode(p, now)
    ensures RootAt(b, p, now)
  {
    hide Little, InodesIn;
    DiskBytes.InodeBytes(b, 1);
    var n := RootInode(p, now);
    assert Little(b, 84 + 4 * 0, 4, n.direct[0]) && Little(b, 84 + 4 * 1, 4, n.direct[1]);
    assert Little(b, 84 + 4 * 2, 4, n.direct[2]) && Little(b, 84 + 4 * 3, 4, n.direct[3]);
    assert Little(b, 84 + 4 * 4, 4, n.direct[4]) && Little(b, 84 + 4 * 5, 4, n.direct[5]);
  }

  lemma NewDisk(sb: Super, disk: seq<Block>, now: u32)
    requires 1 < sb.Inodes() && sb.First() < 0x1_0000_0000
    ensures NewState(sb, disk, now).disk == disk
  {
    hide NewTree, RootInode;
  }

  lemma NewIs(sb: Super, disk: seq<Block>, now: u32)
    requires 1 < sb.Inodes() && sb.First() < 0x1_0000_0000
    ensures var s := NewState(sb, disk, now);
      && |s.inodes| == sb.Inodes() && s.inodes[1] == RootInode(sb.First(), now) && s.live == {0, 1}
      && s.used == Below(sb.First() + 1) && forall p: nat :: p in s.used <==> p <= sb.First()
  {
    hide NewTree, RootInode;
  }

  lemma MkfsBytes(n: nat, disk: seq<Block>, s: State, im: seq<byte>, bm: seq<byte>, now: u32)
    requires 5 <= n < 0x20_0000 && |disk| == n && SuperOf(disk[0]) == Layout(n) && Layout(n).First() < n
    requires |s.inodes| == Layout(n).Inodes() > 1 && s.inodes[1] == RootInode(Layout(n).First(), now)
    requires s.live == {0, 1} && forall p: nat :: p in s.used <==> p <= Layout(n).First()
    requires Holds(Layout(n), disk, im, bm, s.inodes) && StandsFor(im, s.live) && StandsFor(bm, s.used)
    requires |s.inodes| <= 8 * |im| && n <= 8 * |bm|
    requires forall p: nat :: Layout(n).First() <= p < n ==> disk[p] == ZeroBlock()
    ensures ImageBytes(n, disk, now)
  {
    hide Little, SuperOf, StandsFor, Holds, ZeroBlock, Layout, InodesIn, RootInode, MapAt, RootAt;
    LayoutIs(n);
    var sb := Layout(n);
    SuperBytes(disk[0]);
    InodeMapBytes(sb, disk, s, im, bm);
    BlockMapBytes(sb, disk, s, im, bm, sb.First());
    RootThere(sb, disk, s, im, bm);
    RootBytes(disk[1 + sb.inodeMapSz + sb.blockMapSz], sb.First(), now);
  }

  lemma RootThere(sb: Super, disk: seq<Block>, s: State, im: seq<byte>, bm: seq<byte>)
    requires Holds(sb, disk, im, bm, s.inodes) && |s.inodes| > 1
    ensures 1 + sb.inodeMapSz + sb.blockMapSz < |disk|
    ensures InodesIn(disk[1 + sb.inodeMapSz + sb.blockMapSz])[1] == s.inodes[1]
  {
    hide HoldsBytes, HoldsInodes, InodesIn;
    InodeOnDisk(disk, 1 + sb.inodeMapSz + sb.blockMapSz, s.inodes, sb.inodeRegionSz, 1);
  }

  lemma SetBit(m: seq<byte>, s: set<nat>, i: nat)
    requires StandsFor(m, s) && i < 8 * |m|
    ensures Bit(m, i) <==> i in s
  {
    hide Bit;
  }

  /** What has been written is the image of a new file system. */
  lemma MkfsDone(n: nat, d0: seq<Block>, disk: seq<Block>, im: seq<byte>, bm: seq<byte>, inodes: seq<Inode>, now: u32,
                 s: State)
    requires 5 <= n < 0x20_0000 && |d0| == n && d0[0] == SuperBlock(Layout(n)) && LayoutOk(n)
    requires forall p :: 0 < p < n ==> d0[p] == ZeroBlock()
    requires SameOutside(d0, disk, 1, Layout(n).First()) && Layout(n).Inodes() <= 8 * |im| && n <= 8 * |bm|
    requires Layout(n).First() < 0x1_0000_0000
    requires inodes == seq(Layout(n).Inodes(), _ => ZERO_INODE)[1 := RootInode(Layout(n).First(), now)]
    requires Holds(Layout(n), disk, im, bm, inodes)
    requires StandsFor(im, {0, 1}) && StandsFor(bm, Below(Layout(n).First() + 1)) && s == NewState(Layout(n), disk, now)
    ensures |disk| == n && ImageBytes(n, disk, now) && SuperOf(disk[0]) == Layout(n) && NoEntries(Entries(disk[0]))
    ensures s.disk == disk && |s.inodes| > 1 && NoEntries(DirOf(s.inodes[1], disk))
    ensures ImageOf(disk, s, im, bm) && Clean(s)
    ensures forall q: seq<Name> :: Find(TreeOf(s), q) == if q == [] then 1 else -ENOENT
  {
    hide Layout, Holds, SuperOf, StandsFor, ZeroBlock, Inv, Clean, ImageOf, Find, SameOutside, Entries, SuperBlock,
      ImageBytes, RootInode, NewState, DirOf, Below;
    var sb := Layout(n);
    LayoutSize(n);
    SuperRoundTrip(sb);
    SuperAsDir(sb);
    FirstKept(d0, disk, sb.First());
    NewInodes(sb, disk, now, inodes);
    NewImage(n, d0, disk, im, bm, inodes, now);
    NewIs(sb, disk, now);
    MkfsBytes(n, disk, s, im, bm, now);
    assert s.disk == disk by { NewDisk(sb, disk, now); }
  }

  /** main of mkfs-hw3.c: the image of a new file system of n blocks. */
  method Mkfs(n: nat, now: u32) returns (disk: array<Block>, ghost s: State, ghost im: seq<byte>, ghost bm: seq<byte>)
    requires 5 <= n < 0x20_0000
    ensures fresh(disk) && disk.Length == n && ImageOf(disk[..], s, im, bm) && Clean(s)
    ensures SuperOf(disk[0]) == Layout(n) && s == NewState(Layout(n), disk[..], now)
    ensures NoEntries(DirOf(s.inodes[1], s.disk)) && NoEntries(Entries(disk[0]))
    ensures ImageBytes(n, disk[..], now)
    ensures forall q: seq<Name> :: Find(TreeOf(s), q) == if q == [] then 1 else -ENOENT
  {
    hide Layout, Holds, SuperOf, HoldsBytes, HoldsInodes, StandsFor, ZeroBlock, Inv, Clean, ImageOf, Find, SameOutside,
      Entries, SuperBlock, ImageBytes, RootInode, NewState, NoEntries, DirOf, FromByte, Below;
    LayoutFits(n);
    LayoutSize(n);
    var sb := Layout(n);
    disk := new Block[n](_ => ZeroBlock());
    var inodeMap := new byte[sb.inodeMapSz * BLOCK_SIZE](_ => 0);
    var blockMap := new byte[sb.blockMapSz * BLOCK_SIZE](_ => 0);
    var inodes := new Inode[sb.Inodes()](_ => ZERO_INODE);
    ZeroMapIsEmpty(inodeMap[..]);
    ZeroMapIsEmpty(blockMap[..]);
    var rootdirBase := 1 + sb.inodeMapSz + sb.blockMapSz + sb.inodeRegionSz;
    disk[0] := SuperBlock(sb);
    NewMaps(inodeMap, blockMap, rootdirBase);
    inodes[1] := RootInode(rootdirBase, now);
    ghost var d0 := disk[..];
    MetaWrite(disk, sb, inodeMap, blockMap, inodes);
    im, bm := inodeMap[..], blockMap[..];
    s := NewState(sb, disk[..], now);
    MkfsDone(n, d0, disk[..], im, bm, inodes[..], now, s);
  }

  lemma FirstKept(d0: seq<Block>, d: seq<Block>, first: nat)
    requires SameOutside(d0, d, 1, first) && |d0| > 0 && first > 0 && forall p :: 0 < p < |d0| ==> d0[p] == ZeroBlock()
    ensures |d| == |d0| && d[0] == d0[0] && forall p: nat :: first <= p < |d| ==> d[p] == ZeroBlock()
  {
    hide ZeroBlock;
  }

  lemma NewInodes(sb: Super, disk: seq<Block>, now: u32, inodes: seq<Inode>)
    requires 1 < sb.Inodes() && sb.First() < 0x1_0000_0000
    requires inodes == seq(sb.Inodes(), _ => ZERO_INODE)[1 := RootInode(sb.First(), now)]
    ensures NewState(sb, disk, now).inodes == inodes
  {
    hide RootInode, NewTree;
  }

  lemma NewPaths(sb: Super, disk: seq<Block>, now: u32)
    requires 1 < sb.Inodes() && sb.First() < |disk| < 0x1_0000_0000
    requires Inv(sb.First(), NewState(sb, disk, now)) && NoEntries(DirOf(NewState(sb, disk, now).inodes[1], disk))
    ensures forall q: seq<Name> :: Find(TreeOf(NewState(sb, disk, now)), q) == if q == [] then 1 else -ENOENT
  {
    hide Inv, Find, DirOf, NoEntries, NewTree;
    var s := NewState(sb, disk, now);
    forall q: seq<Name> ensures Find(TreeOf(s), q) == if q == [] then 1 else -ENOENT { EmptyRoot(sb.First(), s, q); }
  }

  /** When the root directory is empty, no path but the root's leads anywhere. */
  lemma {:induction false} EmptyRoot(first: nat, s: State, q: seq<Name>)
    requires Inv(first, s) && 1 < |s.inodes| && NoEntries(DirOf(s.inodes[1], s.disk))
    ensures Find(TreeOf(s), q) == if q == [] then 1 else -ENOENT
  {
    hide TreeOk, DirOf, Inv, IsDir;
    InvTree(first, s);
    InvKeys(first, s);
    if q != [] {
      EmptyRoot(first, s, q[..|q| - 1]);
      FindStep(TreeOf(s), q);
      LookupMiss(DirOf(s.inodes[1], s.disk), q[|q| - 1]);
    }
  }
}
