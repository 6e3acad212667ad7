/** The invariant of a mounted volume, and the write and truncate operations on an inode. */
module Mounted {
  import opened Bytes
  import opened Bitmaps
  import opened Codec
  import opened FileTrees
  import opened Volumes
  import opened Writing
  import opened WriteSteps
  import opened FileWrite
  import opened Consistency
  import opened FileContents
  import opened Truncating
  import opened Accounting

  ghost function StateOf(v: Volume): State
    reads v`used, v`live, v`owner, v`shadow, v.disk, v.inodes
  {
    State(v.disk[..], v.inodes[..], v.used, v.live, v.owner, v.shadow)
  }

  /** The invariant of every reachable state. */
  ghost predicate Valid(v: Volume)
    reads v`used, v`live, v`owner, v`shadow, v.disk, v.inodes, v.inodeMap, v.blockMap
  {
    v.MapsOk() && Inv(v.sb.First(), StateOf(v)) && SuperOf(v.disk[0]) == v.sb
  }

  // ---- the contents after a write --------------------------------------------------------------

  /** f with the bytes b in place of those from the offset on. */
  function Overwrite(f: seq<byte>, offset: nat, b: seq<byte>): seq<byte>
    requires offset <= |f|
  {
    f[..offset] + b + (if offset + |b| < |f| then f[offset + |b|..] else [])
  }

  /** Data block b of the written file is the old block b, spliced. */
  lemma WrittenBlock(w: Request, disk: seq<Block>, owner: Owner, nd: Inode, t: Tree, c: nat, b: nat)
    requires Landed(w, disk, owner, nd, t, c) && Dense(w.t, w.c) && b < c
    ensures c <= MAX_BLOCKS && w.c <= MAX_BLOCKS
    ensures var p := DataPtr(t, b);
      p < |disk| && p < |w.disk| && disk[p] == Splice(w.disk[p], b, w.offset, w.buf)
        && (b < w.c ==> DataPtr(w.t, b) == p)
  {
    hide Stored, TreeOwned, TreeExact, Handed, Confined, Wanted, Splice;
    var r := RegionOf(b);
    assert DenseRun(Leaf(t, r), First(r), c) && DenseRun(Leaf(w.t, r), First(r), w.c);
    assert RegionData(w, MAX_BLOCKS, disk, r, Leaf(t, r));
    assert Keeps(Leaf(w.t, r), Leaf(t, r));
  }

  lemma WrittenByte(w: Request, nd0: Inode, disk: seq<Block>, owner: Owner, nd: Inode, t: Tree, c: nat, i: nat)
    requires Landed(w, disk, owner, nd, t, c) && Dense(w.t, w.c) && 0 <= nd0.size <= BLOCK_SIZE * w.c
    requires i < BLOCK_SIZE * c && (i < nd0.size || w.offset <= i < w.offset + |w.buf|)
    ensures c <= MAX_BLOCKS && w.c <= MAX_BLOCKS
    ensures Blk(disk, DataPtr(t, i / BLOCK_SIZE))[i % BLOCK_SIZE] ==
      if w.offset <= i < w.offset + |w.buf| then w.buf[i - w.offset]
      else Blk(w.disk, DataPtr(w.t, i / BLOCK_SIZE))[i % BLOCK_SIZE]
  {
    hide Landed, Dense, DataPtr;
    WrittenBlock(w, disk, owner, nd, t, c, i / BLOCK_SIZE);
    assert BLOCK_SIZE * (i / BLOCK_SIZE) + i % BLOCK_SIZE == i;
  }

  /** What a write leaves in the file, when n bytes of the request lie below the new size. */
  lemma WrittenBytes(w: Request, nd0: Inode, disk: seq<Block>, owner: Owner, nd: Inode, t: Tree, c: nat, n: nat)
    requires FileOk(w.ino, nd0, w.t, w.c, w.disk, w.owner) && Landed(w, disk, owner, nd, t, c)
    requires w.offset <= nd0.size && n <= |w.buf|
    requires var size := Max(nd0.size, w.offset + n); size <= BLOCK_SIZE * c && (n == |w.buf| || w.offset + n == size)
    ensures c <= MAX_BLOCKS && w.c <= MAX_BLOCKS
    ensures FileBytes(Max(nd0.size, w.offset + n), t, disk) ==
            Overwrite(FileBytes(nd0.size, w.t, w.disk), w.offset, w.buf[..n])
  {
    hide Landed, Blk, DataPtr, Stored, TreeOwned, TreeExact;
    LandedBound(w, disk, owner, nd, t, c);
    var size := Max(nd0.size, w.offset + n);
    var f0 := FileBytes(nd0.size, w.t, w.disk);
    var f1 := FileBytes(size, t, disk);
    var g := Overwrite(f0, w.offset, w.buf[..n]);
    assert |g| == size;
    forall i | 0 <= i < size
      ensures f1[i] == g[i]
    {
      WrittenByte(w, nd0, disk, owner, nd, t, c, i);
    }
  }

  lemma LandedBound(w: Request, disk: seq<Block>, owner: Owner, nd: Inode, t: Tree, c: nat)
    requires Landed(w, disk, owner, nd, t, c)
    ensures c <= MAX_BLOCKS && w.c <= c && Stored(t, nd, disk) && TreeOwned(w.ino, t, owner) && Dense(t, c)
    ensures |disk| == |w.disk| && 0 !in owner
  {
  }

  // ---- leaked blocks ---------------------------------------------------------------------------

  /** The owners once the blocks of inode i that hang from nowhere are recorded as leaked. */
  ghost function Relabel(owner: Owner, i: nat, t: Tree): Owner {
    map p | p in owner :: if Of(owner[p], i) && !Hangs(t, owner[p], p) then Leaked else owner[p]
  }

  lemma RelabelOwned(owner: Owner, i: nat, t: Tree)
    requires TreeOwned(i, t, owner)
    ensures TreeOwned(i, t, Relabel(owner, i, t)) && TreeExact(i, t, Relabel(owner, i, t))
    ensures Relabel(owner, i, t).Keys == owner.Keys
  {
    var o := Relabel(owner, i, t);
    forall r {:trigger Leaf(t, r)} | ValidRegion(r)
      ensures Owned(i, r, Leaf(t, r), o)
    {
      assert Owned(i, r, Leaf(t, r), owner);
    }
  }

  lemma RelabelNone(owner: Owner, i: nat, t: Tree)
    requires TreeExact(i, t, owner)
    ensures Relabel(owner, i, t) == owner
  {
  }

  // ---- metadata blocks ---------------------------------------------------------------------------

  /** The invariant does not depend on the metadata region of the disk. */
  lemma MetaKeepsInv(first: nat, s: State, disk: seq<Block>)
    requires Inv(first, s) && SameOutside(s.disk, disk, 1, first)
    ensures Inv(first, s.(disk := disk))
    ensures forall i :: i in s.sh.trees ==>
      i < |s.inodes| && FileData(s.inodes[i], disk) == FileData(s.inodes[i], s.disk)
  {
    hide FileOk, FileData, IsDir, NamesOk, BlocksOk, SameBlocks;
    var s' := s.(disk := disk);
    BlocksOkMeta(first, s.disk, disk, s.used, s.owner);
    forall i | i in s.sh.trees
      ensures i < |s.inodes| && FileOk(i, s.inodes[i], s.sh.trees[i], s.sh.extent[i], disk, s.owner)
      ensures FileData(s.inodes[i], disk) == FileData(s.inodes[i], s.disk)
    {
      MetaSameBlocks(first, s, disk, i);
      DataKept(i, s.inodes[i], s.sh.trees[i], s.sh.extent[i], s.disk, s.owner, disk, s.owner);
    }
    MetaDirs(first, s, disk);
    InvKeys(first, s);
    NamesKept(s, s', s.sh.trees.Keys, s.sh.place, s.sh.depth);
  }

  lemma MetaSameBlocks(first: nat, s: State, disk: seq<Block>, i: nat)
    requires BlocksOk(first, s.disk, s.used, s.owner) && SameOutside(s.disk, disk, 1, first)
    ensures SameBlocks(i, s.disk, s.owner, disk, s.owner)
  {
  }

  lemma MetaDirs(first: nat, s: State, disk: seq<Block>)
    requires BlocksOk(first, s.disk, s.used, s.owner) && FilesOk(s) && SameOutside(s.disk, disk, 1, first)
    ensures forall d :: d in s.sh.trees && IsDir(s.inodes[d]) ==> DirOf(s.inodes[d], disk) == DirOf(s.inodes[d], s.disk)
  {
    hide FileOk, Entries, IsDirMode;
    forall d | d in s.sh.trees && IsDir(s.inodes[d])
      ensures DirOf(s.inodes[d], disk) == DirOf(s.inodes[d], s.disk)
    {
      DirBlockOwned(s, d);
    }
  }

  /** A file none of whose blocks are touched keeps its contents. */
  lemma DataKept(i: nat, nd: Inode, t: Tree, c: nat, disk: seq<Block>, owner: Owner, disk': seq<Block>, owner': Owner)
    requires FileOk(i, nd, t, c, disk, owner) && SameBlocks(i, disk, owner, disk', owner')
    ensures FileOk(i, nd, t, c, disk', owner') && FileData(nd, disk') == FileData(nd, disk)
  {
    hide FileOk, SameBlocks, FileData, FileBytes;
    FileKept(i, nd, t, c, disk, owner, disk', owner');
    BytesKept(i, nd, t, c, disk, owner, disk', owner');
    FileDataIsBytes(i, nd, t, c, disk, owner);
    FileDataIsBytes(i, nd, t, c, disk', owner');
  }

  // ---- fs_write on an inode ------------------------------------------------------------------------

  /** The shadow with a new tree for inode i. */
  ghost function WithTree(sh: Shadow, i: nat, t: Tree, c: nat): Shadow {
    sh.(trees := sh.trees[i := t], extent := sh.extent[i := c])
  }

  /** Every other file is as it was, contents included. */
  ghost predicate SameFiles(s: State, s': State, i: nat) {
    forall j :: j in s.sh.trees && j != i && j < |s.inodes| ==>
      j in s'.sh.trees && j < |s'.inodes| && s'.inodes[j] == s.inodes[j]
      && FileData(s'.inodes[j], s'.disk) == FileData(s.inodes[j], s.disk)
  }

  lemma StepOthers(first: nat, s: State, s': State, i: nat)
    requires Inv(first, s) && FileStep(s, s', i)
    ensures SameFiles(s, s', i)
  {
    hide FileOk, SameBlocks, FileData, IsDir, NamesOk, BlocksOk, InodesOk;
    forall j | j in s.sh.trees && j != i && j < |s.inodes|
      ensures s'.inodes[j] == s.inodes[j] && FileData(s'.inodes[j], s'.disk) == FileData(s.inodes[j], s.disk)
    {
      StepSameBlocks(s, s', i, j);
      DataKept(j, s.inodes[j], s.sh.trees[j], s.sh.extent[j], s.disk, s.owner, s'.disk, s'.owner);
    }
  }

  /** The request of a write to inode i in state s. */
  ghost function RequestOf(s: State, i: nat, offset: nat, buf: seq<byte>): Request
    requires i in s.sh.trees && i in s.sh.extent
  {
    Request(i, offset, buf, s.sh.trees[i], s.sh.extent[i], s.disk, s.owner)
  }

  lemma WriteReady(first: nat, s: State, i: nat, offset: nat, buf: seq<byte>)
    requires Inv(first, s) && i in s.sh.trees && 0 <= offset <= s.inodes[i].size
    ensures i in s.sh.extent && Ready(RequestOf(s, i, offset, buf), s.inodes[i], s.inodes[i].size)
    ensures FileOk(i, s.inodes[i], s.sh.trees[i], s.sh.extent[i], s.disk, s.owner)
  {
    hide NamesOk, IsDir, InodesOk, TreeOwned, TreeExact, Stored, Dense;
  }

  /** The file as a write has left it on the disk, with a new size, is well formed and the only one touched. */
  lemma WriteStep(first: nat, s: State, w: Request, disk: seq<Block>, used: set<nat>, owner: Owner, nd: Inode, t: Tree,
                  c: nat, nd': Inode)
    requires Inv(first, s) && w.ino in s.sh.trees && w.ino in s.sh.extent && w.ino < |s.inodes|
    requires !IsDir(s.inodes[w.ino])
    requires w == RequestOf(s, w.ino, w.offset, w.buf)
    requires Landed(w, disk, owner, nd, t, c) && BlocksOk(first, disk, used, owner)
    requires nd.mode == s.inodes[w.ino].mode && 0 <= nd'.size <= BLOCK_SIZE * c
    requires nd' == nd.(size := nd'.size, mtime := nd'.mtime)
    ensures var s' := State(disk, s.inodes[w.ino := nd'], used, s.live, Relabel(owner, w.ino, t),
      WithTree(s.sh, w.ino, t, c));
      FileStep(s, s', w.ino) && Inv(first, s')
  {
    hide Inv, FileOk, Stored, Dense, TreeExact, TreeOwned, Landed;
    var i := w.ino;
    var s' := State(disk, s.inodes[i := nd'], used, s.live, Relabel(owner, i, t), WithTree(s.sh, i, t, c));
    LandedBound(w, disk, owner, nd, t, c);
    RelabelOwned(owner, i, t);
    WriteFileOk(i, nd, nd', t, c, disk, s'.owner);
    RelabelBlocks(first, disk, used, owner, i, t);
    InvKeys(first, s);
    WriteFileStep(s, s', w, nd, t, c, owner);
    FileStepKeepsInv(first, s, s', i);
  }

  lemma WriteFileOk(i: nat, nd: Inode, nd': Inode, t: Tree, c: nat, disk: seq<Block>, owner: Owner)
    requires Stored(t, nd, disk) && TreeOwned(i, t, owner) && TreeExact(i, t, owner) && Dense(t, c)
    requires 0 <= nd'.size <= BLOCK_SIZE * c && nd' == nd.(size := nd'.size, mtime := nd'.mtime)
    ensures FileOk(i, nd', t, c, disk, owner)
  {
  }

  lemma RelabelBlocks(first: nat, disk: seq<Block>, used: set<nat>, owner: Owner, i: nat, t: Tree)
    requires BlocksOk(first, disk, used, owner)
    ensures BlocksOk(first, disk, used, Relabel(owner, i, t))
  {
  }

  lemma WriteFileStep(s: State, s': State, w: Request, nd: Inode, t: Tree, c: nat, owner: Owner)
    requires w.ino in s.sh.trees && w.ino in s.sh.extent && w.ino < |s.inodes| && !IsDir(s.inodes[w.ino])
    requires w == RequestOf(s, w.ino, w.offset, w.buf) && Landed(w, s'.disk, owner, nd, t, c)
    requires |s'.inodes| == |s.inodes| && s'.inodes == s.inodes[w.ino := s'.inodes[w.ino]]
    requires s'.inodes[w.ino].mode == s.inodes[w.ino].mode
    requires s'.live == s.live && s'.owner == Relabel(owner, w.ino, t) && s'.sh == WithTree(s.sh, w.ino, t, c)
    ensures FileStep(s, s', w.ino)
  {
    hide Stored, Dense, TreeOwned, DataDone, TreeKeeps, Wanted, Hangs, IsDirMode;
  }

  /** The contents of inode i. */
  ghost function Contents(s: State, i: nat): seq<byte>
    requires i < |s.inodes|
  {
    FileData(s.inodes[i], s.disk)
  }

  lemma ContentsSize(first: nat, s: State, i: nat)
    requires Inv(first, s) && i in s.sh.trees
    ensures i < |s.inodes| && |Contents(s, i)| == s.inodes[i].size
  {
    hide NamesOk, BlocksOk, InodesOk, FileOk, FileData, FileBytes;
    assert FileOk(i, s.inodes[i], s.sh.trees[i], s.sh.extent[i], s.disk, s.owner);
    FileDataIsBytes(i, s.inodes[i], s.sh.trees[i], s.sh.extent[i], s.disk, s.owner);
    FileOkSize(i, s.inodes[i], s.sh.trees[i], s.sh.extent[i], s.disk, s.owner);
  }

  lemma FileOkSize(i: nat, nd: Inode, t: Tree, c: nat, disk: seq<Block>, owner: Owner)
    requires FileOk(i, nd, t, c, disk, owner)
    ensures 0 <= nd.size <= BLOCK_SIZE * c && c <= MAX_BLOCKS
  {
  }

  /** The contents after a write, as a function of those before it. */
  lemma WriteContents(first: nat, s: State, s': State, w: Request, owner: Owner, nd: Inode, t: Tree, c: nat, n: nat)
    requires Inv(first, s) && w.ino in s.sh.trees && w.ino in s.sh.extent && w == RequestOf(s, w.ino, w.offset, w.buf)
    requires w.ino < |s.inodes| && w.offset <= s.inodes[w.ino].size && n <= |w.buf|
    requires Landed(w, s'.disk, owner, nd, t, c)
    requires Inv(first, s') && w.ino in s'.sh.trees && s'.sh.trees[w.ino] == t && w.ino in s'.sh.extent
    requires s'.sh.extent[w.ino] == c
    requires w.ino < |s'.inodes| && s'.inodes[w.ino].size == Max(s.inodes[w.ino].size, w.offset + n)
    requires n == |w.buf| || w.offset + n == s'.inodes[w.ino].size
    ensures |Contents(s, w.ino)| == s.inodes[w.ino].size
    ensures Contents(s', w.ino) == Overwrite(Contents(s, w.ino), w.offset, w.buf[..n])
  {
    hide Landed, NamesOk, BlocksOk, InodesOk, FileOk, FileData, FileBytes;
    var i := w.ino;
    assert FileOk(i, s.inodes[i], s.sh.trees[i], s.sh.extent[i], s.disk, s.owner);
    assert FileOk(i, s'.inodes[i], t, c, s'.disk, s'.owner);
    FileDataIsBytes(i, s.inodes[i], s.sh.trees[i], s.sh.extent[i], s.disk, s.owner);
    FileDataIsBytes(i, s'.inodes[i], t, c, s'.disk, s'.owner);
    FileOkSize(i, s'.inodes[i], t, c, s'.disk, s'.owner);
    WrittenBytes(w, s.inodes[i], s'.disk, owner, nd, t, c, n);
    ContentsSize(first, s, i);
  }

  lemma ValidParts(v: Volume)
    requires Valid(v)
    ensures v.MapsOk() && v.DiskOk() && v.Separate() && Inv(v.sb.First(), StateOf(v)) && SuperOf(v.disk[0]) == v.sb
  {
    hide FilesOk, InodesOk, NamesOk, StandsFor, SuperOf;
  }

  lemma ValidFrom(v: Volume)
    requires v.DiskOk() && Inv(v.sb.First(), StateOf(v)) && SuperOf(v.disk[0]) == v.sb
    ensures Valid(v)
  {
    hide FilesOk, InodesOk, NamesOk, StandsFor, SuperOf;
  }

  lemma LandedBlock0(w: Request, disk: seq<Block>, owner: Owner, nd: Inode, t: Tree, c: nat)
    requires Landed(w, disk, owner, nd, t, c) && |disk| > 0
    ensures disk[0] == w.disk[0] && w.c <= c
  {
  }

  /** What fs_write does to file i: a successful write of r bytes makes them the bytes of the file from the offset on;
      a write that fails for lack of space has still replaced everything from the offset to the end. */
  ghost predicate Wrote(s: State, s': State, i: nat, offset: nat, buf: seq<byte>, r: int) {
    && i < |s.inodes| && i < |s'.inodes|
    && s.inodes[i].size == |Contents(s, i)| && offset <= |Contents(s, i)|
    && (r >= 0 ==>
         r == Fits(offset, |buf|) && r <= |buf| && Contents(s', i) == Overwrite(Contents(s, i), offset, buf[..r]))
    && (r < 0 ==> r == -ENOSPC && s'.inodes[i].size == s.inodes[i].size && offset + |buf| > |Contents(s, i)|
                  && Contents(s', i) == Overwrite(Contents(s, i), offset, buf[..|Contents(s, i)| - offset]))
    && FileStep(s, s', i)
  }

  /** How many of len bytes fit in a file from the offset on. */
  function Fits(offset: nat, len: nat): int {
    if len <= MAX_BLOCKS * BLOCK_SIZE - offset then len else MAX_BLOCKS * BLOCK_SIZE - offset
  }

  /** The request did not fit: it reaches past the end of the file. */
  lemma StuckPastEnd(w: Request, owner: Owner, t: Tree, c: nat, f: nat, size: nat)
    requires Stuck(w, owner, t, c, f) && size <= BLOCK_SIZE * w.c
    ensures w.offset + |w.buf| > size
  {
    hide Stuck;
    StuckWanted(w, owner, t, c, f);
    BlocksForBound(w.offset + |w.buf|, w.c);
  }

  lemma ReachEnough(w: Request, size: nat, n: nat)
    requires w.offset <= size <= BLOCK_SIZE * w.c && w.c <= MAX_BLOCKS && n == Fits(w.offset, |w.buf|)
    ensures w.offset + n <= Max(size, w.offset + n) <= BLOCK_SIZE * Reach(w, MAX_BLOCKS)
    ensures n == |w.buf| || w.offset + n == Max(size, w.offset + n)
  {
    BlocksForBound(w.offset + |w.buf|, Wanted(w));
  }

  /** The end of a failed write. */
  lemma FailedWrite(first: nat, s: State, s': State, w: Request, owner: Owner, t: Tree, c: nat, f: nat)
    requires Inv(first, s) && w.ino in s.sh.trees && w.ino in s.sh.extent && w.ino < |s.inodes|
    requires !IsDir(s.inodes[w.ino])
    requires w == RequestOf(s, w.ino, w.offset, w.buf) && w.offset <= s.inodes[w.ino].size
    requires |s'.inodes| == |s.inodes| && s'.inodes == s.inodes[w.ino := s'.inodes[w.ino]]
    requires s'.inodes[w.ino].size == s.inodes[w.ino].size && s'.inodes[w.ino].mode == s.inodes[w.ino].mode
    requires Landed(w, s'.disk, owner, s'.inodes[w.ino], t, c) && Stuck(w, owner, t, c, f)
    requires BlocksOk(first, s'.disk, s'.used, owner)
    requires s'.live == s.live && s'.owner == Relabel(owner, w.ino, t) && s'.sh == WithTree(s.sh, w.ino, t, c)
    ensures Inv(first, s') && Wrote(s, s', w.ino, w.offset, w.buf, -ENOSPC)
  {
    hide Inv, FileStep, Landed, Stuck, BlocksOk, Relabel, Contents, FileOk;
    WriteReady(first, s, w.ino, w.offset, w.buf);
    FileOkSize(w.ino, s.inodes[w.ino], w.t, w.c, s.disk, s.owner);
    LandedBound(w, s'.disk, owner, s'.inodes[w.ino], t, c);
    StuckPastEnd(w, owner, t, c, f, s.inodes[w.ino].size);
    WriteStep(first, s, w, s'.disk, s'.used, owner, s'.inodes[w.ino], t, c, s'.inodes[w.ino]);
    assert s' == State(s'.disk, s.inodes[w.ino := s'.inodes[w.ino]], s'.used, s.live, Relabel(owner, w.ino, t),
      WithTree(s.sh, w.ino, t, c));
    WriteContents(first, s, s', w, owner, s'.inodes[w.ino], t, c, s.inodes[w.ino].size - w.offset);
  }

  /** The end of a successful write, before update_disk. */
  lemma DoneWrite(first: nat, s: State, s': State, w: Request, nd: Inode, t: Tree, n: nat)
    requires w.ino in s.sh.trees && w.ino in s.sh.extent && w.ino < |s.inodes| && !IsDir(s.inodes[w.ino])
    requires w == RequestOf(s, w.ino, w.offset, w.buf) && w.offset <= s.inodes[w.ino].size
    requires |s'.inodes| == |s.inodes| && s'.inodes == s.inodes[w.ino := s'.inodes[w.ino]]
    requires nd.mode == s.inodes[w.ino].mode && n == Fits(w.offset, |w.buf|)
    requires s'.inodes[w.ino] == nd.(size := Max(s.inodes[w.ino].size, w.offset + n), mtime := s'.inodes[w.ino].mtime)
    requires Landed(w, s'.disk, s'.owner, nd, t, Reach(w, MAX_BLOCKS)) && TreeExact(w.ino, t, s'.owner)
    requires BlocksOk(first, s'.disk, s'.used, s'.owner)
    requires s'.live == s.live && s'.sh == WithTree(s.sh, w.ino, t, Reach(w, MAX_BLOCKS))
    requires Inv(first, s)
    ensures Inv(first, s') && Wrote(s, s', w.ino, w.offset, w.buf, n)
  {
    hide Inv, FileStep, Landed, BlocksOk, Relabel, Contents, FileOk, TreeExact, Reach;
    WriteReady(first, s, w.ino, w.offset, w.buf);
    FileOkSize(w.ino, s.inodes[w.ino], w.t, w.c, s.disk, s.owner);
    ReachEnough(w, s.inodes[w.ino].size, n);
    RelabelNone(s'.owner, w.ino, t);
    WriteStep(first, s, w, s'.disk, s'.used, s'.owner, nd, t, Reach(w, MAX_BLOCKS), s'.inodes[w.ino]);
    assert s' == State(s'.disk, s.inodes[w.ino := s'.inodes[w.ino]], s'.used, s.live, s'.owner,
      WithTree(s.sh, w.ino, t, Reach(w, MAX_BLOCKS)));
    WriteContents(first, s, s', w, s'.owner, nd, t, Reach(w, MAX_BLOCKS), n);
  }

  /** update_disk changes nothing that the file system is made of. */
  lemma WroteThenMeta(first: nat, s: State, s': State, disk: seq<Block>, i: nat, offset: nat, buf: seq<byte>, r: int)
    requires Inv(first, s') && Wrote(s, s', i, offset, buf, r) && SameOutside(s'.disk, disk, 1, first)
    requires Inv(first, s)
    ensures Wrote(s, s'.(disk := disk), i, offset, buf, r)
  {
    hide FileData, FilesOk, InodesOk, NamesOk, ZeroBlock;
    MetaKeepsInv(first, s', disk);
  }

  // ---- the blocks that a write takes and loses ------------------------------------------------------------

  /** The number of data blocks of a file of c after len bytes have been written at the offset. */
  function Extended(c: nat, offset: nat, len: nat): nat {
    Max(c, Min(MAX_BLOCKS, BlocksFor(offset + len)))
  }

  /** The number of blocks that a write needs when the file has c data blocks and owns n blocks in all: those of the
      extended file that it does not own already. */
  function Needed(c: nat, n: nat, offset: nat, len: nat): int {
    if Extended(c, offset, len) > c then BlockCount(Extended(c, offset, len)) - n else 0
  }

  /** How many blocks file i would own if it were given all the free ones. */
  ghost function AllOf(s: State, i: nat): int {
    |Footprint(s.owner, i)| + |s.disk| - |s.used|
  }

  /** The number of blocks that a write to file i loses if it runs out of space. */
  ghost function Stranded(s: State, i: nat): int
    requires i in s.sh.extent
  {
    if AllOf(s, i) < 0 then 0 else AllOf(s, i) - Kept(s.sh.extent[i], AllOf(s, i))
  }

  /** The blocks before and after a write: it fails exactly when fewer are free than it needs, and otherwise takes
      exactly those and loses none. A write that fails has marked all blocks; it loses those that it took and cannot
      be reached from the disk. */
  ghost predicate WriteCost(s: State, s': State, i: nat, offset: nat, len: nat, r: int) {
    && i in s.sh.extent
    && (r < 0 <==> |s.disk| - |s.used| < Needed(s.sh.extent[i], |Footprint(s.owner, i)|, offset, len))
    && LeakedBlocks(s.owner) <= LeakedBlocks(s'.owner)
    && (r >= 0 ==> LeakedBlocks(s'.owner) == LeakedBlocks(s.owner) && (Clean(s) ==> Clean(s')))
    && (r >= 0 ==> |s'.used| == |s.used| + Needed(s.sh.extent[i], |Footprint(s.owner, i)|, offset, len))
    && (r < 0 ==> forall p: nat :: p < |s.disk| ==> p in s'.used)
    && (r < 0 ==> |LeakedBlocks(s'.owner)| == |LeakedBlocks(s.owner)| + Stranded(s, i))
  }

  lemma CleanFile(s: State, i: nat)
    requires Clean(s) && i in s.sh.trees && i < |s.inodes| && i in s.sh.extent && s.inodes[i].size >= 0
    ensures Tight(s.sh.trees[i], s.sh.extent[i]) && s.sh.extent[i] == BlocksFor(s.inodes[i].size)
  {
  }

  lemma CleanAfter(s: State, s': State, i: nat, nd: Inode, t: Tree, c: nat)
    requires Clean(s) && i < |s.inodes| && s'.inodes == s.inodes[i := nd] && s'.sh == WithTree(s.sh, i, t, c)
    requires s.sh.extent.Keys == s.sh.trees.Keys && (nd.size >= 0 ==> Tight(t, c) && c == BlocksFor(nd.size))
    requires LeakedBlocks(s'.owner) == LeakedBlocks(s.owner)
    ensures Clean(s')
  {
    hide Tight;
    assert forall p :: p in s'.owner && s'.owner[p].Leaked? ==> p in LeakedBlocks(s.owner);
  }

  /** The extent that belongs to the new size. */
  lemma ExtendedSize(size: nat, c: nat, offset: nat, len: nat)
    requires c == BlocksFor(size) && c <= MAX_BLOCKS && offset <= size
    ensures Extended(c, offset, len) == BlocksFor(Max(size, Min(offset + len, MAX_BLOCKS * BLOCK_SIZE)))
  {
    BlocksForBound(size, MAX_BLOCKS);
    BlocksForBound(offset + len, MAX_BLOCKS);
    assert BlocksFor(MAX_BLOCKS * BLOCK_SIZE) == MAX_BLOCKS;
    BlocksMonotone(size, offset + len);
    BlocksMonotone(offset + len, size);
    BlocksMonotone(MAX_BLOCKS * BLOCK_SIZE, offset + len);
  }

  lemma BlocksMonotone(a: nat, b: nat)
    ensures a <= b ==> BlocksFor(a) <= BlocksFor(b)
  {
    BlocksForBound(a, BlocksFor(b));
    BlocksForBound(b, BlocksFor(b));
  }

  /** The file that a request starts from, and its blocks. */
  lemma RequestFile(first: nat, s: State, w: Request)
    requires Inv(first, s) && w.ino in s.sh.trees && w.ino in s.sh.extent && w == RequestOf(s, w.ino, w.offset, w.buf)
    ensures TreeExact(w.ino, w.t, w.owner) && Dense(w.t, w.c) && TreeOwned(w.ino, w.t, w.owner) && 0 !in w.owner
    ensures |Footprint(s.owner, w.ino)| == BlockCount(w.c) + Spare(w.t, w.c) && w.c <= MAX_BLOCKS
    ensures BlocksOk(first, s.disk, s.used, s.owner)
  {
    hide NamesOk, IsDir, InodesOk, TreeOwned, TreeExact, Stored, Dense, BlockCount, Spare, Footprint;
    assert FileOk(w.ino, s.inodes[w.ino], s.sh.trees[w.ino], s.sh.extent[w.ino], s.disk, s.owner);
    DenseBound(w.t, w.c);
    DenseUpto(w.t, w.c);
    FootprintCount(w.ino, w.t, w.c, w.owner);
  }

  /** Only the file has been given blocks. */
  lemma HandedCount(first: nat, s: State, w: Request, disk: seq<Block>, used: set<nat>, owner: Owner)
    requires BlocksOk(first, s.disk, s.used, s.owner) && w.owner == s.owner && BlocksOk(first, disk, used, owner)
    requires Handed(w, owner)
    ensures |used| - |s.used| == |Footprint(owner, w.ino)| - |Footprint(s.owner, w.ino)|
    ensures LeakedBlocks(owner) == LeakedBlocks(s.owner)
  {
    hide BlocksOk, Wanted, Needs, Footprint;
    TakenCount(first, s.disk, s.used, s.owner, disk, used, owner, w.ino);
  }

  lemma UsedBound(first: nat, disk: seq<Block>, used: set<nat>, owner: Owner)
    requires BlocksOk(first, disk, used, owner)
    ensures |used| <= |disk|
    ensures (forall p: nat :: p < |disk| ==> p in used) ==> |used| == |disk|
  {
    BelowCount(|disk|);
    FewerThan(used, Below(|disk|));
    if forall p: nat :: p < |disk| ==> p in used { assert used == Below(|disk|); }
  }

  lemma RelabelSets(owner: Owner, i: nat, t: Tree)
    ensures var o := Relabel(owner, i, t);
      && LeakedBlocks(o) == LeakedBlocks(owner) + (Footprint(owner, i) - Footprint(o, i))
      && LeakedBlocks(owner) !! Footprint(owner, i) && Footprint(o, i) <= Footprint(owner, i)
  {
    hide Hangs;
    var o := Relabel(owner, i, t);
    forall p: nat
      ensures p in LeakedBlocks(o) <==> p in LeakedBlocks(owner) || (p in Footprint(owner, i) && p !in Footprint(o, i))
    {
    }
  }

  /** What of the blocks of file i does not hang from the tree t has leaked. */
  lemma RelabelCount(owner: Owner, i: nat, t: Tree)
    ensures LeakedBlocks(owner) <= LeakedBlocks(Relabel(owner, i, t))
    ensures |LeakedBlocks(Relabel(owner, i, t))| ==
            |LeakedBlocks(owner)| + |Footprint(owner, i)| - |Footprint(Relabel(owner, i, t), i)|
  {
    hide Relabel, LeakedBlocks, Footprint;
    var o := Relabel(owner, i, t);
    RelabelSets(owner, i, t);
    PartCount(Footprint(owner, i), Footprint(o, i));
  }

  /** A write that stops has been given fewer blocks than it needs. */
  lemma StuckNeeds(w: Request, t: Tree, f: nat, n: nat)
    requires w.c <= f < Min(MAX_BLOCKS, Wanted(w)) && Upto(t, f)
    ensures BlockCount(f) + Spare(t, f) - n < Needed(w.c, n, w.offset, |w.buf|)
  {
    hide Upto;
    EarlyBound(t, f);
    var e := Extended(w.c, w.offset, |w.buf|);
    if f + 1 < e { BlockCountMonotone(f + 1, e); }
  }

  lemma FailedCost(first: nat, s: State, s': State, w: Request, owner: Owner, nd: Inode, td: Tree, c: nat, f: nat)
    requires Inv(first, s) && w.ino in s.sh.trees && w.ino in s.sh.extent
    requires w == RequestOf(s, w.ino, w.offset, w.buf)
    requires Landed(w, s'.disk, owner, nd, td, c) && Stuck(w, owner, td, c, f)
    requires BlocksOk(first, s'.disk, s'.used, owner)
    requires s'.owner == Relabel(owner, w.ino, td)
    requires forall p: nat :: p < |s'.disk| ==> p in s'.used
    ensures WriteCost(s, s', w.ino, w.offset, |w.buf|, -ENOSPC)
  {
    hide Inv, Clean, BlocksOk, BlockCount, Wanted, Footprint, Dense, TreeOwned, TreeExact, Stored, TreeKeeps, DataDone,
      BlocksFor, Upto, Spare, Kept, Needed, Relabel, LeakedBlocks, Landing;
    StuckWanted(w, owner, td, c, f);
    var t: Tree :| Buffered(w, owner, t, f) && t.ind1 == td.ind1 && t.ind2 == td.ind2;
    RequestFile(first, s, w);
    HandedCount(first, s, w, s'.disk, s'.used, owner);
    FootprintCount(w.ino, t, f, owner);
    UsedBound(first, s'.disk, s'.used, owner);
    StuckNeeds(w, t, f, |Footprint(s.owner, w.ino)|);
    RelabelOwned(owner, w.ino, td);
    RelabelCount(owner, w.ino, td);
    DenseUpto(td, c);
    FootprintCount(w.ino, td, c, s'.owner);
    KeptIs(w.c, f, t, td);
  }

  lemma DoneCost(first: nat, s: State, s': State, w: Request, nd: Inode, t: Tree, n: nat)
    requires Inv(first, s) && w.ino in s.sh.trees && w.ino in s.sh.extent && w.ino < |s.inodes|
    requires w == RequestOf(s, w.ino, w.offset, w.buf) && w.offset <= s.inodes[w.ino].size
    requires |s'.inodes| == |s.inodes| && s'.inodes == s.inodes[w.ino := s'.inodes[w.ino]]
    requires n == Fits(w.offset, |w.buf|)
    requires s'.inodes[w.ino].size == Max(s.inodes[w.ino].size, w.offset + n)
    requires Landed(w, s'.disk, s'.owner, nd, t, Reach(w, MAX_BLOCKS)) && TreeExact(w.ino, t, s'.owner)
    requires BlocksOk(first, s'.disk, s'.used, s'.owner) && s'.sh == WithTree(s.sh, w.ino, t, Reach(w, MAX_BLOCKS))
    ensures WriteCost(s, s', w.ino, w.offset, |w.buf|, n)
  {
    hide Inv, Clean, BlocksOk, BlockCount, Footprint, Tight, Dense, TreeOwned, TreeExact, Stored, TreeKeeps, DataDone,
      BlocksFor, Spare, Handed, WithTree, LeakedBlocks;
    var e := Reach(w, MAX_BLOCKS);
    RequestFile(first, s, w);
    HandedCount(first, s, w, s'.disk, s'.used, s'.owner);
    LandedBound(w, s'.disk, s'.owner, nd, t, e);
    SpareAfter(w, s'.owner, t);
    DenseUpto(t, e);
    FootprintCount(w.ino, t, e, s'.owner);
    UsedBound(first, s'.disk, s'.used, s'.owner);
    if Clean(s) { DoneClean(first, s, s', w, t); }
  }

  lemma DoneClean(first: nat, s: State, s': State, w: Request, t: Tree)
    requires w.ino in s.sh.trees && w.ino in s.sh.extent && w.ino < |s.inodes|
    requires w == RequestOf(s, w.ino, w.offset, w.buf) && w.offset <= s.inodes[w.ino].size && w.c <= MAX_BLOCKS
    requires |s'.inodes| == |s.inodes| && s'.inodes == s.inodes[w.ino := s'.inodes[w.ino]]
    requires s'.inodes[w.ino].size == Max(s.inodes[w.ino].size, w.offset + Fits(w.offset, |w.buf|))
    requires Tight(w.t, w.c) ==> Tight(t, Reach(w, MAX_BLOCKS))
    requires s'.sh == WithTree(s.sh, w.ino, t, Reach(w, MAX_BLOCKS)) && LeakedBlocks(s'.owner) == LeakedBlocks(s.owner)
    requires Inv(first, s) && Clean(s)
    ensures Clean(s')
  {
    hide Inv, Clean, Tight, BlocksFor, WithTree, LeakedBlocks;
    InvKeys(first, s);
    CleanFile(s, w.ino);
    ExtendedSize(s.inodes[w.ino].size, w.c, w.offset, |w.buf|);
    CleanAfter(s, s', w.ino, s'.inodes[w.ino], t, Reach(w, MAX_BLOCKS));
  }

  lemma CostThenMeta(s: State, s': State, disk: seq<Block>, i: nat, offset: nat, len: nat, r: int)
    requires WriteCost(s, s', i, offset, len, r) && |disk| == |s'.disk|
    ensures WriteCost(s, s'.(disk := disk), i, offset, len, r)
  {
    hide Tight, Needed, Kept, LeakedBlocks, Footprint;
  }

  /** When nothing is marked that is not in use, all of this can be told from the size and the number of free blocks. */
  lemma CleanCost(first: nat, s: State, i: nat)
    requires Inv(first, s) && Clean(s) && i in s.sh.trees
    ensures i < |s.inodes| && i in s.sh.extent && s.inodes[i].size >= 0
    ensures s.sh.extent[i] == BlocksFor(s.inodes[i].size)
    ensures |Footprint(s.owner, i)| == BlockCount(BlocksFor(s.inodes[i].size))
  {
    hide Inv, Clean, BlockCount, Footprint, BlocksFor, Tight, Dense, TreeOwned, TreeExact, Spare;
    InvKeys(first, s);
    ContentsSize(first, s, i);
    CleanFile(s, i);
    RequestFile(first, s, RequestOf(s, i, 0, []));
    NoSpare(i, s.sh.trees[i], s.sh.extent[i]);
  }

  /** A file's inode after fs_write: only the pointers, the size and the time of change may differ. */
  predicate SameIdentity(nd: Inode, nd': Inode, mtime: u32) {
    nd' == nd.(direct := nd'.direct, indir1 := nd'.indir1, indir2 := nd'.indir2, size := nd'.size, mtime := mtime)
  }

  // ---- fs_truncate on an inode -----------------------------------------------------------------------

  /** What fs_truncate does to file i: the file is empty; the blocks that its loops reach are free and all zero
      again, the others have leaked. */
  ghost predicate Truncated(s: State, s': State, i: nat) {
    && FileStep(s, s', i)
    && Contents(s', i) == [] && s'.inodes[i].size == 0 && NullInode(s'.inodes[i])
    && s'.used == s.used - ClearedBlocks(s.owner, i)
    && (forall p :: p in ClearedBlocks(s.owner, i) ==> Blk(s'.disk, p) == ZeroBlock())
    && Footprint(s'.owner, i) == {}
    && LeakedBlocks(s'.owner) == LeakedBlocks(s.owner) + (Footprint(s.owner, i) - ClearedBlocks(s.owner, i))
  }

  /** A file's inode after fs_truncate. */
  function Emptied(nd: Inode, now: u32): Inode {
    nd.(direct := NO_DIRECT, indir1 := 0, indir2 := 0, size := 0, mtime := now)
  }

  ghost function TargetOf(s: State, i: nat): Target
    requires i in s.sh.trees && i in s.sh.extent
  {
    Target(i, s.sh.trees[i], s.sh.extent[i], s.disk, s.owner)
  }

  lemma TruncateReady(first: nat, s: State, i: nat)
    requires Inv(first, s) && i in s.sh.trees
    ensures i < |s.inodes| && i in s.sh.extent && TargetOk(TargetOf(s, i), s.inodes[i])
  {
    hide NamesOk, IsDir, InodesOk, TreeOwned, TreeExact, Stored, Dense;
    assert FileOk(i, s.inodes[i], s.sh.trees[i], s.sh.extent[i], s.disk, s.owner);
  }

  /** An inode without pointers and with size 0 is an empty file. */
  lemma EmptyFileOk(i: nat, nd: Inode, disk: seq<Block>, owner: Owner)
    requires NullInode(nd) && nd.size == 0
    requires forall p :: p in owner ==> !Of(owner[p], i)
    ensures FileOk(i, nd, EmptyTree(), 0, disk, owner)
    ensures FileData(nd, disk) == []
  {
    forall r {:trigger Leaf(EmptyTree(), r)} | ValidRegion(r)
      ensures Owned(i, r, Leaf(EmptyTree(), r), owner) && DenseRun(Leaf(EmptyTree(), r), First(r), 0)
    {
      EmptyLeaf(r);
    }
  }

  lemma EmptyLeaf(r: Region)
    requires ValidRegion(r)
    ensures forall k :: 0 <= k < Size(r) ==> Leaf(EmptyTree(), r)[k] == 0
  {
  }

  /** The owners once what is left of file i has leaked. */
  ghost function LeakRest(owner: Owner, i: nat): Owner {
    map p | p in owner :: if Of(owner[p], i) then Leaked else owner[p]
  }

  lemma TruncateOwners(disk: seq<Block>, owner: Owner, i: nat, disk': seq<Block>, owner': Owner)
    requires Released(disk, owner, ClearedBlocks(owner, i), disk', owner')
    ensures var o := LeakRest(owner', i);
      && o.Keys == owner'.Keys == owner.Keys - ClearedBlocks(owner, i)
      && (forall p :: p in o ==> !Of(o[p], i))
      && LeakedBlocks(o) == LeakedBlocks(owner) + (Footprint(owner, i) - ClearedBlocks(owner, i))
      && Footprint(o, i) == {}
  {
  }

  lemma TruncateStep(first: nat, s: State, s': State, i: nat, owner: Owner)
    requires Inv(first, s) && i in s.sh.trees && i < |s.inodes| && !IsDir(s.inodes[i])
    requires Released(s.disk, s.owner, ClearedBlocks(s.owner, i), s'.disk, owner)
    requires BlocksOk(first, s'.disk, s'.used, owner)
    requires |s'.inodes| == |s.inodes| && s'.inodes == s.inodes[i := s'.inodes[i]]
    requires s'.inodes[i].mode == s.inodes[i].mode
    requires NullInode(s'.inodes[i]) && s'.inodes[i].size == 0
    requires s'.live == s.live && s'.owner == LeakRest(owner, i) && s'.sh == WithTree(s.sh, i, EmptyTree(), 0)
    ensures Inv(first, s') && FileStep(s, s', i) && Contents(s', i) == []
    ensures Footprint(s'.owner, i) == {}
    ensures LeakedBlocks(s'.owner) == LeakedBlocks(s.owner) + (Footprint(s.owner, i) - ClearedBlocks(s.owner, i))
  {
    hide Inv, FileOk, BlocksOk, ClearedBlocks, FileData, NullInode, LeakedBlocks, Footprint;
    TruncateOwners(s.disk, s.owner, i, s'.disk, owner);
    LeakRestBlocks(first, s'.disk, s'.used, owner, i);
    EmptyFileOk(i, s'.inodes[i], s'.disk, s'.owner);
    InvKeys(first, s);
    TruncateFileStep(s, s', i, owner);
    FileStepKeepsInv(first, s, s', i);
  }

  lemma LeakRestBlocks(first: nat, disk: seq<Block>, used: set<nat>, owner: Owner, i: nat)
    requires BlocksOk(first, disk, used, owner)
    ensures BlocksOk(first, disk, used, LeakRest(owner, i))
  {
  }

  lemma TruncateFileStep(s: State, s': State, i: nat, owner: Owner)
    requires i in s.sh.trees && i < |s.inodes| && !IsDir(s.inodes[i]) && s.sh.extent.Keys == s.sh.trees.Keys
    requires Released(s.disk, s.owner, ClearedBlocks(s.owner, i), s'.disk, owner)
    requires |s'.inodes| == |s.inodes| && s'.inodes == s.inodes[i := s'.inodes[i]]
    requires s'.inodes[i].mode == s.inodes[i].mode
    requires s'.live == s.live && s'.owner == LeakRest(owner, i) && s'.sh == WithTree(s.sh, i, EmptyTree(), 0)
    ensures FileStep(s, s', i)
  {
    hide IsDirMode, Cleared;
  }

  lemma TruncateUsed(first: nat, s: State, disk: seq<Block>, used: set<nat>, owner: Owner, i: nat)
    requires BlocksOk(first, s.disk, s.used, s.owner)
    requires Released(s.disk, s.owner, ClearedBlocks(s.owner, i), disk, owner)
    requires BlocksOk(first, disk, used, owner)
    ensures used == s.used - ClearedBlocks(s.owner, i)
    ensures forall p :: p in ClearedBlocks(s.owner, i) ==> first <= p && Blk(disk, p) == ZeroBlock()
    ensures disk[0] == s.disk[0]
  {
    hide Cleared;
  }

  lemma TruncatedThenMeta(first: nat, s: State, s': State, disk: seq<Block>, i: nat)
    requires Inv(first, s) && Inv(first, s') && FileStep(s, s', i) && Contents(s', i) == []
    requires s'.inodes[i].size == 0 && NullInode(s'.inodes[i]) && s'.used == s.used - ClearedBlocks(s.owner, i)
    requires forall p :: p in ClearedBlocks(s.owner, i) ==> first <= p && Blk(s'.disk, p) == ZeroBlock()
    requires Footprint(s'.owner, i) == {}
    requires LeakedBlocks(s'.owner) == LeakedBlocks(s.owner) + (Footprint(s.owner, i) - ClearedBlocks(s.owner, i))
    requires SameOutside(s'.disk, disk, 1, first)
    ensures Inv(first, s'.(disk := disk)) && Truncated(s, s'.(disk := disk), i)
  {
    hide FileData, FilesOk, InodesOk, NamesOk, ClearedBlocks, LeakedBlocks, Footprint;
    MetaKeepsInv(first, s', disk);
  }

  lemma ReleasedBlock0(disk: seq<Block>, owner: Owner, gone: set<nat>, disk': seq<Block>, owner': Owner)
    requires Released(disk, owner, gone, disk', owner') && 0 !in owner && |disk| > 0
    ensures disk'[0] == disk[0]
  {
    hide ZeroBlock;
  }

  /** The part of fs_truncate after path resolution. */
  method TruncateInode(v: Volume, inum: nat, now: u32)
    requires Valid(v) && inum in v.shadow.trees && inum < v.inodes.Length && !IsDir(v.inodes[inum])
    modifies v`used, v`owner, v`shadow, v.blockMap, v.disk, v.inodes
    ensures Valid(v)
    ensures Truncated(old(StateOf(v)), StateOf(v), inum)
    ensures v.inodes[..] == old(v.inodes[..])[inum := Emptied(old(v.inodes[inum]), now)]
    ensures v.Synced() && v.disk.Length > 0 && v.disk[0] == old(v.disk[0])
  {
    hide Inv, Valid, FileStep, FileData, TargetOk, Volume.MapsOk, BlocksOk, LeakRest, WithTree, Holds, SuperOf,
      Released, Contents, ClearedBlocks, LeakedBlocks, Footprint, Truncated;
    ghost var s, first := StateOf(v), v.sb.First();
    ValidParts(v);
    DiskFacts(v);
    TruncateReady(first, s, inum);
    ClearFile(v, inum, TargetOf(s, inum));
    ghost var owner := v.owner;
    ReleasedBlock0(s.disk, s.owner, ClearedBlocks(s.owner, inum), v.disk[..], owner);
    TruncateUsed(first, s, v.disk[..], v.used, owner, inum);
    v.inodes[inum] := v.inodes[inum].(size := 0, mtime := now);
    v.owner := LeakRest(owner, inum);
    v.shadow := WithTree(v.shadow, inum, EmptyTree(), 0);
    ghost var s1 := StateOf(v);
    TruncateStep(first, s, s1, inum, owner);
    LeakRestBlocks(first, v.disk[..], v.used, owner, inum);
    UpdateDisk(v);
    TruncatedThenMeta(first, s, s1, v.disk[..], inum);
    ValidFrom(v);
  }
}
