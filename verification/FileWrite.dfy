/** The body of fs_write after path resolution: the three tiers in order. */
module FileWrite {
  import opened Bytes
  import opened Codec
  import opened FileTrees
  import opened Volumes
  import opened Writing
  import opened WriteSteps

  /** A request that starts from a well-formed file of the given size. */
  ghost predicate Ready(w: Request, nd: Inode, size: nat) {
    && 0 !in w.owner && (forall p :: p in w.owner ==> p < |w.disk|)
    && Stored(w.t, nd, w.disk) && TreeOwned(w.ino, w.t, w.owner) && TreeExact(w.ino, w.t, w.owner)
    && Dense(w.t, w.c) && w.offset <= size <= BLOCK_SIZE * w.c
  }

  lemma GoingStart(w: Request, nd: Inode, size: nat)
    requires Ready(w, nd, size)
    ensures Going(w, 0, w.disk, w.owner, w.t) && Reach(w, 0) == w.c
  {
    hide Splice, Wanted, Stored, Dense;
    forall r {:trigger Leaf(w.t, r)} | ValidRegion(r)
      ensures RegionData(w, 0, w.disk, r, Leaf(w.t, r))
    {
      assert Owned(w.ino, r, Leaf(w.t, r), w.owner);
    }
  }

  /** What the owners of a tree give for one region: the job that write_helper is called with. */
  lemma RegionReady(ino: nat, t: Tree, owner: Owner, r: Region)
    requires ValidRegion(r) && 0 !in owner && TreeOwned(ino, t, owner) && TreeExact(ino, t, owner)
    ensures Owned(ino, r, Leaf(t, r), owner) && Exact(ino, r, Leaf(t, r), owner)
  {
    forall p | p in owner && InRegion(owner[p], ino, r)
      ensures owner[p].k < Size(r) && Leaf(t, r)[owner[p].k] == p
    {
      assert Hangs(t, owner[p], p);
    }
  }

  lemma DenseRegion(t: Tree, c: nat, r: Region)
    requires Dense(t, c) && ValidRegion(r)
    ensures DenseRun(Leaf(t, r), First(r), c)
  {
  }

  /** The pointer tables of the tree are those on a disk where only data blocks have changed. */
  lemma StoredKept(q: Job, n: nat, a: seq<u32>, disk': seq<Block>, owner': Owner, t: Tree, nd: Inode)
    requires Filled(q, n, a, disk', owner') && Stored(t, nd, q.disk) && TreeOwned(q.ino, t, q.owner)
    ensures Stored(t, nd, disk')
  {
    hide Filled, Owned;
    TableKept(q, n, a, disk', owner', t.ind1);
    TableKept(q, n, a, disk', owner', t.ind2);
    forall j | 0 <= j < N_PTRS
      ensures t.two[j] == Table(disk', t.tabs[j])
    {
      TableKept(q, n, a, disk', owner', t.tabs[j]);
    }
  }

  method WriteDirect(v: Volume, inum: nat, data: array<byte>, buf: seq<byte>, offset: nat, size: nat, ghost w: Request)
    returns (err: int, len: nat, offsetCnt: nat, cnt: nat, ghost t: Tree, ghost f: nat)
    requires v.DiskOk() && inum < v.inodes.Length && data.Length == BLOCK_SIZE && data !in v.Arrays()
    requires w == Request(inum, offset, buf, w.t, w.c, v.disk[..], v.owner) && Ready(w, v.inodes[inum], size)
    modifies v`used, v`owner, v.blockMap, v.disk, v.inodes, data
    ensures v.DiskOk()
    ensures err == 0 || err == -ENOSPC
    ensures v.inodes[..] == old(v.inodes[..])[inum := old(v.inodes[inum]).(direct := t.direct)]
    ensures Going(w, 6, v.disk[..], v.owner, t) && Stored(t, v.inodes[inum], v.disk[..])
    ensures t == w.t.(direct := t.direct)
    ensures err == 0 ==> Dense(t, Reach(w, 6)) && Passed(BLOCK_SIZE * 6, buf, len, offset, offsetCnt, cnt)
    ensures err != 0 ==> Landed(w, v.disk[..], v.owner, v.inodes[inum], t, f) && Stuck(w, v.owner, t, f, f)
    ensures err != 0 ==> forall p: nat :: p < v.disk.Length ==> p in v.used
  {
    hide Volume.DiskOk, Going, Filled, TreeOwned, TreeExact, Owned, Exact, Stored, BlocksFor, Table;
    GoingStart(w, v.inodes[inum], size);
    RegionReady(inum, w.t, w.owner, Direct);
    DiskFacts(v);
    var direct := new u32[N_DIRECT];
    assert v.inodes[inum].direct == w.t.direct by { StoredTop(w.t, v.inodes[inum], w.disk); }
    forall k | 0 <= k < N_DIRECT { direct[k] := v.inodes[inum].direct[k]; }
    assert direct[..] == w.t.direct;
    ghost var q := Job(inum, Direct, offset, buf, direct[..], v.disk[..], v.owner);
    DenseRegion(w.t, w.c, Direct);
    err, len, offsetCnt, cnt, f := WriteHelper(v, data, buf, 0, |buf|, offset, 6, size, 0, 0, direct, q, w.c);
    assert v.inodes[inum] == old(v.inodes[inum]);
    assert q.disk == w.disk;
    assert Stored(w.t, old(v.inodes[inum]), w.disk);
    StoredKept(q, 6, direct[..], v.disk[..], v.owner, w.t, v.inodes[inum]);
    v.inodes[inum] := v.inodes[inum].(direct := direct[..]);
    t := WithLeaf(w.t, Direct, direct[..]);
    StoredWithDirect(w.t, v.inodes[inum].(direct := w.t.direct), v.disk[..], direct[..]);
    GoingFill(w, w.disk, w.owner, w.t, q, direct[..], v.disk[..], v.owner, f);
    if err == 0 {
      DenseFill(w, w.t, t, Direct, direct[..]);
    } else {
      DirectFull(w, t, f);
      GoingParts(w, 6, v.disk[..], v.owner, t);
      KeepsRefl(t);
      Land(w, 6, v.disk[..], v.owner, t, t, v.inodes[inum], f);
      Stops(w, v.owner, t, f, t, f);
    }
  }

  lemma StoredWithDirect(t: Tree, nd: Inode, disk: seq<Block>, a: seq<u32>)
    requires Stored(t, nd, disk) && |a| == N_DIRECT
    ensures Stored(WithLeaf(t, Direct, a), nd.(direct := a), disk)
  {
  }

  lemma GoingParts(w: Request, b: nat, disk: seq<Block>, owner: Owner, t: Tree)
    requires Going(w, b, disk, owner, t)
    ensures TreeKeeps(w.t, t) && TreeOwned(w.ino, t, owner) && TreeExact(w.ino, t, owner) && 0 !in owner
    ensures Handed(w, owner)
  {
  }

  /** The file when the disk fills up among the direct blocks. */
  lemma DirectFull(w: Request, t: Tree, f: nat)
    requires Dense(w.t, w.c) && w.c <= f < 6 && t == w.t.(direct := t.direct)
    requires DenseRun(t.direct, 0, f)
    ensures Dense(t, f) && Upto(t, f)
  {
    forall r {:trigger Leaf(t, r)} | ValidRegion(r)
      ensures DenseRun(Leaf(t, r), First(r), f)
    {
      assert DenseRun(Leaf(w.t, r), First(r), w.c);
    }
    DenseUpto(t, f);
  }

  // ---- the indirect block ---------------------------------------------------------------------

  /** A fresh block is an empty pointer table. */
  lemma StoredTake1(t: Tree, nd: Inode, disk: seq<Block>, p: u32)
    requires Stored(t, nd, disk) && t.ind1 == 0 && p < |disk| && disk[p] == ZeroBlock()
    ensures Stored(t.(ind1 := p), nd.(indir1 := p), disk)
  {
    PtrsOfZero();
  }

  /** Writing back the indirect block. */
  lemma StoredStore1(ino: nat, t: Tree, nd: Inode, disk: seq<Block>, owner: Owner, a: Words, blk: Block)
    requires Stored(t, nd, disk) && TreeOwned(ino, WithLeaf(t, Single, a), owner)
    requires 0 < t.ind1 < |disk| && Ptrs(blk) == a
    ensures Stored(WithLeaf(t, Single, a), nd, disk[t.ind1 := blk])
  {
    hide Ptrs, Owned;
  }

  /** The pointer block in slot s is on the disk. */
  lemma PtrPresent(ino: nat, t: Tree, owner: Owner, s: Slot)
    requires TreeOwned(ino, t, owner) && PtrSlot(s) && s.ino == ino && PtrAt(t, s) != 0
    ensures PtrAt(t, s) in owner && owner[PtrAt(t, s)] == s
  {
    hide Owned;
  }

  lemma WantsMore(w: Request, b: nat, len: nat, offsetCnt: nat, cnt: nat)
    requires len > 0 && Passed(BLOCK_SIZE * b, w.buf, len, w.offset, offsetCnt, cnt)
    ensures b < Wanted(w)
  {
    BlocksForBound(w.offset + |w.buf|, b);
  }

  /** The indirect block is allocated if the file does not have one. */
  method EnsureSingle(v: Volume, inum: nat, ghost w: Request, ghost t0: Tree)
    returns (err: int, ghost t: Tree)
    requires v.DiskOk() && inum == w.ino && inum < v.inodes.Length
    requires Going(w, 6, v.disk[..], v.owner, t0) && Dense(t0, Reach(w, 6)) && Stored(t0, v.inodes[inum], v.disk[..])
    requires 6 < Wanted(w)
    modifies v`used, v`owner, v.blockMap, v.inodes
    ensures v.DiskOk()
    ensures err == 0 || err == -ENOSPC
    ensures v.inodes[..] == old(v.inodes[..])[inum := old(v.inodes[inum]).(indir1 := t.ind1)]
    ensures t == t0.(ind1 := t.ind1) && Stored(t, v.inodes[inum], v.disk[..])
    ensures Going(w, 6, v.disk[..], v.owner, t) && Dense(t, Reach(w, 6))
    ensures err == 0 ==> t.ind1 != 0
    ensures err != 0 ==> t.ind1 == 0 && forall p: nat :: p < v.disk.Length ==> p in v.used
  {
    hide Volume.DiskOk, Going, Stored, Wanted;
    err, t := 0, t0;
    StoredTop(t0, v.inodes[inum], v.disk[..]);
    DiskFacts(v);
    if v.inodes[inum].indir1 == 0 {
      var nextBlock := TakeBlock(v, Ind1(inum));
      if nextBlock < 0 {
        assert v.inodes[..] == old(v.inodes[..])[inum := old(v.inodes[inum]).(indir1 := t.ind1)];
        return -ENOSPC, t;
      }
      StoredTake1(t0, v.inodes[inum], v.disk[..], nextBlock);
      GoingTake(w, 6, v.disk[..], old(v.owner), t0, Ind1(inum), nextBlock);
      v.inodes[inum] := v.inodes[inum].(indir1 := nextBlock);
      t := WithPtr(t0, Ind1(inum), nextBlock);
      DenseTake1(w, t0, t);
    }
  }

  lemma DenseTake1(w: Request, t0: Tree, t: Tree)
    requires Dense(t0, Reach(w, 6)) && 6 < Wanted(w) && t == t0.(ind1 := t.ind1) && t.ind1 != 0
    ensures Dense(t, Reach(w, 6))
  {
    forall r {:trigger Leaf(t, r)} | ValidRegion(r)
      ensures DenseRun(Leaf(t, r), First(r), Reach(w, 6))
    {
      assert DenseRun(Leaf(t0, r), First(r), Reach(w, 6));
    }
  }

  /** The buffered indirect block is written back. */
  method StoreSingle(v: Volume, inum: nat, indir1: array<u32>, ghost w: Request, ghost t0: Tree, ghost t: Tree)
    requires v.DiskOk() && inum == w.ino && inum < v.inodes.Length && indir1.Length == N_PTRS && indir1 !in v.Arrays()
    requires Going(w, 262, v.disk[..], v.owner, t) && Stored(t0, v.inodes[inum], v.disk[..])
    requires t0.ind1 != 0 && t == WithLeaf(t0, Single, indir1[..])
    modifies v.disk
    ensures v.DiskOk() && Going(w, 262, v.disk[..], v.owner, t) && Stored(t, v.inodes[inum], v.disk[..])
  {
    hide Volume.DiskOk, Going, TreeOwned, Stored;
    DiskFacts(v);
    StoredTop(t0, v.inodes[inum], v.disk[..]);
    GoingParts(w, 262, v.disk[..], v.owner, t);
    PtrPresent(inum, t, v.owner, Ind1(inum));
    ghost var d := v.disk[..];
    WritePtrs(v, indir1, v.inodes[inum].indir1);
    GoingStore(w, 262, d, v.owner, t, t.ind1, v.disk[t.ind1]);
    StoredStore1(inum, t0, v.inodes[inum], d, v.owner, indir1[..], v.disk[t.ind1]);
  }

  method WriteSingle(v: Volume, inum: nat, data: array<byte>, buf: seq<byte>, len0: nat, offset: nat, size: nat,
                     offsetCnt0: nat, cnt0: nat, indir1: array<u32>, ghost w: Request, ghost t0: Tree)
    returns (err: int, len: nat, offsetCnt: nat, cnt: nat, ghost t: Tree, ghost f: nat)
    requires v.DiskOk() && inum < v.inodes.Length && data.Length == BLOCK_SIZE && indir1.Length == N_PTRS
    requires data !in v.Arrays() && indir1 !in v.Arrays() && data as object != indir1
    requires inum == w.ino && offset == w.offset && buf == w.buf && offset <= size <= BLOCK_SIZE * w.c
    requires Going(w, 6, v.disk[..], v.owner, t0) && Dense(t0, Reach(w, 6)) && Stored(t0, v.inodes[inum], v.disk[..])
    requires Dense(w.t, w.c) && w.c <= MAX_BLOCKS && t0.ind1 != 0
    requires len0 > 0 && Passed(BLOCK_SIZE * 6, buf, len0, offset, offsetCnt0, cnt0)
    modifies v`used, v`owner, v.blockMap, v.disk, data, indir1
    ensures v.DiskOk()
    ensures err == 0 || err == -ENOSPC
    ensures Stored(t, v.inodes[inum], v.disk[..]) && t == t0.(one := t.one)
    ensures err == 0 ==> Going(w, 262, v.disk[..], v.owner, t) && Dense(t, Reach(w, 262))
    ensures err == 0 ==> Passed(BLOCK_SIZE * 262, buf, len, offset, offsetCnt, cnt)
    ensures err != 0 ==>
      Landed(w, v.disk[..], v.owner, v.inodes[inum], t, Reach(w, 6)) && Stuck(w, v.owner, t, Reach(w, 6), f)
    ensures err != 0 ==> forall p: nat :: p < v.disk.Length ==> p in v.used
  {
    hide Volume.DiskOk, Going, Filled, TreeOwned, TreeExact, Owned, Exact, Stored, BlocksFor, Dense, DenseRun, Landed,
      Stuck;
    DiskFacts(v);
    WantsMore(w, 6, len0, offsetCnt0, cnt0);
    StoredTop(t0, v.inodes[inum], v.disk[..]);
    GoingParts(w, 6, v.disk[..], v.owner, t0);
    PtrPresent(inum, t0, v.owner, Ind1(inum));
    ReadPtrs(v, indir1, v.inodes[inum].indir1);
    ghost var q := Job(inum, Single, offset, buf, indir1[..], v.disk[..], v.owner);
    RegionReady(inum, t0, v.owner, Single);
    DenseRegion(t0, Reach(w, 6), Single);
    DenseRegion(w.t, w.c, Single);
    err, len, offsetCnt, cnt, f := WriteHelper(v, data, buf, cnt0, len0, offset, 256, size, offsetCnt0, cnt0, indir1, q,
                                               Reach(w, 6));
    StoredKept(q, 256, indir1[..], v.disk[..], v.owner, t0, v.inodes[inum]);
    ghost var t1 := WithLeaf(t0, Single, indir1[..]);
    GoingFill(w, q.disk, q.owner, t0, q, indir1[..], v.disk[..], v.owner, f);
    if err < 0 {
      t := t0;
      FilledKeeps(q, 256, indir1[..], v.disk[..], v.owner);
      SingleLands(w, v.disk[..], v.owner, v.inodes[inum], t0, t1, f);
      return;
    }
    t := t1;
    DenseFill(w, t0, t1, Single, indir1[..]);
    if offsetCnt + cnt > size {
      StoreSingle(v, inum, indir1, w, t0, t1);
    }
  }

  /** The file when the disk fills up behind the indirect block: the buffered pointers are lost. */
  lemma SingleLands(w: Request, disk: seq<Block>, owner: Owner, nd: Inode, t0: Tree, t1: Tree, f: nat)
    requires Going(w, 262, disk, owner, t1) && TreeKeeps(w.t, t0) && Stored(t0, nd, disk)
    requires Dense(w.t, w.c) && Dense(t0, Reach(w, 6)) && Reach(w, 6) <= f < 262 && 6 < Wanted(w) && f < Wanted(w)
    requires DenseRun(t1.one, 6, f) && t1 == t0.(one := t1.one) && Keeps(t0.one, t1.one) && t0.ind1 != 0
    ensures Landed(w, disk, owner, nd, t0, Reach(w, 6)) && Stuck(w, owner, t0, Reach(w, 6), f)
  {
    hide Going, Landed, Stuck, Stored, TreeOwned, TreeExact, TreeKeeps, Wanted, Dense;
    SingleFull(w, t0, t1, f);
    GoingParts(w, 262, disk, owner, t1);
    Land(w, 262, disk, owner, t1, t0, nd, Reach(w, 6));
    Stops(w, owner, t1, f, t0, Reach(w, 6));
  }

  lemma FilledKeeps(q: Job, n: nat, a: seq<u32>, disk: seq<Block>, owner: Owner)
    requires Filled(q, n, a, disk, owner)
    ensures Keeps(q.a, a)
  {
  }

  lemma SingleFull(w: Request, t0: Tree, t1: Tree, f: nat)
    requires Dense(w.t, w.c) && Dense(t0, Reach(w, 6)) && Reach(w, 6) <= f < 262 && 6 < Wanted(w)
    requires DenseRun(t1.one, 6, f) && t1 == t0.(one := t1.one)
    requires Keeps(t0.one, t1.one) && t0.ind1 != 0
    ensures Upto(t1, f) && TreeKeeps(t0, t1) && Reach(w, 6) == Landing(w.c, f)
  {
    forall r {:trigger Leaf(t1, r)} | ValidRegion(r)
      ensures DenseRun(Leaf(t1, r), First(r), f) && Keeps(Leaf(t0, r), Leaf(t1, r))
    {
      assert DenseRun(Leaf(t0, r), First(r), Reach(w, 6));
    }
  }

  // ---- the double-indirect block ------------------------------------------------------------------

  lemma StoredTake2(t: Tree, nd: Inode, disk: seq<Block>, p: u32)
    requires Stored(t, nd, disk) && t.ind2 == 0 && p < |disk| && disk[p] == ZeroBlock()
    ensures Stored(t.(ind2 := p), nd.(indir2 := p), disk)
  {
    PtrsOfZero();
  }

  /** The double-indirect block is allocated if the file does not have one. */
  method EnsureDouble(v: Volume, inum: nat, ghost w: Request, ghost t0: Tree)
    returns (err: int, ghost t: Tree)
    requires v.DiskOk() && inum == w.ino && inum < v.inodes.Length
    requires Going(w, 262, v.disk[..], v.owner, t0) && Dense(t0, Reach(w, 262))
    requires Stored(t0, v.inodes[inum], v.disk[..])
    requires 262 < Wanted(w)
    modifies v`used, v`owner, v.blockMap, v.inodes
    ensures v.DiskOk()
    ensures err == 0 || err == -ENOSPC
    ensures v.inodes[..] == old(v.inodes[..])[inum := old(v.inodes[inum]).(indir2 := t.ind2)]
    ensures t == t0.(ind2 := t.ind2) && Stored(t, v.inodes[inum], v.disk[..])
    ensures Going(w, 262, v.disk[..], v.owner, t) && Dense(t, Reach(w, 262))
    ensures err == 0 ==> t.ind2 != 0
    ensures err != 0 ==> t.ind2 == 0 && forall p: nat :: p < v.disk.Length ==> p in v.used
  {
    hide Volume.DiskOk, Going, Stored, Wanted;
    err, t := 0, t0;
    StoredTop(t0, v.inodes[inum], v.disk[..]);
    DiskFacts(v);
    if v.inodes[inum].indir2 == 0 {
      var nextBlock := TakeBlock(v, Ind2(inum));
      if nextBlock < 0 {
        assert v.inodes[..] == old(v.inodes[..])[inum := old(v.inodes[inum]).(indir2 := t.ind2)];
        return -ENOSPC, t;
      }
      StoredTake2(t0, v.inodes[inum], v.disk[..], nextBlock);
      GoingTake(w, 262, v.disk[..], old(v.owner), t0, Ind2(inum), nextBlock);
      v.inodes[inum] := v.inodes[inum].(indir2 := nextBlock);
      t := WithPtr(t0, Ind2(inum), nextBlock);
      DenseTake2(w, t0, t);
    }
  }

  lemma DenseTake2(w: Request, t0: Tree, t: Tree)
    requires Dense(t0, Reach(w, 262)) && 262 < Wanted(w) && t == t0.(ind2 := t.ind2) && t.ind2 != 0
    ensures Dense(t, Reach(w, 262))
  {
    forall r {:trigger Leaf(t, r)} | ValidRegion(r)
      ensures DenseRun(Leaf(t, r), First(r), Reach(w, 262))
    {
      assert DenseRun(Leaf(t0, r), First(r), Reach(w, 262));
    }
  }

  /** The second-level tables of the tree are on the disk. */
  ghost predicate TwoStored(t: Tree, disk: seq<Block>) {
    forall j :: 0 <= j < N_PTRS ==> t.two[j] == Table(disk, t.tabs[j])
  }

  /** Every pointer block in use, except block x, has the same contents on both disks. */
  ghost predicate PtrsKept(disk: seq<Block>, disk': seq<Block>, owner: Owner, x: nat) {
    && |disk'| == |disk|
    && forall p :: p in owner && p < |disk| && p != x && !owner[p].Data? ==> disk'[p] == disk[p]
  }

  /** One turn of the loop over the second-level tables: the table is allocated if the file lacks it. */
  method EnsureTable(v: Volume, inum: nat, indir2: array<u32>, i: nat, ghost w: Request, ghost t0: Tree)
    returns (err: int, ghost t: Tree)
    requires v.DiskOk() && inum == w.ino && indir2.Length == N_PTRS && indir2 !in v.Arrays() && i < N_PTRS
    requires Going(w, First(Double(i)), v.disk[..], v.owner, t0) && TwoStored(t0, v.disk[..]) && indir2[..] == t0.tabs
    requires First(Double(i)) < Wanted(w)
    modifies v`used, v`owner, v.blockMap, indir2
    ensures v.DiskOk()
    ensures err == 0 || err == -ENOSPC
    ensures indir2[..] == t.tabs && t == t0.(tabs := t.tabs)
    ensures Going(w, First(Double(i)), v.disk[..], v.owner, t) && TwoStored(t, v.disk[..])
    ensures forall j :: 0 <= j < N_PTRS && j != i ==> t.tabs[j] == t0.tabs[j]
    ensures err == 0 ==> t.tabs[i] != 0 && (t0.tabs[i] != 0 ==> t == t0)
    ensures err != 0 ==> t0.tabs[i] == 0 && t == t0 && forall p: nat :: p < v.disk.Length ==> p in v.used
  {
    hide Volume.DiskOk, Going, Wanted, TwoStored;
    err, t := 0, t0;
    DiskFacts(v);
    if indir2[i] == 0 {
      var nextBlock := TakeBlock(v, Tab(inum, i));
      if nextBlock < 0 {
        return -ENOSPC, t;
      }
      GoingTake(w, First(Double(i)), v.disk[..], old(v.owner), t0, Tab(inum, i), nextBlock);
      indir2[i] := nextBlock;
      t := WithPtr(t0, Tab(inum, i), nextBlock);
      TwoStoredTake(t0, t, v.disk[..], i);
    }
  }

  lemma TwoStoredTake(t0: Tree, t: Tree, disk: seq<Block>, i: nat)
    requires TwoStored(t0, disk) && i < N_PTRS && t0.tabs[i] == 0
    requires t.two == t0.two && t.tabs == t0.tabs[i := t.tabs[i]]
    requires t.tabs[i] < |disk| && disk[t.tabs[i]] == ZeroBlock()
    ensures TwoStored(t, disk)
  {
    PtrsOfZero();
  }

  lemma FilledPtrs(q: Job, n: nat, a: seq<u32>, disk': seq<Block>, owner': Owner, x: nat)
    requires Filled(q, n, a, disk', owner')
    ensures PtrsKept(q.disk, disk', q.owner, x)
    ensures Keeps(q.a, a) && (forall p :: p in q.owner ==> p in owner' && owner'[p] == q.owner[p])
  {
    hide Splice, Owned, Exact;
  }

  lemma TwoStoredKept(ino: nat, t: Tree, disk: seq<Block>, disk': seq<Block>, owner: Owner)
    requires TwoStored(t, disk) && TreeOwned(ino, t, owner) && PtrsKept(disk, disk', owner, 0)
    ensures TwoStored(t, disk')
  {
    hide Ptrs, Owned;
  }

  lemma TwoStoredStore(ino: nat, t: Tree, disk: seq<Block>, owner: Owner, i: nat, a: Words, blk: Block)
    requires i < N_PTRS && TwoStored(t, disk) && TreeOwned(ino, WithLeaf(t, Double(i), a), owner)
    requires 0 < t.tabs[i] < |disk| && Ptrs(blk) == a
    ensures TwoStored(WithLeaf(t, Double(i), a), disk[t.tabs[i] := blk])
  {
    hide Ptrs, Owned;
  }

  lemma TwoStoredAt(t: Tree, disk: seq<Block>, i: nat)
    requires TwoStored(t, disk) && i < N_PTRS
    ensures t.two[i] == Table(disk, t.tabs[i])
  {
  }

  lemma PtrsKeptStore(disk: seq<Block>, disk': seq<Block>, owner: Owner, x: nat, blk: Block)
    requires PtrsKept(disk, disk', owner, x) && x < |disk'|
    ensures PtrsKept(disk, disk'[x := blk], owner, x)
  {
  }

  /** The buffered table i is written back. */
  method StoreTable(v: Volume, inum: nat, indir1: array<u32>, tab: nat, i: nat, ghost w: Request, ghost t0: Tree,
                    ghost t: Tree)
    requires v.DiskOk() && inum == w.ino && indir1.Length == N_PTRS && indir1 !in v.Arrays() && i < N_PTRS
    requires Going(w, First(Double(i)) + 256, v.disk[..], v.owner, t) && TwoStored(t0, v.disk[..])
    requires t0.tabs[i] == tab != 0 && t == WithLeaf(t0, Double(i), indir1[..])
    modifies v.disk
    ensures v.DiskOk() && Going(w, First(Double(i)) + 256, v.disk[..], v.owner, t) && TwoStored(t, v.disk[..])
    ensures tab < v.disk.Length && v.disk[..] == old(v.disk[..])[tab := v.disk[tab]]
  {
    hide Volume.DiskOk, Going, TreeOwned, TwoStored;
    DiskFacts(v);
    GoingParts(w, First(Double(i)) + 256, v.disk[..], v.owner, t);
    PtrPresent(inum, t, v.owner, Tab(inum, i));
    ghost var d := v.disk[..];
    WritePtrs(v, indir1, tab);
    GoingStore(w, First(Double(i)) + 256, d, v.owner, t, tab, v.disk[tab]);
    TwoStoredStore(inum, t0, d, v.owner, i, indir1[..], v.disk[tab]);
  }

  /** One turn of the loop over the second-level tables: write_helper on table i. */
  method FillTable(v: Volume, inum: nat, data: array<byte>, buf: seq<byte>, len0: nat, offset: nat, size: nat,
                   offsetCnt0: nat, cnt0: nat, indir1: array<u32>, tab: nat, i: nat, ghost w: Request, ghost t0: Tree)
    returns (err: int, len: nat, offsetCnt: nat, cnt: nat, ghost t: Tree, ghost f: nat)
    requires v.DiskOk() && data.Length == BLOCK_SIZE && indir1.Length == N_PTRS
    requires data !in v.Arrays() && indir1 !in v.Arrays() && data as object != indir1
    requires inum == w.ino && offset == w.offset && buf == w.buf && offset <= size <= BLOCK_SIZE * w.c
    requires i < N_PTRS && t0.tabs[i] == tab != 0
    requires Going(w, First(Double(i)), v.disk[..], v.owner, t0) && TwoStored(t0, v.disk[..])
    requires DenseRun(t0.two[i], First(Double(i)), Reach(w, First(Double(i))))
    requires DenseRun(w.t.two[i], First(Double(i)), w.c)
    requires len0 > 0 && Passed(BLOCK_SIZE * First(Double(i)), buf, len0, offset, offsetCnt0, cnt0)
    modifies v`used, v`owner, v.blockMap, v.disk, data, indir1
    ensures v.DiskOk()
    ensures err == 0 || err == -ENOSPC
    ensures t == WithLeaf(t0, Double(i), t.two[i]) && Keeps(t0.two[i], t.two[i])
    ensures DenseRun(t.two[i], First(Double(i)), f)
    ensures Going(w, First(Double(i)) + 256, v.disk[..], v.owner, t)
    ensures PtrsKept(old(v.disk[..]), v.disk[..], old(v.owner), tab)
    ensures err == 0 ==> TwoStored(t, v.disk[..]) && f == Max(Reach(w, First(Double(i))), Wanted(w))
    ensures err == 0 ==> Passed(BLOCK_SIZE * (First(Double(i)) + 256), buf, len, offset, offsetCnt, cnt)
    ensures err == 0 && t.two[i] != t0.two[i] ==> offsetCnt + cnt > size
    ensures err != 0 ==> TwoStored(t0, v.disk[..])
    ensures err != 0 ==> Reach(w, First(Double(i))) <= f < Wanted(w) && First(Double(i)) <= f < First(Double(i)) + 256
    ensures err != 0 ==> forall p: nat :: p < v.disk.Length ==> p in v.used
  {
    hide Volume.DiskOk, Going, Filled, TreeOwned, TreeExact, Owned, Exact, TwoStored, PtrsKept, BlocksFor, DenseRun,
      Keeps;
    DiskFacts(v);
    TwoStoredAt(t0, v.disk[..], i);
    GoingParts(w, First(Double(i)), v.disk[..], v.owner, t0);
    PtrPresent(inum, t0, v.owner, Tab(inum, i));
    ReadPtrs(v, indir1, tab);
    ghost var q := Job(inum, Double(i), offset, buf, indir1[..], v.disk[..], v.owner);
    RegionReady(inum, t0, v.owner, Double(i));
    err, len, offsetCnt, cnt, f := WriteHelper(v, data, buf, cnt0, len0, offset, 256, size, offsetCnt0, cnt0, indir1, q,
                                               Reach(w, First(Double(i))));
    FilledPtrs(q, 256, indir1[..], v.disk[..], v.owner, 0);
    FilledPtrs(q, 256, indir1[..], v.disk[..], v.owner, tab);
    TwoStoredKept(inum, t0, q.disk, v.disk[..], q.owner);
    t := WithLeaf(t0, Double(i), indir1[..]);
    GoingFill(w, q.disk, q.owner, t0, q, indir1[..], v.disk[..], v.owner, f);
    if err < 0 { return; }
    if offsetCnt + cnt > size {
      ghost var d := v.disk[..];
      StoreTable(v, inum, indir1, tab, i, w, t0, t);
      PtrsKeptStore(q.disk, d, q.owner, tab, v.disk[tab]);
    } else {
      assert t0.two[i := t0.two[i]] == t0.two;
      assert t == t0;
    }
  }

  /** What is on the disk while the second-level tables are filled: tables below i are done and stored, tables
      from i on are those of the original file, and so is the double-indirect block itself. */
  ghost predicate TablesDone(w: Request, i: nat, disk: seq<Block>, t: Tree) {
    && i <= N_PTRS
    && Dense(t, Reach(w, First(Double(i)))) && TwoStored(t, disk)
    && t.ind1 != 0 && t.ind2 != 0
    && t.one == Table(disk, t.ind1) && w.t.tabs == Table(disk, t.ind2)
    && (forall j :: i <= j < N_PTRS ==> t.two[j] == w.t.two[j])
  }

  /** The tree that a failed write leaves on the disk: the double-indirect block was not written back, so only
      the tables that it already pointed to remain. */
  ghost function TreeOnDisk(w: Request, t: Tree): Tree {
    t.(tabs := w.t.tabs,
      two := seq(N_PTRS, j requires 0 <= j < N_PTRS => if w.t.tabs[j] == 0 then Nulls() else t.two[j]))
  }

  /** The number of data blocks of that tree when the loop stops at table i. */
  function BlocksOnDisk(w: Request, i: nat): nat
    requires i < N_PTRS
  {
    if w.t.tabs[i] != 0 then w.c else TableEnd(w.c)
  }

  lemma OnDiskDense(w: Request, i: nat, t: Tree)
    requires i < N_PTRS && Dense(w.t, w.c) && First(Double(i)) < Wanted(w)
    requires Dense(t, Reach(w, First(Double(i)))) && t.ind1 != 0 && t.ind2 != 0
    requires forall j :: i <= j < N_PTRS ==> t.two[j] == w.t.two[j]
    requires w.c <= First(Double(i)) + 256
    ensures Dense(TreeOnDisk(w, t), BlocksOnDisk(w, i))
    ensures w.c <= BlocksOnDisk(w, i) <= Max(w.c, First(Double(i)))
  {
    hide Wanted;
    var td, c := TreeOnDisk(w, t), BlocksOnDisk(w, i);
    forall r {:trigger Leaf(td, r)} | ValidRegion(r)
      ensures DenseRun(Leaf(td, r), First(r), c)
    {
      assert DenseRun(Leaf(t, r), First(r), Reach(w, First(Double(i))));
      assert DenseRun(Leaf(w.t, r), First(r), w.c);
    }
  }

  lemma OnDiskKeeps(w: Request, t: Tree, tm: Tree)
    requires TreeKeeps(w.t, t) && TreeKeeps(t, tm) && Dense(w.t, w.c)
    ensures TreeKeeps(w.t, TreeOnDisk(w, t)) && TreeKeeps(TreeOnDisk(w, t), tm)
  {
    var td := TreeOnDisk(w, t);
    forall r {:trigger Leaf(td, r)} | ValidRegion(r)
      ensures Keeps(Leaf(w.t, r), Leaf(td, r)) && Keeps(Leaf(td, r), Leaf(tm, r))
    {
      assert Keeps(Leaf(w.t, r), Leaf(t, r)) && Keeps(Leaf(t, r), Leaf(tm, r));
      assert DenseRun(Leaf(w.t, r), First(r), w.c);
    }
  }

  lemma TablesKept(ino: nat, t: Tree, disk: seq<Block>, disk': seq<Block>, owner: Owner, i: nat)
    requires TreeOwned(ino, t, owner) && i < N_PTRS && t.tabs[i] != 0 && PtrsKept(disk, disk', owner, t.tabs[i])
    ensures Table(disk', t.ind1) == Table(disk, t.ind1) && Table(disk', t.ind2) == Table(disk, t.ind2)
  {
    hide Ptrs, Owned;
  }

  /** The file when the disk fills up at table i; tm holds the buffered pointers, t what is stored. */
  lemma DoubleLands(w: Request, i: nat, b: nat, disk: seq<Block>, owner: Owner, nd: Inode, t: Tree, tm: Tree, f: nat)
    requires Going(w, b, disk, owner, tm) && i < N_PTRS && First(Double(i)) <= b
    requires TablesDone(w, i, disk, t) && Dense(w.t, w.c) && TreeKeeps(w.t, t) && TreeKeeps(t, tm)
    requires t.direct == nd.direct && t.ind1 == nd.indir1 && t.ind2 == nd.indir2
    requires w.c <= f && First(Double(i)) <= f < First(Double(i)) + 256 && f < Wanted(w) && Upto(tm, f)
    requires w.c <= b
    ensures Landed(w, disk, owner, nd, TreeOnDisk(w, t), BlocksOnDisk(w, i))
    ensures Stuck(w, owner, TreeOnDisk(w, t), BlocksOnDisk(w, i), f)
  {
    hide Going, Wanted, Dense, Landed, TreeExact, Stuck, Leaf, Handed, BlocksOnDisk, Reach;
    GoingParts(w, b, disk, owner, tm);
    OnDiskDense(w, i, t);
    OnDiskKeeps(w, t, tm);
    Land(w, b, disk, owner, tm, TreeOnDisk(w, t), nd, BlocksOnDisk(w, i));
    LandingTable(w, i, f);
    Stops(w, owner, tm, f, TreeOnDisk(w, t), BlocksOnDisk(w, i));
  }

  lemma LandingTable(w: Request, i: nat, f: nat)
    requires i < N_PTRS && Dense(w.t, w.c) && w.c <= f && First(Double(i)) <= f < First(Double(i)) + 256
    ensures BlocksOnDisk(w, i) == Landing(w.c, f) && f < MAX_BLOCKS
  {
    hide DenseRun;
  }

  lemma TwoStoredBefore(t0: Tree, t1: Tree, disk: seq<Block>, disk': seq<Block>, i: nat)
    requires TwoStored(t0, disk) && TwoStored(t1, disk') && i < N_PTRS && t1.two == t0.two
    requires forall j :: 0 <= j < N_PTRS && j != i ==> t1.tabs[j] == t0.tabs[j]
    requires t0.tabs[i] != 0 ==> t1.tabs[i] == t0.tabs[i]
    ensures TwoStored(t0, disk')
  {
    hide Ptrs;
    forall j | 0 <= j < N_PTRS
      ensures t0.two[j] == Table(disk', t0.tabs[j])
    {
      assert t0.two[j] == Table(disk, t0.tabs[j]) && t1.two[j] == Table(disk', t1.tabs[j]);
    }
  }

  lemma TableKeeps(t0: Tree, t1: Tree, t2: Tree, i: nat)
    requires i < N_PTRS && t1 == t0.(tabs := t1.tabs) && t2 == WithLeaf(t1, Double(i), t2.two[i])
    requires Keeps(t0.tabs, t1.tabs) && Keeps(t1.two[i], t2.two[i])
    ensures TreeKeeps(t0, t2)
  {
  }

  /** The turn for table i ended with a full disk. */
  lemma TableFails(w: Request, i: nat, disk: seq<Block>, disk': seq<Block>, owner: Owner, owner': Owner,
                   nd: Inode, t0: Tree, t1: Tree, t2: Tree, f: nat)
    requires i < N_PTRS && Dense(w.t, w.c) && TreeKeeps(w.t, t0) && TablesDone(w, i, disk, t0)
    requires t0.direct == nd.direct && t0.ind1 == nd.indir1 && t0.ind2 == nd.indir2
    requires t1 == t0.(tabs := t1.tabs) && t2 == WithLeaf(t1, Double(i), t2.two[i]) && Keeps(t1.two[i], t2.two[i])
    requires forall j :: 0 <= j < N_PTRS && j != i ==> t1.tabs[j] == t0.tabs[j]
    requires t1.tabs[i] != 0 && (t0.tabs[i] != 0 ==> t1.tabs[i] == t0.tabs[i])
    requires TreeOwned(w.ino, t1, owner) && PtrsKept(disk, disk', owner, t1.tabs[i])
    requires Going(w, First(Double(i)) + 256, disk', owner', t2) && TwoStored(t1, disk')
    requires First(Double(i)) < Wanted(w)
    requires Reach(w, First(Double(i))) <= f < Wanted(w) && f < First(Double(i)) + 256
    requires DenseRun(t2.two[i], First(Double(i)), f)
    ensures Landed(w, disk', owner', nd, TreeOnDisk(w, t0), BlocksOnDisk(w, i))
    ensures Stuck(w, owner', TreeOnDisk(w, t0), BlocksOnDisk(w, i), f)
  {
    hide Going, Wanted, TwoStored, Landed, TreeOwned, TreeExact, Stuck, PtrsKept, Table;
    TwoStoredBefore(t0, t1, disk, disk', i);
    TablesKept(w.ino, t1, disk, disk', owner, i);
    TableKeeps(t0, t1, t2, i);
    assert Upto(t2, f) && First(Double(i)) <= f by { TableDense(w, i, t0, t2, f); }
    DoubleLands(w, i, First(Double(i)) + 256, disk', owner', nd, t0, t2, f);
  }

  lemma TableDense(w: Request, i: nat, t0: Tree, t2: Tree, f: nat)
    requires i < N_PTRS && Dense(t0, Reach(w, First(Double(i)))) && First(Double(i)) < Wanted(w)
    requires t2.direct == t0.direct && t2.one == t0.one && t2.two == t0.two[i := t2.two[i]]
    requires Reach(w, First(Double(i))) <= f < First(Double(i)) + 256 && DenseRun(t2.two[i], First(Double(i)), f)
    requires t2.ind1 == t0.ind1 != 0 && t2.ind2 == t0.ind2 != 0 && t2.tabs[i] != 0
    requires forall j :: 0 <= j < N_PTRS && j != i ==> t2.tabs[j] == t0.tabs[j]
    ensures Upto(t2, f) && First(Double(i)) <= f
  {
    hide Wanted;
    forall r {:trigger Leaf(t2, r)} | ValidRegion(r)
      ensures DenseRun(Leaf(t2, r), First(r), f)
    {
      assert DenseRun(Leaf(t0, r), First(r), Reach(w, First(Double(i))));
    }
  }

  /** The turn for table i is done. */
  lemma TableDone(w: Request, i: nat, disk: seq<Block>, disk': seq<Block>, owner: Owner, t0: Tree, t1: Tree, t2: Tree)
    requires i < N_PTRS && w.c <= MAX_BLOCKS && TablesDone(w, i, disk, t0)
    requires t1 == t0.(tabs := t1.tabs) && t2 == WithLeaf(t1, Double(i), t2.two[i])
    requires forall j :: 0 <= j < N_PTRS && j != i ==> t1.tabs[j] == t0.tabs[j]
    requires t1.tabs[i] != 0 && (t0.tabs[i] != 0 ==> t1.tabs[i] == t0.tabs[i])
    requires TreeOwned(w.ino, t1, owner) && PtrsKept(disk, disk', owner, t1.tabs[i]) && TwoStored(t2, disk')
    requires First(Double(i)) < Wanted(w)
    requires DenseRun(t2.two[i], First(Double(i)), Max(Reach(w, First(Double(i))), Wanted(w)))
    ensures TablesDone(w, i + 1, disk', t2)
    ensures t2.tabs != t0.tabs ==> t2.two[i] != t1.two[i]
  {
    hide Wanted, TreeOwned, PtrsKept, TwoStored;
    TablesKept(w.ino, t1, disk, disk', owner, i);
    DenseFill(w, t0, t2, Double(i), t2.two[i]);
    if t0.tabs[i] == 0 {
      DenseRegion(t0, Reach(w, First(Double(i))), Double(i));
      assert t2.two[i][0] != 0 && t0.two[i][0] == 0;
    } else {
      assert t1.tabs == t0.tabs;
    }
  }

  /** No block was left for table i. */
  lemma TableRefused(w: Request, i: nat, disk: seq<Block>, owner: Owner, nd: Inode, t: Tree)
    requires i < N_PTRS && Dense(w.t, w.c) && TablesDone(w, i, disk, t) && t.tabs[i] == 0
    requires t.direct == nd.direct && t.ind1 == nd.indir1 && t.ind2 == nd.indir2
    requires Going(w, First(Double(i)), disk, owner, t) && First(Double(i)) < Wanted(w)
    ensures Landed(w, disk, owner, nd, TreeOnDisk(w, t), BlocksOnDisk(w, i))
    ensures Stuck(w, owner, TreeOnDisk(w, t), BlocksOnDisk(w, i), First(Double(i)))
  {
    hide Going, Wanted, TwoStored, Landed, TreeOwned, TreeExact, Stuck;
    GoingParts(w, First(Double(i)), disk, owner, t);
    KeepsRefl(t);
    assert Reach(w, First(Double(i))) == First(Double(i));
    DenseUpto(t, First(Double(i)));
    DoubleLands(w, i, First(Double(i)), disk, owner, nd, t, t, First(Double(i)));
  }

  /** One turn of the loop over the second-level tables. */
  lemma TablesDoneParts(w: Request, i: nat, disk: seq<Block>, t: Tree)
    requires TablesDone(w, i, disk, t)
    ensures Dense(t, Reach(w, First(Double(i)))) && TwoStored(t, disk) && t.ind1 != 0 && t.ind2 != 0
    ensures forall j :: i <= j < N_PTRS ==> t.two[j] == w.t.two[j]
  {
  }

  lemma TablesDoneNext(w: Request, i: nat, disk: seq<Block>, t: Tree)
    requires TablesDone(w, i, disk, t) && i < N_PTRS && Reach(w, First(Double(i + 1))) == Reach(w, First(Double(i)))
    ensures TablesDone(w, i + 1, disk, t)
  {
  }

  method WriteTable(v: Volume, inum: nat, data: array<byte>, buf: seq<byte>, len0: nat, offset: nat, size: nat,
                    offsetCnt0: nat, cnt0: nat, indir1: array<u32>, indir2: array<u32>, i: nat, ghost w: Request,
                    ghost nd: Inode, ghost t0: Tree)
    returns (err: int, len: nat, offsetCnt: nat, cnt: nat, ghost t: Tree, ghost f: nat)
    requires v.DiskOk() && data.Length == BLOCK_SIZE && indir1.Length == N_PTRS && indir2.Length == N_PTRS
    requires data !in v.Arrays() && indir1 !in v.Arrays() && indir2 !in v.Arrays()
    requires data as object != indir1 && data as object != indir2 && indir1 != indir2
    requires inum == w.ino && offset == w.offset && buf == w.buf && offset <= size <= BLOCK_SIZE * w.c
    requires Dense(w.t, w.c) && w.c <= MAX_BLOCKS
    requires i < N_PTRS && indir2[..] == t0.tabs
    requires t0.direct == nd.direct && t0.ind1 == nd.indir1 && t0.ind2 == nd.indir2
    requires Going(w, First(Double(i)), v.disk[..], v.owner, t0) && TablesDone(w, i, v.disk[..], t0)
    requires len0 > 0 && Passed(BLOCK_SIZE * First(Double(i)), buf, len0, offset, offsetCnt0, cnt0)
    modifies v`used, v`owner, v.blockMap, v.disk, data, indir1, indir2
    ensures v.DiskOk()
    ensures err == 0 || err == -ENOSPC
    ensures t == t0.(tabs := t.tabs, two := t.two)
    ensures err == 0 ==> indir2[..] == t.tabs
    ensures err == 0 ==> Going(w, First(Double(i + 1)), v.disk[..], v.owner, t) && TablesDone(w, i + 1, v.disk[..], t)
    ensures err == 0 ==> Passed(BLOCK_SIZE * First(Double(i + 1)), buf, len, offset, offsetCnt, cnt)
    ensures err == 0 ==> offsetCnt + cnt >= offsetCnt0 + cnt0 && (t.tabs != t0.tabs ==> offsetCnt + cnt > size)
    ensures err != 0 ==> Landed(w, v.disk[..], v.owner, nd, TreeOnDisk(w, t), BlocksOnDisk(w, i))
    ensures err != 0 ==> Stuck(w, v.owner, TreeOnDisk(w, t), BlocksOnDisk(w, i), f)
    ensures err != 0 ==> forall p: nat :: p < v.disk.Length ==> p in v.used
  {
    hide Volume.DiskOk, Going, TreeOwned, TreeExact, TreeKeeps, Handed, TwoStored, PtrsKept, TablesDone, Landed, Stuck,
      Wanted, Dense, DenseRun;
    TablesDoneParts(w, i, v.disk[..], t0);
    err, len, offsetCnt, cnt, t, f := 0, len0, offsetCnt0, cnt0, t0, First(Double(i));
    WantsMore(w, First(Double(i)), len, offsetCnt, cnt);
    DiskFacts(v);
    GoingParts(w, First(Double(i)), v.disk[..], v.owner, t0);
    if offsetCnt + 256 * BLOCK_SIZE < offset {
      offsetCnt := offsetCnt + 256 * BLOCK_SIZE;
      GoingSkip(w, First(Double(i)), First(Double(i + 1)), v.disk[..], v.owner, t0);
      TablesDoneNext(w, i, v.disk[..], t0);
      return;
    }
    ghost var d0 := v.disk[..];
    ghost var t1;
    err, t1 := EnsureTable(v, inum, indir2, i, w, t0);
    if err < 0 {
      TableRefused(w, i, v.disk[..], v.owner, nd, t0);
      return;
    }
    assert v.disk[..] == d0;
    ghost var o1 := v.owner;
    GoingParts(w, First(Double(i)), v.disk[..], v.owner, t1);
    DenseRegion(t0, Reach(w, First(Double(i))), Double(i));
    DenseRegion(w.t, w.c, Double(i));
    ghost var t2;
    err, len, offsetCnt, cnt, t2, f := FillTable(v, inum, data, buf, len, offset, size, offsetCnt, cnt, indir1,
                                                 indir2[i], i, w, t1);
    if err < 0 {
      TableFails(w, i, d0, v.disk[..], o1, v.owner, nd, t0, t1, t2, f);
      return;
    }
    TableDone(w, i, d0, v.disk[..], o1, t0, t1, t2);
    t := t2;
  }

  /** The buffered double-indirect block is written back. */
  method StoreDouble(v: Volume, inum: nat, indir2: array<u32>, ghost w: Request, ghost i: nat, ghost t: Tree)
    requires v.DiskOk() && inum == w.ino && inum < v.inodes.Length && indir2.Length == N_PTRS && indir2 !in v.Arrays()
    requires Going(w, MAX_BLOCKS, v.disk[..], v.owner, t) && TablesDone(w, i, v.disk[..], t)
    requires t.direct == v.inodes[inum].direct && t.ind1 == v.inodes[inum].indir1 && t.ind2 == v.inodes[inum].indir2
    requires indir2[..] == t.tabs
    modifies v.disk
    ensures v.DiskOk() && Going(w, MAX_BLOCKS, v.disk[..], v.owner, t) && Stored(t, v.inodes[inum], v.disk[..])
  {
    hide Volume.DiskOk, Going, TreeOwned, TablesDone, Stored;
    DiskFacts(v);
    GoingParts(w, MAX_BLOCKS, v.disk[..], v.owner, t);
    TablesDoneParts(w, i, v.disk[..], t);
    PtrPresent(inum, t, v.owner, Ind2(inum));
    ghost var d := v.disk[..];
    WritePtrs(v, indir2, v.inodes[inum].indir2);
    GoingStore(w, MAX_BLOCKS, d, v.owner, t, t.ind2, v.disk[t.ind2]);
    StoredStore2(w, i, t, v.inodes[inum], d, v.owner, v.disk[t.ind2]);
  }

  lemma StoredStore2(w: Request, i: nat, t: Tree, nd: Inode, disk: seq<Block>, owner: Owner, blk: Block)
    requires TablesDone(w, i, disk, t) && TreeOwned(w.ino, t, owner) && t.ind2 < |disk| && Ptrs(blk) == t.tabs
    requires t.direct == nd.direct && t.ind1 == nd.indir1 && t.ind2 == nd.indir2
    ensures Stored(t, nd, disk[t.ind2 := blk])
  {
    hide Ptrs, Owned, Dense;
  }

  /** The loop over the second-level tables. */
  method WriteTables(v: Volume, inum: nat, data: array<byte>, buf: seq<byte>, len0: nat, offset: nat, size: nat,
                     offsetCnt0: nat, cnt0: nat, indir1: array<u32>, indir2: array<u32>, ghost w: Request,
                     ghost nd: Inode, ghost t0: Tree)
    returns (err: int, len: nat, offsetCnt: nat, cnt: nat, i: nat, ghost t: Tree, ghost f: nat)
    requires v.DiskOk() && data.Length == BLOCK_SIZE && indir1.Length == N_PTRS && indir2.Length == N_PTRS
    requires data !in v.Arrays() && indir1 !in v.Arrays() && indir2 !in v.Arrays()
    requires data as object != indir1 && data as object != indir2 && indir1 != indir2
    requires inum == w.ino && offset == w.offset && buf == w.buf && offset <= size <= BLOCK_SIZE * w.c
    requires Dense(w.t, w.c) && w.c <= MAX_BLOCKS && indir2[..] == t0.tabs == w.t.tabs
    requires t0.direct == nd.direct && t0.ind1 == nd.indir1 && t0.ind2 == nd.indir2
    requires Going(w, 262, v.disk[..], v.owner, t0) && TablesDone(w, 0, v.disk[..], t0)
    requires len0 > 0 && Passed(BLOCK_SIZE * 262, buf, len0, offset, offsetCnt0, cnt0)
    modifies v`used, v`owner, v.blockMap, v.disk, data, indir1, indir2
    ensures v.DiskOk()
    ensures err == 0 || err == -ENOSPC
    ensures t == t0.(tabs := t.tabs, two := t.two) && i <= N_PTRS
    ensures err == 0 ==> indir2[..] == t.tabs && TablesDone(w, i, v.disk[..], t)
    ensures err == 0 ==>
      Going(w, MAX_BLOCKS, v.disk[..], v.owner, t) && Reach(w, MAX_BLOCKS) == Reach(w, First(Double(i)))
    ensures err == 0 ==> Passed(BLOCK_SIZE * MAX_BLOCKS, buf, len, offset, offsetCnt, cnt)
    ensures err == 0 && t.tabs != w.t.tabs ==> offsetCnt + cnt > size
    ensures err != 0 ==> i < N_PTRS
    ensures err != 0 ==> Landed(w, v.disk[..], v.owner, nd, TreeOnDisk(w, t), BlocksOnDisk(w, i))
    ensures err != 0 ==> Stuck(w, v.owner, TreeOnDisk(w, t), BlocksOnDisk(w, i), f)
    ensures err != 0 ==> forall p: nat :: p < v.disk.Length ==> p in v.used
  {
    hide Volume.DiskOk, Going, TablesDone, Landed, Stuck, Wanted, Dense, Reach;
    err, len, offsetCnt, cnt, t, f := 0, len0, offsetCnt0, cnt0, t0, 0;
    i := 0;
    while i < N_PTRS && len > 0
      invariant 0 <= i <= N_PTRS
      invariant err == 0 && v.DiskOk()
      invariant indir2[..] == t.tabs && t == t0.(tabs := t.tabs, two := t.two)
      invariant Going(w, First(Double(i)), v.disk[..], v.owner, t) && TablesDone(w, i, v.disk[..], t)
      invariant Passed(BLOCK_SIZE * First(Double(i)), buf, len, offset, offsetCnt, cnt)
      invariant t.tabs != w.t.tabs ==> offsetCnt + cnt > size
    {
      ghost var t1 := t;
      err, len, offsetCnt, cnt, t, f := WriteTable(v, inum, data, buf, len, offset, size, offsetCnt, cnt, indir1,
                                                   indir2, i, w, nd, t1);
      if err < 0 { return; }
      i := i + 1;
    }
    GoingSkip(w, First(Double(i)), MAX_BLOCKS, v.disk[..], v.owner, t);
  }

  /** The third tier of fs_write: the double-indirect block and its tables. */
  method WriteDouble(v: Volume, inum: nat, data: array<byte>, buf: seq<byte>, len0: nat, offset: nat, size: nat,
                     offsetCnt0: nat, cnt0: nat, indir1: array<u32>, ghost w: Request, ghost t0: Tree)
    returns (err: int, len: nat, offsetCnt: nat, cnt: nat, ghost t: Tree, ghost c: nat, ghost f: nat)
    requires v.DiskOk() && inum < v.inodes.Length && data.Length == BLOCK_SIZE && indir1.Length == N_PTRS
    requires data !in v.Arrays() && indir1 !in v.Arrays() && data as object != indir1
    requires inum == w.ino && offset == w.offset && buf == w.buf && offset <= size <= BLOCK_SIZE * w.c
    requires Going(w, 262, v.disk[..], v.owner, t0) && Dense(t0, Reach(w, 262))
    requires Stored(t0, v.inodes[inum], v.disk[..])
    requires Dense(w.t, w.c) && w.c <= MAX_BLOCKS && t0.ind1 != 0 && t0.ind2 != 0
    requires t0.tabs == w.t.tabs && t0.two == w.t.two
    requires len0 > 0 && Passed(BLOCK_SIZE * 262, buf, len0, offset, offsetCnt0, cnt0)
    modifies v`used, v`owner, v.blockMap, v.disk, data, indir1
    ensures v.DiskOk()
    ensures err == 0 || err == -ENOSPC
    ensures Stored(t, v.inodes[inum], v.disk[..]) || err != 0
    ensures err == 0 ==> Going(w, MAX_BLOCKS, v.disk[..], v.owner, t) && Dense(t, Reach(w, MAX_BLOCKS))
    ensures err == 0 ==> Passed(BLOCK_SIZE * MAX_BLOCKS, buf, len, offset, offsetCnt, cnt)
    ensures err != 0 ==> Landed(w, v.disk[..], v.owner, v.inodes[inum], t, c) && Stuck(w, v.owner, t, c, f)
    ensures err != 0 ==> forall p: nat :: p < v.disk.Length ==> p in v.used
  {
    hide Volume.DiskOk, Going, TreeOwned, TreeExact, Landed, Stuck, Wanted, Dense, Reach;
    DiskFacts(v);
    StoredTop(t0, v.inodes[inum], v.disk[..]);
    GoingParts(w, 262, v.disk[..], v.owner, t0);
    PtrPresent(inum, t0, v.owner, Ind2(inum));
    var indir2 := new u32[N_PTRS];
    ReadPtrs(v, indir2, v.inodes[inum].indir2);
    ghost var nd := v.inodes[inum];
    var i;
    err, len, offsetCnt, cnt, i, t, f := WriteTables(v, inum, data, buf, len0, offset, size, offsetCnt0, cnt0, indir1,
                                                     indir2, w, nd, t0);
    assert v.inodes[inum] == nd;
    c := Reach(w, MAX_BLOCKS);
    if err < 0 {
      c := BlocksOnDisk(w, i);
      t := TreeOnDisk(w, t);
      return;
    }
    TablesDoneParts(w, i, v.disk[..], t);
    if offsetCnt + cnt > size {
      StoreDouble(v, inum, indir2, w, i, t);
    } else {
    }
  }

  /** The first two tiers: the direct blocks, then the indirect block if anything is left to write. */
  method WriteLowTiers(v: Volume, inum: nat, data: array<byte>, indir1: array<u32>, buf: seq<byte>, offset: nat,
                       size: nat, ghost w: Request)
    returns (err: int, len: nat, offsetCnt: nat, cnt: nat, ghost t: Tree, ghost c: nat, ghost f: nat)
    requires v.DiskOk() && inum < v.inodes.Length && data.Length == BLOCK_SIZE && indir1.Length == N_PTRS
    requires data !in v.Arrays() && indir1 !in v.Arrays() && data as object != indir1
    requires w == Request(inum, offset, buf, w.t, w.c, v.disk[..], v.owner) && Ready(w, v.inodes[inum], size)
    modifies v`used, v`owner, v.blockMap, v.disk, v.inodes, data, indir1
    ensures v.DiskOk()
    ensures err == 0 || err == -ENOSPC
    ensures v.inodes[..] == old(v.inodes[..])[inum := old(v.inodes[inum]).(direct := t.direct, indir1 := t.ind1)]
    ensures Stored(t, v.inodes[inum], v.disk[..]) && t == w.t.(direct := t.direct, ind1 := t.ind1, one := t.one)
    ensures err == 0 && len > 0 ==> t.ind1 != 0 && Going(w, 262, v.disk[..], v.owner, t) && Dense(t, Reach(w, 262))
    ensures err == 0 && len > 0 ==> Passed(BLOCK_SIZE * 262, buf, len, offset, offsetCnt, cnt)
    ensures err == 0 && len == 0 ==> offset + cnt <= BLOCK_SIZE * MAX_BLOCKS
    ensures err == 0 && len == 0 ==>
      cnt == |buf| && Going(w, MAX_BLOCKS, v.disk[..], v.owner, t) && Dense(t, Reach(w, MAX_BLOCKS))
    ensures err != 0 ==> Landed(w, v.disk[..], v.owner, v.inodes[inum], t, c) && Stuck(w, v.owner, t, c, f)
    ensures err != 0 ==> forall p: nat :: p < v.disk.Length ==> p in v.used
  {
    hide Volume.DiskOk, Going, TreeOwned, TreeExact, Stored, Landed, Stuck, Wanted, Dense, Reach;
    ReadyBound(w, v.inodes[inum], size);
    StoredTop(w.t, v.inodes[inum], w.disk);
    DiskFacts(v);
    err, len, offsetCnt, cnt, t, f := WriteDirect(v, inum, data, buf, offset, size, w);
    c := f;
    if err < 0 { return; }
    if len == 0 {
      GoingSkip(w, 6, MAX_BLOCKS, v.disk[..], v.owner, t);
      return;
    }
    WantsMore(w, 6, len, offsetCnt, cnt);
    err, t := EnsureSingle(v, inum, w, t);
    assert v.inodes[..] == old(v.inodes[..])[inum := old(v.inodes[inum]).(direct := t.direct, indir1 := t.ind1)];
    if err < 0 {
      NoSingle(w, v.disk[..], v.owner, v.inodes[inum], t);
      c, f := Reach(w, 6), 6;
      return;
    }
    c := Reach(w, 6);
    err, len, offsetCnt, cnt, t, f := WriteSingle(v, inum, data, buf, len, offset, size, offsetCnt, cnt, indir1, w, t);
    if err == 0 && len == 0 {
      GoingSkip(w, 262, MAX_BLOCKS, v.disk[..], v.owner, t);
    }
  }

  lemma ReadyBound(w: Request, nd: Inode, size: nat)
    requires Ready(w, nd, size)
    ensures w.c <= MAX_BLOCKS && Dense(w.t, w.c) && w.offset <= size <= BLOCK_SIZE * w.c
  {
  }

  /** No block was left for the indirect block. */
  lemma NoSingle(w: Request, disk: seq<Block>, owner: Owner, nd: Inode, t: Tree)
    requires Going(w, 6, disk, owner, t) && Dense(t, Reach(w, 6)) && Stored(t, nd, disk) && t.ind1 == 0 && 6 < Wanted(w)
    ensures Landed(w, disk, owner, nd, t, Reach(w, 6)) && Stuck(w, owner, t, Reach(w, 6), 6)
  {
    hide Going, Landed, Stuck, Stored, TreeOwned, TreeExact, Wanted, TreeKeeps;
    GoingParts(w, 6, disk, owner, t);
    KeepsRefl(t);
    Land(w, 6, disk, owner, t, t, nd, Reach(w, 6));
    assert Reach(w, 6) == 6;
    DenseUpto(t, 6);
    Stops(w, owner, t, 6, t, 6);
  }

  /** No block was left for the double-indirect block. */
  lemma NoDouble(w: Request, disk: seq<Block>, owner: Owner, nd: Inode, t: Tree)
    requires Going(w, 262, disk, owner, t) && Dense(t, Reach(w, 262)) && Stored(t, nd, disk) && t.ind2 == 0
    requires 262 < Wanted(w)
    ensures Landed(w, disk, owner, nd, t, Reach(w, 262)) && Stuck(w, owner, t, Reach(w, 262), 262)
  {
    hide Going, Landed, Stuck, Stored, TreeOwned, TreeExact, Wanted, TreeKeeps;
    GoingParts(w, 262, disk, owner, t);
    KeepsRefl(t);
    Land(w, 262, disk, owner, t, t, nd, Reach(w, 262));
    assert Reach(w, 262) == 262;
    DenseUpto(t, 262);
    Stops(w, owner, t, 262, t, 262);
  }

  /** Everything fs_write does between path resolution and the update of the size. Unless the disk fills up,
      the file then has the blocks for all that it can hold of the request, and cnt bytes were copied. */
  method WriteTiers(v: Volume, inum: nat, buf: seq<byte>, offset: nat, size: nat, ghost w: Request)
    returns (err: int, cnt: nat, ghost t: Tree, ghost c: nat, ghost f: nat)
    requires v.DiskOk() && inum < v.inodes.Length
    requires w == Request(inum, offset, buf, w.t, w.c, v.disk[..], v.owner) && Ready(w, v.inodes[inum], size)
    modifies v`used, v`owner, v.blockMap, v.disk, v.inodes
    ensures v.DiskOk()
    ensures err == 0 || err == -ENOSPC
    ensures v.inodes[..] == old(v.inodes[..])[inum :=
              old(v.inodes[inum]).(direct := v.inodes[inum].direct, indir1 := v.inodes[inum].indir1,
                indir2 := v.inodes[inum].indir2)]
    ensures Landed(w, v.disk[..], v.owner, v.inodes[inum], t, c)
    ensures err == 0 ==> TreeExact(inum, t, v.owner) && c == Reach(w, MAX_BLOCKS)
    ensures err == 0 ==> cnt == Min(|buf|, MAX_BLOCKS * BLOCK_SIZE - offset)
    ensures err != 0 ==> Stuck(w, v.owner, t, c, f)
    ensures err != 0 ==> forall p: nat :: p < v.disk.Length ==> p in v.used
  {
    hide Volume.DiskOk, Going, TreeOwned, TreeExact, Stored, Landed, Stuck, Wanted, Dense, Reach;
    ReadyBound(w, v.inodes[inum], size);
    DiskFacts(v);
    var data := new byte[BLOCK_SIZE];
    var indir1 := new u32[N_PTRS];
    var len, offsetCnt;
    err, len, offsetCnt, cnt, t, c, f := WriteLowTiers(v, inum, data, indir1, buf, offset, size, w);
    if err < 0 { return; }
    if len == 0 {
      Finish(w, v.disk[..], v.owner, v.inodes[inum], t);
      c := Reach(w, MAX_BLOCKS);
      return;
    }
    WantsMore(w, 262, len, offsetCnt, cnt);
    err, t := EnsureDouble(v, inum, w, t);
    if err < 0 {
      NoDouble(w, v.disk[..], v.owner, v.inodes[inum], t);
      c, f := Reach(w, 262), 262;
      return;
    }
    err, len, offsetCnt, cnt, t, c, f := WriteDouble(v, inum, data, buf, len, offset, size, offsetCnt, cnt, indir1, w,
                                                     t);
    if err == 0 {
      Finish(w, v.disk[..], v.owner, v.inodes[inum], t);
      c := Reach(w, MAX_BLOCKS);
    }
  }

  lemma Finish(w: Request, disk: seq<Block>, owner: Owner, nd: Inode, t: Tree)
    requires Going(w, MAX_BLOCKS, disk, owner, t) && Dense(t, Reach(w, MAX_BLOCKS)) && Stored(t, nd, disk)
    requires w.c <= MAX_BLOCKS
    ensures Landed(w, disk, owner, nd, t, Reach(w, MAX_BLOCKS)) && TreeExact(w.ino, t, owner)
  {
    hide Going, Landed, Stored, TreeOwned, TreeExact, Wanted, TreeKeeps, Dense;
    GoingParts(w, MAX_BLOCKS, disk, owner, t);
    KeepsRefl(t);
    Land(w, MAX_BLOCKS, disk, owner, t, t, nd, Reach(w, MAX_BLOCKS));
  }
}
