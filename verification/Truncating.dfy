/** fs_truncate on an inode: which blocks it releases. */
module Truncating {
  import opened Bytes
  import opened Codec
  import opened FileTrees
  import opened Volumes
  import opened Consistency
  import opened WriteSteps
  import opened FileWrite

  /** The blocks of `gone` have been released and cleared; everything else is as it was. */
  ghost predicate Released(disk: seq<Block>, owner: Owner, gone: set<nat>, disk': seq<Block>, owner': Owner) {
    && owner' == owner - gone
    && |disk'| == |disk|
    && (forall p :: p in gone ==> p in owner)
    && (forall p: nat :: p < |disk| ==> disk'[p] == if p in gone then ZeroBlock() else disk[p])
  }

  /** The blocks of a region. */
  ghost function RegionBlocks(owner: Owner, ino: nat, r: Region): set<nat> {
    set p | p in owner && InRegion(owner[p], ino, r)
  }

  /** Releases one more block of the file. */
  method Release(v: Volume, zero: array<byte>, p: nat, ghost disk: seq<Block>, ghost owner: Owner, ghost gone: set<nat>)
    requires v.DiskOk() && zero.Length == BLOCK_SIZE && zero[..] == ZeroBlock() && zero !in v.Arrays()
    requires Released(disk, owner, gone, v.disk[..], v.owner) && p in v.owner
    modifies v`used, v`owner, v.blockMap, v.disk
    ensures v.DiskOk()
    ensures Released(disk, owner, gone + {p}, v.disk[..], v.owner)
  {
    hide Volume.DiskOk;
    DiskFacts(v);
    ReleaseBlock(v, zero, p);
  }

  /** The blocks of region r up to its k-th pointer. */
  ghost function RegionBelow(owner: Owner, ino: nat, r: Region, k: nat): set<nat> {
    set p | p in owner && InRegion(owner[p], ino, r) && owner[p].k < k
  }

  lemma BelowNext(owner: Owner, ino: nat, r: Region, a: seq<u32>, k: nat)
    requires Owned(ino, r, a, owner) && Exact(ino, r, a, owner) && k < |a| && a[k] != 0
    ensures RegionBelow(owner, ino, r, k) + {a[k] as nat} == RegionBelow(owner, ino, r, k + 1)
    ensures a[k] in owner && a[k] !in RegionBelow(owner, ino, r, k) && owner[a[k]] == Data(ino, r, k)
  {
  }

  lemma BelowAll(owner: Owner, ino: nat, r: Region, a: seq<u32>, first: nat, c: nat, k: nat)
    requires Exact(ino, r, a, owner) && DenseRun(a, first, c) && k <= |a| && (k == |a| || a[k] == 0) && 0 !in owner
    ensures RegionBelow(owner, ino, r, k) == RegionBlocks(owner, ino, r)
  {
  }

  lemma BelowNone(owner: Owner, ino: nat, r: Region)
    ensures RegionBelow(owner, ino, r, 0) == {}
  {
  }

  /** The loop of fs_truncate over a pointer table: the blocks it points to are released up to the first null.
      Returns the loop variable, which the caller shares. */
  method ClearTable(v: Volume, zero: array<byte>, table: array<u32>, ghost ino: nat, ghost r: Region, ghost c: nat,
                    ghost disk: seq<Block>, ghost owner: Owner, ghost gone: set<nat>)
    returns (i: nat)
    requires v.DiskOk() && zero.Length == BLOCK_SIZE && zero[..] == ZeroBlock() && zero !in v.Arrays()
    requires table.Length == N_PTRS && table !in v.Arrays() && table as object != zero
    requires Released(disk, owner, gone, v.disk[..], v.owner) && gone !! RegionBlocks(owner, ino, r)
    requires Owned(ino, r, table[..], owner) && Exact(ino, r, table[..], owner) && DenseRun(table[..], First(r), c)
    requires 0 !in owner && forall p :: p in owner ==> p < |disk|
    modifies v`used, v`owner, v.blockMap, v.disk
    ensures v.DiskOk()
    ensures Released(disk, owner, gone + RegionBlocks(owner, ino, r), v.disk[..], v.owner)
    ensures i <= N_PTRS && (forall k :: 0 <= k < i ==> table[k] != 0) && (i < N_PTRS ==> table[i] == 0)
  {
    hide Volume.DiskOk, Released, Owned, Exact, DenseRun, RegionBelow, RegionBlocks;
    ghost var g := gone;
    BelowNone(owner, ino, r);
    i := 0;
    while i < N_PTRS
      invariant 0 <= i <= N_PTRS && v.DiskOk()
      invariant g == gone + RegionBelow(owner, ino, r, i) && Released(disk, owner, g, v.disk[..], v.owner)
      invariant forall k :: 0 <= k < i ==> table[k] != 0
    {
      var blockNum := table[i];
      if blockNum == 0 { break; }
      BelowNext(owner, ino, r, table[..], i);
      StillThere(disk, owner, g, v.disk[..], v.owner, ino, r, i, blockNum, gone);
      Release(v, zero, blockNum, disk, owner, g);
      g := g + {blockNum as nat};
      i := i + 1;
    }
    BelowAll(owner, ino, r, table[..], First(r), c, i);
  }

  lemma StillThere(disk: seq<Block>, owner: Owner, g: set<nat>, disk': seq<Block>, owner': Owner,
                   ino: nat, r: Region, k: nat, p: nat, gone: set<nat>)
    requires Released(disk, owner, g, disk', owner') && g == gone + RegionBelow(owner, ino, r, k)
    requires gone !! RegionBlocks(owner, ino, r) && p in owner && owner[p] == Data(ino, r, k)
    ensures p in owner' && p !in g
  {
    assert p in RegionBlocks(owner, ino, r);
  }

  // ---- the three tiers --------------------------------------------------------------------------

  /** The slots of a file that fs_truncate reaches: its loop over the second-level tables stops after the first. */
  predicate Cleared(s: Slot) {
    match s
    case Data(_, r, _) => r == Direct || r == Single || r == Double(0)
    case Ind1(_) => true
    case Ind2(_) => true
    case Tab(_, j) => j == 0
    case Leaked => false
  }

  /** The blocks of inode ino that fs_truncate releases. */
  ghost function ClearedBlocks(owner: Owner, ino: nat): set<nat> {
    set p | p in owner && Of(owner[p], ino) && Cleared(owner[p])
  }

  /** A file, seen by the tiers of fs_truncate. */
  datatype Target = Target(ino: nat, t: Tree, c: nat, disk: seq<Block>, owner: Owner)

  ghost predicate TargetOk(x: Target, nd: Inode) {
    && Stored(x.t, nd, x.disk) && TreeOwned(x.ino, x.t, x.owner) && TreeExact(x.ino, x.t, x.owner) && Dense(x.t, x.c)
    && 0 !in x.owner && forall p :: p in x.owner ==> p < |x.disk|
  }

  /** The first i pointers nulled. */
  function Nulled(a: seq<u32>, i: nat): (b: seq<u32>)
    requires i <= |a|
    ensures |b| == |a|
  {
    seq(i, _ => 0) + a[i..]
  }

  method ClearDirect(v: Volume, zero: array<byte>, inum: nat, ghost x: Target)
    requires v.DiskOk() && zero.Length == BLOCK_SIZE && zero[..] == ZeroBlock() && zero !in v.Arrays()
    requires inum == x.ino && inum < v.inodes.Length && TargetOk(x, v.inodes[inum])
    requires v.disk[..] == x.disk && v.owner == x.owner
    modifies v`used, v`owner, v.blockMap, v.disk, v.inodes
    ensures v.DiskOk()
    ensures Released(x.disk, x.owner, RegionBlocks(x.owner, inum, Direct), v.disk[..], v.owner)
    ensures v.inodes[..] == old(v.inodes[..])[inum := old(v.inodes[inum]).(direct := NO_DIRECT)]
  {
    hide Volume.DiskOk, Released, Owned, Exact, TreeOwned, TreeExact, RegionBelow, RegionBlocks, Stored, Dense,
      DenseRun, Nulled;
    ghost var a := x.t.direct;
    ghost var g: set<nat> := {};
    BelowNone(x.owner, inum, Direct);
    DiskFacts(v);
    RegionReady(inum, x.t, x.owner, Direct);
    StoredTop(x.t, v.inodes[inum], x.disk);
    DenseRegion(x.t, x.c, Direct);
    ReleasedNone(x.disk, x.owner);
    NulledNone(a);
    var i := 0;
    while i < N_DIRECT
      invariant 0 <= i <= N_DIRECT && v.DiskOk()
      invariant g == RegionBelow(x.owner, inum, Direct, i) && Released(x.disk, x.owner, g, v.disk[..], v.owner)
      invariant v.inodes[..] == old(v.inodes[..])[inum := old(v.inodes[inum]).(direct := Nulled(a, i))]
    {
      var blockNum := v.inodes[inum].direct[i];
      NulledNext(a, i);
      if blockNum == 0 { break; }
      BelowNext(x.owner, inum, Direct, a, i);
      StillThere(x.disk, x.owner, g, v.disk[..], v.owner, inum, Direct, i, blockNum, {});
      Release(v, zero, blockNum, x.disk, x.owner, g);
      v.inodes[inum] := v.inodes[inum].(direct := v.inodes[inum].direct[i := 0]);
      g := g + {blockNum as nat};
      i := i + 1;
    }
    BelowAll(x.owner, inum, Direct, a, 0, x.c, i);
    NulledAll(a, x.c, i);
  }

  lemma ReleasedNone(disk: seq<Block>, owner: Owner)
    ensures Released(disk, owner, {}, disk, owner)
  {
  }

  lemma NulledNone(a: seq<u32>)
    ensures Nulled(a, 0) == a
  {
  }

  lemma NulledNext(a: seq<u32>, i: nat)
    requires i < |a|
    ensures |Nulled(a, i)| == |a| && Nulled(a, i)[i] == a[i] && Nulled(a, i)[i := 0] == Nulled(a, i + 1)
  {
  }

  lemma NulledAll(a: seq<u32>, c: nat, i: nat)
    requires |a| == N_DIRECT && DenseRun(a, 0, c) && i <= N_DIRECT && (i == N_DIRECT || a[i] == 0)
    ensures Nulled(a, i) == NO_DIRECT
  {
    assert forall k :: i <= k < N_DIRECT ==> a[k] == 0;
  }

  /** The block in slot s, if there is one. */
  ghost function SlotBlocks(owner: Owner, s: Slot): set<nat> {
    set p | p in owner && owner[p] == s
  }

  /** A pointer block of the file, seen from its slot. */
  lemma SlotIs(x: Target, nd: Inode, s: Slot)
    requires TargetOk(x, nd) && PtrSlot(s) && s.ino == x.ino
    ensures var p := PtrAt(x.t, s);
      && (p != 0 ==> SlotBlocks(x.owner, s) == {p as nat} && p in x.owner && p < |x.disk| && x.owner[p] == s)
      && (p == 0 ==> SlotBlocks(x.owner, s) == {})
  {
    hide Stored, Dense, Owned;
    var p := PtrAt(x.t, s);
    forall y | y in x.owner && x.owner[y] == s
      ensures y == p
    {
      assert Hangs(x.t, x.owner[y], y);
    }
  }

  /** An absent region has no blocks. */
  lemma RegionNone(x: Target, nd: Inode, r: Region)
    requires TargetOk(x, nd) && ValidRegion(r) && x.c <= First(r)
    ensures RegionBlocks(x.owner, x.ino, r) == {}
  {
    hide Stored, TreeOwned;
    assert DenseRun(Leaf(x.t, r), First(r), x.c);
    assert forall p :: p in x.owner && Of(x.owner[p], x.ino) ==> Hangs(x.t, x.owner[p], p);
  }

  lemma SingleNone(x: Target, nd: Inode)
    requires TargetOk(x, nd) && x.t.ind1 == 0
    ensures RegionBlocks(x.owner, x.ino, Single) == {}
  {
    hide Stored, TreeOwned, TreeExact, RegionBlocks;
    RegionNone(x, nd, Single);
  }

  /** What one tier needs to know of the file. */
  lemma TargetRegion(x: Target, nd: Inode, r: Region)
    requires TargetOk(x, nd) && ValidRegion(r)
    ensures Owned(x.ino, r, Leaf(x.t, r), x.owner) && Exact(x.ino, r, Leaf(x.t, r), x.owner)
    ensures DenseRun(Leaf(x.t, r), First(r), x.c)
    ensures 0 !in x.owner && forall p :: p in x.owner ==> p < |x.disk|
  {
    hide Stored;
    RegionReady(x.ino, x.t, x.owner, r);
  }

  lemma TargetTables(x: Target, nd: Inode)
    requires TargetOk(x, nd)
    ensures x.t.direct == nd.direct && x.t.ind1 == nd.indir1 && x.t.ind2 == nd.indir2
    ensures x.t.one == Table(x.disk, x.t.ind1) && x.t.tabs == Table(x.disk, x.t.ind2)
    ensures x.t.two[0] == Table(x.disk, x.t.tabs[0])
  {
  }

  /** A pointer block that has not been released is as it was. */
  lemma Intact(disk: seq<Block>, owner: Owner, gone: set<nat>, disk': seq<Block>, owner': Owner, p: nat)
    requires Released(disk, owner, gone, disk', owner') && p in owner && p !in gone && p < |disk|
    ensures p in owner' && |disk'| == |disk| && disk'[p] == disk[p]
  {
  }

  /** The indirect block and the blocks it points to. */
  method ClearSingle(v: Volume, zero: array<byte>, indir1: array<u32>, inum: nat, ghost x: Target, ghost nd: Inode,
                     ghost gone: set<nat>)
    requires v.DiskOk() && zero.Length == BLOCK_SIZE && zero[..] == ZeroBlock() && zero !in v.Arrays()
    requires indir1.Length == N_PTRS && indir1 !in v.Arrays() && indir1 as object != zero
    requires inum == x.ino && inum < v.inodes.Length && TargetOk(x, nd) && v.inodes[inum].indir1 == nd.indir1
    requires Released(x.disk, x.owner, gone, v.disk[..], v.owner)
    requires gone !! RegionBlocks(x.owner, inum, Single) && gone !! SlotBlocks(x.owner, Ind1(inum))
    modifies v`used, v`owner, v.blockMap, v.disk, v.inodes, indir1
    ensures v.DiskOk()
    ensures Released(x.disk, x.owner, gone + RegionBlocks(x.owner, inum, Single)
      + SlotBlocks(x.owner, Ind1(inum)), v.disk[..], v.owner)
    ensures v.inodes[..] == old(v.inodes[..])[inum := old(v.inodes[inum]).(indir1 := 0)]
  {
    hide Volume.DiskOk, Released, Owned, Exact, RegionBlocks, SlotBlocks, TargetOk, DenseRun, Volume.MapsOk, Ptrs,
      Dense;
    DiskFacts(v);
    TargetTables(x, nd);
    TargetRegion(x, nd, Single);
    SlotIs(x, nd, Ind1(inum));
    if v.inodes[inum].indir1 != 0 {
      var p := v.inodes[inum].indir1;
      Intact(x.disk, x.owner, gone, v.disk[..], v.owner, p);
      ReadPtrs(v, indir1, p);
      var i := ClearTable(v, zero, indir1, inum, Single, x.c, x.disk, x.owner, gone);
      ghost var g := gone + RegionBlocks(x.owner, inum, Single);
      NotInRegion(x.owner, inum, Single, p);
      Intact(x.disk, x.owner, g, v.disk[..], v.owner, p);
      Release(v, zero, p, x.disk, x.owner, g);
      v.inodes[inum] := v.inodes[inum].(indir1 := 0);
    } else {
      SingleNone(x, nd);
      assert gone == gone + RegionBlocks(x.owner, inum, Single) + SlotBlocks(x.owner, Ind1(inum));
      assert v.inodes[..] == old(v.inodes[..])[inum := old(v.inodes[inum]).(indir1 := 0)];
    }
  }

  lemma NotInRegion(owner: Owner, ino: nat, r: Region, p: nat)
    requires p in owner && !owner[p].Data?
    ensures p !in RegionBlocks(owner, ino, r)
  {
  }

  /** The loop over the second-level tables. Its body overwrites the loop variable (homework.c uses the same i in both
      loops), so that it runs at most once for a table that is there. */
  method ClearTables(v: Volume, zero: array<byte>, indir1: array<u32>, indir2: array<u32>, inum: nat,
                     ghost x: Target, ghost nd: Inode, ghost gone: set<nat>)
    requires v.DiskOk() && zero.Length == BLOCK_SIZE && zero[..] == ZeroBlock() && zero !in v.Arrays()
    requires indir1.Length == N_PTRS && indir1 !in v.Arrays() && indir1 as object != zero && indir1 != indir2
    requires indir2.Length == N_PTRS && indir2[..] == x.t.tabs && indir2 !in v.Arrays()
    requires inum == x.ino && TargetOk(x, nd) && Released(x.disk, x.owner, gone, v.disk[..], v.owner)
    requires gone !! RegionBlocks(x.owner, inum, Double(0)) && gone !! SlotBlocks(x.owner, Tab(inum, 0))
    modifies v`used, v`owner, v.blockMap, v.disk, indir1
    ensures v.DiskOk()
    ensures Released(x.disk, x.owner, gone + RegionBlocks(x.owner, inum, Double(0))
      + SlotBlocks(x.owner, Tab(inum, 0)), v.disk[..], v.owner)
  {
    hide Volume.DiskOk, Released, Owned, Exact, RegionBlocks, SlotBlocks, TargetOk, DenseRun, FromByte;
    DiskFacts(v);
    TargetTables(x, nd);
    TargetRegion(x, nd, Double(0));
    SlotIs(x, nd, Tab(inum, 0));
    ghost var g := gone;
    ghost var all := gone + RegionBlocks(x.owner, inum, Double(0)) + SlotBlocks(x.owner, Tab(inum, 0));
    var i := 0;
    while i < N_PTRS
      invariant v.DiskOk() && 0 <= i
      invariant Released(x.disk, x.owner, g, v.disk[..], v.owner)
      invariant i == 0 ==> g == gone
      invariant i > 0 ==> g == all && (i < N_PTRS ==> x.t.tabs[i] == 0)
      decreases if i == 0 then 1 else 0
    {
      var indirNum := indir2[i];
      if indirNum == 0 { break; }
      Intact(x.disk, x.owner, g, v.disk[..], v.owner, indirNum);
      ReadPtrs(v, indir1, indirNum);
      i := ClearTable(v, zero, indir1, inum, Double(0), x.c, x.disk, x.owner, g);
      g := g + RegionBlocks(x.owner, inum, Double(0));
      NotInRegion(x.owner, inum, Double(0), indirNum);
      Intact(x.disk, x.owner, g, v.disk[..], v.owner, indirNum);
      Release(v, zero, indirNum, x.disk, x.owner, g);
      g := g + {indirNum as nat};
      PartialTable(x, nd, i);
      i := i + 1;
    }
    if i == 0 {
      DoubleNone(x, nd);
      assert g == all;
    }
  }

  /** After a table that is not full there is no further table. */
  lemma PartialTable(x: Target, nd: Inode, i: nat)
    requires TargetOk(x, nd) && i <= N_PTRS && (i < N_PTRS ==> x.t.two[0][i] == 0)
    ensures i + 1 < N_PTRS ==> x.t.tabs[i + 1] == 0
  {
    hide Stored, TreeOwned, TreeExact;
    assert DenseRun(Leaf(x.t, Double(0)), 262, x.c);
  }

  lemma DoubleNone(x: Target, nd: Inode)
    requires TargetOk(x, nd) && x.t.tabs[0] == 0
    ensures RegionBlocks(x.owner, x.ino, Double(0)) == {}
  {
    hide Stored, TreeOwned, TreeExact, RegionBlocks;
    RegionNone(x, nd, Double(0));
  }

  /** The double-indirect block and what its loop releases. */
  method ClearDouble(v: Volume, zero: array<byte>, indir1: array<u32>, inum: nat, ghost x: Target, ghost nd: Inode,
                     ghost gone: set<nat>)
    requires v.DiskOk() && zero.Length == BLOCK_SIZE && zero[..] == ZeroBlock() && zero !in v.Arrays()
    requires indir1.Length == N_PTRS && indir1 !in v.Arrays() && indir1 as object != zero
    requires inum == x.ino && inum < v.inodes.Length && TargetOk(x, nd) && v.inodes[inum].indir2 == nd.indir2
    requires Released(x.disk, x.owner, gone, v.disk[..], v.owner)
    requires gone !! RegionBlocks(x.owner, inum, Double(0)) && gone !! SlotBlocks(x.owner, Tab(inum, 0))
    requires gone !! SlotBlocks(x.owner, Ind2(inum))
    modifies v`used, v`owner, v.blockMap, v.disk, v.inodes, indir1
    ensures v.DiskOk()
    ensures Released(x.disk, x.owner, gone + RegionBlocks(x.owner, inum, Double(0))
      + SlotBlocks(x.owner, Tab(inum, 0)) + SlotBlocks(x.owner, Ind2(inum)),
                     v.disk[..], v.owner)
    ensures v.inodes[..] == old(v.inodes[..])[inum := old(v.inodes[inum]).(indir2 := 0)]
  {
    hide Volume.DiskOk, Released, RegionBlocks, SlotBlocks, TargetOk, Ptrs;
    DiskFacts(v);
    TargetTables(x, nd);
    SlotIs(x, nd, Ind2(inum));
    SlotIs(x, nd, Tab(inum, 0));
    ghost var g := gone + RegionBlocks(x.owner, inum, Double(0)) + SlotBlocks(x.owner, Tab(inum, 0));
    if v.inodes[inum].indir2 != 0 {
      var p := v.inodes[inum].indir2;
      Intact(x.disk, x.owner, gone, v.disk[..], v.owner, p);
      var indir2 := new u32[N_PTRS];
      ReadPtrs(v, indir2, p);
      ClearTables(v, zero, indir1, indir2, inum, x, nd, gone);
      NotInRegion(x.owner, inum, Double(0), p);
      Intact(x.disk, x.owner, g, v.disk[..], v.owner, p);
      Release(v, zero, p, x.disk, x.owner, g);
      v.inodes[inum] := v.inodes[inum].(indir2 := 0);
    } else {
      NoTables(x, nd);
      DoubleNone(x, nd);
      assert gone == g + SlotBlocks(x.owner, Ind2(inum));
      assert v.inodes[..] == old(v.inodes[..])[inum := old(v.inodes[inum]).(indir2 := 0)];
    }
  }

  lemma NoTables(x: Target, nd: Inode)
    requires TargetOk(x, nd) && x.t.ind2 == 0
    ensures x.t.tabs[0] == 0
  {
  }

  lemma ClearedIs(owner: Owner, ino: nat)
    ensures ClearedBlocks(owner, ino) ==
      RegionBlocks(owner, ino, Direct) + (RegionBlocks(owner, ino, Single) + SlotBlocks(owner, Ind1(ino)))
      + (RegionBlocks(owner, ino, Double(0)) + SlotBlocks(owner, Tab(ino, 0)) + SlotBlocks(owner, Ind2(ino)))
    ensures RegionBlocks(owner, ino, Direct) !! RegionBlocks(owner, ino, Single)
    ensures RegionBlocks(owner, ino, Direct) !! SlotBlocks(owner, Ind1(ino))
    ensures var g := RegionBlocks(owner, ino, Direct) + RegionBlocks(owner, ino, Single) + SlotBlocks(owner, Ind1(ino));
      g !! RegionBlocks(owner, ino, Double(0)) && g !! SlotBlocks(owner, Tab(ino, 0))
        && g !! SlotBlocks(owner, Ind2(ino))
  {
  }

  /** All that fs_truncate does to the pointers and blocks of an inode. */
  method ClearFile(v: Volume, inum: nat, ghost x: Target)
    requires v.DiskOk() && inum == x.ino && inum < v.inodes.Length && TargetOk(x, v.inodes[inum])
    requires v.disk[..] == x.disk && v.owner == x.owner
    modifies v`used, v`owner, v.blockMap, v.disk, v.inodes
    ensures v.DiskOk()
    ensures Released(x.disk, x.owner, ClearedBlocks(x.owner, inum), v.disk[..], v.owner)
    ensures v.inodes[..] ==
      old(v.inodes[..])[inum := old(v.inodes[inum]).(direct := NO_DIRECT, indir1 := 0, indir2 := 0)]
  {
    hide Volume.DiskOk, Released, RegionBlocks, SlotBlocks, TargetOk, ClearedBlocks;
    DiskFacts(v);
    ghost var nd := v.inodes[inum];
    var block := new byte[BLOCK_SIZE](_ => 0);
    assert block[..] == ZeroBlock();
    ClearedIs(x.owner, inum);
    ClearDirect(v, block, inum, x);
    var indir1 := new u32[N_PTRS];
    ghost var g := RegionBlocks(x.owner, inum, Direct);
    ClearSingle(v, block, indir1, inum, x, nd, g);
    g := g + RegionBlocks(x.owner, inum, Single) + SlotBlocks(x.owner, Ind1(inum));
    ClearDouble(v, block, indir1, inum, x, nd, g);
    assert g + RegionBlocks(x.owner, inum, Double(0)) + SlotBlocks(x.owner, Tab(inum, 0))
      + SlotBlocks(x.owner, Ind2(inum))
        == ClearedBlocks(x.owner, inum);
    assert v.inodes[..] ==
      old(v.inodes[..])[inum := old(v.inodes[inum]).(direct := NO_DIRECT, indir1 := 0, indir2 := 0)];
  }

  /** A file of at most 518 blocks has nothing that fs_truncate does not reach. */
  lemma ClearedAll(x: Target, nd: Inode)
    requires TargetOk(x, nd)
    ensures (forall p :: p in x.owner && Of(x.owner[p], x.ino) ==> Cleared(x.owner[p])) <==> x.c <= TWO_TABLES
  {
    hide Stored;
    if x.c <= TWO_TABLES {
      forall p | p in x.owner && Of(x.owner[p], x.ino)
        ensures Cleared(x.owner[p])
      {
        assert Hangs(x.t, x.owner[p], p);
        if x.owner[p].Data? {
          assert DenseRun(Leaf(x.t, x.owner[p].r), First(x.owner[p].r), x.c);
        }
      }
    } else {
      assert x.t.tabs[1] != 0;
      assert x.owner[x.t.tabs[1]] == Tab(x.ino, 1);
    }
  }
}
