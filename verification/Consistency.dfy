/** The invariant of the file system, and what keeps it when one file changes. */
module Consistency {
  import opened Bytes
  import opened Codec
  import opened FileTrees
  import opened Volumes

  // ---- names --------------------------------------------------------------------------------

  const SLASH: byte := 47
  const DOT: byte := 46
  const MAX_NAME_LEN: nat := 27

  /** The C string stored in a buffer: the bytes before the first zero. */
  function CStr(b: seq<byte>): (s: seq<byte>) {
    if b == [] || b[0] == 0 then [] else [b[0]] + CStr(b[1..])
  }

  /** It is the longest prefix without a zero. */
  lemma {:induction false} CStrIs(b: seq<byte>)
    ensures CStr(b) <= b && 0 !in CStr(b) && (|CStr(b)| < |b| ==> b[|CStr(b)|] == 0)
  {
    if b != [] && b[0] != 0 { CStrIs(b[1..]); }
  }

  /** A name that a directory entry can hold. */
  predicate GoodName(n: seq<byte>) {
    0 < |n| <= MAX_NAME_LEN && 0 !in n && SLASH !in n
  }

  // ---- one file -------------------------------------------------------------------------------

  /** Tree t with c data blocks is the file of inode i: the pointers are on the disk, their blocks are
      its own, they are a dense prefix, and they cover the size. */
  ghost predicate FileOk(i: nat, nd: Inode, t: Tree, c: nat, disk: seq<Block>, owner: Owner) {
    && Stored(t, nd, disk)
    && TreeOwned(i, t, owner) && TreeExact(i, t, owner)
    && Dense(t, c)
    && 0 <= nd.size <= BLOCK_SIZE * c
  }

  /** The blocks of inode i are owned and filled alike in both states. */
  ghost predicate SameBlocks(i: nat, disk: seq<Block>, owner: Owner, disk': seq<Block>, owner': Owner) {
    && (forall p :: p in owner && Of(owner[p], i) ==> p in owner' && owner'[p] == owner[p])
    && (forall p :: p in owner' && Of(owner'[p], i) ==> p in owner && owner[p] == owner'[p])
    && (forall p :: p in owner && Of(owner[p], i) ==> Blk(disk', p) == Blk(disk, p))
    && |disk'| == |disk|
  }

  lemma TableSame(i: nat, p: nat, disk: seq<Block>, owner: Owner, disk': seq<Block>, owner': Owner)
    requires SameBlocks(i, disk, owner, disk', owner')
    requires p != 0 ==> p in owner && Of(owner[p], i)
    ensures Table(disk', p) == Table(disk, p)
  {
    assert p != 0 ==> Blk(disk', p) == Blk(disk, p);
  }

  /** A file none of whose blocks are touched stays as it is. */
  lemma FileKept(i: nat, nd: Inode, t: Tree, c: nat, disk: seq<Block>, owner: Owner, disk': seq<Block>, owner': Owner)
    requires FileOk(i, nd, t, c, disk, owner) && SameBlocks(i, disk, owner, disk', owner')
    ensures FileOk(i, nd, t, c, disk', owner')
  {
    hide Dense, Ptrs;
    TableSame(i, t.ind1, disk, owner, disk', owner');
    TableSame(i, t.ind2, disk, owner, disk', owner');
    forall j | 0 <= j < N_PTRS
      ensures t.two[j] == Table(disk', t.tabs[j])
    {
      TableSame(i, t.tabs[j], disk, owner, disk', owner');
    }
    forall r {:trigger Leaf(t, r)} | ValidRegion(r)
      ensures Owned(i, r, Leaf(t, r), owner')
    {
      assert Owned(i, r, Leaf(t, r), owner);
    }
  }

  lemma DataOwned(i: nat, t: Tree, c: nat, owner: Owner, b: nat)
    requires TreeOwned(i, t, owner) && Dense(t, c) && b < c
    ensures DataPtr(t, b) in owner && Of(owner[DataPtr(t, b)], i)
    ensures owner[DataPtr(t, b)] == Data(i, RegionOf(b), b - First(RegionOf(b)))
  {
    var r := RegionOf(b);
    assert Owned(i, r, Leaf(t, r), owner) && DenseRun(Leaf(t, r), First(r), c);
  }

  lemma BytesKept(i: nat, nd: Inode, t: Tree, c: nat, disk: seq<Block>, owner: Owner, disk': seq<Block>, owner': Owner)
    requires FileOk(i, nd, t, c, disk, owner) && SameBlocks(i, disk, owner, disk', owner')
    ensures c <= MAX_BLOCKS && FileBytes(nd.size, t, disk') == FileBytes(nd.size, t, disk)
  {
    hide Stored, TreeExact, TreeOwned;
    forall k | 0 <= k < nd.size
      ensures Blk(disk', DataPtr(t, k / BLOCK_SIZE)) == Blk(disk, DataPtr(t, k / BLOCK_SIZE))
    {
      DataOwned(i, t, c, owner, k / BLOCK_SIZE);
    }
  }

  // ---- directories --------------------------------------------------------------------------------

  predicate IsDir(nd: Inode) { IsDirMode(nd.mode) }

  /** The entries of a directory. */
  function DirOf(nd: Inode, disk: seq<Block>): Dirents {
    Entries(Blk(disk, nd.direct[0]))
  }

  /** Inode i hangs from the entry given by its place. */
  ghost predicate Sits(i: nat, pl: Place, inodes: seq<Inode>, nodes: set<nat>, disk: seq<Block>, depth: map<nat, nat>) {
    && pl.dir in nodes && pl.dir < |inodes| && IsDir(inodes[pl.dir]) && pl.slot < N_DIRENTS
    && i in depth && pl.dir in depth && depth[i] == depth[pl.dir] + 1
    && i < |inodes|
    && var e := DirOf(inodes[pl.dir], disk)[pl.slot];
       e.valid && e.inode == i && (e.isDir <==> IsDir(inodes[i]))
  }

  /** The valid entries of directory d are good names, all different, and each is the place of its inode. */
  ghost predicate DirOk(d: nat, es: Dirents, place: map<nat, Place>) {
    && (forall x :: 0 <= x < N_DIRENTS && es[x].valid ==>
          es[x].inode in place && place[es[x].inode] == Place(d, x) && GoodName(CStr(es[x].name)))
    && (forall x, y :: 0 <= x < y < N_DIRENTS && es[x].valid && es[y].valid ==> CStr(es[x].name) != CStr(es[y].name))
  }

  /** The directories form a tree over the inodes in `nodes`. */
  ghost predicate NamesOk(inodes: seq<Inode>, nodes: set<nat>, disk: seq<Block>, place: map<nat, Place>,
                          depth: map<nat, nat>) {
    && 1 in nodes && (forall i :: i in nodes ==> 0 < i < |inodes|) && IsDir(inodes[1])
    && place.Keys == nodes - {1} && depth.Keys == nodes && depth[1] == 0
    && (forall i :: i in place ==> Sits(i, place[i], inodes, nodes, disk, depth))
    && (forall d :: d in nodes && IsDir(inodes[d]) ==> DirOk(d, DirOf(inodes[d], disk), place))
  }

  // ---- the whole file system ----------------------------------------------------------------------

  datatype State = State(disk: seq<Block>, inodes: seq<Inode>, used: set<nat>, live: set<nat>, owner: Owner, sh: Shadow)

  ghost predicate FilesOk(s: State) {
    && s.sh.extent.Keys == s.sh.trees.Keys
    && (forall i :: i in s.sh.trees ==>
         i < |s.inodes| && FileOk(i, s.inodes[i], s.sh.trees[i], s.sh.extent[i], s.disk, s.owner))
    && (forall p :: p in s.owner && !s.owner[p].Leaked? ==> s.owner[p].ino in s.sh.trees)
    && (forall i :: i in s.sh.trees && IsDir(s.inodes[i]) ==> s.sh.extent[i] == 1 && s.inodes[i].size == BLOCK_SIZE)
  }

  predicate NullInode(nd: Inode) {
    nd.direct == NO_DIRECT && nd.indir1 == 0 && nd.indir2 == 0
  }

  /** The marked inodes are inode 0 and those in use, and the others have no pointers. */
  ghost predicate InodesOk(s: State) {
    && s.live == s.sh.trees.Keys + {0} && 0 !in s.sh.trees
    && (forall i :: 0 <= i < |s.inodes| && i !in s.sh.trees ==> NullInode(s.inodes[i]))
  }

  ghost predicate Inv(first: nat, s: State) {
    && BlocksOk(first, s.disk, s.used, s.owner)
    && FilesOk(s) && InodesOk(s)
    && NamesOk(s.inodes, s.sh.trees.Keys, s.disk, s.sh.place, s.sh.depth)
  }

  /** Nothing is marked that is not in use: no leaked blocks, and no file has more blocks than its size needs. */
  ghost predicate Clean(s: State) {
    && (forall p :: p in s.owner ==> !s.owner[p].Leaked?)
    && (forall i :: i in s.sh.trees && i < |s.inodes| && i in s.sh.extent && s.inodes[i].size >= 0 ==>
          Tight(s.sh.trees[i], s.sh.extent[i]) && s.sh.extent[i] == DivRoundUp(s.inodes[i].size, BLOCK_SIZE))
  }

  // ---- one file changes -------------------------------------------------------------------------------

  /** From s to s', only the regular file i has changed; blocks that it lost may have leaked. */
  ghost predicate FileStep(s: State, s': State, i: nat) {
    && i in s.sh.trees && i < |s.inodes| && !IsDir(s.inodes[i])
    && |s'.disk| == |s.disk| && |s'.inodes| == |s.inodes| && s'.inodes == s.inodes[i := s'.inodes[i]]
    && !IsDir(s'.inodes[i])
    && s'.live == s.live && s'.sh.place == s.sh.place && s'.sh.depth == s.sh.depth
    && s'.sh.trees.Keys == s.sh.trees.Keys && s'.sh.extent.Keys == s.sh.extent.Keys
    && (forall j :: j in s.sh.trees && j in s.sh.extent && j != i ==>
          s'.sh.trees[j] == s.sh.trees[j] && s'.sh.extent[j] == s.sh.extent[j])
    && (forall p :: p in s.owner && !Of(s.owner[p], i) ==>
          p in s'.owner && s'.owner[p] == s.owner[p] && Blk(s'.disk, p) == Blk(s.disk, p))
    && (forall p :: p in s'.owner && !Of(s'.owner[p], i) && !s'.owner[p].Leaked? ==>
          p in s.owner && s.owner[p] == s'.owner[p])
  }

  lemma StepSameBlocks(s: State, s': State, i: nat, j: nat)
    requires FileStep(s, s', i) && j != i
    ensures SameBlocks(j, s.disk, s.owner, s'.disk, s'.owner)
  {
  }

  lemma StepFile(s: State, s': State, i: nat, j: nat)
    requires FileStep(s, s', i) && FilesOk(s) && j in s.sh.trees && j != i
    ensures j < |s'.inodes| && j in s'.sh.trees && j in s'.sh.extent
    ensures FileOk(j, s'.inodes[j], s'.sh.trees[j], s'.sh.extent[j], s'.disk, s'.owner)
    ensures IsDir(s'.inodes[j]) ==> s'.sh.extent[j] == 1 && s'.inodes[j].size == BLOCK_SIZE
  {
    hide FileOk, SameBlocks, IsDir;
    StepSameBlocks(s, s', i, j);
    FileKept(j, s.inodes[j], s.sh.trees[j], s.sh.extent[j], s.disk, s.owner, s'.disk, s'.owner);
  }

  lemma StepFiles(first: nat, s: State, s': State, i: nat)
    requires FileStep(s, s', i) && FilesOk(s)
    requires i in s'.sh.extent && FileOk(i, s'.inodes[i], s'.sh.trees[i], s'.sh.extent[i], s'.disk, s'.owner)
    ensures FilesOk(s')
  {
    hide FileOk, SameBlocks, IsDir, Blk;
    forall j | j in s'.sh.trees && j != i
      ensures j < |s'.inodes| && FileOk(j, s'.inodes[j], s'.sh.trees[j], s'.sh.extent[j], s'.disk, s'.owner)
      ensures IsDir(s'.inodes[j]) ==> s'.sh.extent[j] == 1 && s'.inodes[j].size == BLOCK_SIZE
    {
      StepFile(s, s', i, j);
    }
  }

  /** What the invariant says about the inodes in use, the root and the owned blocks. */
  lemma InvKeys(first: nat, s: State)
    requires Inv(first, s)
    ensures s.sh.extent.Keys == s.sh.trees.Keys && s.live == s.sh.trees.Keys + {0} && 0 !in s.sh.trees
    ensures forall i :: i in s.sh.trees ==> i < |s.inodes|
    ensures 1 in s.sh.trees && 1 < |s.inodes| && IsDir(s.inodes[1]) && 1 in s.sh.depth
    ensures forall p :: p in s.owner ==>
      first <= p < |s.disk| && p in s.used && (!s.owner[p].Leaked? ==> s.owner[p].ino in s.sh.trees)
    ensures 0 < first <= |s.disk|
  {
    hide FileOk, IsDir;
  }

  lemma FreeInodeNull(first: nat, s: State, i: nat)
    requires Inv(first, s) && i !in s.sh.trees && i < |s.inodes|
    ensures NullInode(s.inodes[i])
  {
    hide NamesOk, FilesOk, BlocksOk, NullInode;
  }

  /** The block of a directory is its own. */
  lemma DirBlockOwned(s: State, d: nat)
    requires FilesOk(s) && d in s.sh.trees && IsDir(s.inodes[d])
    ensures s.inodes[d].direct[0] in s.owner && s.owner[s.inodes[d].direct[0]] == Data(d, Direct, 0)
  {
    var t := s.sh.trees[d];
    assert Owned(d, Direct, Leaf(t, Direct), s.owner) && DenseRun(Leaf(t, Direct), 0, 1);
    assert t.direct[0] != 0;
  }

  /** A file of one block has one direct pointer. */
  lemma OneBlockTree(i: nat, nd: Inode, t: Tree, disk: seq<Block>, owner: Owner)
    requires FileOk(i, nd, t, 1, disk, owner)
    ensures forall p :: p in owner && Of(owner[p], i) ==> p == nd.direct[0] || p == 0
    ensures NullInode(nd.(direct := nd.direct[0 := 0])) && nd.direct[0] != 0 && nd.direct[1] == 0 && nd.indir1 == 0
    ensures nd.indir2 == 0
  {
    hide TreeOwned;
    forall p | p in owner && Of(owner[p], i) && p != 0
      ensures p == nd.direct[0]
    {
      assert Hangs(t, owner[p], p);
      if owner[p].Data? { assert DenseRun(Leaf(t, owner[p].r), First(owner[p].r), 1); }
    }
    assert DenseRun(Leaf(t, Direct), 0, 1);
  }

  /** Names depend only on the directory blocks and on which inodes are directories. */
  lemma NamesKept(s: State, s': State, nodes: set<nat>, place: map<nat, Place>, depth: map<nat, nat>)
    requires NamesOk(s.inodes, nodes, s.disk, place, depth) && |s'.inodes| == |s.inodes|
    requires forall d :: d in nodes ==> d < |s.inodes| && (IsDir(s'.inodes[d]) <==> IsDir(s.inodes[d]))
    requires forall d :: d in nodes && IsDir(s.inodes[d]) ==> DirOf(s'.inodes[d], s'.disk) == DirOf(s.inodes[d], s.disk)
    ensures NamesOk(s'.inodes, nodes, s'.disk, place, depth)
  {
    hide IsDir, DirOf, DirOk;
    forall i | i in place
      ensures Sits(i, place[i], s'.inodes, nodes, s'.disk, depth)
    {
      assert Sits(i, place[i], s.inodes, nodes, s.disk, depth);
    }
  }

  /** The invariant survives a change to one regular file that leaves it well formed. */
  lemma FileStepKeepsInv(first: nat, s: State, s': State, i: nat)
    requires Inv(first, s) && FileStep(s, s', i)
    requires BlocksOk(first, s'.disk, s'.used, s'.owner)
    requires i in s'.sh.extent && FileOk(i, s'.inodes[i], s'.sh.trees[i], s'.sh.extent[i], s'.disk, s'.owner)
    ensures Inv(first, s')
  {
    hide FileOk, BlocksOk, IsDir, FilesOk, NamesOk;
    StepFiles(first, s, s', i);
    StepDirs(s, s', i);
    InvKeys(first, s);
    NamesKept(s, s', s.sh.trees.Keys, s.sh.place, s.sh.depth);
  }

  lemma StepDirs(s: State, s': State, i: nat)
    requires FileStep(s, s', i) && FilesOk(s)
    ensures forall d :: d in s.sh.trees && IsDir(s.inodes[d]) ==>
      DirOf(s'.inodes[d], s'.disk) == DirOf(s.inodes[d], s.disk)
  {
    hide FileOk, Entries, IsDirMode;
    forall d | d in s.sh.trees && IsDir(s.inodes[d])
      ensures DirOf(s'.inodes[d], s'.disk) == DirOf(s.inodes[d], s.disk)
    {
      DirBlockOwned(s, d);
      assert d != i;
    }
  }
}
