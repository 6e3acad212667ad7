/** What keeps the invariant when directory entries, inodes and directory blocks come and go. */
module DirSteps {
  import opened Bytes
  import opened Codec
  import opened FileTrees
  import opened Volumes
  import opened Consistency
  import opened Mounted
  import FileContents
  import opened Paths
  import opened Names
  import opened NameChanges

  /** The directory tree of a state. */
  ghost function TreeOf(s: State): NameTree {
    NameTree(s.inodes, s.sh.trees.Keys, s.disk, s.sh.place, s.sh.depth)
  }

  // ---- strings in entries ------------------------------------------------------------------------

  /** strcpy: the bytes of src and a terminating zero; what follows in the buffer stays. */
  function StrCpy(dst: seq<byte>, src: seq<byte>): (r: seq<byte>)
    requires |src| < |dst|
    ensures |r| == |dst|
  {
    src + [0] + dst[|src| + 1..]
  }

  /** strcpy writes the string and a zero, and leaves the bytes behind. */
  lemma StrCpyIs(dst: seq<byte>, src: seq<byte>, k: nat)
    requires |src| < |dst| && k < |dst|
    ensures StrCpy(dst, src)[k] == if k < |src| then src[k] else if k == |src| then 0 else dst[k]
  {
  }

  lemma {:induction false} CStrPrefix(src: seq<byte>, rest: seq<byte>)
    requires 0 !in src
    ensures CStr(src + [0] + rest) == src
  {
    if src == [] {
      assert src + [0] + rest == [0] + rest;
    } else {
      assert (src + [0] + rest)[1..] == src[1..] + [0] + rest;
      CStrPrefix(src[1..], rest);
    }
  }

  /** A name copied into an entry is the name of the entry. */
  lemma StrCpyName(dst: seq<byte>, name: Name)
    requires |dst| == NAME_SIZE && GoodName(name)
    ensures CStr(StrCpy(dst, name)) == name
  {
    CStrPrefix(name, dst[|name| + 1..]);
  }

  // ---- the files ------------------------------------------------------------------------------------

  /** The pointer blocks of inode i are owned and filled alike in both states; its data blocks are owned alike. */
  ghost predicate SamePtrs(i: nat, disk: seq<Block>, owner: Owner, disk': seq<Block>, owner': Owner) {
    && |disk'| == |disk|
    && (forall p :: p in owner && Of(owner[p], i) ==> p in owner' && owner'[p] == owner[p])
    && (forall p :: p in owner' && Of(owner'[p], i) ==> p in owner && owner[p] == owner'[p])
    && (forall p :: p in owner && Of(owner[p], i) && !owner[p].Data? ==> Blk(disk', p) == Blk(disk, p))
  }

  lemma TableSamePtrs(i: nat, p: nat, disk: seq<Block>, owner: Owner, disk': seq<Block>, owner': Owner)
    requires SamePtrs(i, disk, owner, disk', owner')
    requires p != 0 ==> p in owner && Of(owner[p], i) && !owner[p].Data?
    ensures Table(disk', p) == Table(disk, p)
  {
    assert p != 0 ==> Blk(disk', p) == Blk(disk, p);
  }

  /** A file whose data changes, but not its pointers, stays well formed. */
  lemma FilePtrsKept(i: nat, nd: Inode, t: Tree, c: nat, disk: seq<Block>, owner: Owner, disk': seq<Block>,
                     owner': Owner)
    requires FileOk(i, nd, t, c, disk, owner) && SamePtrs(i, disk, owner, disk', owner')
    ensures FileOk(i, nd, t, c, disk', owner')
  {
    hide Dense, Ptrs;
    TableSamePtrs(i, t.ind1, disk, owner, disk', owner');
    TableSamePtrs(i, t.ind2, disk, owner, disk', owner');
    forall j | 0 <= j < N_PTRS
      ensures t.two[j] == Table(disk', t.tabs[j])
    {
      TableSamePtrs(i, t.tabs[j], disk, owner, disk', owner');
    }
    forall r {:trigger Leaf(t, r)} | ValidRegion(r)
      ensures Owned(i, r, Leaf(t, r), owner')
    {
      assert Owned(i, r, Leaf(t, r), owner);
    }
  }

  /** Only fields of an inode that the file tree does not depend on differ. */
  predicate SameFileFields(nd: Inode, nd': Inode) {
    nd'.direct == nd.direct && nd'.indir1 == nd.indir1 && nd'.indir2 == nd.indir2 && nd'.size == nd.size
  }

  lemma FileFieldsKept(i: nat, nd: Inode, nd': Inode, t: Tree, c: nat, disk: seq<Block>, owner: Owner)
    requires FileOk(i, nd, t, c, disk, owner) && SameFileFields(nd, nd')
    ensures FileOk(i, nd', t, c, disk, owner)
  {
  }

  /** Ownership changes only for the files of `gone` and `born`. */
  ghost predicate OwnersStep(owner: Owner, owner': Owner, gone: set<nat>, born: set<nat>) {
    && (forall p :: p in owner && (owner[p].Leaked? || owner[p].ino !in gone) ==> p in owner' && owner'[p] == owner[p])
    && (forall p :: p in owner' && (owner'[p].Leaked? || owner'[p].ino !in born) ==>
         p in owner && owner[p] == owner'[p])
    && (forall p :: p in owner' && !owner'[p].Leaked? ==> owner'[p].ino !in gone)
  }

  /** The files of `gone` are no longer there, those of `born` are new, and the others have changed only in
      fields of the inode outside the file tree. */
  ghost predicate NodesStep(s: State, s': State, gone: set<nat>, born: set<nat>) {
    && |s'.inodes| == |s.inodes|
    && born !! s.sh.trees.Keys && gone <= s.sh.trees.Keys
    && s'.sh.trees.Keys == s.sh.trees.Keys - gone + born && s'.sh.extent.Keys == s'.sh.trees.Keys
    && (forall j :: j in s.sh.trees && j !in gone && j in s.sh.extent && j < |s.inodes| ==>
          s'.sh.trees[j] == s.sh.trees[j] && s'.sh.extent[j] == s.sh.extent[j]
          && SameFileFields(s.inodes[j], s'.inodes[j]) && (IsDir(s'.inodes[j]) <==> IsDir(s.inodes[j])))
  }

  /** From s to s', directory d has got new contents; the files of `gone` are no longer there and those of `born` are
      new. */
  ghost predicate DirStep(s: State, s': State, d: nat, gone: set<nat>, born: set<nat>) {
    && d in s.sh.trees && d !in gone
    && NodesStep(s, s', gone, born)
    && OwnersStep(s.owner, s'.owner, gone, born)
    && |s'.disk| == |s.disk|
    && (forall p :: p in s'.owner && p in s.owner && s.owner[p] != Data(d, Direct, 0) ==>
         Blk(s'.disk, p) == Blk(s.disk, p))
  }

  // ---- blocks that a step does not concern ------------------------------------------------------------

  /** The files other than i have the same pointer trees and sizes. */
  ghost predicate SameShapes(s: State, s': State, i: nat) {
    && |s'.inodes| == |s.inodes|
    && (forall j :: j in s.sh.trees && j in s.sh.extent && j != i && j < |s.inodes| ==>
          j in s'.sh.trees && j in s'.sh.extent && s'.sh.trees[j] == s.sh.trees[j] && s'.sh.extent[j] == s.sh.extent[j]
          && s'.inodes[j].size == s.inodes[j].size)
  }

  /** The files other than i have the same pointer trees and sizes; the blocks that belong neither to inode i nor to the
      entries of directory d belong to the same files and are unchanged. */
  ghost predicate Aside(s: State, s': State, d: nat, i: nat) {
    && SameShapes(s, s', i) && |s'.disk| == |s.disk|
    && (forall p :: p in s.owner && !Of(s.owner[p], i) ==> p in s'.owner && s'.owner[p] == s.owner[p])
    && (forall p :: p in s.owner && !Of(s.owner[p], i) && s.owner[p] != Data(d, Direct, 0) ==>
         Blk(s'.disk, p) == Blk(s.disk, p))
    && (forall p :: p in s'.owner && !Of(s'.owner[p], i) && !s'.owner[p].Leaked? ==>
         p in s.owner && s.owner[p] == s'.owner[p])
  }

  lemma FileAside(s: State, s': State, d: nat, i: nat)
    requires FileStep(s, s', i)
    ensures Aside(s, s', d, i)
  {
    hide IsDir;
  }

  lemma AsideChain(s: State, s1: State, s2: State, d: nat, i: nat)
    requires Aside(s, s1, d, i) && Aside(s1, s2, d, i)
    ensures Aside(s, s2, d, i)
  {
  }

  lemma AsideMeta(first: nat, s: State, s': State, disk: seq<Block>, d: nat, i: nat)
    requires Inv(first, s') && Aside(s, s', d, i) && SameOutside(s'.disk, disk, 1, first)
    ensures Aside(s, s'.(disk := disk), d, i)
  {
    hide Inv, IsDir;
    InvKeys(first, s');
  }

  lemma StepShapes(s: State, s': State, d: nat, i: nat, gone: set<nat>, born: set<nat>)
    requires NodesStep(s, s', gone, born) && (forall j :: j in gone ==> j == i) && (forall j :: j in born ==> j == i)
    ensures SameShapes(s, s', i)
  {
    hide IsDir;
  }

  lemma StepAside(s: State, s': State, d: nat, i: nat, gone: set<nat>, born: set<nat>)
    requires DirStep(s, s', d, gone, born) && gone + born <= {i}
    ensures Aside(s, s', d, i)
  {
    hide NodesStep, SameShapes;
    assert forall j :: j in gone || j in born ==> j in gone + born;
    StepShapes(s, s', d, i, gone, born);
  }

  lemma DirStepBlocks(s: State, s': State, d: nat, gone: set<nat>, born: set<nat>, j: nat)
    requires DirStep(s, s', d, gone, born) && j in s.sh.trees && j !in gone
    ensures SamePtrs(j, s.disk, s.owner, s'.disk, s'.owner)
    ensures j != d ==> SameBlocks(j, s.disk, s.owner, s'.disk, s'.owner)
  {
    hide SameFileFields, IsDir;
  }

  lemma DirStepFiles(s: State, s': State, d: nat, gone: set<nat>, born: set<nat>)
    requires DirStep(s, s', d, gone, born) && FilesOk(s)
    requires forall i :: i in born ==>
      i < |s'.inodes| && FileOk(i, s'.inodes[i], s'.sh.trees[i], s'.sh.extent[i], s'.disk, s'.owner)
    requires forall i :: i in born && IsDir(s'.inodes[i]) ==> s'.sh.extent[i] == 1 && s'.inodes[i].size == BLOCK_SIZE
    ensures FilesOk(s')
  {
    hide FileOk, SameBlocks, IsDir, SamePtrs, Blk;
    forall j | j in s'.sh.trees
      ensures j < |s'.inodes| && FileOk(j, s'.inodes[j], s'.sh.trees[j], s'.sh.extent[j], s'.disk, s'.owner)
      ensures IsDir(s'.inodes[j]) ==> s'.sh.extent[j] == 1 && s'.inodes[j].size == BLOCK_SIZE
    {
      if j !in born {
        DirStepBlocks(s, s', d, gone, born, j);
        FilePtrsKept(j, s.inodes[j], s.sh.trees[j], s.sh.extent[j], s.disk, s.owner, s'.disk, s'.owner);
        FileFieldsKept(j, s.inodes[j], s'.inodes[j], s'.sh.trees[j], s'.sh.extent[j], s'.disk, s'.owner);
      }
    }
  }

  /** Every file but the directory keeps its contents. */
  lemma DirStepOthers(s: State, s': State, d: nat, gone: set<nat>, born: set<nat>, j: nat)
    requires DirStep(s, s', d, gone, born) && FilesOk(s) && j in s.sh.trees && j !in gone && j != d
    ensures j < |s.inodes| && Contents(s', j) == Contents(s, j)
    ensures IsDir(s.inodes[j]) ==> DirOf(s'.inodes[j], s'.disk) == DirOf(s.inodes[j], s.disk)
  {
    hide FileOk, SameBlocks, IsDir, SamePtrs;
    DirStepBlocks(s, s', d, gone, born, j);
    DataKept(j, s.inodes[j], s.sh.trees[j], s.sh.extent[j], s.disk, s.owner, s'.disk, s'.owner);
    SameFieldsData(s.inodes[j], s'.inodes[j], s'.disk);
    if IsDir(s.inodes[j]) {
      DirBlockOwned(s, j);
    }
  }

  lemma SameFieldsData(nd: Inode, nd': Inode, disk: seq<Block>)
    requires SameFileFields(nd, nd')
    ensures FileContents.FileData(nd', disk) == FileContents.FileData(nd, disk)
  {
  }

  // ---- create and mkdir ------------------------------------------------------------------------------

  /** The tree of a new directory whose block is p, and of a new file. */
  ghost function NewTree(isDir: bool, p: u32): FileTrees.Tree {
    if isDir then EmptyTree().(direct := NO_DIRECT[0 := p]) else EmptyTree()
  }

  /** Only entry x of the directory nd has been rewritten, as e. */
  ghost predicate EntryWritten(nd: Inode, disk: seq<Block>, disk': seq<Block>, x: nat, e: Dirent) {
    && |disk'| == |disk| && x < N_DIRENTS && nd.direct[0] < |disk|
    && disk' == disk[nd.direct[0] := disk'[nd.direct[0]]]
    && Entries(disk'[nd.direct[0]]) == DirOf(nd, disk)[x := e]
  }

  /** What create has found: directory d has a free entry x and no name leaf; inode i and block p are free. */
  ghost predicate CreateReady(first: nat, s: State, d: nat, x: nat, i: nat, leaf: Name, p: u32) {
    && d in s.sh.trees && d < |s.inodes| && IsDir(s.inodes[d]) && d in s.sh.depth
    && x < N_DIRENTS && !DirOf(s.inodes[d], s.disk)[x].valid
    && GoodName(leaf) && LookupIn(DirOf(s.inodes[d], s.disk), leaf) == -ENOENT
    && i !in s.live && i < |s.inodes| && first <= p < |s.disk| && p !in s.used
  }

  ghost function NewEntry(es: Dirents, x: nat, i: u30, leaf: Name, isDir: bool): Dirent
    requires x < N_DIRENTS && |leaf| < NAME_SIZE
  {
    Dirent(true, isDir, i, StrCpy(es[x].name, leaf))
  }

  ghost function NewShadow(sh: Shadow, d: nat, x: nat, i: nat, isDir: bool, p: u32): Shadow
    requires d in sh.depth
  {
    Shadow(sh.trees[i := NewTree(isDir, p)], sh.extent[i := if isDir then 1 else 0],
           sh.place[i := Place(d, x)], sh.depth[i := sh.depth[d] + 1])
  }

  /** s' is s with a new inode i, of a file or of a directory with block p, under entry x of directory d. */
  ghost predicate Creating(first: nat, s: State, s': State, d: nat, x: nat, i: u30, leaf: Name, isDir: bool, p: u32) {
    && CreateReady(first, s, d, x, i, leaf, p)
    && EntryWritten(s.inodes[d], s.disk, s'.disk, x, NewEntry(DirOf(s.inodes[d], s.disk), x, i, leaf, isDir))
    && |s'.inodes| == |s.inodes| && s'.inodes == s.inodes[i := s'.inodes[i]]
    && NewInode(s'.inodes[i], isDir, p)
    && s'.used == (if isDir then s.used + {p as nat} else s.used) && s'.live == s.live + {i as nat}
    && s'.owner == (if isDir then s.owner[p := Data(i, Direct, 0)] else s.owner)
    && s'.sh == NewShadow(s.sh, d, x, i, isDir, p)
  }

  predicate NewInode(nd: Inode, isDir: bool, p: u32) {
    && (IsDir(nd) <==> isDir) && nd.indir1 == 0 && nd.indir2 == 0
    && nd.direct == (if isDir then NO_DIRECT[0 := p] else NO_DIRECT)
    && nd.size == (if isDir then BLOCK_SIZE else 0)
  }

  lemma CreateBlocks(first: nat, s: State, s': State, d: nat, x: nat, i: u30, leaf: Name, isDir: bool, p: u32)
    requires Inv(first, s) && Creating(first, s, s', d, x, i, leaf, isDir, p)
    ensures BlocksOk(first, s'.disk, s'.used, s'.owner)
    ensures s.inodes[d].direct[0] in s.owner && s.owner[s.inodes[d].direct[0]] == Data(d, Direct, 0)
    ensures s.inodes[d].direct[0] != p
  {
    hide FilesOk, NamesOk, InodesOk, Entries, NewInode, NewEntry, NewShadow, GoodName, LookupIn;
    DirBlockOwned(s, d);
  }

  lemma CreateNodes(first: nat, s: State, s': State, d: nat, x: nat, i: u30, leaf: Name, isDir: bool, p: u32)
    requires Inv(first, s) && Creating(first, s, s', d, x, i, leaf, isDir, p)
    ensures NodesStep(s, s', {}, {i as nat})
  {
    hide Inv, EntryWritten, NewInode, NewEntry, GoodName, LookupIn, IsDir, DirOf, NewTree;
    InvKeys(first, s);
  }

  lemma CreateOwners(first: nat, s: State, s': State, d: nat, x: nat, i: u30, leaf: Name, isDir: bool, p: u32)
    requires Inv(first, s) && Creating(first, s, s', d, x, i, leaf, isDir, p)
    ensures OwnersStep(s.owner, s'.owner, {}, {i as nat})
  {
    hide Inv, EntryWritten, NewInode, NewEntry, NewShadow, GoodName, LookupIn, IsDir, DirOf;
    InvKeys(first, s);
  }

  lemma CreateDirStep(first: nat, s: State, s': State, d: nat, x: nat, i: u30, leaf: Name, isDir: bool, p: u32)
    requires Inv(first, s) && Creating(first, s, s', d, x, i, leaf, isDir, p)
    ensures DirStep(s, s', d, {}, {i as nat})
  {
    hide Inv, Entries, NewInode, NewEntry, NewShadow, LookupIn, IsDir, DirOf, OwnersStep, NodesStep;
    CreateNodes(first, s, s', d, x, i, leaf, isDir, p);
    CreateOwners(first, s, s', d, x, i, leaf, isDir, p);
    CreateBlocks(first, s, s', d, x, i, leaf, isDir, p);
    InvKeys(first, s);
  }

  lemma NewTreeLeaves(isDir: bool, p: u32)
    requires p != 0
    ensures var t := NewTree(isDir, p); var c := if isDir then 1 else 0; Dense(t, c)
    ensures var t := NewTree(isDir, p); forall r {:trigger Leaf(t, r)} :: ValidRegion(r) ==>
      forall k :: 0 <= k < Size(r) ==>
      Leaf(t, r)[k] == if isDir && r == Direct && k == 0 then p else 0
  {
    var t := NewTree(isDir, p);
    forall r {:trigger Leaf(t, r)} | ValidRegion(r)
      ensures forall k :: 0 <= k < Size(r) ==> Leaf(t, r)[k] == if isDir && r == Direct && k == 0 then p else 0
    {
      EmptyLeaf(r);
    }
  }

  /** The new inode is a well-formed file: empty, or a directory with one block. */
  lemma NewFileOk(i: nat, nd: Inode, isDir: bool, p: u32, disk: seq<Block>, owner: Owner)
    requires NewInode(nd, isDir, p) && 0 < p < |disk| && 0 !in owner
    requires forall x :: x in owner && Of(owner[x], i) ==> isDir && x == p
    requires isDir ==> p in owner && owner[p] == Data(i, Direct, 0)
    ensures FileOk(i, nd, NewTree(isDir, p), if isDir then 1 else 0, disk, owner)
  {
    hide Dense, IsDir;
    var t := NewTree(isDir, p);
    NewTreeLeaves(isDir, p);
    forall r {:trigger Leaf(t, r)} | ValidRegion(r)
      ensures Owned(i, r, Leaf(t, r), owner)
    {
    }
  }

  lemma CreateFiles(first: nat, s: State, s': State, d: nat, x: nat, i: u30, leaf: Name, isDir: bool, p: u32)
    requires Inv(first, s) && Creating(first, s, s', d, x, i, leaf, isDir, p)
    ensures FilesOk(s') && InodesOk(s')
  {
    hide NamesOk, Entries, GoodName, LookupIn, IsDir, FileOk, NewTree, DirStep, CStr, StrCpy, DirOf, FilesOk, ZeroBlock;
    CreateBlocks(first, s, s', d, x, i, leaf, isDir, p);
    CreateDirStep(first, s, s', d, x, i, leaf, isDir, p);
    CreateOwner(first, s, s', d, x, i, leaf, isDir, p);
    NewFileOk(i, s'.inodes[i], isDir, p, s'.disk, s'.owner);
    DirStepFiles(s, s', d, {}, {i});
  }

  lemma CreateOwner(first: nat, s: State, s': State, d: nat, x: nat, i: u30, leaf: Name, isDir: bool, p: u32)
    requires Inv(first, s) && Creating(first, s, s', d, x, i, leaf, isDir, p)
    ensures 0 !in s'.owner && p > 0
    ensures forall y :: y in s'.owner && Of(s'.owner[y], i) ==> isDir && y == p
    ensures isDir ==> p in s'.owner && s'.owner[p] == Data(i, Direct, 0)
  {
    hide NamesOk, Entries, GoodName, LookupIn, IsDir, FileOk, NewTree, CStr, StrCpy, DirOf, NewInode;
  }

  /** The directories that a step does not rewrite are as they were. */
  lemma DirStepElsewhere(s: State, s': State, d: nat, gone: set<nat>, born: set<nat>)
    requires DirStep(s, s', d, gone, born) && FilesOk(s)
    ensures SameElsewhere(TreeOf(s), TreeOf(s'), d)
  {
    hide FilesOk, DirStep, IsDir, DirOf, SameFileFields;
    NodesSame(s, s', d, gone, born);
    forall e | e in s.sh.trees && e in s'.sh.trees && e < |s.inodes| && e != d && IsDir(s.inodes[e])
      ensures DirOf(s'.inodes[e], s'.disk) == DirOf(s.inodes[e], s.disk)
    {
      DirStepOthers(s, s', d, gone, born, e);
    }
  }

  lemma NodesSame(s: State, s': State, d: nat, gone: set<nat>, born: set<nat>)
    requires DirStep(s, s', d, gone, born) && FilesOk(s)
    ensures |s'.inodes| == |s.inodes|
    ensures forall e :: e in s.sh.trees && e in s'.sh.trees && e < |s.inodes| ==>
      e !in gone && (IsDir(s'.inodes[e]) <==> IsDir(s.inodes[e]))
  {
    hide FileOk, OwnersStep, IsDir, SameFileFields;
  }

  /** The rewritten directory. */
  lemma EntryDir(s: State, s': State, d: nat, x: nat, e: Dirent)
    requires d < |s.inodes| && EntryWritten(s.inodes[d], s.disk, s'.disk, x, e) && d < |s'.inodes|
    requires s'.inodes[d].direct == s.inodes[d].direct
    ensures DirOf(s'.inodes[d], s'.disk) == DirOf(s.inodes[d], s.disk)[x := e]
  {
    hide Entries;
  }

  /** A directory on a zero block is empty. */
  lemma ZeroDir(nd: Inode, disk: seq<Block>)
    requires nd.direct[0] < |disk| && disk[nd.direct[0]] == ZeroBlock()
    ensures NoEntries(DirOf(nd, disk))
  {
    hide Entries, ZeroBlock;
    EntriesOfZero();
  }

  lemma CreateEntry(first: nat, s: State, s': State, d: nat, x: nat, i: u30, leaf: Name, isDir: bool, p: u32)
    requires Inv(first, s) && Creating(first, s, s', d, x, i, leaf, isDir, p)
    ensures d < |s'.inodes| && x < N_DIRENTS && i as nat != d
    ensures var es, es' := DirOf(s.inodes[d], s.disk), DirOf(s'.inodes[d], s'.disk);
      es' == es[x := es'[x]] && Matches(es'[x], leaf) && es'[x].inode == i && es'[x].isDir == isDir
  {
    hide Inv, Entries, NewShadow, LookupIn, IsDir, DirOf, StrCpy, CStr, NewInode;
    InvKeys(first, s);
    EntryDir(s, s', d, x, NewEntry(DirOf(s.inodes[d], s.disk), x, i, leaf, isDir));
    StrCpyName(DirOf(s.inodes[d], s.disk)[x].name, leaf);
  }

  lemma CreateEmpty(first: nat, s: State, s': State, d: nat, x: nat, i: u30, leaf: Name, isDir: bool, p: u32)
    requires Inv(first, s) && Creating(first, s, s', d, x, i, leaf, isDir, p)
    ensures (IsDir(s'.inodes[i]) <==> isDir) && (isDir ==> NoEntries(DirOf(s'.inodes[i], s'.disk)))
  {
    hide Inv, Entries, NewShadow, NewEntry, LookupIn, DirOf, IsDir, NoEntries, ZeroBlock, BlocksOk, GoodName;
    if isDir {
      InvTree(first, s);
      CreateBlocks(first, s, s', d, x, i, leaf, isDir, p);
      FreeBlockZero(first, s, p);
      ZeroDir(s'.inodes[i], s'.disk);
    }
  }

  lemma CreatingParts(first: nat, s: State, s': State, d: nat, x: nat, i: u30, leaf: Name, isDir: bool, p: u32)
    requires Creating(first, s, s', d, x, i, leaf, isDir, p)
    ensures d in s.sh.trees && d < |s.inodes| && IsDir(s.inodes[d]) && d in s.sh.depth && x < N_DIRENTS
    ensures i !in s.live && p !in s.used && i as nat < |s.inodes| == |s'.inodes|
    ensures s'.sh.trees.Keys == s.sh.trees.Keys + {i as nat} && s'.live == s.live + {i as nat}
    ensures s'.sh.place == s.sh.place[i as nat := Place(d, x)]
    ensures s'.sh.depth == s.sh.depth[i as nat := s.sh.depth[d] + 1]
    ensures s'.used == (if isDir then s.used + {p as nat} else s.used)
    ensures s'.owner == (if isDir then s.owner[p := Data(i, Direct, 0)] else s.owner)
    ensures forall j :: 0 <= j < |s.inodes| && j != i ==> s'.inodes[j] == s.inodes[j]
    ensures !DirOf(s.inodes[d], s.disk)[x].valid && GoodName(leaf)
    ensures LookupIn(DirOf(s.inodes[d], s.disk), leaf) == -ENOENT
  {
    hide EntryWritten, NewInode, NewTree, GoodName, LookupIn, IsDir, DirOf;
  }

  lemma CreateTree(first: nat, s: State, s': State, d: nat, x: nat, i: u30, leaf: Name, isDir: bool, p: u32)
    requires Inv(first, s) && Creating(first, s, s', d, x, i, leaf, isDir, p)
    ensures Adding(TreeOf(s), TreeOf(s'), d, x, i, leaf)
  {
    hide Inv, Creating, LookupIn, IsDir, DirStep, DirOf, SameElsewhere, NoEntries, GoodName, Matches, BlocksOk, FilesOk,
      InodesOk, NamesOk;
    CreatingParts(first, s, s', d, x, i, leaf, isDir, p);
    InvTree(first, s);
    CreateDirStep(first, s, s', d, x, i, leaf, isDir, p);
    DirStepElsewhere(s, s', d, {}, {i as nat});
    CreateEntry(first, s, s', d, x, i, leaf, isDir, p);
    CreateEmpty(first, s, s', d, x, i, leaf, isDir, p);
    LiveNotZero(first, s, i);
  }

  lemma LiveNotZero(first: nat, s: State, i: nat)
    requires Inv(first, s) && i !in s.live
    ensures i > 0 && i !in s.sh.trees
  {
  }

  lemma FreeBlockZero(first: nat, s: State, p: nat)
    requires BlocksOk(first, s.disk, s.used, s.owner) && p < |s.disk| && p !in s.used
    ensures s.disk[p] == ZeroBlock()
  {
  }

  lemma InvTree(first: nat, s: State)
    requires Inv(first, s)
    ensures TreeOk(TreeOf(s)) && FilesOk(s) && BlocksOk(first, s.disk, s.used, s.owner) && InodesOk(s)
  {
    hide FilesOk, NamesOk, InodesOk, BlocksOk;
  }

  /** create keeps the invariant, and adds exactly one name. */
  lemma CreateKeepsInv(first: nat, s: State, s': State, d: nat, x: nat, i: u30, leaf: Name, isDir: bool, p: u32)
    requires Inv(first, s) && Creating(first, s, s', d, x, i, leaf, isDir, p)
    ensures Inv(first, s') && Added(TreeOf(s), TreeOf(s'), d, x, i, leaf) && DirStep(s, s', d, {}, {i as nat})
  {
    hide FilesOk, InodesOk, BlocksOk, NamesOk, Creating, Added, DirStep, Adding;
    InvTree(first, s);
    CreateBlocks(first, s, s', d, x, i, leaf, isDir, p);
    CreateFiles(first, s, s', d, x, i, leaf, isDir, p);
    CreateTree(first, s, s', d, x, i, leaf, isDir, p);
    AddKeepsTree(TreeOf(s), TreeOf(s'), d, x, i, leaf);
    CreateDirStep(first, s, s', d, x, i, leaf, isDir, p);
  }

  // ---- unlink and rmdir ---------------------------------------------------------------------------------

  /** What the removal of an entry has found: entry x of directory d is the place of inode i, under the name leaf;
      if i is a directory, it is empty. */
  ghost predicate RemoveReady(s: State, d: nat, x: nat, i: nat, leaf: Name) {
    && d in s.sh.trees && d < |s.inodes| && IsDir(s.inodes[d]) && x < N_DIRENTS
    && i in s.sh.place && s.sh.place[i] == Place(d, x) && i in s.sh.trees && i < |s.inodes| && i != d
    && Matches(DirOf(s.inodes[d], s.disk)[x], leaf)
    && (IsDir(s.inodes[i]) ==> NoEntries(DirOf(s.inodes[i], s.disk)))
  }

  /** The directory nd has lost its entry x, and the blocks of `gone` have been cleared. */
  ghost predicate EntryCleared(nd: Inode, disk: seq<Block>, disk': seq<Block>, x: nat, gone: set<nat>) {
    && |disk'| == |disk| && x < N_DIRENTS && nd.direct[0] < |disk|
    && Entries(disk'[nd.direct[0]]) == DirOf(nd, disk)[x := DirOf(nd, disk)[x].(valid := false)]
    && (forall p: nat :: p < |disk| && p != nd.direct[0] ==> disk'[p] == if p in gone then ZeroBlock() else disk[p])
  }

  ghost function DropNode(sh: Shadow, i: nat): Shadow {
    Shadow(sh.trees - {i}, sh.extent - {i}, sh.place - {i}, sh.depth - {i})
  }

  /** s' is s without inode i, its blocks and its entry. */
  ghost predicate Removing(s: State, s': State, d: nat, x: nat, i: nat, leaf: Name) {
    && RemoveReady(s, d, x, i, leaf)
    && EntryCleared(s.inodes[d], s.disk, s'.disk, x, Footprint(s.owner, i))
    && |s'.inodes| == |s.inodes| && NullInode(s'.inodes[i])
    && (forall j :: 0 <= j < |s.inodes| && j != i ==> s'.inodes[j] == s.inodes[j].(mtime := s'.inodes[j].mtime))
    && s'.used == s.used - Footprint(s.owner, i) && s'.owner == s.owner - Footprint(s.owner, i)
    && s'.live == s.live - {i} && s'.sh == DropNode(s.sh, i)
  }

  lemma RemovingParts(s: State, s': State, d: nat, x: nat, i: nat, leaf: Name)
    requires Removing(s, s', d, x, i, leaf)
    ensures RemoveReady(s, d, x, i, leaf) && |s'.inodes| == |s.inodes| && |s'.disk| == |s.disk|
    ensures forall j :: 0 <= j < |s.inodes| && j != i ==> s'.inodes[j] == s.inodes[j].(mtime := s'.inodes[j].mtime)
    ensures s'.live == s.live - {i} && s'.sh == DropNode(s.sh, i)
    ensures d in s.sh.trees && i in s.sh.trees && d < |s.inodes| && i < |s.inodes| && i != d && IsDir(s.inodes[d])
  {
    hide IsDir, DirOf, Footprint, NoEntries;
  }

  lemma RemoveBlocks(first: nat, s: State, s': State, d: nat, x: nat, i: nat, leaf: Name)
    requires Inv(first, s) && Removing(s, s', d, x, i, leaf)
    ensures BlocksOk(first, s'.disk, s'.used, s'.owner)
    ensures s.inodes[d].direct[0] in s.owner && s.owner[s.inodes[d].direct[0]] == Data(d, Direct, 0)
  {
    hide NamesOk, InodesOk, FileOk, Entries, IsDirMode, NoEntries, DropNode;
    DirBlockOwned(s, d);
  }

  lemma RemoveOwners(first: nat, s: State, s': State, d: nat, x: nat, i: nat, leaf: Name)
    requires Inv(first, s) && Removing(s, s', d, x, i, leaf)
    ensures OwnersStep(s.owner, s'.owner, {i}, {})
  {
    hide Inv, RemoveReady, EntryCleared, DropNode;
  }

  lemma RemoveNodes(first: nat, s: State, s': State, d: nat, x: nat, i: nat, leaf: Name)
    requires Inv(first, s) && Removing(s, s', d, x, i, leaf)
    ensures NodesStep(s, s', {i}, {})
  {
    hide Inv, EntryCleared, DirOf, NoEntries, Matches, Footprint, IsDirMode;
    InvKeys(first, s);
  }

  lemma RemoveDirStep(first: nat, s: State, s': State, d: nat, x: nat, i: nat, leaf: Name)
    requires Inv(first, s) && Removing(s, s', d, x, i, leaf)
    ensures DirStep(s, s', d, {i}, {})
  {
    hide Inv, Entries, OwnersStep, NodesStep, DirOf, IsDir, RemoveReady, DropNode, BlocksOk;
    RemovingParts(s, s', d, x, i, leaf);
    RemoveNodes(first, s, s', d, x, i, leaf);
    RemoveOwners(first, s, s', d, x, i, leaf);
    RemoveBlocks(first, s, s', d, x, i, leaf);
    InvKeys(first, s);
  }

  lemma RemoveInodes(first: nat, s: State, s': State, d: nat, x: nat, i: nat, leaf: Name)
    requires Inv(first, s) && Removing(s, s', d, x, i, leaf)
    ensures InodesOk(s')
  {
    hide FilesOk, BlocksOk, NamesOk, EntryCleared, RemoveReady, Footprint;
    RemovingParts(s, s', d, x, i, leaf);
  }

  lemma RemoveTree(first: nat, s: State, s': State, d: nat, x: nat, i: nat, leaf: Name)
    requires Inv(first, s) && Removing(s, s', d, x, i, leaf)
    ensures TreeOk(TreeOf(s')) && Removed(TreeOf(s), TreeOf(s'), d, x, i, leaf)
  {
    hide Inv, IsDir, SameElsewhere, NoEntries, Matches, BlocksOk, FilesOk, InodesOk, TreeOk, Removed, DirStep;
    RemovingParts(s, s', d, x, i, leaf);
    InvTree(first, s);
    RemoveDirStep(first, s, s', d, x, i, leaf);
    DirStepElsewhere(s, s', d, {i}, {});
    RemoveKeepsTree(TreeOf(s), TreeOf(s'), d, x, i, leaf);
  }

  /** The removal of an entry and its inode keeps the invariant, and removes exactly the paths through that name. */
  lemma RemoveKeepsInv(first: nat, s: State, s': State, d: nat, x: nat, i: nat, leaf: Name)
    requires Inv(first, s) && Removing(s, s', d, x, i, leaf)
    ensures Inv(first, s') && Removed(TreeOf(s), TreeOf(s'), d, x, i, leaf) && DirStep(s, s', d, {i}, {})
  {
    hide FilesOk, InodesOk, BlocksOk, NamesOk, Removing, Removed, DirStep;
    InvTree(first, s);
    RemoveBlocks(first, s, s', d, x, i, leaf);
    RemoveInodes(first, s, s', d, x, i, leaf);
    RemoveDirStep(first, s, s', d, x, i, leaf);
    DirStepFiles(s, s', d, {i}, {});
    RemoveTree(first, s, s', d, x, i, leaf);
  }

  // ---- rename ----------------------------------------------------------------------------------------------

  /** s' is s with entry x of directory d under a new name. */
  ghost predicate Renaming(s: State, s': State, d: nat, x: nat, src: Name, dst: Name) {
    && d in s.sh.trees && d < |s.inodes| && IsDir(s.inodes[d]) && x < N_DIRENTS
    && Matches(DirOf(s.inodes[d], s.disk)[x], src)
    && GoodName(dst) && LookupIn(DirOf(s.inodes[d], s.disk), dst) == -ENOENT
    && (var e := DirOf(s.inodes[d], s.disk)[x];
        EntryWritten(s.inodes[d], s.disk, s'.disk, x, e.(name := StrCpy(e.name, dst))))
    && |s'.inodes| == |s.inodes|
    && (forall j :: 0 <= j < |s.inodes| ==> s'.inodes[j] == s.inodes[j].(mtime := s'.inodes[j].mtime))
    && s'.used == s.used && s'.owner == s.owner && s'.live == s.live && s'.sh == s.sh
  }

  lemma RenameBlocks(first: nat, s: State, s': State, d: nat, x: nat, src: Name, dst: Name)
    requires Inv(first, s) && Renaming(s, s', d, x, src, dst)
    ensures BlocksOk(first, s'.disk, s'.used, s'.owner)
    ensures s.inodes[d].direct[0] in s.owner && s.owner[s.inodes[d].direct[0]] == Data(d, Direct, 0)
  {
    hide NamesOk, InodesOk, FileOk, Entries, IsDirMode, StrCpy, GoodName, LookupIn;
    DirBlockOwned(s, d);
  }

  lemma RenameDirStep(first: nat, s: State, s': State, d: nat, x: nat, src: Name, dst: Name)
    requires Inv(first, s) && Renaming(s, s', d, x, src, dst)
    ensures DirStep(s, s', d, {}, {})
  {
    hide Inv, Entries, StrCpy, GoodName, LookupIn, DirOf, IsDirMode, Matches, ZeroBlock;
    RenameBlocks(first, s, s', d, x, src, dst);
    InvKeys(first, s);
  }

  lemma RenameEntry(s: State, s': State, d: nat, x: nat, src: Name, dst: Name)
    requires Renaming(s, s', d, x, src, dst)
    ensures d < |s.inodes| == |s'.inodes| && x < N_DIRENTS
    ensures var es, es' := DirOf(s.inodes[d], s.disk), DirOf(s'.inodes[d], s'.disk);
      es' == es[x := es'[x]] && Matches(es'[x], dst) && es'[x].inode == es[x].inode && es'[x].isDir == es[x].isDir
  {
    hide Entries, StrCpy, LookupIn, CStr, IsDir;
    StrCpyName(DirOf(s.inodes[d], s.disk)[x].name, dst);
  }

  lemma RenameTree(first: nat, s: State, s': State, d: nat, x: nat, src: Name, dst: Name)
    requires Inv(first, s) && Renaming(s, s', d, x, src, dst)
    ensures TreeOk(TreeOf(s')) && Renamed(TreeOf(s), TreeOf(s'), d, x, src, dst)
  {
    hide Inv, IsDir, DirOf, SameElsewhere, Matches, BlocksOk, FilesOk, InodesOk, TreeOk, Renamed, DirStep, EntryWritten,
      GoodName, LookupIn;
    InvTree(first, s);
    RenameDirStep(first, s, s', d, x, src, dst);
    DirStepElsewhere(s, s', d, {}, {});
    RenameEntry(s, s', d, x, src, dst);
    RenameKeepsTree(TreeOf(s), TreeOf(s'), d, x, src, dst);
  }

  /** rename keeps the invariant, and moves exactly the paths through the old name to the new one. */
  lemma RenameKeepsInv(first: nat, s: State, s': State, d: nat, x: nat, src: Name, dst: Name)
    requires Inv(first, s) && Renaming(s, s', d, x, src, dst)
    ensures Inv(first, s') && Renamed(TreeOf(s), TreeOf(s'), d, x, src, dst) && DirStep(s, s', d, {}, {})
  {
    hide FilesOk, BlocksOk, NamesOk, Renamed, DirStep;
    InvTree(first, s);
    RenameBlocks(first, s, s', d, x, src, dst);
    RenameDirStep(first, s, s', d, x, src, dst);
    DirStepFiles(s, s', d, {}, {});
    RenameTree(first, s, s', d, x, src, dst);
  }

  // ---- modes and entries ------------------------------------------------------------------------------------

  /** The place of an inode in use other than the root. */
  lemma PlaceOf(first: nat, s: State, i: nat)
    requires Inv(first, s) && i in s.sh.trees && i != 1 && i < |s.inodes|
    ensures i in s.sh.place && Sits(i, s.sh.place[i], s.inodes, s.sh.trees.Keys, s.disk, s.sh.depth)
  {
    hide FilesOk, BlocksOk, Sits;
  }

  /** Every valid entry of a directory in use has the flag that its inode's mode asks for. */
  lemma EntryFlag(first: nat, s: State, d: nat, x: nat)
    requires Inv(first, s) && d in s.sh.trees && d < |s.inodes| && IsDir(s.inodes[d]) && x < N_DIRENTS
    requires DirOf(s.inodes[d], s.disk)[x].valid
    ensures var e := DirOf(s.inodes[d], s.disk)[x]; e.inode < |s.inodes| && (e.isDir <==> IsDir(s.inodes[e.inode]))
  {
    hide FilesOk, BlocksOk, InodesOk, Entries, IsDirMode;
    var e := DirOf(s.inodes[d], s.disk)[x];
    assert DirOk(d, DirOf(s.inodes[d], s.disk), s.sh.place);
    assert Sits(e.inode, s.sh.place[e.inode], s.inodes, s.sh.trees.Keys, s.disk, s.sh.depth);
  }

  /** A directory that gets the mode of another file type breaks the invariant for good: no choice of owners and places
      makes the new state consistent. */
  lemma ModeBreaksInv(first: nat, s: State, s': State, i: nat, mode: u32)
    requires Inv(first, s) && i in s.sh.trees && i < |s.inodes| && IsDir(s.inodes[i]) && !IsDirMode(mode)
    requires s'.disk == s.disk && s'.live == s.live && s'.inodes == s.inodes[i := s.inodes[i].(mode := mode)]
    ensures !Inv(first, s')
  {
    hide Inv, IsDirMode, Entries;
    if Inv(first, s') {
      InvKeys(first, s);
      InvKeys(first, s');
      assert i in s'.sh.trees;
      PlaceOf(first, s', i);
      var pl := s'.sh.place[i];
      EntryFlag(first, s, pl.dir, pl.slot);
    }
  }

  // ---- paths that a change does not concern ----------------------------------------------------------------

  /** The inodes of n except i, directories and their entries included, are the same in the given inodes and disk. */
  ghost predicate SameDirs(n: NameTree, i: nat, inodes: seq<Inode>, disk: seq<Block>) {
    && |inodes| == |n.inodes|
    && (forall e :: e in n.nodes && e != i && e < |inodes| ==>
          (IsDir(inodes[e]) <==> IsDir(n.inodes[e])) && (IsDir(inodes[e]) ==> DirOf(inodes[e], disk) == Dir(n, e)))
  }

  /** A path that resolves does not pass through an inode without entries, so it still resolves when that inode
      changes. */
  lemma {:induction false} FindAvoids(n: NameTree, i: nat, inodes: seq<Inode>, disk: seq<Block>, q: seq<Name>)
    requires TreeOk(n) && SameDirs(n, i, inodes, disk)
    requires i in n.nodes && i < |n.inodes| ==> !IsDir(n.inodes[i]) || NoEntries(Dir(n, i))
    ensures Find(n, q) > 0 ==> Resolve(inodes, disk, q) == Find(n, q)
  {
    hide TreeOk, DirOf, IsDir, LookupIn, NoEntries;
    if q != [] {
      var q0, y := q[..|q| - 1], q[|q| - 1];
      FindAvoids(n, i, inodes, disk, q0);
      FindStep(n, q);
      var e := Find(n, q0);
      if e > 0 && e == i { NoStep(n, i, y); }
    }
  }

  lemma NoStep(n: NameTree, i: nat, y: Name)
    requires i < |n.inodes| && (!IsDir(n.inodes[i]) || NoEntries(Dir(n, i)))
    ensures Step(n, i, y) < 0
  {
    if IsDir(n.inodes[i]) { LookupMiss(Dir(n, i), y); }
  }

  /** When no directory changes, no path does. */
  lemma {:induction false} FindKept(n: NameTree, inodes: seq<Inode>, disk: seq<Block>, q: seq<Name>)
    requires TreeOk(n) && SameDirs(n, 0, inodes, disk)
    ensures Resolve(inodes, disk, q) == Find(n, q)
  {
    hide TreeOk, DirOf, IsDir, LookupIn;
    if q != [] {
      FindKept(n, inodes, disk, q[..|q| - 1]);
      FindStep(n, q);
      NodesIndexed(n);
    }
  }
}
