/** The free blocks: what fs_statfs reports, what fs_truncate gives back, and the states in which nothing is marked
    that is not in use. */
module Budget {
  import opened Bytes
  import opened Bitmaps
  import opened Codec
  import opened FileTrees
  import opened Volumes
  import opened Consistency
  import opened Writing
  import opened WriteSteps
  import opened Mounted
  import opened Accounting
  import opened Truncating
  import opened DirSteps
  import opened DirOps
  import opened FileCalls

  // ---- fs_statfs --------------------------------------------------------------------------------------

  datatype StatVfs = StatVfs(bsize: nat, blocks: nat, bfree: nat, bavail: nat, namemax: nat)

  lemma FreeNext(i: nat, used: set<nat>)
    ensures |Below(i + 1) - used| == |Below(i) - used| + if i in used then 0 else 1
  {
    assert Below(i + 1) - used == if i in used then Below(i) - used else Below(i) - used + {i};
  }

  /** The free blocks of a state. */
  ghost function FreeBlocks(s: State): set<nat> {
    Below(|s.disk|) - s.used
  }

  lemma FreeCount(first: nat, s: State)
    requires Inv(first, s)
    ensures |FreeBlocks(s)| == |s.disk| - |s.used|
  {
    hide Inv;
    InvTree(first, s);
    UsedBound(first, s.disk, s.used, s.owner);
    BelowCount(|s.disk|);
    PartCount(Below(|s.disk|), s.used);
  }

  /** fs_statfs: the number of free blocks is that of the blocks that are not marked. */
  method FsStatfs(v: Volume) returns (st: StatVfs)
    requires Valid(v)
    ensures st.bsize == BLOCK_SIZE && st.blocks == v.disk.Length && st.namemax == MAX_NAME_LEN && st.bavail == st.bfree
    ensures st.bfree == |FreeBlocks(StateOf(v))| == v.disk.Length - |v.used|
  {
    hide Valid, Inv, Below, FromByte, SuperOf, BlocksOk;
    ValidParts(v);
    var res := 0;
    var i := 0;
    while i < v.disk.Length
      invariant 0 <= i <= v.disk.Length
      invariant res == |Below(i) - v.used|
    {
      var marked := BitTest(v.blockMap, i, v.used);
      FreeNext(i, v.used);
      if !marked { res := res + 1; }
      i := i + 1;
    }
    FreeCount(v.sb.First(), StateOf(v));
    return StatVfs(BLOCK_SIZE, v.disk.Length, res, res, MAX_NAME_LEN);
  }

  // ---- fs_truncate ------------------------------------------------------------------------------------

  ghost function ClearedSet(owner: Owner, i: nat): set<Slot> {
    set p | p in ClearedBlocks(owner, i) :: owner[p]
  }

  lemma ClearedSetIs(i: nat, c: nat, owner: Owner)
    requires SlotSet(owner, i) == Slots(i, c) && c <= MAX_BLOCKS
    ensures ClearedSet(owner, i) == Slots(i, Min(c, TWO_TABLES))
  {
    hide Slots;
    forall s: Slot
      ensures s in ClearedSet(owner, i) <==> s in Slots(i, Min(c, TWO_TABLES))
    {
      SlotsAre(i, c, s);
      SlotsAre(i, Min(c, TWO_TABLES), s);
      if ValidSlot(s) {}
      assert s in ClearedSet(owner, i) <==> s in SlotSet(owner, i) && Cleared(s);
    }
  }

  /** fs_truncate releases the first 518 data blocks of a file and the pointer blocks that they need. */
  lemma ClearedCount(i: nat, t: Tree, c: nat, owner: Owner)
    requires TreeOwned(i, t, owner) && TreeExact(i, t, owner) && Dense(t, c) && Tight(t, c) && 0 !in owner
    ensures |ClearedBlocks(owner, i)| == BlockCount(Min(c, TWO_TABLES))
  {
    hide TreeOwned, TreeExact, Dense, Tight, Slots, BlockCount, SlotSet, OnePerSlot;
    ExactOnePerSlot(i, t, owner);
    NoSpare(i, t, c);
    SlotSetIs(i, t, c, owner);
    ClearedSetIs(i, c, owner);
    SlotsCount(i, Min(c, TWO_TABLES));
    ClearedImage(owner, i);
  }

  lemma ClearedImage(owner: Owner, i: nat)
    requires OnePerSlot(i, owner)
    ensures |ClearedSet(owner, i)| == |ClearedBlocks(owner, i)|
  {
    ImageCount(owner, ClearedBlocks(owner, i));
  }

  /** The blocks that a truncate gives back: all of them for a file of at most 518 data blocks, and otherwise exactly
      518 data blocks and 3 pointer blocks. It loses blocks exactly in the second case. */
  lemma TruncateCost(first: nat, s: State, s': State, i: nat)
    requires Inv(first, s) && Inv(first, s') && i in s.sh.trees && Truncated(s, s', i)
    ensures i in s.sh.extent
    ensures LeakedBlocks(s.owner) <= LeakedBlocks(s'.owner)
    ensures s.sh.extent[i] <= TWO_TABLES ==> s'.used == s.used - Footprint(s.owner, i)
    ensures s.sh.extent[i] > TWO_TABLES ==> |s'.used| == |s.used| - 521
    ensures LeakedBlocks(s'.owner) == LeakedBlocks(s.owner) <==> s.sh.extent[i] <= TWO_TABLES
  {
    hide Inv, FileStep, Contents, ClearedBlocks, Footprint, LeakedBlocks, TreeOwned, TreeExact, Stored, NullInode;
    TruncateReady(first, s, i);
    ClearedAll(TargetOf(s, i), s.inodes[i]);
    var t, c := s.sh.trees[i], s.sh.extent[i];
    ClearedIff(s.owner, i);
    InvKeys(first, s);
    if c > TWO_TABLES {
      ClearedCount(i, t, c, s.owner);
      ClearedUsed(first, s, i);
      PartCount(s.used, ClearedBlocks(s.owner, i));
      assert BlockCount(TWO_TABLES) == 521;
      NotLeakedYet(s.owner, i);
    } else {
      assert LeakedBlocks(s.owner) + {} == LeakedBlocks(s.owner);
    }
  }

  /** When nothing is marked that is not in use: a truncate loses nothing exactly if the file has at most 518 * 1024
      bytes. */
  lemma TruncateSize(first: nat, s: State, s': State, i: nat)
    requires Inv(first, s) && Inv(first, s') && i in s.sh.trees && Truncated(s, s', i) && Clean(s)
    ensures i < |s.inodes|
    ensures LeakedBlocks(s'.owner) == LeakedBlocks(s.owner) <==> s.inodes[i].size <= TWO_TABLES * BLOCK_SIZE
  {
    hide Inv, Truncated, Clean, LeakedBlocks, Footprint;
    TruncateCost(first, s, s', i);
    CleanCost(first, s, i);
    BlocksForBound(s.inodes[i].size, TWO_TABLES);
  }

  /** Exactly the files of at most 518 data blocks have only blocks that fs_truncate releases. */
  lemma ClearsAll(first: nat, s: State, i: nat)
    requires Inv(first, s) && i in s.sh.trees
    ensures i in s.sh.extent && (s.sh.extent[i] <= TWO_TABLES <==> Footprint(s.owner, i) == ClearedBlocks(s.owner, i))
  {
    hide Inv, FileStep, Contents, Dense, Tight, TreeOwned, TreeExact, Stored, Cleared;
    TruncateReady(first, s, i);
    ClearedAll(TargetOf(s, i), s.inodes[i]);
    ClearedIff(s.owner, i);
  }

  lemma ClearedIff(owner: Owner, i: nat)
    ensures ClearedBlocks(owner, i) <= Footprint(owner, i)
    ensures (forall p :: p in owner && Of(owner[p], i) ==> Cleared(owner[p])) <==>
      Footprint(owner, i) - ClearedBlocks(owner, i) == {}
    ensures Footprint(owner, i) - ClearedBlocks(owner, i) == {} ==> Footprint(owner, i) == ClearedBlocks(owner, i)
  {
    hide Cleared;
    if p :| p in owner && Of(owner[p], i) && !Cleared(owner[p]) {
      assert p in Footprint(owner, i) - ClearedBlocks(owner, i);
    }
  }

  lemma ClearedUsed(first: nat, s: State, i: nat)
    requires Inv(first, s)
    ensures ClearedBlocks(s.owner, i) <= s.used
  {
    hide Inv, Cleared;
    InvKeys(first, s);
  }

  lemma NotLeakedYet(owner: Owner, i: nat)
    requires Footprint(owner, i) - ClearedBlocks(owner, i) != {}
    ensures LeakedBlocks(owner) + (Footprint(owner, i) - ClearedBlocks(owner, i)) != LeakedBlocks(owner)
  {
    hide Cleared;
    var p :| p in Footprint(owner, i) - ClearedBlocks(owner, i);
    assert p !in LeakedBlocks(owner);
  }

  // ---- states in which nothing is marked that is not in use -----------------------------------------------

  lemma NullFile(i: nat, nd: Inode, t: Tree, c: nat, disk: seq<Block>, owner: Owner)
    requires FileOk(i, nd, t, c, disk, owner) && NullInode(nd)
    ensures c == 0 && Tight(t, c)
  {
    hide TreeOwned, TreeExact;
    var a := Leaf(t, Direct);
    assert DenseRun(a, 0, c) && a[0] == 0;
  }

  /** The file of inode i, if it is still there, is a directory or has just been made or emptied. */
  ghost predicate PlainNode(s: State, i: nat) {
    i in s.sh.trees && i < |s.inodes| ==> IsDir(s.inodes[i]) || (NullInode(s.inodes[i]) && s.inodes[i].size == 0)
  }

  lemma PlainTight(first: nat, s: State, i: nat)
    requires Inv(first, s) && PlainNode(s, i) && i in s.sh.trees
    ensures i < |s.inodes| && i in s.sh.extent && Tight(s.sh.trees[i], s.sh.extent[i]) && s.inodes[i].size >= 0
    ensures s.sh.extent[i] == DivRoundUp(s.inodes[i].size, BLOCK_SIZE)
  {
    hide NamesOk, BlocksOk, IsDirMode, Stored, TreeOwned, TreeExact;
    assert FileOk(i, s.inodes[i], s.sh.trees[i], s.sh.extent[i], s.disk, s.owner);
    if IsDir(s.inodes[i]) {
    } else {
      NullFile(i, s.inodes[i], s.sh.trees[i], s.sh.extent[i], s.disk, s.owner);
    }
  }

  /** Every step but a write keeps a clean state clean, as long as it loses no block. */
  lemma StaysClean(first: nat, s: State, s': State, d: nat, i: nat)
    requires Inv(first, s) && Inv(first, s') && Clean(s) && Aside(s, s', d, i) && PlainNode(s', i)
    requires s'.sh.trees.Keys <= s.sh.trees.Keys + {i} && LeakedBlocks(s'.owner) <= LeakedBlocks(s.owner)
    ensures Clean(s')
  {
    hide Inv, PlainNode, IsDir;
    InvKeys(first, s);
    InvKeys(first, s');
    NoLeaks(s, s'.owner);
    forall j | j in s'.sh.trees
      ensures j < |s'.inodes| && j in s'.sh.extent
      ensures s'.inodes[j].size >= 0 ==>
        Tight(s'.sh.trees[j], s'.sh.extent[j]) && s'.sh.extent[j] == DivRoundUp(s'.inodes[j].size, BLOCK_SIZE)
    {
      if j == i { PlainTight(first, s', i); } else if s'.inodes[j].size >= 0 { CleanFile(s, j); }
    }
  }

  lemma NoLeaks(s: State, owner: Owner)
    requires Clean(s) && LeakedBlocks(owner) <= LeakedBlocks(s.owner)
    ensures forall p :: p in owner ==> !owner[p].Leaked?
  {
    hide Tight;
    assert LeakedBlocks(s.owner) == {};
    assert forall p :: p in owner && owner[p].Leaked? ==> p in LeakedBlocks(owner);
  }
}
