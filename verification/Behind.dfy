/** fs_write on an inode, and what a write that runs out of space leaves on the disk. It does not call update_disk, so
    the bitmaps and the inode table there are those from before; but pointer blocks that they lead to may have been
    written. */
module Behind {
  import opened Bytes
  import opened Bitmaps
  import opened Codec
  import opened FileTrees
  import opened Volumes
  import opened Writing
  import opened WriteSteps
  import opened FileWrite
  import opened Consistency
  import opened FileBlockLists
  import opened Accounting
  import opened Mounted

  /** The blocks that the files of state s have on the disk, although s does not have them marked. */
  ghost function Exposed(s: State, disk: seq<Block>): set<nat> {
    set j, p | j in s.live && j < |s.inodes| && p in FileBlocks(s.inodes[j], disk) && p as nat !in s.used :: p as nat
  }

  /** Is there a consistent state with the inode table and the bitmaps of s and the given disk? */
  ghost predicate Recoverable(first: nat, s: State, disk: seq<Block>) {
    exists t: State :: SameMetadata(s, disk, t) && Inv(first, t)
  }

  ghost predicate SameMetadata(s: State, disk: seq<Block>, t: State) {
    t.disk == disk && t.inodes == s.inodes && t.used == s.used && t.live == s.live
  }

  /** The number of exposed blocks after a write has run out of space: c data blocks were there before, with an indirect
      block if ind1, and n blocks are the file's with all that were free. */
  function Exposure(c: nat, ind1: bool, n: int): nat {
    if c <= 262 then (if ind1 && n >= 263 then 262 - c else 0)
    else if n >= BlockCount(TableEnd(c)) then TableEnd(c) - c
    else 0
  }

  /** How a write that runs out of space leaves the disk, where s is the state before. */
  ghost predicate LeftBehind(first: nat, s: State, s': State, i: nat) {
    && i in s.sh.extent && i < |s.inodes| && s'.live == s.live && SameBelow(first, s.disk, s'.disk)
    && |Exposed(s, s'.disk)| == Exposure(s.sh.extent[i], s.inodes[i].indir1 != 0, AllOf(s, i))
    && (forall p :: p in Exposed(s, s'.disk) ==> first <= p < |s.disk|)
    && (Recoverable(first, s, s'.disk) <==> Exposed(s, s'.disk) == {} && FreeZero(s, s'.disk))
    && (|s.used| == |s.disk| ==> s'.inodes == s.inodes && s'.used == s.used)
  }

  /** The blocks that s has not marked are all zero on the disk. */
  ghost predicate FreeZero(s: State, disk: seq<Block>) {
    forall p: nat :: p < |disk| && p !in s.used ==> disk[p] == ZeroBlock()
  }

  // ---- the file as the inode from before sees it ------------------------------------------------------------

  /** The pointers of the tree td that can be reached from an inode with the pointers of t. */
  function Seen(t: Tree, td: Tree): Tree {
    Tree(t.direct, t.ind1, if t.ind1 != 0 then td.one else Nulls(), t.ind2, if t.ind2 != 0 then td.tabs else Nulls(),
      seq(N_PTRS, j requires 0 <= j < N_PTRS => if t.ind2 != 0 && td.tabs[j] != 0 then td.two[j] else Nulls()))
  }

  /** How many data blocks are reached, if t has c of them and td has cd. */
  function SeenTo(t: Tree, c: nat, cd: nat): nat {
    if cd > c && (c <= 262 ==> t.ind1 != 0) then cd else c
  }

  lemma SeenDense(t: Tree, c: nat, td: Tree, f: nat)
    requires Dense(t, c) && Dense(td, Landing(c, f)) && TreeKeeps(t, td) && c <= f < MAX_BLOCKS
    ensures Dense(Seen(t, td), SeenTo(t, c, Landing(c, f)))
  {
    hide Keeps;
    var vt, cv := Seen(t, td), SeenTo(t, c, Landing(c, f));
    forall r {:trigger Leaf(vt, r)} | ValidRegion(r)
      ensures DenseRun(Leaf(vt, r), First(r), cv)
    {
      assert DenseRun(Leaf(t, r), First(r), c) && DenseRun(Leaf(td, r), First(r), Landing(c, f));
    }
  }

  lemma SeenStored(t: Tree, nd: Inode, disk: seq<Block>, td: Tree, nd': Inode, disk': seq<Block>)
    requires Stored(t, nd, disk) && Stored(td, nd', disk') && TreeKeeps(t, td)
    ensures Stored(Seen(t, td), nd, disk')
  {
    hide Ptrs, Keeps;
  }

  lemma SeenOwned(i: nat, t: Tree, td: Tree, owner: Owner)
    requires TreeOwned(i, td, owner) && TreeKeeps(t, td)
    ensures TreeOwned(i, Seen(t, td), owner)
  {
    var vt := Seen(t, td);
    forall r {:trigger Leaf(vt, r)} | ValidRegion(r)
      ensures Owned(i, r, Leaf(vt, r), owner)
    {
      assert Owned(i, r, Leaf(td, r), owner) && Keeps(Leaf(t, r), Leaf(td, r));
    }
  }

  /** What hangs from t hangs from what is seen of td. */
  lemma SeenHangs(t: Tree, c: nat, td: Tree, s: Slot, p: nat)
    requires Dense(t, c) && TreeKeeps(t, td) && Hangs(t, s, p) && p != 0
    ensures Hangs(Seen(t, td), s, p)
  {
    TablesThere(t, c, s, p);
    if s.Data? { assert Keeps(Leaf(t, s.r), Leaf(td, s.r)); }
  }

  // ---- which blocks are exposed ------------------------------------------------------------------------------

  /** A write to file w.ino of state s has run out of space; owner is the owner map with everything it was handed. */
  ghost predicate Failed(first: nat, s: State, w: Request, disk: seq<Block>, used: set<nat>, owner: Owner, nd: Inode,
                         td: Tree, c: nat, f: nat) {
    && w.ino in s.sh.trees && w.ino in s.sh.extent && w.ino < |s.inodes| && !IsDir(s.inodes[w.ino])
    && w == RequestOf(s, w.ino, w.offset, w.buf)
    && Landed(w, disk, owner, nd, td, c) && Stuck(w, owner, td, c, f) && BlocksOk(first, disk, used, owner)
  }

  /** The owners with those blocks of the file that are not seen recorded as leaked. */
  ghost function SeenOwners(w: Request, owner: Owner, td: Tree): Owner {
    Relabel(owner, w.ino, Seen(w.t, td))
  }

  /** The inode from before leads to a well-formed file on the disk. */
  lemma SeenFile(first: nat, s: State, w: Request, disk: seq<Block>, used: set<nat>, owner: Owner, nd: Inode, td: Tree,
                 c: nat, f: nat)
    requires Failed(first, s, w, disk, used, owner, nd, td, c, f) && Inv(first, s)
    ensures FileOk(w.ino, s.inodes[w.ino], Seen(w.t, td), SeenTo(w.t, w.c, c), disk, SeenOwners(w, owner, td))
  {
    hide Inv, Seen, IsDir, Handed, Confined, DataDone, TreeKeeps, Dense, TreeOwned, TreeExact, Stored, Wanted, BlocksOk,
      Relabel, Landing, Upto, FilesOk, NamesOk, InodesOk;
    InvFile(first, s, w.ino);
    StuckWanted(w, owner, td, c, f);
    SeenDense(w.t, w.c, td, f);
    SeenStored(w.t, s.inodes[w.ino], s.disk, td, nd, disk);
    SeenOwned(w.ino, w.t, td, owner);
    RelabelOwned(owner, w.ino, Seen(w.t, td));
  }

  lemma InvFile(first: nat, s: State, i: nat)
    requires Inv(first, s) && i in s.sh.trees
    ensures i in s.sh.extent && i < |s.inodes|
    ensures FileOk(i, s.inodes[i], s.sh.trees[i], s.sh.extent[i], s.disk, s.owner) && 0 !in s.owner
    ensures BlocksOk(first, s.disk, s.used, s.owner)
  {
    hide FileOk, NamesOk, InodesOk, IsDir;
  }

  /** The blocks on the list of a file are its own. */
  lemma ListIs(i: nat, nd: Inode, t: Tree, c: nat, disk: seq<Block>, owner: Owner)
    requires FileOk(i, nd, t, c, disk, owner) && 0 !in owner
    ensures ToSet(FileBlocks(nd, disk)) == Footprint(owner, i)
  {
    hide FileOk, FileBlocks, Rank;
    FileBlocksAre(i, nd, t, c, disk, owner);
    var ps := FileBlocks(nd, disk);
    forall p | p in ToSet(ps) ensures p in Footprint(owner, i) {
      var k :| 0 <= k < |ps| && ps[k] as nat == p;
    }
  }

  /** The other files have kept their blocks. */
  lemma OtherFile(first: nat, s: State, w: Request, disk: seq<Block>, owner: Owner, j: nat)
    requires Inv(first, s) && j in s.live && j != w.ino && j < |s.inodes| && w.disk == s.disk && w.owner == s.owner
    requires Handed(w, owner) && Confined(w, disk, owner)
    ensures forall p :: p in FileBlocks(s.inodes[j], disk) ==> p as nat in s.used
  {
    hide Inv, FileBlocks, FileOk, Wanted, Needs;
    InvKeys(first, s);
    if j in s.sh.trees {
      InvFile(first, s, j);
      var t, c := s.sh.trees[j], s.sh.extent[j];
      FileKept(j, s.inodes[j], t, c, s.disk, s.owner, disk, s.owner);
      ListIs(j, s.inodes[j], t, c, disk, s.owner);
      forall p | p in FileBlocks(s.inodes[j], disk) ensures p as nat in s.used {
        assert p as nat in ToSet(FileBlocks(s.inodes[j], disk));
      }
    } else {
      NullBlocks(first, s, disk, j);
    }
  }

  lemma NullBlocks(first: nat, s: State, disk: seq<Block>, j: nat)
    requires Inv(first, s) && j !in s.sh.trees && j < |s.inodes|
    ensures FileBlocks(s.inodes[j], disk) == []
  {
    hide FilesOk, NamesOk, BlocksOk, IsDir;
    var d := s.inodes[j].direct;
    assert d[1..] == [0, 0, 0, 0, 0] && d[1..][1..] == [0, 0, 0, 0] && d[1..][1..][1..] == [0, 0, 0];
  }

  /** The blocks from before are seen, and the others that are seen are exposed. */
  lemma SeenBlocks(first: nat, s: State, w: Request, disk: seq<Block>, used: set<nat>, owner: Owner, nd: Inode,
                   td: Tree, c: nat, f: nat)
    requires Failed(first, s, w, disk, used, owner, nd, td, c, f) && Inv(first, s)
    ensures var o := SeenOwners(w, owner, td);
      Footprint(s.owner, w.ino) <= Footprint(o, w.ino) && Footprint(o, w.ino) * s.used == Footprint(s.owner, w.ino)
  {
    hide Inv, Seen, IsDir, DataDone, TreeKeeps, Dense, TreeOwned, Stored, Wanted, Needs, Hangs, Stuck, ZeroBlock;
    InvFile(first, s, w.ino);
    forall p | p in Footprint(s.owner, w.ino)
      ensures p in Footprint(SeenOwners(w, owner, td), w.ino)
    {
      assert Hangs(w.t, s.owner[p], p);
      SeenHangs(w.t, w.c, td, s.owner[p], p);
    }
  }

  lemma ExposedIs(first: nat, s: State, w: Request, disk: seq<Block>, used: set<nat>, owner: Owner, nd: Inode,
                  td: Tree, c: nat, f: nat)
    requires Failed(first, s, w, disk, used, owner, nd, td, c, f) && Inv(first, s)
    ensures var o := SeenOwners(w, owner, td);
      Exposed(s, disk) == Footprint(o, w.ino) - s.used && Footprint(s.owner, w.ino) <= Footprint(o, w.ino)
    ensures |Exposed(s, disk)| == |Footprint(SeenOwners(w, owner, td), w.ino)| - |Footprint(s.owner, w.ino)|
    ensures forall p :: p in Exposed(s, disk) ==> first <= p < |disk|
  {
    hide Inv, Seen, SeenOwners, IsDir, FileBlocks, Footprint, Stuck, BlocksOk, FileOk, SeenTo, TreeOwned, TreeKeeps,
      DataDone, Dense, Stored, Wanted;
    InvKeys(first, s);
    var i, o := w.ino, SeenOwners(w, owner, td);
    SeenFile(first, s, w, disk, used, owner, nd, td, c, f);
    SeenBlocks(first, s, w, disk, used, owner, nd, td, c, f);
    ListIs(i, s.inodes[i], Seen(w.t, td), SeenTo(w.t, w.c, c), disk, o) by { SeenKeys(w, owner, td); }
    forall p: nat
      ensures p in Exposed(s, disk) <==> p in Footprint(o, i) && p !in s.used
    {
      ExposedAt(first, s, w, disk, owner, p);
    }
    assert Footprint(o, i) - s.used == Footprint(o, i) - Footprint(s.owner, i);
    SeenBound(first, w, disk, used, owner, td);
    PartCount(Footprint(o, i), Footprint(s.owner, i));
  }

  lemma SeenKeys(w: Request, owner: Owner, td: Tree)
    ensures SeenOwners(w, owner, td).Keys == owner.Keys
  {
    hide Seen, Hangs;
  }

  lemma SeenBound(first: nat, w: Request, disk: seq<Block>, used: set<nat>, owner: Owner, td: Tree)
    requires BlocksOk(first, disk, used, owner)
    ensures forall p :: p in Footprint(SeenOwners(w, owner, td), w.ino) ==> first <= p < |disk|
  {
    hide Seen, Hangs, ZeroBlock;
  }

  /** Only the file that was written to has exposed blocks. */
  lemma ExposedAt(first: nat, s: State, w: Request, disk: seq<Block>, owner: Owner, p: nat)
    requires Inv(first, s) && w.ino in s.live && w.ino < |s.inodes| && w.disk == s.disk && w.owner == s.owner
    requires Handed(w, owner) && Confined(w, disk, owner)
    ensures p in Exposed(s, disk) <==> p in ToSet(FileBlocks(s.inodes[w.ino], disk)) && p !in s.used
  {
    hide Inv, FileBlocks, Handed, Confined;
    if p in Exposed(s, disk) {
      var j, q :| j in s.live && j < |s.inodes| && q in FileBlocks(s.inodes[j], disk) && q as nat !in s.used
        && p == q as nat;
      if j != w.ino { OtherFile(first, s, w, disk, owner, j); }
    }
  }

  /** How many blocks are exposed. */
  lemma ExposedCount(first: nat, s: State, w: Request, disk: seq<Block>, used: set<nat>, owner: Owner, nd: Inode,
                     td: Tree, c: nat, f: nat)
    requires Failed(first, s, w, disk, used, owner, nd, td, c, f) && Inv(first, s)
    requires forall p: nat :: p < |disk| ==> p in used
    ensures |Exposed(s, disk)| == Exposure(w.c, w.t.ind1 != 0, AllOf(s, w.ino))
    ensures forall p :: p in Exposed(s, disk) ==> first <= p < |disk|
  {
    hide Inv, Seen, SeenOwners, IsDir, Footprint, BlocksOk, Exposed, DataDone, TreeOwned, TreeExact, TreeKeeps, Dense,
      Stored, Wanted, Upto, Spare, Exposure, SeenTo, Landing;
    var i, o := w.ino, SeenOwners(w, owner, td);
    InvFile(first, s, i);
    RequestFile(first, s, w);
    StuckWanted(w, owner, td, c, f);
    var t: Tree :| Buffered(w, owner, t, f) && t.ind1 == td.ind1 && t.ind2 == td.ind2;
    HandedCount(first, s, w, disk, used, owner);
    FootprintCount(i, t, f, owner);
    UsedBound(first, disk, used, owner);
    ExposedIs(first, s, w, disk, used, owner, nd, td, c, f);
    SeenFile(first, s, w, disk, used, owner, nd, td, c, f);
    SeenKeys(w, owner, td);
    DenseUpto(Seen(w.t, td), SeenTo(w.t, w.c, c));
    FootprintCount(i, Seen(w.t, td), SeenTo(w.t, w.c, c), o);
    ExposureIs(w.t, w.c, t, td, f);
  }

  lemma ExposureIs(t0: Tree, c: nat, t: Tree, td: Tree, f: nat)
    requires Dense(t0, c) && Dense(td, Landing(c, f)) && TreeKeeps(t0, td) && Upto(t, f) && c <= f < MAX_BLOCKS
    ensures var cv := SeenTo(t0, c, Landing(c, f));
      BlockCount(cv) + Spare(Seen(t0, td), cv) - BlockCount(c) - Spare(t0, c) ==
      Exposure(c, t0.ind1 != 0, BlockCount(f) + Spare(t, f))
  {
    hide Upto, Dense, TreeKeeps, BlockCount, Landing, Exposure, Spare, Seen;
    EarlyBound(t, f);
    SeenSpare(t0, c, td, f);
    ExposureSum(c, f, t0.ind1 != 0, Spare(t, f));
  }

  /** The only pointer block that may have been there early is the indirect block. */
  lemma SeenSpare(t0: Tree, c: nat, td: Tree, f: nat)
    requires Dense(t0, c) && Dense(td, Landing(c, f)) && TreeKeeps(t0, td) && c <= f < MAX_BLOCKS
    ensures t0.ind1 != 0 ==> c >= 6
    ensures var cv := SeenTo(t0, c, Landing(c, f));
      Spare(Seen(t0, td), cv) == if cv == c then Spare(t0, c) else Spare(t0, c) - (if c == 6 then 1 else 0)
  {
    hide DenseRun, Keeps;
  }

  lemma ExposureSum(c: nat, f: nat, ind1: bool, spare: nat)
    requires c <= f < MAX_BLOCKS && BlockCount(f) + spare < BlockCount(f + 1) && (ind1 ==> c >= 6)
    ensures var e := Landing(c, f);
      Exposure(c, ind1, BlockCount(f) + spare) ==
        if e > c && (c <= 262 ==> ind1) then BlockCount(e) - BlockCount(c) - (if c == 6 then 1 else 0) else 0
  {
    if f > 262 { BlockCountMonotone(262, f); }
    if c > 262 {
      var e := TableEnd(c);
      if f < e {
        if f + 1 < e { BlockCountMonotone(f + 1, e); }
      } else if e < f {
        BlockCountMonotone(e, f);
      }
    }
  }

  // ---- what a remount would find ---------------------------------------------------------------------------------

  /** A consistent state has no exposed blocks, and its free blocks are zero. */
  lemma NoneExposed(first: nat, s: State, t: State, disk: seq<Block>)
    requires SameMetadata(s, disk, t) && Inv(first, t)
    ensures Exposed(s, disk) == {} && FreeZero(s, disk)
  {
    hide Inv, FileBlocks, FileOk;
    InvKeys(first, t);
    InvFile(first, t, 1);
    forall j | j in s.live && j < |s.inodes|
      ensures forall p :: p in FileBlocks(s.inodes[j], disk) ==> p as nat in s.used
    {
      if j in t.sh.trees {
        InvFile(first, t, j);
        ListIs(j, t.inodes[j], t.sh.trees[j], t.sh.extent[j], disk, t.owner);
        forall p | p in FileBlocks(s.inodes[j], disk) ensures p as nat in s.used {
          assert p as nat in ToSet(FileBlocks(s.inodes[j], disk));
        }
      } else {
        NullBlocks(first, t, disk, j);
      }
    }
  }

  /** If no block is exposed, the file that the inode leads to has the owners from before. */
  lemma SeenOk(i: nat, nd: Inode, vt: Tree, c: nat, disk: seq<Block>, owner: Owner, o: Owner)
    requires FileOk(i, nd, vt, c, disk, o) && Footprint(o, i) == Footprint(owner, i)
    requires forall p :: p in Footprint(owner, i) ==> p in o && o[p] == owner[p]
    ensures FileOk(i, nd, vt, c, disk, owner)
  {
    hide Stored, Dense, Hangs;
    assert forall p :: p in o && Of(o[p], i) ==> p in Footprint(o, i);
    assert forall p :: p in owner && Of(owner[p], i) ==> p in Footprint(owner, i);
    forall r {:trigger Leaf(vt, r)} | ValidRegion(r)
      ensures Owned(i, r, Leaf(vt, r), owner)
    {
      assert Owned(i, r, Leaf(vt, r), o);
    }
  }

  /** What has not been written to a marked block can be undone. */
  lemma Recovers(first: nat, s: State, w: Request, disk: seq<Block>, used: set<nat>, owner: Owner, nd: Inode,
                 td: Tree, c: nat, f: nat)
    requires Failed(first, s, w, disk, used, owner, nd, td, c, f) && Inv(first, s)
    requires Exposed(s, disk) == {} && FreeZero(s, disk)
    ensures Recoverable(first, s, disk)
  {
    hide Inv, Seen, SeenOwners, IsDir, Footprint, BlocksOk, Exposed, DataDone, TreeOwned, TreeExact, TreeKeeps, Dense,
      Stored, Wanted, Stuck, SeenTo, FileOk, FileStep;
    var i, o := w.ino, SeenOwners(w, owner, td);
    var vt, cv := Seen(w.t, td), SeenTo(w.t, w.c, c);
    ExposedIs(first, s, w, disk, used, owner, nd, td, c, f);
    SeenFile(first, s, w, disk, used, owner, nd, td, c, f);
    var t := State(disk, s.inodes, s.used, s.live, s.owner, WithTree(s.sh, i, vt, cv));
    SeenBlocks(first, s, w, disk, used, owner, nd, td, c, f);
    Within(Footprint(o, i), s.used, Footprint(s.owner, i));
    SeenSame(s, w, disk, owner, td);
    SeenOk(i, s.inodes[i], vt, cv, disk, s.owner, o);
    OldStep(s, t, w, owner, vt, cv);
    OldBlocks(first, s, w, disk, owner);
    FileStepKeepsInv(first, s, t, i);
    assert SameMetadata(s, disk, t);
  }

  lemma Within(a: set<nat>, b: set<nat>, c: set<nat>)
    requires a - b == {} && a * b == c
    ensures a == c
  {
    assert forall p :: p in a && p !in b ==> p in a - b;
  }

  lemma SeenSame(s: State, w: Request, disk: seq<Block>, owner: Owner, td: Tree)
    requires w.owner == s.owner && Handed(w, owner)
    ensures var o := SeenOwners(w, owner, td);
      forall p :: p in Footprint(s.owner, w.ino) && p in Footprint(o, w.ino) ==> p in o && o[p] == s.owner[p]
  {
    hide Seen, Hangs, Wanted, Needs;
  }

  lemma OldBlocks(first: nat, s: State, w: Request, disk: seq<Block>, owner: Owner)
    requires Inv(first, s) && FreeZero(s, disk) && |disk| == |s.disk|
    ensures BlocksOk(first, disk, s.used, s.owner)
  {
    hide FilesOk, NamesOk, InodesOk, ZeroBlock;
  }

  lemma OldStep(s: State, t: State, w: Request, owner: Owner, vt: Tree, cv: nat)
    requires w.ino in s.sh.trees && w.ino in s.sh.extent && w.ino < |s.inodes| && !IsDir(s.inodes[w.ino])
    requires w.disk == s.disk && w.owner == s.owner && Handed(w, owner) && Confined(w, t.disk, owner)
    requires t == State(t.disk, s.inodes, s.used, s.live, s.owner, WithTree(s.sh, w.ino, vt, cv))
    ensures FileStep(s, t, w.ino)
  {
    hide Wanted, Needs, IsDir;
  }

  /** A write that finds every block marked has changed no bitmap and no inode. */
  lemma NothingFree(first: nat, s: State, s': State, w: Request, owner: Owner, nd: Inode, td: Tree, c: nat, f: nat)
    requires Failed(first, s, w, s'.disk, s'.used, owner, nd, td, c, f) && Inv(first, s) && |s.used| == |s.disk|
    requires |s'.inodes| == |s.inodes| && s'.inodes == s.inodes[w.ino := nd]
    requires nd == s.inodes[w.ino].(direct := nd.direct, indir1 := nd.indir1, indir2 := nd.indir2)
    ensures s'.inodes == s.inodes && s'.used == s.used
  {
    hide Inv, IsDir, FileOk, DataDone, Dense, Wanted, Needs, Stuck;
    InvFile(first, s, w.ino);
    AllTaken(first, s, w, s'.disk, s'.used, owner);
    FileParts(w.ino, s.inodes[w.ino], w.t, w.c, s.disk, s.owner);
    SameTop(w, s.inodes[w.ino], owner, td, nd, s'.disk);
  }

  lemma FileParts(i: nat, nd: Inode, t: Tree, c: nat, disk: seq<Block>, owner: Owner)
    requires FileOk(i, nd, t, c, disk, owner)
    ensures Stored(t, nd, disk) && TreeExact(i, t, owner)
  {
    hide Stored, TreeExact, TreeOwned, Dense;
  }

  lemma AllTaken(first: nat, s: State, w: Request, disk: seq<Block>, used: set<nat>, owner: Owner)
    requires BlocksOk(first, s.disk, s.used, s.owner) && BlocksOk(first, disk, used, owner) && |s.used| == |s.disk|
    requires w.owner == s.owner && Handed(w, owner) && |disk| == |s.disk|
    ensures used == s.used && owner.Keys == s.owner.Keys
  {
    hide Wanted, Needs, ZeroBlock;
    UsedBound(first, disk, used, owner);
    assert s.used <= used;
    FewerThan(s.used, used);
    PartCount(used, s.used);
    assert used - s.used == {};
  }

  lemma SameTop(w: Request, nd: Inode, owner: Owner, td: Tree, nd': Inode, disk: seq<Block>)
    requires Stored(w.t, nd, w.disk) && TreeExact(w.ino, w.t, w.owner) && Stored(td, nd', disk)
    requires TreeOwned(w.ino, td, owner) && TreeKeeps(w.t, td) && Handed(w, owner) && owner.Keys == w.owner.Keys
    ensures nd'.direct == nd.direct && nd'.indir1 == nd.indir1 && nd'.indir2 == nd.indir2
  {
    hide Wanted, Needs, Ptrs;
    assert Owned(w.ino, Direct, Leaf(td, Direct), owner) && Keeps(Leaf(w.t, Direct), Leaf(td, Direct));
    forall k | 0 <= k < N_DIRECT ensures td.direct[k] == w.t.direct[k] {
      if td.direct[k] != 0 { assert Hangs(w.t, w.owner[td.direct[k]], td.direct[k]); }
    }
    assert td.ind1 != 0 ==> Hangs(w.t, w.owner[td.ind1], td.ind1);
    assert td.ind2 != 0 ==> Hangs(w.t, w.owner[td.ind2], td.ind2);
  }

  /** All of this, for a write that has run out of space. */
  lemma IsLeftBehind(first: nat, s: State, s': State, w: Request, owner: Owner, td: Tree, c: nat, f: nat)
    requires w.ino < |s'.inodes| == |s.inodes|
    requires Failed(first, s, w, s'.disk, s'.used, owner, s'.inodes[w.ino], td, c, f)
    requires s'.inodes == s.inodes[w.ino := s'.inodes[w.ino]] && s'.live == s.live
    requires var nd, nd' := s.inodes[w.ino], s'.inodes[w.ino];
      nd' == nd.(direct := nd'.direct, indir1 := nd'.indir1, indir2 := nd'.indir2)
    requires forall p: nat :: p < |s'.disk| ==> p in s'.used
    requires Inv(first, s)
    ensures LeftBehind(first, s, s', w.ino)
  {
    hide Inv, IsDir, FileOk, DataDone, Dense, Wanted, Needs, Stuck, Exposed, Exposure, AllOf, FreeZero, Recoverable,
      TreeOwned, TreeKeeps, Footprint;
    var nd' := s'.inodes[w.ino];
    InvFile(first, s, w.ino);
    FileParts(w.ino, s.inodes[w.ino], w.t, w.c, s.disk, s.owner);
    ExposedCount(first, s, w, s'.disk, s'.used, owner, nd', td, c, f);
    if |s.used| == |s.disk| { NothingFree(first, s, s', w, owner, nd', td, c, f); }
    if Exposed(s, s'.disk) == {} && FreeZero(s, s'.disk) {
      Recovers(first, s, w, s'.disk, s'.used, owner, nd', td, c, f);
    }
    if Recoverable(first, s, s'.disk) { RecoverableParts(first, s, s'.disk); }
  }

  lemma RecoverableParts(first: nat, s: State, disk: seq<Block>)
    requires Recoverable(first, s, disk)
    ensures Exposed(s, disk) == {} && FreeZero(s, disk)
  {
    hide Inv;
    var t: State :| SameMetadata(s, disk, t) && Inv(first, t);
    NoneExposed(first, s, t, disk);
  }

  // ---- fs_write on an inode ----------------------------------------------------------------------------------------

  lemma IsFailed(first: nat, s: State, w: Request, disk: seq<Block>, used: set<nat>, owner: Owner, nd: Inode, td: Tree,
                 c: nat, f: nat)
    requires w.ino in s.sh.trees && w.ino in s.sh.extent && w.ino < |s.inodes| && !IsDir(s.inodes[w.ino])
    requires w == RequestOf(s, w.ino, w.offset, w.buf)
    requires Landed(w, disk, owner, nd, td, c) && Stuck(w, owner, td, c, f) && BlocksOk(first, disk, used, owner)
    ensures Failed(first, s, w, disk, used, owner, nd, td, c, f)
  {
    hide Landed, Stuck, BlocksOk, IsDir;
  }

  /** The part of fs_write after path resolution. */
  method WriteInode(v: Volume, inum: nat, buf: seq<byte>, offset: nat, now: u32) returns (r: int)
    requires Valid(v) && inum in v.shadow.trees && inum < v.inodes.Length && !IsDir(v.inodes[inum])
    requires offset <= v.inodes[inum].size
    modifies v`used, v`owner, v`shadow, v.blockMap, v.disk, v.inodes
    ensures Valid(v)
    ensures Wrote(old(StateOf(v)), StateOf(v), inum, offset, buf, r)
    ensures WriteCost(old(StateOf(v)), StateOf(v), inum, offset, |buf|, r)
    ensures SameIdentity(old(v.inodes[inum]), v.inodes[inum], if r >= 0 then now else old(v.inodes[inum]).mtime)
    ensures r >= 0 ==> v.Synced()
    ensures r < 0 ==> LeftBehind(v.sb.First(), old(StateOf(v)), StateOf(v), inum)
    ensures v.disk.Length > 0 && v.disk[0] == old(v.disk[0])
  {
    hide Inv, Valid, Clean, WriteCost, FileStep, Landed, TreeExact, Stuck, Volume.MapsOk, BlocksOk, Wrote,
      Relabel, WithTree, Holds, SuperOf, Reach, Table, StandsFor, LeftBehind, Failed;
    var size := v.inodes[inum].size;
    ghost var s := StateOf(v);
    ghost var first := v.sb.First();
    ValidParts(v);
    WriteReady(first, s, inum, offset, buf);
    ghost var w := RequestOf(s, inum, offset, buf);
    var err, cnt;
    ghost var t, c, f;
    err, cnt, t, c, f := WriteTiers(v, inum, buf, offset, size, w);
    DiskFacts(v);
    LandedBlock0(w, v.disk[..], v.owner, v.inodes[inum], t, c);
    ghost var owner := v.owner;
    v.shadow := WithTree(v.shadow, inum, t, c);
    if err < 0 {
      IsFailed(first, s, w, v.disk[..], v.used, owner, v.inodes[inum], t, c, f);
      v.owner := Relabel(v.owner, inum, t);
      IsLeftBehind(first, s, StateOf(v), w, owner, t, c, f);
      FailedWrite(first, s, StateOf(v), w, owner, t, c, f);
      FailedCost(first, s, StateOf(v), w, owner, v.inodes[inum], t, c, f);
      RelabelBlocks(first, v.disk[..], v.used, owner, inum, t);
      ValidFrom(v);
      return -ENOSPC;
    }
    ghost var nd := v.inodes[inum];
    v.inodes[inum] := v.inodes[inum].(size := Max(size, offset + cnt), mtime := now);
    DoneWrite(first, s, StateOf(v), w, nd, t, cnt);
    ghost var s1 := StateOf(v);
    DoneCost(first, s, s1, w, nd, t, cnt);
    UpdateDisk(v);
    CostThenMeta(s, s1, v.disk[..], inum, offset, |buf|, cnt);
    WroteThenMeta(first, s, s1, v.disk[..], inum, offset, buf, cnt);
    MetaKeepsInv(first, s1, v.disk[..]);
    ValidFrom(v);
    return cnt;
  }
}
