/** fsck.hw3, the consistency checker: what it reports on the images of the states of the file system. */
module Fsck {
  import opened Bytes
  import opened Bitmaps
  import opened Codec
  import opened Utf8
  import opened FileTrees
  import opened Volumes
  import opened Consistency
  import opened FileContents
  import opened FileBlockLists
  import opened Writing
  import opened Mounted
  import opened Paths
  import opened Names
  import opened NameChanges
  import opened DirSteps
  import opened DirOps
  import opened Images

  // ---- what lies below a directory ------------------------------------------------------------------------

  /** Inode j hangs, directly or not, from one of the first x entries of directory i. */
  ghost predicate Beneath(n: NameTree, j: nat, i: nat, x: nat)
    requires TreeOk(n) && j in n.nodes
    decreases if j in n.depth then n.depth[j] else 0
  {
    j in n.place
    && (assert Sits(j, n.place[j], n.inodes, n.nodes, n.disk, n.depth);
        if n.place[j].dir == i then n.place[j].slot < x else Beneath(n, n.place[j].dir, i, x))
  }

  /** The place of an inode. */
  lemma PlaceFacts(n: NameTree, j: nat)
    requires TreeOk(n) && j in n.place
    ensures j in n.nodes && n.place[j].dir in n.nodes && n.place[j].dir < |n.inodes| && IsDir(n.inodes[n.place[j].dir])
    ensures n.place[j].slot < N_DIRENTS && Dir(n, n.place[j].dir)[n.place[j].slot].valid
    ensures Dir(n, n.place[j].dir)[n.place[j].slot].inode == j
    ensures j in n.depth && n.place[j].dir in n.depth && n.depth[j] == n.depth[n.place[j].dir] + 1
  {
    hide Entries, IsDirMode;
    assert Sits(j, n.place[j], n.inodes, n.nodes, n.disk, n.depth);
  }

  lemma {:induction false} BeneathNone(n: NameTree, j: nat, i: nat)
    requires TreeOk(n) && j in n.nodes
    ensures !Beneath(n, j, i, 0)
    decreases if j in n.depth then n.depth[j] else 0
  {
    hide TreeOk;
    if j in n.place {
      PlaceFacts(n, j);
      BeneathNone(n, n.place[j].dir, i);
    }
  }

  lemma {:induction false} BeneathDeeper(n: NameTree, j: nat, i: nat, x: nat)
    requires TreeOk(n) && j in n.nodes && i in n.nodes && Beneath(n, j, i, x)
    ensures i in n.depth && j in n.depth && n.depth[j] > n.depth[i]
    decreases if j in n.depth then n.depth[j] else 0
  {
    hide TreeOk;
    PlaceFacts(n, j);
    if n.place[j].dir != i { BeneathDeeper(n, n.place[j].dir, i, x); }
  }

  /** A valid entry and the inode that it names. */
  lemma EntryFacts(n: NameTree, i: nat, x: nat)
    requires TreeOk(n) && i in n.nodes && i < |n.inodes| && IsDir(n.inodes[i]) && x < N_DIRENTS && Dir(n, i)[x].valid
    ensures var c := Dir(n, i)[x].inode;
      c in n.place && n.place[c] == Place(i, x) && c in n.nodes && c as nat < |n.inodes| && c as nat != i
    ensures var c := Dir(n, i)[x].inode; Dir(n, i)[x].isDir <==> IsDir(n.inodes[c])
    ensures var c := Dir(n, i)[x].inode; c in n.depth && i in n.depth && n.depth[c] == n.depth[i] + 1
  {
    hide Entries, IsDirMode;
    assert DirOk(i, Dir(n, i), n.place);
    var c := Dir(n, i)[x].inode;
    assert Sits(c, n.place[c], n.inodes, n.nodes, n.disk, n.depth);
  }

  /** An invalid entry adds nothing. */
  lemma {:induction false} BeneathSkip(n: NameTree, j: nat, i: nat, x: nat)
    requires TreeOk(n) && i in n.nodes && i < |n.inodes| && IsDir(n.inodes[i]) && x < N_DIRENTS && !Dir(n, i)[x].valid
    requires j in n.nodes
    ensures Beneath(n, j, i, x + 1) <==> Beneath(n, j, i, x)
    decreases if j in n.depth then n.depth[j] else 0
  {
    hide TreeOk, DirOf, IsDir;
    if j in n.place {
      PlaceFacts(n, j);
      BeneathSkip(n, n.place[j].dir, i, x);
    }
  }

  /** A valid entry adds the inode that it names and what lies below it, all of it new. */
  lemma {:induction false} BeneathNext(n: NameTree, j: nat, i: nat, x: nat, c: nat)
    requires TreeOk(n) && i in n.nodes && i < |n.inodes| && IsDir(n.inodes[i]) && x < N_DIRENTS && Dir(n, i)[x].valid
    requires j in n.nodes
    requires c == Dir(n, i)[x].inode
    ensures Beneath(n, j, i, x + 1) <==> Beneath(n, j, i, x) || j == c || Beneath(n, j, c, N_DIRENTS)
    ensures !(Beneath(n, j, i, x) && (j == c || Beneath(n, j, c, N_DIRENTS)))
    decreases if j in n.depth then n.depth[j] else 0
  {
    hide TreeOk, DirOf, IsDir;
    EntryFacts(n, i, x);
    if j in n.place {
      PlaceFacts(n, j);
      var e := n.place[j].dir;
      BeneathNext(n, e, i, x, c);
      if e == i && Beneath(n, e, c, N_DIRENTS) { BeneathDeeper(n, e, c, N_DIRENTS); }
    }
  }

  lemma {:induction false} BeneathRoot(n: NameTree, j: nat)
    requires TreeOk(n) && j in n.nodes && j != 1
    ensures Beneath(n, j, 1, N_DIRENTS)
    decreases if j in n.depth then n.depth[j] else 0
  {
    hide TreeOk;
    NodesIndexed(n);
    PlaceFacts(n, j);
    if n.place[j].dir != 1 { BeneathRoot(n, n.place[j].dir); }
  }

  ghost function BeneathSet(n: NameTree, i: nat, x: nat): set<nat>
    requires TreeOk(n)
  {
    set j | j in n.nodes && Beneath(n, j, i, x)
  }

  // ---- the checker -------------------------------------------------------------------------------------------

  datatype Fault =
    | BadLength(inode: nat) | InodeFree(inode: nat) | InodeTwice(inode: nat)
    | BlockFree(block: nat) | BlockTwice(block: nat) | BlockLow(block: nat)
    | NotMarked(block: nat) | BlockLost(block: nat) | InodeLost(inode: nat)

  /** The globals of the checker. */
  class Checker {
    const disk: seq<Block>
    const inodes: seq<Inode>
    const inodeMap: seq<byte>
    const blockMap: seq<byte>
    const first: nat
    var foundInodes: set<nat>
    var foundBlocks: set<nat>
    var failures: seq<Fault>

    constructor (disk: seq<Block>, inodes: seq<Inode>, inodeMap: seq<byte>, blockMap: seq<byte>, first: nat)
      ensures this.disk == disk && this.inodes == inodes && this.inodeMap == inodeMap && this.blockMap == blockMap
      ensures this.first == first
      ensures foundInodes == {} && foundBlocks == {} && failures == []
    {
      this.disk, this.inodes, this.inodeMap, this.blockMap, this.first := disk, inodes, inodeMap, blockMap, first;
      foundInodes, foundBlocks, failures := {}, {}, [];
    }

    /** Reports a fault unless the condition holds. */
    method Require(ok: bool, f: Fault)
      modifies this`failures
      ensures failures == if ok then old(failures) else old(failures) + [f]
    {
      if !ok { failures := failures + [f]; }
    }

    /** The checker looks at the image of a consistent state. */
    ghost predicate Checks(s: State) {
      disk == s.disk && inodes == s.inodes && Inv(first, s) && StandsFor(blockMap, s.used)
        && StandsFor(inodeMap, s.live)
    }
  }

  /** The blocks of the given inodes. */
  ghost function BlocksOf(owner: Owner, inos: set<nat>): set<nat> {
    set p | p in owner && !owner[p].Leaked? && owner[p].ino in inos
  }

  /** The list of the blocks of inode j: all of them, marked, in the data region, and none of them twice. */
  lemma ListOf(first: nat, s: State, j: nat, ps: seq<u32>)
    requires Inv(first, s) && j in s.sh.trees && j < |s.inodes| && ps == FileBlocks(s.inodes[j], s.disk)
    ensures forall k :: 0 <= k < |ps| ==>
      ps[k] in s.owner && Of(s.owner[ps[k]], j) && ps[k] in s.used && first <= ps[k] < |s.disk|
    ensures forall k, l :: 0 <= k < l < |ps| ==> ps[k] != ps[l]
    ensures forall p :: p in Footprint(s.owner, j) ==> exists k :: 0 <= k < |ps| && ps[k] == p
  {
    hide Inv, FileOk, FileBlocks, Rank;
    InvTree(first, s);
    InvKeys(first, s);
    FileBlocksAre(j, s.inodes[j], s.sh.trees[j], s.sh.extent[j], s.disk, s.owner);
    forall k, l | 0 <= k < l < |ps| ensures ps[k] != ps[l] {
      assert Rank(s.owner[ps[k]]) < Rank(s.owner[ps[l]]);
    }
    forall p | p in Footprint(s.owner, j) ensures exists k :: 0 <= k < |ps| && ps[k] == p {
      assert p as u32 in ps;
    }
  }

  lemma BitOf(m: seq<byte>, s: set<nat>, i: nat)
    requires StandsFor(m, s) && i in s
    ensures i < 8 * |m| && Bit(m, i)
  {
  }

  lemma JoinBlocks(owner: Owner, inos: set<nat>, j: nat)
    ensures BlocksOf(owner, inos + {j}) == BlocksOf(owner, inos) + Footprint(owner, j)
  {
  }

  /** The faults of an inode number that an entry names, when the inodes in `found` have been seen. */
  function InodeFaults(m: seq<byte>, found: set<nat>, j: nat): seq<Fault>
    requires j < 8 * |m|
  {
    (if Bit(m, j) then [] else [InodeFree(j)]) + (if j in found then [InodeTwice(j)] else [])
  }

  /** The faults of a block of a file, when the blocks in `found` have been seen. */
  function BlockFaults(m: seq<byte>, first: nat, found: set<nat>, b: nat): seq<Fault>
    requires b < 8 * |m|
  {
    (if Bit(m, b) then [] else [BlockFree(b)]) + (if b in found then [BlockTwice(b)] else [])
      + (if b < first then [BlockLow(b)] else [])
  }

  /** The faults of a list of blocks, each of which is seen before the next. */
  function ListFaults(m: seq<byte>, first: nat, found: set<nat>, ps: seq<u32>): seq<Fault>
    requires forall k :: 0 <= k < |ps| ==> ps[k] < 8 * |m|
  {
    if ps == [] then []
    else
      var n := |ps| - 1;
      ListFaults(m, first, found, ps[..n]) + BlockFaults(m, first, found + ToSet(ps[..n]), ps[n])
  }

  /** Checks an inode number that an entry names. */
  method CheckNumber(c: Checker, j: nat)
    requires j < 8 * |c.inodeMap|
    modifies c`failures, c`foundInodes
    ensures c.foundInodes == old(c.foundInodes) + {j}
    ensures c.failures == old(c.failures) + InodeFaults(c.inodeMap, old(c.foundInodes), j)
  {
    hide Bit;
    c.Require(Bit(c.inodeMap, j), InodeFree(j));
    c.Require(j !in c.foundInodes, InodeTwice(j));
    c.foundInodes := c.foundInodes + {j};
  }

  /** Checks a block of a file. */
  method CheckBlock(c: Checker, b: nat)
    requires b < 8 * |c.blockMap|
    modifies c`failures, c`foundBlocks
    ensures c.foundBlocks == old(c.foundBlocks) + {b}
    ensures c.failures == old(c.failures) + BlockFaults(c.blockMap, c.first, old(c.foundBlocks), b)
  {
    hide Bit;
    c.Require(Bit(c.blockMap, b), BlockFree(b));
    c.Require(b !in c.foundBlocks, BlockTwice(b));
    c.Require(b >= c.first, BlockLow(b));
    c.foundBlocks := c.foundBlocks + {b};
  }

  /** Are the pointer blocks of the inode inside the image, so that they can be read and unpacked? */
  predicate PtrBlocksIn(nd: Inode, disk: seq<Block>) {
    && (nd.indir1 != 0 ==> nd.indir1 < |disk|) && (nd.indir2 != 0 ==> nd.indir2 < |disk|)
    && (nd.indir2 != 0 ==> forall p: u32 :: p in NonNull(Table(disk, nd.indir2)) ==> p < |disk|)
  }

  /** Can inode j be checked without an index that is out of range? */
  predicate Checkable(c: Checker, j: nat) {
    && j < 8 * |c.inodeMap| && j < |c.inodes| && PtrBlocksIn(c.inodes[j], c.disk)
    && var bb := FileBlocks(c.inodes[j], c.disk); forall k :: 0 <= k < |bb| ==> bb[k] < 8 * |c.blockMap|
  }

  /** Is f a fault of block k of the list ps, when the blocks in `found` have been seen before: a block whose bit in m
      is clear, one that was seen or is on the list before, or one of the metadata region? */
  ghost predicate FaultAt(m: seq<byte>, first: nat, found: set<nat>, ps: seq<u32>, k: nat, f: Fault)
    requires k < |ps|
  {
    match f
    case BlockFree(b) => b == ps[k] && b < 8 * |m| && !Bit(m, b)
    case BlockTwice(b) => b == ps[k] && (b in found || exists l :: 0 <= l < k && ps[l] == b)
    case BlockLow(b) => b == ps[k] && b < first
    case _ => false
  }

  ghost predicate BlockFault(m: seq<byte>, first: nat, found: set<nat>, ps: seq<u32>, f: Fault) {
    exists k :: 0 <= k < |ps| && FaultAt(m, first, found, ps, k, f)
  }

  lemma SeenBefore(ps: seq<u32>, k: nat)
    requires k < |ps|
    ensures ps[k] as nat in ToSet(ps[..k]) <==> exists l :: 0 <= l < k && ps[l] == ps[k]
  {
    var p := ps[k];
    if p as nat in ToSet(ps[..k]) {
      var q :| q in ps[..k] && q as nat == p as nat;
      var l :| 0 <= l < k && ps[..k][l] == q;
      assert ps[l] == p;
    }
    if l :| 0 <= l < k && ps[l] == p {
      assert ps[..k][l] == p && p in ps[..k];
    }
  }

  lemma FaultAtIs(m: seq<byte>, first: nat, found: set<nat>, ps: seq<u32>, k: nat, f: Fault)
    requires k < |ps| && ps[k] < 8 * |m|
    ensures f in BlockFaults(m, first, found + ToSet(ps[..k]), ps[k]) <==> FaultAt(m, first, found, ps, k, f)
  {
    hide Bit, ToSet;
    SeenBefore(ps, k);
  }

  /** The faults that are reported for a list of blocks. */
  lemma {:induction false} ListFaultsAre(m: seq<byte>, first: nat, found: set<nat>, ps: seq<u32>, f: Fault)
    requires forall k :: 0 <= k < |ps| ==> ps[k] < 8 * |m|
    ensures f in ListFaults(m, first, found, ps) <==> BlockFault(m, first, found, ps, f)
  {
    hide Bit, BlockFaults;
    if ps != [] {
      var n := |ps| - 1;
      ListFaultsAre(m, first, found, ps[..n], f);
      FaultAtIs(m, first, found, ps, n, f);
      FaultsNext(m, first, found, ps, f);
    }
  }

  lemma FaultsNext(m: seq<byte>, first: nat, found: set<nat>, ps: seq<u32>, f: Fault)
    requires ps != [] && forall k :: 0 <= k < |ps| ==> ps[k] < 8 * |m|
    ensures var n := |ps| - 1;
      BlockFault(m, first, found, ps, f) <==>
        (BlockFault(m, first, found, ps[..n], f) || FaultAt(m, first, found, ps, n, f))
  {
    hide FaultAt;
    var n := |ps| - 1;
    forall k | 0 <= k < n
      ensures FaultAt(m, first, found, ps[..n], k, f) <==> FaultAt(m, first, found, ps, k, f)
    {
      FaultEarlier(m, first, found, ps, k, f);
    }
  }

  lemma FaultEarlier(m: seq<byte>, first: nat, found: set<nat>, ps: seq<u32>, k: nat, f: Fault)
    requires k < |ps| - 1
    ensures FaultAt(m, first, found, ps[..|ps| - 1], k, f) <==> FaultAt(m, first, found, ps, k, f)
  {
    hide Bit;
    assert forall l :: 0 <= l <= k ==> ps[..|ps| - 1][l] == ps[l];
  }

  /** Checks inode j of an entry and its blocks; Python stops with an error exactly if a number is out of range. */
  method CheckInode(c: Checker, j: nat) returns (ok: bool)
    modifies c
    ensures ok <==> Checkable(c, j)
    ensures ok ==> c.foundInodes == old(c.foundInodes) + {j}
    ensures ok ==> c.foundBlocks == old(c.foundBlocks) + ToSet(FileBlocks(c.inodes[j], c.disk))
    ensures ok ==> c.failures == old(c.failures) + InodeFaults(c.inodeMap, old(c.foundInodes), j)
                                 + ListFaults(c.blockMap, c.first, old(c.foundBlocks), FileBlocks(c.inodes[j], c.disk))
    ensures ok ==> forall f :: f in c.failures <==>
      || f in old(c.failures) || (f == InodeFree(j) && !Bit(c.inodeMap, j))
      || (f == InodeTwice(j) && j in old(c.foundInodes))
      || BlockFault(c.blockMap, c.first, old(c.foundBlocks), FileBlocks(c.inodes[j], c.disk), f)
  {
    hide FileBlocks, PtrBlocksIn, Bit, BlockFaults, InodeFaults, BlockFault, ListFaults, ToSet;
    if j >= 8 * |c.inodeMap| { return false; }
    CheckNumber(c, j);
    if j >= |c.inodes| || !PtrBlocksIn(c.inodes[j], c.disk) { return false; }
    var bb := FileBlocks(c.inodes[j], c.disk);
    ghost var before, blocks := c.failures, c.foundBlocks;
    NoneListed(c.blockMap, c.first, blocks);
    var k := 0;
    while k < |bb|
      invariant 0 <= k <= |bb| && c.foundInodes == old(c.foundInodes) + {j}
      invariant forall l :: 0 <= l < k ==> bb[l] < 8 * |c.blockMap|
      invariant c.foundBlocks == blocks + ToSet(bb[..k])
      invariant c.failures == before + ListFaults(c.blockMap, c.first, blocks, bb[..k])
    {
      if bb[k] >= 8 * |c.blockMap| { return false; }
      NextListed(c.blockMap, c.first, blocks, bb, k);
      CheckBlock(c, bb[k]);
      k := k + 1;
    }
    assert bb[..k] == bb;
    forall f: Fault
      ensures f in ListFaults(c.blockMap, c.first, blocks, bb) <==> BlockFault(c.blockMap, c.first, blocks, bb, f)
    {
      ListFaultsAre(c.blockMap, c.first, blocks, bb, f);
    }
    InodeFaultsAre(c.inodeMap, old(c.foundInodes), j);
    return true;
  }

  lemma NoneListed(m: seq<byte>, first: nat, found: set<nat>)
    ensures ToSet([]) == {} && ListFaults(m, first, found, []) == []
  {
  }

  lemma InodeFaultsAre(m: seq<byte>, found: set<nat>, j: nat)
    requires j < 8 * |m|
    ensures forall f :: f in InodeFaults(m, found, j) <==>
      (f == InodeFree(j) && !Bit(m, j)) || (f == InodeTwice(j) && j in found)
  {
    hide Bit;
  }

  lemma NextListed(m: seq<byte>, first: nat, found: set<nat>, ps: seq<u32>, k: nat)
    requires k < |ps| && forall l :: 0 <= l <= k ==> ps[l] < 8 * |m|
    ensures ToSet(ps[..k + 1]) == ToSet(ps[..k]) + {ps[k] as nat}
    ensures ListFaults(m, first, found, ps[..k + 1]) ==
      ListFaults(m, first, found, ps[..k]) + BlockFaults(m, first, found + ToSet(ps[..k]), ps[k])
  {
    hide BlockFaults, ToSet;
    assert ps[..k + 1] == ps[..k] + [ps[k]];
    ToSetLast(ps[..k], ps[k]);
    assert ps[..k + 1][..k] == ps[..k];
  }

  lemma {:induction false} NoListFaults(m: seq<byte>, first: nat, found: set<nat>, ps: seq<u32>)
    requires forall k :: 0 <= k < |ps| ==> ps[k] < 8 * |m| && Bit(m, ps[k]) && first <= ps[k] && ps[k] as nat !in found
    requires forall k, l :: 0 <= k < l < |ps| ==> ps[k] != ps[l]
    ensures ListFaults(m, first, found, ps) == []
  {
    hide Bit;
    if ps != [] { NoListFaults(m, first, found, ps[..|ps| - 1]); }
  }

  /** An inode in use that has not been found yet has no faults, and its list is its footprint. */
  lemma NoFaultsHere(c: Checker, s: State, j: nat, found: set<nat>)
    requires c.Checks(s) && j in s.sh.trees && j < |c.inodes| && j !in found
    ensures var bb := FileBlocks(c.inodes[j], c.disk);
      && Checkable(c, j) && InodeFaults(c.inodeMap, found, j) == []
      && ListFaults(c.blockMap, c.first, BlocksOf(s.owner, found), bb) == []
      && BlocksOf(s.owner, found) + ToSet(bb) == BlocksOf(s.owner, found + {j})
  {
    hide Inv, StandsFor, FileBlocks, Bit, PtrBlocksIn;
    InvKeys(c.first, s);
    var bb := FileBlocks(c.inodes[j], c.disk);
    ListOf(c.first, s, j, bb);
    ListedPtrs(c.inodes[j], c.disk);
    BitOf(c.inodeMap, s.live, j);
    forall k | 0 <= k < |bb|
      ensures bb[k] < 8 * |c.blockMap| && Bit(c.blockMap, bb[k])
    {
      BitOf(c.blockMap, s.used, bb[k]);
    }
    NoListFaults(c.blockMap, c.first, BlocksOf(s.owner, found), bb);
    AllListed(s, j, bb);
    JoinBlocks(s.owner, found, j);
  }

  /** The pointer blocks of an inode are on its list. */
  lemma ListedPtrs(nd: Inode, disk: seq<Block>)
    requires var bb := FileBlocks(nd, disk); forall k :: 0 <= k < |bb| ==> bb[k] < |disk|
    ensures PtrBlocksIn(nd, disk)
  {
    hide NonNull, Table;
    var bb := FileBlocks(nd, disk);
    ThreeParts(nd, disk);
    forall p: u32 | p in SingleList(nd, disk) || p in DoubleList(nd, disk) ensures p < |disk| { assert p in bb; }
    assert nd.indir1 != 0 ==> nd.indir1 in SingleList(nd, disk);
    assert nd.indir2 != 0 ==> nd.indir2 in DoubleList(nd, disk);
    forall p: u32 | nd.indir2 != 0 && p in NonNull(Table(disk, nd.indir2))
      ensures p < |disk|
    {
      assert p in DoubleList(nd, disk);
    }
  }

  lemma AllListed(s: State, j: nat, ps: seq<u32>)
    requires forall k :: 0 <= k < |ps| ==> ps[k] in s.owner && Of(s.owner[ps[k]], j)
    requires forall p :: p in Footprint(s.owner, j) ==> exists k :: 0 <= k < |ps| && ps[k] == p
    ensures ToSet(ps) == Footprint(s.owner, j)
  {
    forall p | p in Footprint(s.owner, j) ensures p in ToSet(ps) {
      var k :| 0 <= k < |ps| && ps[k] == p;
      assert ps[k] in ps;
    }
  }

  /** A directory's data is its block, and the block's entries are the directory's. */
  lemma DirData(first: nat, s: State, i: nat)
    requires Inv(first, s) && i in s.sh.trees && i < |s.inodes| && IsDir(s.inodes[i])
    ensures |FileData(s.inodes[i], s.disk)| == BLOCK_SIZE && Entries(FileData(s.inodes[i], s.disk)) == Dir(TreeOf(s), i)
  {
    hide NamesOk, InodesOk, BlocksOk, Entries, IsDirMode, FileOk, FileData;
    DirBlockOwned(s, i);
    var nd, t := s.inodes[i], s.sh.trees[i];
    assert FileOk(i, nd, t, 1, s.disk, s.owner);
    OneBlockTree(i, nd, t, s.disk, s.owner);
    OneBlockData(nd, s.disk);
  }

  // ---- names that can be decoded -----------------------------------------------------------------------------

  /** Can the names of all valid entries be decoded? All 28 bytes of a name count, also those after its end. */
  predicate EntriesDecode(es: Dirents) {
    forall x :: 0 <= x < N_DIRENTS && es[x].valid ==> Decodes(es[x].name)
  }

  /** The same for those of the directories among the given inodes. */
  ghost predicate DecodeAll(n: NameTree, inodes: set<nat>) {
    forall j :: j in inodes && j < |n.inodes| && IsDir(n.inodes[j]) ==> EntriesDecode(Dir(n, j))
  }

  lemma DecodeJoin(n: NameTree, a: set<nat>, c: nat, b: set<nat>)
    requires c < |n.inodes|
    ensures DecodeAll(n, a + {c} + b) <==> DecodeAll(n, a) && DecodeAll(n, {c} + b)
    ensures DecodeAll(n, {c} + b) <==> (IsDir(n.inodes[c]) ==> EntriesDecode(Dir(n, c))) && DecodeAll(n, b)
  {
    hide IsDir, EntriesDecode, DirOf;
  }

  lemma DecodeLess(n: NameTree, a: set<nat>, b: set<nat>)
    requires a <= b && DecodeAll(n, b)
    ensures DecodeAll(n, a)
  {
    hide IsDir, EntriesDecode, DirOf;
  }

  /** Python stops a recursion that is 1000 calls deep; dir_iter nested this often stays below. */
  const MAX_DEPTH: nat := 900

  /** No directory lies so deep that the recursion of the checker is stopped. */
  ghost predicate Shallow(s: State) {
    forall i :: i in s.sh.depth ==> s.sh.depth[i] <= MAX_DEPTH
  }

  /** dir_iter: checks everything below directory inum. On a consistent state it terminates. It stops with an error
      exactly if a name in the directory, or in one below it, cannot be decoded; otherwise it finds every inode below
      the directory once, with its blocks, and no fault. */
  method DirIter(c: Checker, inum: nat, ghost s: State) returns (ok: bool)
    requires c.Checks(s) && Shallow(s) && TreeOk(TreeOf(s)) && inum in s.sh.trees && inum < |c.inodes|
    requires IsDir(c.inodes[inum])
    requires inum in s.sh.depth && c.foundInodes !! BeneathSet(TreeOf(s), inum, N_DIRENTS)
    requires c.foundBlocks == BlocksOf(s.owner, c.foundInodes)
    modifies c
    ensures ok <==> DecodeAll(TreeOf(s), {inum} + BeneathSet(TreeOf(s), inum, N_DIRENTS))
    ensures c.failures == old(c.failures)
    ensures ok ==> c.foundInodes == old(c.foundInodes) + BeneathSet(TreeOf(s), inum, N_DIRENTS)
    ensures ok ==> c.foundBlocks == BlocksOf(s.owner, c.foundInodes)
    decreases MAX_DEPTH - s.sh.depth[inum]
  {
    hide Inv, TreeOk, StandsFor, FileData, IsDir, Entries, BeneathSet, EntriesDecode, DecodeAll, Checkable, FileBlocks,
      InodeFaults, ListFaults, ToSet, BlocksOf, DirOf;
    ghost var n, found := TreeOf(s), c.foundInodes;
    var data := FileData(c.inodes[inum], c.disk);
    DirData(c.first, s, inum);
    c.Require(|data| >= BLOCK_SIZE && |data| % BLOCK_SIZE == 0, BadLength(inum));
    var dd := Entries(data);
    DecodeJoin(n, {}, inum, BeneathSet(n, inum, N_DIRENTS));
    if !EntriesDecode(dd) { return false; }
    BeneathStart(n, inum);
    DecodeNone(n);
    var x := 0;
    while x < N_DIRENTS
      invariant 0 <= x <= N_DIRENTS && c.failures == old(c.failures) && DecodeAll(n, BeneathSet(n, inum, x))
      invariant c.foundInodes == found + BeneathSet(n, inum, x) && c.foundBlocks == BlocksOf(s.owner, c.foundInodes)
    {
      var d := dd[x];
      if d.valid {
        EntryFacts(n, inum, x);
        EntryStep(n, inum, x, found);
        NoFaultsHere(c, s, d.inode, c.foundInodes);
        var inRange := CheckInode(c, d.inode);
        assert inRange;
        DecodeJoin(n, BeneathSet(n, inum, x), d.inode, BeneathSet(n, d.inode, N_DIRENTS));
        if d.isDir {
          var decoded := DirIter(c, d.inode, s);
          if !decoded {
            if DecodeAll(n, BeneathSet(n, inum, N_DIRENTS)) {
              DecodeLess(n, BeneathSet(n, inum, x + 1), BeneathSet(n, inum, N_DIRENTS));
            }
            return false;
          }
        } else {
          NothingBelow(n, d.inode);
          DecodeNone(n);
        }
      } else {
        BeneathSame(n, inum, x);
      }
      x := x + 1;
    }
    return true;
  }

  lemma DecodeNone(n: NameTree)
    ensures DecodeAll(n, {})
  {
  }

  lemma BeneathStart(n: NameTree, i: nat)
    requires TreeOk(n)
    ensures BeneathSet(n, i, 0) == {}
  {
    hide TreeOk;
    forall j | j in n.nodes ensures !Beneath(n, j, i, 0) { BeneathNone(n, j, i); }
  }

  lemma BeneathSame(n: NameTree, i: nat, x: nat)
    requires TreeOk(n) && i in n.nodes && i < |n.inodes| && IsDir(n.inodes[i]) && x < N_DIRENTS && !Dir(n, i)[x].valid
    ensures BeneathSet(n, i, x + 1) == BeneathSet(n, i, x)
  {
    hide TreeOk, DirOf, IsDir, Beneath;
    forall j | j in n.nodes ensures Beneath(n, j, i, x + 1) <==> Beneath(n, j, i, x) { BeneathSkip(n, j, i, x); }
  }

  /** What entry x adds, and that none of it has been found. */
  lemma EntryStep(n: NameTree, i: nat, x: nat, found: set<nat>)
    requires TreeOk(n) && i in n.nodes && i < |n.inodes| && IsDir(n.inodes[i]) && x < N_DIRENTS && Dir(n, i)[x].valid
    requires found !! BeneathSet(n, i, N_DIRENTS)
    ensures var c := Dir(n, i)[x].inode as nat; var f := found + BeneathSet(n, i, x);
      c !in f && f + {c} !! BeneathSet(n, c, N_DIRENTS)
        && f + {c} + BeneathSet(n, c, N_DIRENTS) == found + BeneathSet(n, i, x + 1)
    ensures var c := Dir(n, i)[x].inode as nat;
      BeneathSet(n, i, x) + {c} + BeneathSet(n, c, N_DIRENTS) == BeneathSet(n, i, x + 1)
    ensures BeneathSet(n, i, x + 1) <= BeneathSet(n, i, N_DIRENTS)
  {
    hide TreeOk, DirOf, IsDir, Beneath;
    var c := Dir(n, i)[x].inode as nat;
    EntryFacts(n, i, x);
    forall j | j in n.nodes
      ensures Beneath(n, j, i, x + 1) <==> Beneath(n, j, i, x) || j == c || Beneath(n, j, c, N_DIRENTS)
      ensures !(Beneath(n, j, i, x) && (j == c || Beneath(n, j, c, N_DIRENTS)))
      ensures Beneath(n, j, i, x + 1) ==> Beneath(n, j, i, N_DIRENTS)
      ensures !Beneath(n, c, c, N_DIRENTS)
    {
      BeneathNext(n, j, i, x, c);
      BeneathMore(n, j, i, x + 1);
      if Beneath(n, c, c, N_DIRENTS) { BeneathDeeper(n, c, c, N_DIRENTS); }
    }
  }

  lemma {:induction false} BeneathMore(n: NameTree, j: nat, i: nat, x: nat)
    requires TreeOk(n) && j in n.nodes && x <= N_DIRENTS
    ensures Beneath(n, j, i, x) ==> Beneath(n, j, i, N_DIRENTS)
    decreases if j in n.depth then n.depth[j] else 0
  {
    hide TreeOk;
    if j in n.place {
      PlaceFacts(n, j);
      BeneathMore(n, n.place[j].dir, i, x);
    }
  }

  lemma NothingBelow(n: NameTree, c: nat)
    requires TreeOk(n) && c in n.nodes && c < |n.inodes| && !IsDir(n.inodes[c])
    ensures BeneathSet(n, c, N_DIRENTS) == {}
  {
    hide TreeOk, IsDir;
    forall j | j in n.nodes ensures !Beneath(n, j, c, N_DIRENTS) { NotBelowFile(n, j, c); }
  }

  lemma {:induction false} NotBelowFile(n: NameTree, j: nat, c: nat)
    requires TreeOk(n) && j in n.nodes && c < |n.inodes| && !IsDir(n.inodes[c])
    ensures !Beneath(n, j, c, N_DIRENTS)
    decreases if j in n.depth then n.depth[j] else 0
  {
    hide TreeOk, IsDir;
    if j in n.place {
      PlaceFacts(n, j);
      NotBelowFile(n, n.place[j].dir, c);
    }
  }

  // ---- the whole check -----------------------------------------------------------------------------------------

  /** The outcome: Python stops with an error, or the list of faults is printed. */
  datatype Verdict = AssertionError | DecodeError | IndexError | Report(faults: seq<Fault>)

  /** The root directory and everything below it have been found. */
  lemma AllFound(first: nat, s: State)
    requires Inv(first, s)
    ensures TreeOk(TreeOf(s)) && {1} + BeneathSet(TreeOf(s), 1, N_DIRENTS) == s.sh.trees.Keys
    ensures 1 !in BeneathSet(TreeOf(s), 1, N_DIRENTS)
  {
    hide Inv, TreeOk, Beneath, FilesOk, InodesOk, BlocksOk;
    InvTree(first, s);
    AllBeneath(TreeOf(s));
  }

  lemma AllBeneath(n: NameTree)
    requires TreeOk(n)
    ensures {1} + BeneathSet(n, 1, N_DIRENTS) == n.nodes && 1 !in BeneathSet(n, 1, N_DIRENTS)
  {
    hide TreeOk, Beneath;
    NodesIndexed(n);
    forall j | j in n.nodes && j != 1 ensures Beneath(n, j, 1, N_DIRENTS) { BeneathRoot(n, j); }
    if Beneath(n, 1, 1, N_DIRENTS) { BeneathDeeper(n, 1, 1, N_DIRENTS); }
  }

  /** The root's blocks are noted, and the tree is traversed. */
  method Traverse(c: Checker, ghost s: State) returns (ok: bool)
    requires c.Checks(s) && Shallow(s) && c.foundInodes == {} && c.foundBlocks == {}
    modifies c
    ensures ok <==> DecodeAll(TreeOf(s), s.sh.trees.Keys)
    ensures c.failures == old(c.failures)
    ensures ok ==> c.foundInodes == s.sh.trees.Keys && c.foundBlocks == s.owner.Keys - LeakedBlocks(s.owner)
  {
    hide Inv, TreeOk, StandsFor, FileBlocks, IsDir, DecodeAll, Shallow;
    InvKeys(c.first, s);
    AllFound(c.first, s);
    c.foundInodes := c.foundInodes + {1};
    var bb := FileBlocks(c.inodes[1], c.disk);
    ListOf(c.first, s, 1, bb);
    c.foundBlocks := ToSet(bb);
    AllListed(s, 1, bb);
    JoinBlocks(s.owner, {}, 1);
    assert BlocksOf(s.owner, {}) == {} && {} + {1} == {1};
    ok := DirIter(c, 1, s);
    assert BlocksOf(s.owner, s.sh.trees.Keys) == s.owner.Keys - LeakedBlocks(s.owner);
  }

  /** A disagreement between the bitmaps and what has been found: a metadata block that is not marked, a block from the
      first data block on that is marked but was not found, an inode other than 0 that is marked but was not found. */
  ghost predicate MapFault(c: Checker, n: nat, f: Fault)
    reads c
  {
    match f
    case NotMarked(i) => i < c.first && i < 8 * |c.blockMap| && !Bit(c.blockMap, i)
    case BlockLost(i) => c.first <= i < c.first + n && i < 8 * |c.blockMap| && Bit(c.blockMap, i) && i !in c.foundBlocks
    case InodeLost(i) => 1 <= i < |c.inodes| && i < 8 * |c.inodeMap| && Bit(c.inodeMap, i) && i !in c.foundInodes
    case _ => false
  }

  /** Does fault f concern a number that the three loops of the last part have passed? */
  predicate Passed(f: Fault, meta: nat, block: nat, inode: nat) {
    match f
    case NotMarked(i) => i < meta
    case BlockLost(i) => i < block
    case InodeLost(i) => i < inode
    case _ => false
  }

  ghost predicate FaultsUpTo(c: Checker, n: nat, before: seq<Fault>, meta: nat, block: nat, inode: nat)
    reads c
  {
    forall f :: f in c.failures <==> f in before || (MapFault(c, n, f) && Passed(f, meta, block, inode))
  }

  /** The comparison of the bitmaps with what was found: exactly the disagreements are reported, unless one of the loops
      leaves its map. */
  method CheckMaps(c: Checker, n: nat) returns (verdict: Verdict)
    modifies c`failures
    ensures verdict.IndexError? || verdict.Report?
    ensures verdict.IndexError? <==> c.first + n > 8 * |c.blockMap| || |c.inodes| > Max(1, 8 * |c.inodeMap|)
    ensures verdict.Report? ==> forall f :: f in verdict.faults <==> f in old(c.failures) || MapFault(c, n, f)
  {
    hide Bit;
    ghost var before := c.failures;
    var i := 0;
    while i < c.first
      invariant 0 <= i <= c.first && i <= 8 * |c.blockMap| && FaultsUpTo(c, n, before, i, c.first, 1)
    {
      if i >= 8 * |c.blockMap| { return IndexError; }
      c.Require(Bit(c.blockMap, i), NotMarked(i));
      i := i + 1;
    }
    while i < c.first + n
      invariant c.first <= i <= c.first + n && i <= 8 * |c.blockMap| && FaultsUpTo(c, n, before, c.first, i, 1)
    {
      if i >= 8 * |c.blockMap| { return IndexError; }
      c.Require(!(Bit(c.blockMap, i) && i !in c.foundBlocks), BlockLost(i));
      i := i + 1;
    }
    i := 1;
    while i < |c.inodes|
      invariant 1 <= i <= Max(1, 8 * |c.inodeMap|) && FaultsUpTo(c, n, before, c.first, c.first + n, i)
    {
      if i >= 8 * |c.inodeMap| { return IndexError; }
      c.Require(!(Bit(c.inodeMap, i) && i !in c.foundInodes), InodeLost(i));
      i := i + 1;
    }
    return Report(c.failures);
  }

  /** On a consistent image whose inodes and files have been found, only the leaked blocks are faults. */
  lemma MapFaultIs(c: Checker, s: State, f: Fault)
    requires c.Checks(s) && |s.disk| <= 8 * |c.blockMap| && |c.inodes| <= 8 * |c.inodeMap|
    requires c.foundInodes == s.sh.trees.Keys && c.foundBlocks == s.owner.Keys - LeakedBlocks(s.owner)
    ensures MapFault(c, |s.disk|, f) <==> f.BlockLost? && f.block in LeakedBlocks(s.owner)
  {
    hide FilesOk, NamesOk, Bit;
    match f {
      case NotMarked(i) => if i < 8 * |c.blockMap| { BitIff(c.blockMap, s.used, i); }
      case BlockLost(i) => if i < 8 * |c.blockMap| { BitIff(c.blockMap, s.used, i); }
      case InodeLost(i) => if i < 8 * |c.inodeMap| { BitIff(c.inodeMap, s.live, i); }
      case _ =>
    }
  }

  lemma BitIff(m: seq<byte>, s: set<nat>, i: nat)
    requires StandsFor(m, s) && i < 8 * |m|
    ensures Bit(m, i) <==> i in s
  {
  }

  lemma MetaMarked(first: nat, s: State, i: nat)
    requires Inv(first, s) && i < first
    ensures i in s.used
  {
    hide FilesOk, InodesOk, NamesOk;
  }

  /** Entry x of directory d is valid. */
  ghost predicate ValidEntry(s: State, d: nat, x: nat) {
    && d in s.sh.trees && d < |s.inodes| && IsDir(s.inodes[d]) && x < N_DIRENTS
    && DirOf(s.inodes[d], s.disk)[x].valid
  }

  /** Are all bytes of the name of entry x of directory d the UTF-8 encoding of some text? */
  ghost predicate NameEncoded(s: State, d: nat, x: nat) {
    d < |s.inodes| && x < N_DIRENTS && exists text: seq<Scalar> :: EncodeAll(text) == DirOf(s.inodes[d], s.disk)[x].name
  }

  lemma NameIs(s: State, d: nat, x: nat)
    requires d < |s.inodes| && x < N_DIRENTS
    ensures NameEncoded(s, d, x) <==> Decodes(Dir(TreeOf(s), d)[x].name)
  {
    hide DirOf, Decodes, EncodeAll;
    var es := Dir(TreeOf(s), d);
    assert es == DirOf(s.inodes[d], s.disk);
    if Decodes(es[x].name) { var text := DecodesEncoded(es[x].name); }
    if text: seq<Scalar> :| EncodeAll(text) == es[x].name { EncodedDecodes(text); }
  }

  /** The names that the checker decodes are encodings of texts. */
  lemma NamesEncoded(s: State)
    ensures DecodeAll(TreeOf(s), s.sh.trees.Keys) <==>
      forall d: nat, x: nat :: ValidEntry(s, d, x) ==> NameEncoded(s, d, x)
  {
    hide IsDir, DirOf, Decodes, EncodeAll;
    forall d: nat, x: nat | ValidEntry(s, d, x)
      ensures NameEncoded(s, d, x) <==> Decodes(Dir(TreeOf(s), d)[x].name)
    {
      NameIs(s, d, x);
    }
    if forall d: nat, x: nat :: ValidEntry(s, d, x) ==> NameEncoded(s, d, x) {
      forall d | d in s.sh.trees && d < |s.inodes| && IsDir(s.inodes[d])
        ensures EntriesDecode(Dir(TreeOf(s), d))
      {
        forall x | 0 <= x < N_DIRENTS && Dir(TreeOf(s), d)[x].valid
          ensures Decodes(Dir(TreeOf(s), d)[x].name)
        {
          assert ValidEntry(s, d, x);
        }
      }
    }
  }

  /** fsck.hw3 on the image of a consistent state: it reports exactly the leaked blocks, unless Python stops with an
      error. That happens for another magic number, for a name that cannot be decoded, and when the last loop over the
      block map runs past its end, as the map has fewer spare bits than there are metadata blocks. */
  method Check(disk: array<Block>, ghost s: State, ghost im: seq<byte>, ghost bm: seq<byte>)
    returns (verdict: Verdict, found: set<nat>)
    requires ImageOf(disk[..], s, im, bm) && Shallow(s)
    ensures verdict.AssertionError? <==> SuperOf(s.disk[0]).magic != FS_MAGIC
    ensures verdict.DecodeError? <==> SuperOf(s.disk[0]).magic == FS_MAGIC && !DecodeAll(TreeOf(s), s.sh.trees.Keys)
    ensures verdict.DecodeError? <==>
      && SuperOf(s.disk[0]).magic == FS_MAGIC
      && exists d: nat, x: nat :: ValidEntry(s, d, x) && !NameEncoded(s, d, x)
    ensures verdict.IndexError? || verdict.Report? ==>
              found == s.sh.trees.Keys && (verdict.IndexError? <==> SuperOf(s.disk[0]).First() + |s.disk| > 8 * |bm|)
    ensures verdict.Report? ==> forall f :: f in verdict.faults <==> f.BlockLost? && f.block in LeakedBlocks(s.owner)
  {
    hide Inv, Holds, StandsFor, SuperOf, DecodeAll, Shallow, EncodeAll, DirOf, IsDir;
    RegionsFit(disk[..], s, im, bm);
    var sb := SuperOf(disk[0]);
    if sb.magic != FS_MAGIC { return AssertionError, {}; }
    var inodeMap, blockMap, inodes := Load(disk, s, im, bm);
    var c := new Checker(disk[..], inodes[..], inodeMap[..], blockMap[..], sb.First());
    var ok := Traverse(c, s);
    found := c.foundInodes;
    NamesEncoded(s);
    if !ok { return DecodeError, found; }
    InvKeys(sb.First(), s);
    forall f: Fault
      ensures MapFault(c, |s.disk|, f) <==> f.BlockLost? && f.block in LeakedBlocks(s.owner)
    {
      MapFaultIs(c, s, f);
    }
    verdict := CheckMaps(c, sb.numBlocks);
  }
}
