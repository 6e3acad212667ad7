/** The steps of fs_write over a whole file: what stays true of the pointer tree, the owners and the
    disk while the tiers are filled one after the other. */
module WriteSteps {
  import opened Bytes
  import opened Codec
  import opened FileTrees
  import opened Writing

  /** A write request and the state of the file it starts from: its tree t holds c data blocks. */
  datatype Request = Request(ino: nat, offset: nat, buf: seq<byte>, t: Tree, c: nat, disk: seq<Block>, owner: Owner)

  /** The number of data blocks the file needs to hold everything requested. */
  function Wanted(w: Request): nat { BlocksFor(w.offset + |w.buf|) }

  /** The number of data blocks of the file once the tiers below block b have been filled. */
  function Reach(w: Request, b: nat): nat { Max(w.c, Min(b, Wanted(w))) }

  /** Does a file of e data blocks need a block in slot s? */
  predicate Needs(e: nat, s: Slot) {
    match s
    case Data(_, r, k) => First(r) + k < e
    case Ind1(_) => 6 < e
    case Ind2(_) => 262 < e
    case Tab(_, j) => 262 + 256 * j < e
    case Leaked => false
  }

  /** Blocks have only been handed to this file, and only where the request needs them. */
  ghost predicate Handed(w: Request, owner: Owner) {
    && 0 !in owner
    && (forall p :: p in w.owner ==> p in owner && owner[p] == w.owner[p])
    && (forall p :: p in owner && p !in w.owner ==> Of(owner[p], w.ino) && Needs(Wanted(w), owner[p]))
  }

  /** Only blocks of this file have changed. */
  ghost predicate Confined(w: Request, disk: seq<Block>, owner: Owner) {
    && |disk| == |w.disk|
    && (forall p: nat :: p < |disk| && !(p in owner && Of(owner[p], w.ino)) ==> disk[p] == w.disk[p])
  }

  /** The data blocks of a region below block b are spliced with the request; the others are as they were. */
  ghost predicate RegionData(w: Request, b: nat, disk: seq<Block>, r: Region, a: seq<u32>) {
    forall k :: 0 <= k < |a| && a[k] != 0 ==>
      a[k] < |disk| && a[k] < |w.disk| &&
      disk[a[k]] == if First(r) + k < b then Splice(w.disk[a[k]], First(r) + k, w.offset, w.buf) else w.disk[a[k]]
  }

  ghost predicate DataDone(w: Request, b: nat, disk: seq<Block>, t: Tree) {
    forall r {:trigger Leaf(t, r)} :: ValidRegion(r) ==> RegionData(w, b, disk, r, Leaf(t, r))
  }

  ghost predicate Keeps(a: seq<u32>, a': seq<u32>) {
    |a'| == |a| && forall k :: 0 <= k < |a| && a[k] != 0 ==> a'[k] == a[k]
  }

  /** No pointer of t is lost in t'. */
  ghost predicate TreeKeeps(t: Tree, t': Tree) {
    && (forall r {:trigger Leaf(t', r)} :: ValidRegion(r) ==> Keeps(Leaf(t, r), Leaf(t', r)))
    && (t.ind1 != 0 ==> t'.ind1 == t.ind1) && (t.ind2 != 0 ==> t'.ind2 == t.ind2)
    && Keeps(t.tabs, t'.tabs)
  }

  /** What holds once the tiers below block b are filled; t is the tree with the buffered pointers. */
  ghost predicate Going(w: Request, b: nat, disk: seq<Block>, owner: Owner, t: Tree) {
    && Handed(w, owner) && Confined(w, disk, owner)
    && TreeOwned(w.ino, t, owner) && TreeExact(w.ino, t, owner)
    && DataDone(w, b, disk, t)
    && TreeKeeps(w.t, t)
  }

  // ---- write_helper on one region ------------------------------------------------------------

  lemma FillOwned(ino: nat, t: Tree, owner: Owner, q: Job, a: seq<u32>, disk': seq<Block>, owner': Owner)
    requires ValidRegion(q.r) && q.ino == ino && q.a == Leaf(t, q.r) && q.owner == owner
    requires Filled(q, Size(q.r), a, disk', owner') && TreeOwned(ino, t, owner) && TreeExact(ino, t, owner)
    ensures TreeOwned(ino, WithLeaf(t, q.r, a), owner') && TreeExact(ino, WithLeaf(t, q.r, a), owner')
  {
    hide Splice;
    var t' := WithLeaf(t, q.r, a);
    forall r {:trigger Leaf(t', r)} | ValidRegion(r)
      ensures Owned(ino, r, Leaf(t', r), owner')
    {
      assert Owned(ino, r, Leaf(t, r), owner);
    }
    forall p | p in owner' && Of(owner'[p], ino)
      ensures Hangs(t', owner'[p], p)
    {
      if p in owner { assert Hangs(t, owner[p], p); }
    }
  }

  lemma FillData(w: Request, disk: seq<Block>, owner: Owner, t: Tree, q: Job, a: seq<u32>, disk': seq<Block>,
                 owner': Owner)
    requires ValidRegion(q.r) && q == Job(w.ino, q.r, w.offset, w.buf, Leaf(t, q.r), disk, owner)
    requires Filled(q, Size(q.r), a, disk', owner')
    requires TreeOwned(w.ino, t, owner) && TreeExact(w.ino, t, owner)
    requires Confined(w, disk, owner) && Handed(w, owner) && DataDone(w, First(q.r), disk, t)
    ensures DataDone(w, First(q.r) + Size(q.r), disk', WithLeaf(t, q.r, a))
  {
    hide Splice;
    var t' := WithLeaf(t, q.r, a);
    forall r {:trigger Leaf(t', r)} | ValidRegion(r)
      ensures RegionData(w, First(q.r) + Size(q.r), disk', r, Leaf(t', r))
    {
      assert RegionData(w, First(q.r), disk, r, Leaf(t, r));
      assert Owned(w.ino, r, Leaf(t, r), owner);
      if r == q.r { FillOne(w, disk, owner, t, q, a, disk', owner'); }
    }
  }

  lemma FillOne(w: Request, disk: seq<Block>, owner: Owner, t: Tree, q: Job, a: seq<u32>, disk': seq<Block>,
                owner': Owner)
    requires ValidRegion(q.r) && q == Job(w.ino, q.r, w.offset, w.buf, Leaf(t, q.r), disk, owner)
    requires Filled(q, Size(q.r), a, disk', owner')
    requires Confined(w, disk, owner)
    requires RegionData(w, First(q.r), disk, q.r, Leaf(t, q.r))
    requires TreeExact(w.ino, t, owner)
    ensures RegionData(w, First(q.r) + Size(q.r), disk', q.r, a)
  {
    hide Splice;
    forall k | 0 <= k < |a| && a[k] != 0
      ensures disk[a[k]] == w.disk[a[k]]
    {
      var p := a[k];
      assert p in owner && Of(owner[p], w.ino) ==> Hangs(t, owner[p], p);
    }
  }

  /** write_helper carries the request from the first block of its region to the first block after it. */
  lemma GoingFill(w: Request, disk: seq<Block>, owner: Owner, t: Tree, q: Job, a: seq<u32>, disk': seq<Block>,
                  owner': Owner, f: nat)
    requires Going(w, First(q.r), disk, owner, t)
    requires ValidRegion(q.r) && q == Job(w.ino, q.r, w.offset, w.buf, Leaf(t, q.r), disk, owner)
    requires Filled(q, Size(q.r), a, disk', owner')
    requires DenseRun(a, First(q.r), f) && f <= Max(Wanted(w), w.c)
    requires DenseRun(Leaf(w.t, q.r), First(q.r), w.c)
    ensures Going(w, First(q.r) + Size(q.r), disk', owner', WithLeaf(t, q.r, a))
  {
    hide Splice, Wanted;
    FillOwned(w.ino, t, owner, q, a, disk', owner');
    FillData(w, disk, owner, t, q, a, disk', owner');
    FillKeeps(w, t, q, a, disk', owner');
    FillHanded(w, t, q, a, disk', owner', f);
  }

  lemma FillKeeps(w: Request, t: Tree, q: Job, a: seq<u32>, disk': seq<Block>, owner': Owner)
    requires ValidRegion(q.r) && q.a == Leaf(t, q.r) && Filled(q, Size(q.r), a, disk', owner') && TreeKeeps(w.t, t)
    ensures TreeKeeps(w.t, WithLeaf(t, q.r, a))
  {
    hide Splice;
    var t' := WithLeaf(t, q.r, a);
    forall r {:trigger Leaf(t', r)} | ValidRegion(r)
      ensures Keeps(Leaf(w.t, r), Leaf(t', r))
    {
      assert Keeps(Leaf(w.t, r), Leaf(t, r));
    }
  }

  lemma FillHanded(w: Request, t: Tree, q: Job, a: seq<u32>, disk': seq<Block>, owner': Owner, f: nat)
    requires Handed(w, q.owner) && Confined(w, q.disk, q.owner)
    requires ValidRegion(q.r) && q.ino == w.ino && q.a == Leaf(t, q.r) && |a| == Size(q.r)
    requires Filled(q, Size(q.r), a, disk', owner')
    requires DenseRun(a, First(q.r), f) && f <= Max(Wanted(w), w.c)
    requires DenseRun(Leaf(w.t, q.r), First(q.r), w.c) && Keeps(Leaf(w.t, q.r), q.a)
    requires Owned(w.ino, q.r, q.a, q.owner)
    ensures Handed(w, owner') && Confined(w, disk', owner')
  {
    hide Splice, Wanted;
    forall p | p in owner' && p !in w.owner && p !in q.owner
      ensures Needs(Wanted(w), owner'[p])
    {
      var k := owner'[p].k;
      assert a[k] == p && First(q.r) + k < f;
      assert q.a[k] == 0 && Leaf(w.t, q.r)[k] == 0;
    }
  }

  // ---- pointer blocks -------------------------------------------------------------------------

  /** The slots that hold pointer blocks. */
  predicate PtrSlot(s: Slot) {
    s.Ind1? || s.Ind2? || (s.Tab? && s.j < N_PTRS)
  }

  function PtrAt(t: Tree, s: Slot): u32
    requires PtrSlot(s)
  {
    match s
    case Ind1(_) => t.ind1
    case Ind2(_) => t.ind2
    case Tab(_, j) => t.tabs[j]
  }

  /** The tree with pointer block p in slot s. */
  function WithPtr(t: Tree, s: Slot, p: u32): (t': Tree)
    requires PtrSlot(s)
    ensures forall r :: ValidRegion(r) ==> Leaf(t', r) == Leaf(t, r)
  {
    match s
    case Ind1(_) => t.(ind1 := p)
    case Ind2(_) => t.(ind2 := p)
    case Tab(_, j) => t.(tabs := t.tabs[j := p])
  }

  lemma TakeOwned(ino: nat, owner: Owner, t: Tree, s: Slot, p: u32)
    requires TreeOwned(ino, t, owner) && TreeExact(ino, t, owner)
    requires PtrSlot(s) && s.ino == ino && PtrAt(t, s) == 0 && 0 < p && p !in owner && 0 !in owner
    ensures TreeOwned(ino, WithPtr(t, s, p), owner[p := s]) && TreeExact(ino, WithPtr(t, s, p), owner[p := s])
  {
    var t', o := WithPtr(t, s, p), owner[p := s];
    forall r {:trigger Leaf(t', r)} | ValidRegion(r)
      ensures Owned(ino, r, Leaf(t', r), o)
    {
      assert Owned(ino, r, Leaf(t, r), owner);
    }
    forall x | x in o && Of(o[x], ino)
      ensures Hangs(t', o[x], x)
    {
      if x != p { assert Hangs(t, owner[x], x); }
    }
  }

  /** A missing pointer block becomes a fresh block. */
  lemma GoingTake(w: Request, b: nat, disk: seq<Block>, owner: Owner, t: Tree, s: Slot, p: u32)
    requires Going(w, b, disk, owner, t)
    requires PtrSlot(s) && s.ino == w.ino && PtrAt(t, s) == 0 && Needs(Wanted(w), s)
    requires 0 < p && p !in owner
    ensures Going(w, b, disk, owner[p := s], WithPtr(t, s, p))
  {
    hide Splice, Wanted, RegionData, TreeOwned, TreeExact, Needs;
    TakeOwned(w.ino, owner, t, s, p);
    var t' := WithPtr(t, s, p);
    forall r {:trigger Leaf(t', r)} | ValidRegion(r)
      ensures RegionData(w, b, disk, r, Leaf(t', r)) && Keeps(Leaf(w.t, r), Leaf(t', r))
    {
      assert RegionData(w, b, disk, r, Leaf(t, r)) && Keeps(Leaf(w.t, r), Leaf(t, r));
    }
  }

  /** A pointer block is written back. */
  lemma GoingStore(w: Request, b: nat, disk: seq<Block>, owner: Owner, t: Tree, p: nat, blk: Block)
    requires Going(w, b, disk, owner, t)
    requires p in owner && p < |disk| && PtrSlot(owner[p]) && owner[p].ino == w.ino
    ensures Going(w, b, disk[p := blk], owner, t)
  {
    hide Splice, Wanted, Keeps;
    var d := disk[p := blk];
    forall r {:trigger Leaf(t, r)} | ValidRegion(r)
      ensures RegionData(w, b, d, r, Leaf(t, r))
    {
      assert Owned(w.ino, r, Leaf(t, r), owner) && RegionData(w, b, disk, r, Leaf(t, r));
    }
  }

  /** write_helper leaves the pointer blocks on the disk alone. */
  lemma TableKept(q: Job, n: nat, a: seq<u32>, disk': seq<Block>, owner': Owner, x: nat)
    requires Filled(q, n, a, disk', owner')
    requires x != 0 ==> x in q.owner && !q.owner[x].Data?
    ensures Table(disk', x) == Table(q.disk, x)
  {
    hide Splice, Owned, Exact;
  }

  // ---- parts of the file that the request does not overlap ----------------------------------------

  lemma GoingSkip(w: Request, b: nat, b': nat, disk: seq<Block>, owner: Owner, t: Tree)
    requires Going(w, b, disk, owner, t) && b <= b' <= MAX_BLOCKS && w.offset <= BLOCK_SIZE * w.c
    requires b' == b || w.buf == [] || BLOCK_SIZE * b' <= w.offset || w.offset + |w.buf| <= BLOCK_SIZE * b
    ensures Going(w, b', disk, owner, t) && Reach(w, b') == Reach(w, b)
  {
    hide Splice, Keeps, Owned;
    forall r {:trigger Leaf(t, r)} | ValidRegion(r)
      ensures RegionData(w, b', disk, r, Leaf(t, r))
    {
      assert RegionData(w, b, disk, r, Leaf(t, r));
      forall k | 0 <= k < Size(r) && Leaf(t, r)[k] != 0 && b <= First(r) + k < b'
        ensures disk[Leaf(t, r)[k]] == Splice(w.disk[Leaf(t, r)[k]], First(r) + k, w.offset, w.buf)
      {
        SpliceOutside(w.disk[Leaf(t, r)[k]], First(r) + k, w.offset, w.buf);
      }
    }
  }

  // ---- density ------------------------------------------------------------------------------------

  /** After write_helper on region r the tree is dense up to what the next region starts from. */
  lemma DenseFill(w: Request, t: Tree, t': Tree, r: Region, a: seq<u32>)
    requires ValidRegion(r) && |a| == Size(r) && Dense(t, Reach(w, First(r))) && w.c <= MAX_BLOCKS
    requires Leaf(t', r) == a && forall q :: ValidRegion(q) && q != r ==> Leaf(t', q) == Leaf(t, q)
    requires t'.ind1 == t.ind1 && t'.ind2 == t.ind2
    requires forall j :: 0 <= j < N_PTRS ==> (t'.tabs[j] != 0 <==> t.tabs[j] != 0 || r == Double(j))
    requires DenseRun(a, First(r), Max(Reach(w, First(r)), Wanted(w)))
    requires r.Single? ==> t.ind1 != 0
    requires r.Double? ==> First(r) < Wanted(w) && t.ind1 != 0 && t.ind2 != 0
    ensures Dense(t', Reach(w, First(r) + Size(r)))
  {
    hide Wanted;
    var c := Reach(w, First(r) + Size(r));
    forall q {:trigger Leaf(t', q)} | ValidRegion(q)
      ensures DenseRun(Leaf(t', q), First(q), c)
    {
      assert DenseRun(Leaf(t, q), First(q), Reach(w, First(r)));
    }
  }

  // ---- where a write ends ---------------------------------------------------------------------------

  /** The file as the write leaves it on the disk: tree t with c data blocks, all of them spliced. */
  ghost predicate Landed(w: Request, disk: seq<Block>, owner: Owner, nd: Inode, t: Tree, c: nat) {
    && Handed(w, owner) && Confined(w, disk, owner)
    && TreeOwned(w.ino, t, owner)
    && DataDone(w, MAX_BLOCKS, disk, t)
    && TreeKeeps(w.t, t)
    && Dense(t, c) && w.c <= c <= Max(w.c, Wanted(w))
    && Stored(t, nd, disk)
  }

  ghost predicate DenseLeaves(t: Tree, c: nat) {
    forall r {:trigger Leaf(t, r)} :: ValidRegion(r) ==> DenseRun(Leaf(t, r), First(r), c)
  }

  /** The data blocks below block f are there, with their pointer blocks; those of block f itself may be there too. */
  ghost predicate Upto(t: Tree, f: nat) {
    && f <= MAX_BLOCKS && DenseLeaves(t, f)
    && (t.ind1 != 0 ==> f >= 6) && (f > 6 ==> t.ind1 != 0)
    && (t.ind2 != 0 ==> f >= 262) && (f > 262 ==> t.ind2 != 0)
    && (forall j :: 0 <= j < N_PTRS && t.tabs[j] != 0 ==> 262 + 256 * j <= f && t.ind2 != 0)
    && (forall j :: 0 <= j < N_PTRS && 262 + 256 * j < f ==> t.tabs[j] != 0)
  }

  /** The buffered tree t of a write that found no block for block f of the file, or for a pointer block of it. */
  ghost predicate Buffered(w: Request, owner: Owner, t: Tree, f: nat) {
    && TreeOwned(w.ino, t, owner) && TreeExact(w.ino, t, owner) && Upto(t, f)
    && f < MAX_BLOCKS && f < Wanted(w) && w.c <= f
  }

  /** c, rounded up to the end of a table. */
  function TableEnd(c: nat): nat {
    if c <= 262 then 262 else 262 + 256 * DivRoundUp(c - 262, 256)
  }

  /** When no block is found for block f of a file that had c data blocks, so many can be reached from the disk:
      the table that was being filled and the double-indirect block are not written back. */
  function Landing(c: nat, f: nat): nat {
    if f <= 6 then f else if f < 262 then Max(c, 6) else if f < TableEnd(c) then c else TableEnd(c)
  }

  /** Where a failed write stops: tree td with c data blocks is what it leaves on the disk. */
  ghost predicate Stuck(w: Request, owner: Owner, td: Tree, c: nat, f: nat) {
    c == Landing(w.c, f) && exists t: Tree :: Buffered(w, owner, t, f) && t.ind1 == td.ind1 && t.ind2 == td.ind2
  }

  lemma Stops(w: Request, owner: Owner, t: Tree, f: nat, td: Tree, c: nat)
    requires TreeOwned(w.ino, t, owner) && TreeExact(w.ino, t, owner) && Upto(t, f)
    requires w.c <= f < Min(MAX_BLOCKS, Wanted(w)) && c == Landing(w.c, f) && td.ind1 == t.ind1 && td.ind2 == t.ind2
    ensures Stuck(w, owner, td, c, f)
  {
    hide TreeOwned, TreeExact, Upto, Wanted, Landing;
    assert Buffered(w, owner, t, f);
  }

  /** A well-formed file without spare pointer blocks stops at its end. */
  lemma DenseUpto(t: Tree, c: nat)
    requires Dense(t, c)
    ensures Upto(t, c)
  {
    forall r {:trigger Leaf(t, r)} | ValidRegion(r) ensures DenseRun(Leaf(t, r), First(r), c) {}
  }

  lemma StuckWanted(w: Request, owner: Owner, td: Tree, c: nat, f: nat)
    requires Stuck(w, owner, td, c, f)
    ensures w.c <= f < Min(MAX_BLOCKS, Wanted(w))
  {
    hide Wanted, TreeOwned, TreeExact, Upto;
  }

  /** The part td of the tree t that has reached the disk is a well-formed file whose blocks are spliced. */
  lemma Land(w: Request, b: nat, disk: seq<Block>, owner: Owner, t: Tree, td: Tree, nd: Inode, cd: nat)
    requires Going(w, b, disk, owner, t)
    requires TreeKeeps(w.t, td) && TreeKeeps(td, t)
    requires Dense(td, cd) && cd <= b && w.c <= cd <= Max(w.c, Wanted(w)) && Stored(td, nd, disk)
    ensures Landed(w, disk, owner, nd, td, cd)
  {
    hide Splice, Wanted, Stored, Handed, Confined, TreeExact;
    forall r {:trigger Leaf(td, r)} | ValidRegion(r)
      ensures Owned(w.ino, r, Leaf(td, r), owner) && RegionData(w, MAX_BLOCKS, disk, r, Leaf(td, r))
    {
      assert Owned(w.ino, r, Leaf(t, r), owner) && RegionData(w, b, disk, r, Leaf(t, r));
      assert Keeps(Leaf(td, r), Leaf(t, r)) && DenseRun(Leaf(td, r), First(r), cd);
    }
  }

  lemma KeepsRefl(t: Tree)
    ensures TreeKeeps(t, t)
  {
  }
}
