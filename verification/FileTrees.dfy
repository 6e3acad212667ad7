/** Files as trees of block pointers: the six direct pointers, the indirect block and the
    double-indirect tables, who owns which block, and the bytes a file holds. */
module FileTrees {
  import opened Bytes
  import opened Codec

  /** The last block index a file can have, plus one. */
  const MAX_BLOCKS: nat := 65798
  /** The number of data blocks reached by the direct, the indirect and the first double-indirect table. */
  const TWO_TABLES: nat := 518

  // ---- regions: the three tiers of pointers ------------------------------------------

  /** A run of consecutive data pointers kept together: the inode's direct array,
      the indirect block, or the j-th table of the double-indirect block. */
  datatype Region = Direct | Single | Double(j: nat)

  predicate ValidRegion(r: Region) {
    r.Double? ==> r.j < N_PTRS
  }

  /** The index in the file of the first block of a region. */
  function First(r: Region): nat {
    match r
    case Direct => 0
    case Single => 6
    case Double(j) => 262 + 256 * j
  }

  function Size(r: Region): nat {
    if r.Direct? then N_DIRECT else N_PTRS
  }

  /** The region that holds the pointer of block b. */
  function RegionOf(b: nat): (r: Region)
    ensures First(r) <= b < First(r) + Size(r)
    ensures b < MAX_BLOCKS ==> ValidRegion(r)
  {
    if b < 6 then Direct else if b < 262 then Single else Double((b - 262) / 256)
  }

  lemma RegionUnique(r: Region, k: nat)
    requires k < Size(r)
    ensures RegionOf(First(r) + k) == r
  {
  }

  // ---- slots: the places a block can hang from ------------------------------------------

  /** A place in the file system that points to a block; a leaked block hangs from nowhere. */
  datatype Slot = Data(ino: nat, r: Region, k: nat) | Ind1(ino: nat) | Ind2(ino: nat) | Tab(ino: nat, j: nat) | Leaked

  predicate Of(s: Slot, ino: nat) {
    !s.Leaked? && s.ino == ino
  }

  predicate InRegion(s: Slot, ino: nat, r: Region) {
    s.Data? && s.ino == ino && s.r == r
  }

  type Owner = map<nat, Slot>

  // ---- trees ---------------------------------------------------------------------------

  datatype TreeRec = Tree(direct: seq<u32>, ind1: u32, one: Words, ind2: u32, tabs: Words, two: seq<Words>)
  type Tree = t: TreeRec | |t.direct| == N_DIRECT && |t.two| == N_PTRS
    witness Tree([0, 0, 0, 0, 0, 0], 0, seq(N_PTRS, _ => 0), 0, seq(N_PTRS, _ => 0),
      seq(N_PTRS, _ => seq(N_PTRS, _ => 0)))

  const NO_DIRECT: seq<u32> := [0, 0, 0, 0, 0, 0]

  function EmptyTree(): Tree { Tree(NO_DIRECT, 0, Nulls(), 0, Nulls(), seq(N_PTRS, _ => Nulls())) }

  /** The pointers of a region. */
  function Leaf(t: Tree, r: Region): (a: seq<u32>)
    requires ValidRegion(r)
    ensures |a| == Size(r)
  {
    match r
    case Direct => t.direct
    case Single => t.one
    case Double(j) => t.two[j]
  }

  function WithLeaf(t: Tree, r: Region, a: seq<u32>): (t': Tree)
    requires ValidRegion(r) && |a| == Size(r)
    ensures Leaf(t', r) == a
    ensures forall q :: ValidRegion(q) && q != r ==> Leaf(t', q) == Leaf(t, q)
    ensures t'.ind1 == t.ind1 && t'.ind2 == t.ind2 && t'.tabs == t.tabs
  {
    match r
    case Direct => t.(direct := a)
    case Single => t.(one := a)
    case Double(j) => t.(two := t.two[j := a])
  }

  /** The pointer table stored in block p; a null pointer stands for an empty table. */
  function Table(disk: seq<Block>, p: nat): Words {
    if p == 0 || p >= |disk| then Nulls() else Ptrs(disk[p])
  }

  /** t is the pointer tree of the inode nd on the disk. */
  ghost predicate Stored(t: Tree, nd: Inode, disk: seq<Block>) {
    && t.direct == nd.direct && t.ind1 == nd.indir1 && t.ind2 == nd.indir2
    && t.one == Table(disk, t.ind1)
    && t.tabs == Table(disk, t.ind2)
    && (forall j :: 0 <= j < N_PTRS ==> t.two[j] == Table(disk, t.tabs[j]))
  }

  lemma StoredTop(t: Tree, nd: Inode, disk: seq<Block>)
    requires Stored(t, nd, disk)
    ensures nd.direct == t.direct && nd.indir1 == t.ind1 && nd.indir2 == t.ind2
    ensures t.one == Table(disk, t.ind1) && t.tabs == Table(disk, t.ind2)
  {
  }

  // ---- ownership ---------------------------------------------------------------------

  /** Every pointer of the region is recorded in the owner map as hanging from there. */
  ghost predicate Owned(ino: nat, r: Region, a: seq<u32>, owner: Owner) {
    forall k :: 0 <= k < |a| && a[k] != 0 ==> a[k] in owner && owner[a[k]] == Data(ino, r, k)
  }

  /** Every block recorded in the owner map as hanging from the region is pointed to from there. */
  ghost predicate Exact(ino: nat, r: Region, a: seq<u32>, owner: Owner) {
    forall p :: p in owner && InRegion(owner[p], ino, r) ==> owner[p].k < |a| && a[owner[p].k] == p
  }

  ghost predicate TreeOwned(ino: nat, t: Tree, owner: Owner) {
    && (forall r {:trigger Leaf(t, r)} :: ValidRegion(r) ==> Owned(ino, r, Leaf(t, r), owner))
    && (t.ind1 != 0 ==> t.ind1 in owner && owner[t.ind1] == Ind1(ino))
    && (t.ind2 != 0 ==> t.ind2 in owner && owner[t.ind2] == Ind2(ino))
    && (forall j :: 0 <= j < N_PTRS && t.tabs[j] != 0 ==> t.tabs[j] in owner && owner[t.tabs[j]] == Tab(ino, j))
  }

  /** Does block p hang from slot s of the tree? */
  predicate Hangs(t: Tree, s: Slot, p: nat) {
    match s
    case Data(_, r, k) => ValidRegion(r) && k < Size(r) && Leaf(t, r)[k] == p
    case Ind1(_) => t.ind1 == p
    case Ind2(_) => t.ind2 == p
    case Tab(_, j) => j < N_PTRS && t.tabs[j] == p
    case Leaked => false
  }

  ghost predicate TreeExact(ino: nat, t: Tree, owner: Owner) {
    forall p :: p in owner && Of(owner[p], ino) ==> Hangs(t, owner[p], p)
  }

  /** The leaked blocks. */
  ghost function LeakedBlocks(owner: Owner): set<nat> {
    set p | p in owner && owner[p].Leaked?
  }

  /** The blocks of inode i. */
  ghost function Footprint(owner: Owner, i: nat): set<nat> {
    set p | p in owner && Of(owner[p], i)
  }

  /** Is the slot one that a file can have? */
  predicate ValidSlot(s: Slot) {
    match s
    case Data(_, r, k) => ValidRegion(r) && k < Size(r)
    case Tab(_, j) => j < N_PTRS
    case Ind1(_) => true
    case Ind2(_) => true
    case Leaked => false
  }

  /** No two blocks of inode i hang from the same slot. */
  ghost predicate OnePerSlot(i: nat, owner: Owner) {
    && (forall p :: p in owner && Of(owner[p], i) ==> ValidSlot(owner[p]))
    && (forall p, q :: p in owner && q in owner && Of(owner[p], i) && owner[q] == owner[p] ==> p == q)
  }

  lemma ExactOnePerSlot(i: nat, t: Tree, owner: Owner)
    requires TreeExact(i, t, owner)
    ensures OnePerSlot(i, owner)
  {
    assert forall p :: p in owner && Of(owner[p], i) ==> Hangs(t, owner[p], p);
  }

  // ---- density -------------------------------------------------------------------------

  /** The pointers of a region starting at block `first` are non-null exactly below block c. */
  ghost predicate DenseRun(a: seq<u32>, first: nat, c: nat) {
    forall k :: 0 <= k < |a| ==> (a[k] != 0 <==> first + k < c)
  }

  /** The tree holds exactly the data blocks 0 .. c-1 (a dense prefix), and the tables they need.
      The indirect and the double-indirect block may be present one block early. */
  ghost predicate Dense(t: Tree, c: nat) {
    && c <= MAX_BLOCKS
    && (forall r {:trigger Leaf(t, r)} :: ValidRegion(r) ==> DenseRun(Leaf(t, r), First(r), c))
    && (forall j :: 0 <= j < N_PTRS ==> (t.tabs[j] != 0 <==> 262 + 256 * j < c))
    && (t.ind1 != 0 ==> c >= 6) && (c > 6 ==> t.ind1 != 0)
    && (t.ind2 != 0 ==> c >= 262) && (c > 262 ==> t.ind2 != 0)
  }

  lemma DenseBound(t: Tree, c: nat)
    requires Dense(t, c)
    ensures c <= MAX_BLOCKS
  {
  }

  /** The tree has no pointer block that no data block needs. */
  predicate Tight(t: Tree, c: nat) {
    (t.ind1 != 0 <==> c > 6) && (t.ind2 != 0 <==> c > 262)
  }

  // ---- bytes ---------------------------------------------------------------------------

  function Blk(disk: seq<Block>, p: nat): Block {
    if p < |disk| then disk[p] else ZeroBlock()
  }

  /** The pointer of data block b. */
  function DataPtr(t: Tree, b: nat): u32
    requires b < MAX_BLOCKS
  {
    var r := RegionOf(b);
    Leaf(t, r)[b - First(r)]
  }

  /** The first `size` bytes of the data blocks of t, in order. */
  function FileBytes(size: nat, t: Tree, disk: seq<Block>): (s: seq<byte>)
    requires size <= MAX_BLOCKS * BLOCK_SIZE
    ensures |s| == size
  {
    seq(size, i requires 0 <= i < size => Blk(disk, DataPtr(t, i / BLOCK_SIZE))[i % BLOCK_SIZE])
  }

  /** Block b of a file after the bytes of buf are written at the offset: the bytes of the file
      from offset to offset + |buf| come from buf, the others stay. */
  function Splice(blk: Block, b: nat, offset: nat, buf: seq<byte>): (s: Block)
  {
    seq(BLOCK_SIZE, j requires 0 <= j < BLOCK_SIZE =>
      if offset <= BLOCK_SIZE * b + j < offset + |buf| then buf[BLOCK_SIZE * b + j - offset] else blk[j])
  }

  /** A write that does not overlap block b leaves it alone. */
  lemma SpliceOutside(blk: Block, b: nat, offset: nat, buf: seq<byte>)
    requires buf == [] || BLOCK_SIZE * (b + 1) <= offset || offset + |buf| <= BLOCK_SIZE * b
    ensures Splice(blk, b, offset, buf) == blk
  {
  }
}
