/** file_blocks of fsck.hw3: the list of all blocks of an inode, and why no block is on it twice. */
module FileBlockLists {
  import opened Bytes
  import opened Codec
  import opened FileTrees
  import opened Consistency
  import opened FileContents

  /** The data blocks listed in the tables ps. */
  function TableBlocks(disk: seq<Block>, ps: seq<u32>): seq<u32> {
    if ps == [] then [] else NonNull(Table(disk, ps[0])) + TableBlocks(disk, ps[1..])
  }

  /** file_blocks. */
  function FileBlocks(nd: Inode, disk: seq<Block>): seq<u32> {
    NonNull(nd.direct)
    + (if nd.indir1 != 0 then [nd.indir1] + NonNull(Table(disk, nd.indir1)) else [])
    + (if nd.indir2 != 0
       then [nd.indir2] + NonNull(Table(disk, nd.indir2)) + TableBlocks(disk, NonNull(Table(disk, nd.indir2)))
       else [])
  }

  /** get_ptrs keeps all pointers but the null ones. */
  lemma {:induction false} NonNullIs(a: seq<u32>, p: u32)
    ensures p in NonNull(a) <==> p != 0 && p in a
  {
    if a != [] {
      NonNullIs(a[1..], p);
      assert a == [a[0]] + a[1..];
    }
  }

  lemma {:induction false} TableBlocksIs(disk: seq<Block>, ps: seq<u32>, p: u32)
    ensures p in TableBlocks(disk, ps) <==> p != 0 && exists k :: 0 <= k < |ps| && p in Table(disk, ps[k])
  {
    hide Table;
    if ps != [] {
      NonNullIs(Table(disk, ps[0]), p);
      TableBlocksIs(disk, ps[1..], p);
      assert forall k :: 0 < k < |ps| ==> ps[1..][k - 1] == ps[k];
    }
  }

  /** On every image, file_blocks lists the direct pointers, the indirect block and its pointers, the double-indirect
      block, its tables and their pointers, as far as they are not null. */
  lemma FileBlocksIs(nd: Inode, disk: seq<Block>, p: u32)
    ensures p in FileBlocks(nd, disk) <==>
      p != 0 &&
      (|| p in nd.direct || p == nd.indir1 || p in Table(disk, nd.indir1) || p == nd.indir2
       || p in Table(disk, nd.indir2)
       || exists q: u32 :: q != 0 && q in Table(disk, nd.indir2) && p in Table(disk, q))
  {
    hide Ptrs;
    var tabs := Table(disk, nd.indir2);
    NonNullIs(nd.direct, p);
    NonNullIs(Table(disk, nd.indir1), p);
    NonNullIs(tabs, p);
    TableBlocksIs(disk, NonNull(tabs), p);
    forall q: u32 ensures q in NonNull(tabs) <==> q != 0 && q in tabs { NonNullIs(tabs, q); }
    ThreeParts(nd, disk);
  }

  function ToSet(ps: seq<u32>): set<nat> { set p | p in ps :: p as nat }

  lemma ToSetLast(ps: seq<u32>, p: u32)
    ensures ToSet(ps + [p]) == ToSet(ps) + {p as nat}
  {
    forall q: u32 | q in ps ensures q in ps + [p] {}
    assert p in ps + [p];
  }

  /** The position of a slot in the order in which the blocks are listed. */
  function Rank(s: Slot): nat {
    match s
    case Data(_, Direct, k) => k
    case Ind1(_) => 6
    case Data(_, Single, k) => 7 + k
    case Ind2(_) => 263
    case Tab(_, j) => 264 + j
    case Data(_, Double(j), k) => 520 + 256 * j + k
    case Leaked => 0
  }

  const RANKS: nat := 66056

  /** The blocks of the list belong to inode i, and their slots have increasing ranks, from lo on and below hi. */
  ghost predicate Ranked(ps: seq<u32>, owner: Owner, i: nat, lo: nat, hi: nat) {
    && (forall k :: 0 <= k < |ps| ==> ps[k] in owner && Of(owner[ps[k]], i) && lo <= Rank(owner[ps[k]]) < hi)
    && (forall k, l :: 0 <= k < l < |ps| ==> Rank(owner[ps[k]]) < Rank(owner[ps[l]]))
  }

  lemma RankedConcat(a: seq<u32>, b: seq<u32>, owner: Owner, i: nat, lo: nat, mid: nat, hi: nat)
    requires Ranked(a, owner, i, lo, mid) && Ranked(b, owner, i, mid, hi) && lo <= mid <= hi
    ensures Ranked(a + b, owner, i, lo, hi)
  {
  }

  lemma RankedEmpty(owner: Owner, i: nat, lo: nat, hi: nat)
    ensures Ranked([], owner, i, lo, hi)
  {
  }

  lemma RankedOne(p: u32, owner: Owner, i: nat, lo: nat, hi: nat)
    requires p as nat in owner && Of(owner[p], i) && lo <= Rank(owner[p]) < hi
    ensures Ranked([p], owner, i, lo, hi)
  {
  }

  /** Pointer k of the array a hangs from the slot of rank base + k. */
  ghost predicate Ascending(a: seq<u32>, owner: Owner, i: nat, base: nat) {
    forall k :: 0 <= k < |a| && a[k] != 0 ==> a[k] in owner && Of(owner[a[k]], i) && Rank(owner[a[k]]) == base + k
  }

  lemma RunRest(a: seq<u32>, owner: Owner, i: nat, base: nat)
    requires Ascending(a, owner, i, base) && a != []
    ensures Ascending(a[1..], owner, i, base + 1)
  {
    forall k | 0 <= k < |a| - 1 && a[1..][k] != 0
      ensures a[1..][k] in owner && Of(owner[a[1..][k]], i) && Rank(owner[a[1..][k]]) == base + 1 + k
    {
      assert a[1..][k] == a[k + 1];
    }
  }

  lemma {:induction false} NonNullRanked(a: seq<u32>, owner: Owner, i: nat, base: nat)
    requires Ascending(a, owner, i, base)
    ensures Ranked(NonNull(a), owner, i, base, base + |a|)
  {
    hide Rank;
    if a == [] {
      RankedEmpty(owner, i, base, base);
    } else {
      RunRest(a, owner, i, base);
      NonNullRanked(a[1..], owner, i, base + 1);
      var head: seq<u32> := if a[0] == 0 then [] else [a[0]];
      RankedConcat(head, NonNull(a[1..]), owner, i, base, base + 1, base + |a|);
    }
  }

  lemma {:induction false} NonNullHas(a: seq<u32>, k: nat)
    requires k < |a| && a[k] != 0
    ensures a[k] in NonNull(a)
  {
    if k > 0 { NonNullHas(a[1..], k - 1); }
  }

  lemma RegionRanked(i: nat, t: Tree, r: Region, owner: Owner)
    requires TreeOwned(i, t, owner) && ValidRegion(r)
    ensures Ascending(Leaf(t, r), owner, i, match r case Direct => 0 case Single => 7 case Double(j) => 520 + 256 * j)
  {
    assert Owned(i, r, Leaf(t, r), owner);
  }

  /** The tables from the j-th on. */
  lemma {:induction false} TabsRanked(i: nat, t: Tree, disk: seq<Block>, owner: Owner, j: nat)
    requires TreeOwned(i, t, owner) && j <= N_PTRS && forall k :: 0 <= k < N_PTRS ==> t.two[k] == Table(disk, t.tabs[k])
    ensures Ranked(TableBlocks(disk, NonNull(t.tabs[j..])), owner, i, 520 + 256 * j, RANKS)
    decreases N_PTRS - j
  {
    hide TreeOwned, Ranked, Ascending, Ptrs;
    if j == N_PTRS {
      RankedEmpty(owner, i, 520 + 256 * j, RANKS);
    } else {
      TabsRanked(i, t, disk, owner, j + 1);
      TabsNext(i, t, disk, owner, j);
    }
  }

  lemma TabsNext(i: nat, t: Tree, disk: seq<Block>, owner: Owner, j: nat)
    requires TreeOwned(i, t, owner) && j < N_PTRS && t.two[j] == Table(disk, t.tabs[j])
    requires Ranked(TableBlocks(disk, NonNull(t.tabs[j + 1..])), owner, i, 520 + 256 * (j + 1), RANKS)
    ensures Ranked(TableBlocks(disk, NonNull(t.tabs[j..])), owner, i, 520 + 256 * j, RANKS)
  {
    hide TreeOwned, Ascending, Table, Ranked, Rank, NonNull;
    var lo, hi := 520 + 256 * j, 520 + 256 * (j + 1);
    var rest := TableBlocks(disk, NonNull(t.tabs[j + 1..]));
    NonNullTail(t.tabs, j);
    if t.tabs[j] != 0 {
      RegionRanked(i, t, Double(j), owner);
      NonNullRanked(t.two[j], owner, i, lo);
      RankedConcat(NonNull(t.two[j]), rest, owner, i, lo, hi, RANKS);
      TableBlocksCons(disk, t.tabs[j], NonNull(t.tabs[j + 1..]));
    } else {
      RankedEmpty(owner, i, lo, hi);
      RankedConcat([], rest, owner, i, lo, hi, RANKS);
      assert [] + rest == rest && [] + NonNull(t.tabs[j + 1..]) == NonNull(t.tabs[j + 1..]);
    }
  }

  lemma NonNullTail(a: seq<u32>, j: nat)
    requires j < |a|
    ensures NonNull(a[j..]) == (if a[j] == 0 then [] else [a[j]]) + NonNull(a[j + 1..])
  {
    assert a[j..][1..] == a[j + 1..];
  }

  /** A block listed in one of the tables is listed. */
  lemma {:induction false} TableBlocksHas(disk: seq<Block>, ps: seq<u32>, p: u32, q: u32)
    requires p in ps && q in NonNull(Table(disk, p))
    ensures q in TableBlocks(disk, ps)
  {
    hide NonNull, Table;
    if ps[0] != p { TableBlocksHas(disk, ps[1..], p, q); }
  }

  lemma TableBlocksCons(disk: seq<Block>, p: u32, ps: seq<u32>)
    ensures TableBlocks(disk, [p] + ps) == NonNull(Table(disk, p)) + TableBlocks(disk, ps)
  {
    assert ([p] + ps)[1..] == ps;
  }

  /** The three parts of the list. */
  function DirectList(nd: Inode): seq<u32> { NonNull(nd.direct) }

  function SingleList(nd: Inode, disk: seq<Block>): seq<u32> {
    if nd.indir1 != 0 then [nd.indir1] + NonNull(Table(disk, nd.indir1)) else []
  }

  function DoubleList(nd: Inode, disk: seq<Block>): seq<u32> {
    if nd.indir2 != 0
    then [nd.indir2] + NonNull(Table(disk, nd.indir2)) + TableBlocks(disk, NonNull(Table(disk, nd.indir2)))
    else []
  }

  lemma SingleRanked(i: nat, nd: Inode, t: Tree, disk: seq<Block>, owner: Owner)
    requires Stored(t, nd, disk) && TreeOwned(i, t, owner)
    ensures Ranked(SingleList(nd, disk), owner, i, 6, 263)
  {
    hide Ranked, Ascending, Owned;
    if t.ind1 != 0 {
      RegionRanked(i, t, Single, owner);
      NonNullRanked(t.one, owner, i, 7);
      RankedOne(t.ind1, owner, i, 6, 7);
      RankedConcat([t.ind1], NonNull(t.one), owner, i, 6, 7, 263);
    } else {
      RankedEmpty(owner, i, 6, 263);
    }
  }

  lemma DoubleRanked(i: nat, nd: Inode, t: Tree, disk: seq<Block>, owner: Owner)
    requires Stored(t, nd, disk) && TreeOwned(i, t, owner)
    ensures Ranked(DoubleList(nd, disk), owner, i, 263, RANKS)
  {
    hide Ranked, Owned, Table;
    if t.ind2 != 0 {
      NonNullRanked(t.tabs, owner, i, 264);
      assert t.tabs[0..] == t.tabs;
      TabsRanked(i, t, disk, owner, 0);
      RankedOne(t.ind2, owner, i, 263, 264);
      RankedConcat([t.ind2], NonNull(t.tabs), owner, i, 263, 264, 520);
      RankedConcat([t.ind2] + NonNull(t.tabs), TableBlocks(disk, NonNull(t.tabs)), owner, i, 263, 520, RANKS);
    } else {
      RankedEmpty(owner, i, 263, RANKS);
    }
  }

  /** Every block of the file is on the list. */
  lemma Listed(nd: Inode, t: Tree, c: nat, disk: seq<Block>, s: Slot, p: u32)
    requires Stored(t, nd, disk) && Dense(t, c) && Hangs(t, s, p) && p != 0
    ensures p in FileBlocks(nd, disk)
  {
    hide Ptrs, Dense, FileBlocks;
    TablesThere(t, c, s, p);
    ThreeParts(nd, disk);
    match s {
      case Data(_, Direct, k) => NonNullHas(t.direct, k);
      case Ind1(_) =>
      case Data(_, Single, k) => NonNullHas(t.one, k);
      case Ind2(_) =>
      case Tab(_, j) => NonNullHas(t.tabs, j);
      case Data(_, Double(j), k) =>
        NonNullHas(t.tabs, j);
        NonNullHas(t.two[j], k);
        TableBlocksHas(disk, NonNull(t.tabs), t.tabs[j], p);
    }
  }

  /** The list of the blocks of a well-formed file: each of its blocks, once. */
  lemma FileBlocksAre(i: nat, nd: Inode, t: Tree, c: nat, disk: seq<Block>, owner: Owner)
    requires FileOk(i, nd, t, c, disk, owner) && 0 !in owner
    ensures Ranked(FileBlocks(nd, disk), owner, i, 0, RANKS)
    ensures forall p :: p in Footprint(owner, i) ==> p < 0x1_0000_0000 && p as u32 in FileBlocks(nd, disk)
  {
    hide Ranked, Ascending, Stored, Dense, TreeOwned, SingleList, DoubleList, FileBlocks;
    assert t.direct == nd.direct by { StoredTop(t, nd, disk); }
    RegionRanked(i, t, Direct, owner);
    NonNullRanked(t.direct, owner, i, 0);
    SingleRanked(i, nd, t, disk, owner);
    DoubleRanked(i, nd, t, disk, owner);
    RankedConcat(DirectList(nd), SingleList(nd, disk), owner, i, 0, 6, 263);
    RankedConcat(DirectList(nd) + SingleList(nd, disk), DoubleList(nd, disk), owner, i, 0, 263, RANKS);
    ThreeParts(nd, disk);
    forall p | p in Footprint(owner, i)
      ensures p < 0x1_0000_0000 && p as u32 in FileBlocks(nd, disk)
    {
      assert Hangs(t, owner[p], p);
      Listed(nd, t, c, disk, owner[p], p);
    }
  }

  lemma ThreeParts(nd: Inode, disk: seq<Block>)
    ensures FileBlocks(nd, disk) == DirectList(nd) + SingleList(nd, disk) + DoubleList(nd, disk)
  {
  }

  /** What hangs from a pointer block is only there if the pointer block is. */
  lemma TablesThere(t: Tree, c: nat, s: Slot, p: nat)
    requires Dense(t, c) && Hangs(t, s, p) && p != 0
    ensures s.Data? && s.r.Single? ==> t.ind1 != 0
    ensures s.Tab? ==> t.ind2 != 0
    ensures s.Data? && s.r.Double? ==> t.ind2 != 0 && t.tabs[s.r.j] != 0
  {
    if s.Data? { assert DenseRun(Leaf(t, s.r), First(s.r), c); }
  }
}
