/** write_helper: filling one region of a file's pointers and storing bytes in its blocks. */
module Writing {
  import opened Bytes
  import opened Codec
  import opened FileTrees
  import opened Volumes

  /** The number of blocks that hold the bytes of a file up to byte n. */
  function BlocksFor(n: nat): nat { DivRoundUp(n, BLOCK_SIZE) }

  lemma BlocksForBound(n: nat, b: nat)
    ensures BlocksFor(n) <= b <==> n <= BLOCK_SIZE * b
  {
  }

  function Max(a: nat, b: nat): nat { if a >= b then a else b }
  function Min(a: nat, b: nat): nat { if a <= b then a else b }

  /** The accumulators shared by the tiers. Until the request is finished, everything before the
      boundary `at` has been passed: offsetCnt bytes were skipped and cnt bytes of buf were copied. */
  ghost predicate Passed(at: nat, buf: seq<byte>, len: nat, offset: nat, offsetCnt: nat, cnt: nat) {
    && offsetCnt <= offset && (offsetCnt < offset ==> cnt == 0)
    && cnt + len == |buf|
    && (len > 0 ==> offsetCnt + cnt == at)
    && (len == 0 && buf != [] ==> offsetCnt == offset && offset + cnt <= at)
  }

  /** A request to write buf at the offset, seen by region r of inode ino: the pointers of the region,
      the disk and the owners when write_helper is entered. */
  datatype Job = Job(ino: nat, r: Region, offset: nat, buf: seq<byte>, a: seq<u32>, disk: seq<Block>, owner: Owner)

  /** The state when blocks 0..i-1 of the region are done: null pointers may have become fresh blocks,
      the blocks are spliced with buf, and nothing else on the disk has changed. */
  ghost predicate Filled(q: Job, i: nat, a: seq<u32>, disk: seq<Block>, owner: Owner) {
    && |a| == |q.a| && |disk| == |q.disk| && 0 !in owner
    && (forall k :: 0 <= k < |a| && q.a[k] != 0 ==> a[k] == q.a[k])
    && (forall k :: i <= k < |a| ==> a[k] == q.a[k])
    && (forall p :: p in q.owner ==> p in owner && owner[p] == q.owner[p])
    && (forall p :: p in owner && p !in q.owner ==> InRegion(owner[p], q.ino, q.r))
    && Owned(q.ino, q.r, a, owner) && Exact(q.ino, q.r, a, owner)
    && (forall p: nat :: p < |disk| && !(p in owner && InRegion(owner[p], q.ino, q.r)) ==> disk[p] == q.disk[p])
    && (forall k :: 0 <= k < |a| && a[k] != 0 ==> a[k] < |disk|)
    && (forall k :: 0 <= k < |a| && k < i && a[k] != 0 ==>
          disk[a[k]] == Splice(q.disk[a[k]], First(q.r) + k, q.offset, q.buf))
    && (forall k :: 0 <= k < |a| && k >= i && a[k] != 0 ==> disk[a[k]] == q.disk[a[k]])
  }

  lemma FilledNone(q: Job)
    requires 0 !in q.owner && Owned(q.ino, q.r, q.a, q.owner) && Exact(q.ino, q.r, q.a, q.owner)
    requires forall p :: p in q.owner ==> p < |q.disk|
    ensures Filled(q, 0, q.a, q.disk, q.owner)
  {
  }

  /** Blocks that are absent, or that the write does not overlap, need no splicing. */
  lemma FilledSkip(q: Job, i: nat, j: nat, a: seq<u32>, disk: seq<Block>, owner: Owner)
    requires Filled(q, i, a, disk, owner) && i <= j <= |a|
    requires
      || q.buf == []
      || BLOCK_SIZE * (First(q.r) + j) <= q.offset
      || q.offset + |q.buf| <= BLOCK_SIZE * (First(q.r) + i)
      || forall k :: i <= k < |a| ==> a[k] == 0
    ensures Filled(q, j, a, disk, owner)
  {
    forall k | i <= k < j && a[k] != 0
      ensures disk[a[k]] == Splice(q.disk[a[k]], First(q.r) + k, q.offset, q.buf)
    {
      SpliceOutside(q.disk[a[k]], First(q.r) + k, q.offset, q.buf);
    }
  }

  /** A null pointer of block i becomes a fresh block. */
  lemma FilledTake(q: Job, i: nat, a: seq<u32>, disk: seq<Block>, owner: Owner, p: u32)
    requires Filled(q, i, a, disk, owner)
    requires i < |a| && a[i] == 0 && 0 < p < |disk| && p !in owner
    ensures var b := a[i := p]; var o := owner[p := Data(q.ino, q.r, i)];
      && (forall k :: 0 <= k < |a| && q.a[k] != 0 ==> b[k] == q.a[k])
      && (forall k :: i < k < |a| ==> b[k] == q.a[k])
      && (forall x :: x in q.owner ==> x in o && o[x] == q.owner[x])
      && (forall x :: x in o && x !in q.owner ==> InRegion(o[x], q.ino, q.r))
      && Owned(q.ino, q.r, b, o) && Exact(q.ino, q.r, b, o)
      && disk[p] == q.disk[p]
  {
  }

  /** Block i, whose pointer is b[i], is spliced. */
  lemma FilledWrite(q: Job, i: nat, a: seq<u32>, disk: seq<Block>, owner: Owner, b: seq<u32>, o: Owner, blk: Block)
    requires Filled(q, i, a, disk, owner)
    requires i < |a| == |b| && b[i] != 0 && b[i] < |disk|
    requires if a[i] == 0
             then b[i] !in owner && b == a[i := b[i]] && o == owner[b[i] := Data(q.ino, q.r, i)]
             else b == a && o == owner
    requires blk == Splice(disk[b[i]], First(q.r) + i, q.offset, q.buf)
    ensures Filled(q, i + 1, b, disk[b[i] := blk], o)
  {
    hide Splice, Exact;
    var p := b[i];
    if a[i] == 0 {
      FilledTake(q, i, a, disk, owner, p);
    }
    assert disk[p] == q.disk[p];
    assert p in o && o[p] == Data(q.ino, q.r, i);
    forall k | 0 <= k < |a| && k != i && b[k] != 0
      ensures b[k] != p
    {
      assert o[b[k]] == Data(q.ino, q.r, k);
    }
  }

  /** Once the first i pointers are there and the rest is as it was, the region is dense again. */
  lemma DenseAfter(a: seq<u32>, a': seq<u32>, first: nat, c: nat, i: nat, f: nat)
    requires DenseRun(a, first, c) && |a'| == |a| && i <= |a| && c <= f
    requires i > 0 ==> first + i - 1 < f
    requires forall k :: 0 <= k < i ==> a'[k] != 0
    requires forall k :: i <= k < |a| ==> a'[k] == a[k]
    requires i == |a| || f <= Max(c, first + i)
    ensures DenseRun(a', first, f)
  {
  }

  /** The copying loop over one block: block b of the file, held in data, is spliced with buf. */
  method CopyIn(data: array<byte>, buf: seq<byte>, at: nat, len0: nat, offset: nat, offsetCnt0: nat, cnt0: nat,
                ghost b: nat)
    returns (len: nat, offsetCnt: nat, cnt: nat)
    requires data.Length == BLOCK_SIZE
    requires len0 > 0 && at == cnt0 && Passed(BLOCK_SIZE * b, buf, len0, offset, offsetCnt0, cnt0)
    modifies data
    ensures data[..] == Splice(old(data[..]), b, offset, buf)
    ensures Passed(BLOCK_SIZE * (b + 1), buf, len, offset, offsetCnt, cnt)
    ensures offsetCnt + cnt > BLOCK_SIZE * b
  {
    len, offsetCnt, cnt := len0, offsetCnt0, cnt0;
    var p := at;
    var j := 0;
    while j < BLOCK_SIZE && len > 0
      invariant 0 <= j <= BLOCK_SIZE
      invariant p == cnt && cnt + len == |buf|
      invariant offsetCnt <= offset && (offsetCnt < offset ==> cnt == 0)
      invariant offsetCnt + cnt == BLOCK_SIZE * b + j
      invariant forall x :: 0 <= x < BLOCK_SIZE ==>
        (data[x] == if x < j && offset <= BLOCK_SIZE * b + x then buf[BLOCK_SIZE * b + x - offset] else old(data[x]))
    {
      if offsetCnt < offset {
        offsetCnt := offsetCnt + 1;
        j := j + 1;
        continue;
      }
      data[j] := buf[p];
      p := p + 1;
      cnt := cnt + 1;
      len := len - 1;
      j := j + 1;
    }
  }

  /** One turn of the loop of write_helper, on a block that the write reaches. */
  method WriteBlock(v: Volume, data: array<byte>, buf: seq<byte>, at: nat, len0: nat, offset: nat,
                    offsetCnt0: nat, cnt0: nat, addr: array<u32>, i: nat, ghost q: Job)
    returns (err: int, len: nat, offsetCnt: nat, cnt: nat)
    requires v.DiskOk() && data.Length == BLOCK_SIZE
    requires data !in v.Arrays() && addr !in v.Arrays() && data as object != addr
    requires buf == q.buf && offset == q.offset && i < addr.Length == |q.a|
    requires len0 > 0 && at == cnt0 && Passed(BLOCK_SIZE * (First(q.r) + i), buf, len0, offset, offsetCnt0, cnt0)
    requires Filled(q, i, addr[..], v.disk[..], v.owner)
    modifies v`used, v`owner, v.blockMap, v.disk, data, addr
    ensures v.DiskOk()
    ensures err == 0 || err == -ENOSPC
    ensures err == 0 ==> Filled(q, i + 1, addr[..], v.disk[..], v.owner)
    ensures err == 0 ==> addr[i] != 0 && addr[..] == old(addr[..])[i := addr[i]]
    ensures err == 0 ==> old(addr[i]) != 0 ==> addr[i] == old(addr[i])
    ensures err == 0 ==> Passed(BLOCK_SIZE * (First(q.r) + i + 1), buf, len, offset, offsetCnt, cnt)
    ensures err == 0 ==> offsetCnt + cnt > BLOCK_SIZE * (First(q.r) + i)
    ensures err != 0 ==> old(addr[i]) == 0 && Filled(q, i, addr[..], v.disk[..], v.owner) && addr[..] == old(addr[..])
    ensures err != 0 ==> forall p: nat :: p < v.disk.Length ==> p in v.used
  {
    hide Volume.DiskOk, Splice, BlocksOk, Exact;
    DiskFacts(v);
    err, len, offsetCnt, cnt := 0, len0, offsetCnt0, cnt0;
    ghost var a1, disk1, owner1 := addr[..], v.disk[..], v.owner;
    if addr[i] == 0 {
      var nextBlock := TakeBlock(v, Data(q.ino, q.r, i));
      if nextBlock < 0 {
        return -ENOSPC, len, offsetCnt, cnt;
      }
      addr[i] := nextBlock;
    }
    BlockRead(v, data, addr[i]);
    len, offsetCnt, cnt := CopyIn(data, buf, at, len, offset, offsetCnt, cnt, First(q.r) + i);
    BlockWrite(v, data, addr[i]);
    FilledWrite(q, i, a1, disk1, owner1, addr[..], v.owner, data[..]);
  }

  /** The loop of write_helper over the blocks of a region, stopping when nothing is left to write. */
  method WriteBlocks(v: Volume, data: array<byte>, buf: seq<byte>, at: nat, len0: nat, offset: nat, times: nat,
                     size: nat, offsetCnt0: nat, cnt0: nat, addr: array<u32>, ghost q: Job, ghost c: nat)
    returns (err: int, len: nat, offsetCnt: nat, cnt: nat, i: nat)
    requires v.DiskOk() && data.Length == BLOCK_SIZE
    requires data !in v.Arrays() && addr !in v.Arrays() && data as object != addr
    requires buf == q.buf && offset == q.offset && times == addr.Length == |q.a| && addr[..] == q.a
    requires at == cnt0 && Passed(BLOCK_SIZE * First(q.r), buf, len0, offset, offsetCnt0, cnt0)
    requires offset <= size <= BLOCK_SIZE * c && DenseRun(q.a, First(q.r), c)
    requires Filled(q, 0, addr[..], v.disk[..], v.owner)
    modifies v`used, v`owner, v.blockMap, v.disk, data, addr
    ensures v.DiskOk() && i <= times
    ensures err == 0 || err == -ENOSPC
    ensures Filled(q, i, addr[..], v.disk[..], v.owner)
    ensures forall k :: 0 <= k < i ==> addr[k] != 0
    ensures i > 0 ==> First(q.r) + i - 1 < c || BLOCK_SIZE * (First(q.r) + i - 1) < offset + |buf|
    ensures forall k :: i <= k < times ==> addr[k] == q.a[k]
    ensures err == 0 ==> i == times || len == 0
    ensures err == 0 ==> Passed(BLOCK_SIZE * (First(q.r) + i), buf, len, offset, offsetCnt, cnt)
    ensures err == 0 && addr[..] != q.a ==> offsetCnt + cnt > size
    ensures err != 0 ==> i < times && c <= First(q.r) + i && BLOCK_SIZE * (First(q.r) + i) < offset + |buf|
    ensures err != 0 ==> forall p: nat :: p < v.disk.Length ==> p in v.used
  {
    hide Filled, Volume.DiskOk;
    err, len, offsetCnt, cnt := 0, len0, offsetCnt0, cnt0;
    var p := at;
    i := 0;
    while i < times && len > 0
      invariant 0 <= i <= times
      invariant err == 0 && v.DiskOk() && Filled(q, i, addr[..], v.disk[..], v.owner)
      invariant p == cnt && Passed(BLOCK_SIZE * (First(q.r) + i), buf, len, offset, offsetCnt, cnt)
      invariant addr[..] != q.a ==> offsetCnt + cnt > size
      invariant forall k :: 0 <= k < i ==> addr[k] != 0
      invariant i > 0 ==> First(q.r) + i - 1 < c || BLOCK_SIZE * (First(q.r) + i - 1) < offset + |buf|
      invariant forall k :: i <= k < times ==> addr[k] == q.a[k]
    {
      if offsetCnt + BLOCK_SIZE < offset {
        FilledSkip(q, i, i + 1, addr[..], v.disk[..], v.owner);
        offsetCnt := offsetCnt + BLOCK_SIZE;
        i := i + 1;
        continue;
      }
      err, len, offsetCnt, cnt := WriteBlock(v, data, buf, p, len, offset, offsetCnt, cnt, addr, i, q);
      if err < 0 { return; }
      p := cnt;
      i := i + 1;
    }
  }

  /** write_helper. The region of pointers addr becomes dense up to block f: all that the request needs,
      or, when the disk fills up, all that could be allocated. */
  method WriteHelper(v: Volume, data: array<byte>, buf: seq<byte>, at: nat, len0: nat, offset: nat, times: nat,
                     size: nat, offsetCnt0: nat, cnt0: nat, addr: array<u32>, ghost q: Job, ghost c: nat)
    returns (err: int, len: nat, offsetCnt: nat, cnt: nat, ghost f: nat)
    requires v.DiskOk() && data.Length == BLOCK_SIZE
    requires data !in v.Arrays() && addr !in v.Arrays() && data as object != addr
    requires q == Job(q.ino, q.r, offset, buf, addr[..], v.disk[..], v.owner)
    requires ValidRegion(q.r) && times == Size(q.r) == addr.Length
    requires at == cnt0 && Passed(BLOCK_SIZE * First(q.r), buf, len0, offset, offsetCnt0, cnt0)
    requires offsetCnt0 + cnt0 == BLOCK_SIZE * First(q.r) && offset <= size <= BLOCK_SIZE * c
    requires DenseRun(q.a, First(q.r), c) && Owned(q.ino, q.r, q.a, q.owner) && Exact(q.ino, q.r, q.a, q.owner)
    modifies v`used, v`owner, v.blockMap, v.disk, data, addr
    ensures v.DiskOk()
    ensures err == 0 || err == -ENOSPC
    ensures Filled(q, times, addr[..], v.disk[..], v.owner)
    ensures err == 0 ==> f == Max(c, BlocksFor(offset + |buf|))
    ensures err == 0 ==> Passed(BLOCK_SIZE * (First(q.r) + times), buf, len, offset, offsetCnt, cnt)
    ensures err == 0 && addr[..] != q.a ==> offsetCnt + cnt > size
    ensures err != 0 ==> c <= f < BlocksFor(offset + |buf|) && First(q.r) <= f < First(q.r) + times
    ensures err != 0 ==> forall p: nat :: p < v.disk.Length ==> p in v.used
    ensures DenseRun(addr[..], First(q.r), f)
  {
    hide Filled, Owned, Exact, BlocksFor, Volume.DiskOk;
    err, len, offsetCnt, cnt := 0, len0, offsetCnt0, cnt0;
    f := Max(c, BlocksFor(offset + |buf|));
    DiskFacts(v);
    FilledNone(q);
    BlocksForBound(offset + |buf|, c);
    if offsetCnt + BLOCK_SIZE * times < offset {
      offsetCnt := offsetCnt + BLOCK_SIZE * times;
      FilledSkip(q, 0, times, addr[..], v.disk[..], v.owner);
      DenseAfter(q.a, addr[..], First(q.r), c, times, f);
      return;
    }
    var i: nat;
    err, len, offsetCnt, cnt, i := WriteBlocks(v, data, buf, at, len, offset, times, size, offsetCnt, cnt, addr, q, c);
    BlocksForBound(offset + |buf|, First(q.r) + i);
    if err < 0 { f := First(q.r) + i; }
    FilledSkip(q, i, times, addr[..], v.disk[..], v.owner);
    if i > 0 { BlocksForBound(offset + |buf|, First(q.r) + i - 1); }
    DenseAfter(q.a, addr[..], First(q.r), c, i, f);
  }
}
