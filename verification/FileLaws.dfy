/** What a caller sees of a file through its path: laws that relate the calls without looking into the file system. */
module FileLaws {
  import opened Bytes
  import opened Codec
  import opened FileTrees
  import opened Volumes
  import opened Consistency
  import opened FileContents
  import opened Mounted
  import opened Metadata
  import opened Paths
  import opened Names
  import opened NameChanges
  import opened DirSteps
  import opened DirOps
  import opened FileCalls
  import opened ModeCalls

  /** A path leads to the same inode after a change to a file. */
  lemma SameTarget(s: State, s': State, path: seq<byte>)
    requires SamePaths(s, s')
    ensures PathInode(s', path) == PathInode(s, path)
  {
    hide Find, Route;
  }

  /** A write that succeeds leaves a regular file at the path. */
  lemma StillFile(s: State, s': State, path: seq<byte>, buf: seq<byte>, offset: nat, now: u32, r: int)
    requires WriteEffect(s, s', path, buf, offset, now, r) && r >= 0
    ensures PathInode(s', path) == PathInode(s, path) && FileAt(s', PathInode(s', path))
  {
    hide Resolve, Route, IsDirMode, Contents, SameFiles, WriteCost;
    SameTarget(s, s', path);
  }

  /** Reading back what a write has written gives the bytes that were written. */
  method WriteRead(v: Volume, path: seq<byte>, buf: seq<byte>, offset: nat, now: u32, out: array<byte>)
    returns (w: int, r: int)
    requires Valid(v) && |buf| <= out.Length && out !in v.Arrays()
    modifies v`used, v`owner, v`shadow, v.blockMap, v.disk, v.inodes, out
    ensures Valid(v) && (w >= 0 ==> r == w <= |buf| && out[..r] == buf[..r])
  {
    hide Valid, WriteEffect, Resolve, Route, Contents, IsDir, OutOfSpace, Records, Holds;
    ghost var s := StateOf(v);
    w := FsWrite(v, path, buf, offset, now);
    r := 0;
    if w < 0 { return; }
    StillFile(s, StateOf(v), path, buf, offset, now, w);
    ghost var i := PathInode(s, path);
    ghost var g := Contents(StateOf(v), i);
    r := FsRead(v, path, out, w, offset);
    assert offset + w <= |g|;
    assert forall k :: 0 <= k < r ==> out[k] == g[offset + k] == buf[k];
  }

  /** After a truncate, nothing can be read. */
  method TruncateRead(v: Volume, path: seq<byte>, now: u32, out: array<byte>, len: nat, offset: nat)
    returns (t: int, r: int)
    requires Valid(v) && len <= out.Length && out !in v.Arrays()
    modifies v`used, v`owner, v`shadow, v.blockMap, v.disk, v.inodes, out
    ensures Valid(v) && (t == 0 ==> r == 0)
  {
    hide Valid, Resolve, Route, Contents, IsDirMode, Truncated, Holds;
    ghost var s := StateOf(v);
    t := FsTruncate(v, path, 0, now);
    r := 0;
    if t < 0 { return; }
    SameTarget(s, StateOf(v), path);
    assert FileAt(StateOf(v), PathInode(s, path));
    r := FsRead(v, path, out, len, offset);
  }

  /** Nothing can be read from a new file. */
  method CreateRead(v: Volume, path: seq<byte>, m: Meta, out: array<byte>, len: nat, offset: nat)
    returns (c: int, r: int)
    requires Valid(v) && 0 !in path && len <= out.Length && out !in v.Arrays()
    modifies v`used, v`live, v`owner, v`shadow, v.inodeMap, v.blockMap, v.disk, v.inodes, out
    ensures Valid(v) && (c == 0 ==> r == 0)
  {
    hide Valid, Find, Route, Contents, IsDirMode, CreatedEntry, SameBut, Aside, LeakedBlocks, Holds, HasRoom, Bin,
      Dirname;
    ghost var d, i, p;
    ghost var s := StateOf(v);
    c, d, i, p := FsCreate(v, path, m);
    r := 0;
    if c < 0 { return; }
    assert Find(TreeOf(StateOf(v)), Route(path)) == AfterCreate(TreeOf(s), Route(path), i, false, Route(path)) == i;
    FileCodes(v, path);
    r := FsRead(v, path, out, len, offset);
  }
}
