/** Path resolution over the directory tree, and how it changes when one entry does. */
module Names {
  import opened Bytes
  import opened Codec
  import opened FileTrees
  import opened Volumes
  import opened Consistency
  import opened Paths

  /** Does the entry carry this name (strcmp on a valid entry)? */
  predicate Matches(e: Dirent, name: Name) {
    e.valid && CStr(e.name) == name
  }

  /** The first entry from x on that carries the name, or 32. */
  function FindFrom(es: Dirents, name: Name, x: nat): (y: nat)
    requires x <= N_DIRENTS
    ensures x <= y <= N_DIRENTS && (y < N_DIRENTS ==> Matches(es[y], name))
    ensures forall z :: x <= z < y ==> !Matches(es[z], name)
    decreases N_DIRENTS - x
  {
    if x == N_DIRENTS then N_DIRENTS else if Matches(es[x], name) then x else FindFrom(es, name, x + 1)
  }

  function LookupIn(es: Dirents, name: Name): int {
    var x := FindFrom(es, name, 0);
    if x == N_DIRENTS then -ENOENT else es[x].inode
  }

  /** lookup: the inode that directory d gives a name. */
  function LookupOf(inodes: seq<Inode>, disk: seq<Block>, d: nat, name: Name): int
    requires d < |inodes|
  {
    if !IsDir(inodes[d]) then -ENOTDIR else LookupIn(DirOf(inodes[d], disk), name)
  }

  /** The inode that a list of names leads to from the root, or the error of the first step that fails. */
  function Resolve(inodes: seq<Inode>, disk: seq<Block>, ns: seq<Name>): int {
    if ns == [] then 1
    else
      var d := Resolve(inodes, disk, ns[..|ns| - 1]);
      if d <= 0 then d else if d >= |inodes| then -ENOENT else LookupOf(inodes, disk, d, ns[|ns| - 1])
  }

  // ---- entries of one directory ----------------------------------------------------------------------

  ghost predicate Distinct(es: Dirents) {
    forall x, y :: 0 <= x < y < N_DIRENTS && es[x].valid && es[y].valid ==> CStr(es[x].name) != CStr(es[y].name)
  }

  lemma LookupHit(es: Dirents, name: Name, x: nat)
    requires Distinct(es) && x < N_DIRENTS && Matches(es[x], name)
    ensures LookupIn(es, name) == es[x].inode && FindFrom(es, name, 0) == x
  {
  }

  lemma LookupMiss(es: Dirents, name: Name)
    requires forall x :: 0 <= x < N_DIRENTS ==> !Matches(es[x], name)
    ensures LookupIn(es, name) == -ENOENT
  {
  }

  /** Changing entry x affects only the names that it carries before or after. */
  lemma LookupOther(es: Dirents, es': Dirents, x: nat, name: Name)
    requires x < N_DIRENTS && es' == es[x := es'[x]] && !Matches(es[x], name) && !Matches(es'[x], name)
    ensures LookupIn(es', name) == LookupIn(es, name)
  {
    FindSame(es, es', x, name, 0);
  }

  lemma {:induction false} FindSame(es: Dirents, es': Dirents, x: nat, name: Name, from: nat)
    requires x < N_DIRENTS && es' == es[x := es'[x]] && !Matches(es[x], name) && !Matches(es'[x], name)
    requires from <= N_DIRENTS
    ensures FindFrom(es', name, from) == FindFrom(es, name, from)
    decreases N_DIRENTS - from
  {
    hide Matches;
    if from < N_DIRENTS {
      if from != x { assert es'[from] == es[from]; }
      FindSame(es, es', x, name, from + 1);
    }
  }

  // ---- the tree ----------------------------------------------------------------------------------------

  /** The directory tree of a state. */
  datatype NameTree = NameTree(inodes: seq<Inode>, nodes: set<nat>, disk: seq<Block>, place: map<nat, Place>,
    depth: map<nat, nat>)

  ghost predicate TreeOk(n: NameTree) {
    NamesOk(n.inodes, n.nodes, n.disk, n.place, n.depth)
  }

  ghost function Find(n: NameTree, ns: seq<Name>): int { Resolve(n.inodes, n.disk, ns) }

  function Step(n: NameTree, d: nat, name: Name): int
    requires d < |n.inodes|
  {
    LookupOf(n.inodes, n.disk, d, name)
  }

  function Dir(n: NameTree, d: nat): Dirents
    requires d < |n.inodes|
  {
    DirOf(n.inodes[d], n.disk)
  }

  /** A successful lookup finds the entry whose place it is. */
  lemma StepPlace(n: NameTree, d: nat, name: Name)
    requires TreeOk(n) && d in n.nodes && d < |n.inodes|
    ensures Step(n, d, name) > 0 ==>
      var i := Step(n, d, name);
      && IsDir(n.inodes[d]) && i in n.place && i in n.nodes && i < |n.inodes| && n.place[i].dir == d
      && n.place[i].slot < N_DIRENTS
      && Matches(Dir(n, d)[n.place[i].slot], name)
    ensures Step(n, d, name) <= 0 ==> Step(n, d, name) == -ENOENT || Step(n, d, name) == -ENOTDIR
  {
    hide Entries;
    if IsDir(n.inodes[d]) {
      var x := FindFrom(Dir(n, d), name, 0);
      assert DirOk(d, Dir(n, d), n.place);
      if x < N_DIRENTS {
        assert Dir(n, d)[x].valid;
      }
    }
  }

  /** Paths lead to inodes in use. */
  lemma {:induction false} FindLive(n: NameTree, ns: seq<Name>)
    requires TreeOk(n)
    ensures Find(n, ns) > 0 ==> Find(n, ns) in n.nodes && Find(n, ns) < |n.inodes|
    ensures Find(n, ns) <= 0 ==> Find(n, ns) == -ENOENT || Find(n, ns) == -ENOTDIR
  {
    hide NamesOk, LookupOf;
    NodesIndexed(n);
    if ns != [] {
      FindLive(n, ns[..|ns| - 1]);
      var d := Find(n, ns[..|ns| - 1]);
      if d > 0 { StepPlace(n, d, ns[|ns| - 1]); }
    }
  }

  lemma NodesIndexed(n: NameTree)
    requires TreeOk(n)
    ensures 1 in n.nodes && forall i :: i in n.nodes ==> 0 < i < |n.inodes|
    ensures n.place.Keys == n.nodes - {1}
  {
  }

  /** The last step of a path. */
  lemma FindStep(n: NameTree, ns: seq<Name>)
    requires TreeOk(n) && ns != []
    ensures var d := Find(n, ns[..|ns| - 1]);
      Find(n, ns) == if d <= 0 then d else if d < |n.inodes| then Step(n, d, ns[|ns| - 1]) else -ENOENT
    ensures Find(n, ns[..|ns| - 1]) > 0 ==> Find(n, ns[..|ns| - 1]) in n.nodes && Find(n, ns[..|ns| - 1]) < |n.inodes|
  {
    FindLive(n, ns[..|ns| - 1]);
  }

  /** Directory d has a valid entry with the name, and it is that of inode i. */
  ghost predicate Leads(n: NameTree, d: nat, name: Name, i: nat) {
    && d < |n.inodes| && IsDir(n.inodes[d])
    && exists x ::
         0 <= x < N_DIRENTS && Dir(n, d)[x].valid && CStr(Dir(n, d)[x].name) == name && Dir(n, d)[x].inode == i
  }

  /** The inodes js, from the root on, are linked by the names ns. */
  ghost predicate Walk(n: NameTree, ns: seq<Name>, js: seq<nat>) {
    |js| == |ns| + 1 && js[0] == 1 && forall k :: 0 <= k < |ns| ==> Leads(n, js[k], ns[k], js[k + 1])
  }

  lemma StepLeads(n: NameTree, d: nat, name: Name, i: nat)
    requires TreeOk(n) && d in n.nodes && d < |n.inodes|
    ensures Leads(n, d, name, i) ==> i > 0 && Step(n, d, name) == i
    ensures Step(n, d, name) > 0 && Step(n, d, name) == i ==> Leads(n, d, name, i)
  {
    hide Entries, CStr, IsDirMode;
    StepPlace(n, d, name);
    if Leads(n, d, name, i) {
      assert DirOk(d, Dir(n, d), n.place);
      var x :| 0 <= x < N_DIRENTS && Dir(n, d)[x].valid && CStr(Dir(n, d)[x].name) == name && Dir(n, d)[x].inode == i;
      LookupHit(Dir(n, d), name, x);
    }
  }

  lemma {:induction false} WalkFind(n: NameTree, ns: seq<Name>, js: seq<nat>)
    requires TreeOk(n) && Walk(n, ns, js)
    ensures Find(n, ns) == js[|ns|] > 0
    decreases |ns|
  {
    hide NamesOk, LookupOf, Leads;
    if ns != [] {
      var m := |ns| - 1;
      WalkFind(n, ns[..m], js[..|ns|]);
      FindStep(n, ns);
      StepLeads(n, js[m], ns[m], js[|ns|]);
    }
  }

  /** A path leads to inode i exactly if its names link the root to i. */
  lemma {:induction false} FindIsWalk(n: NameTree, ns: seq<Name>, i: nat)
    requires TreeOk(n) && i > 0
    ensures Find(n, ns) == i <==> exists js: seq<nat> :: Walk(n, ns, js) && js[|ns|] == i
    decreases |ns|
  {
    hide NamesOk, LookupOf, Leads;
    if js: seq<nat> :| Walk(n, ns, js) && js[|ns|] == i { WalkFind(n, ns, js); }
    if Find(n, ns) == i {
      if ns == [] {
        assert Walk(n, ns, [1]);
      } else {
        var m := |ns| - 1;
        FindStep(n, ns);
        var d := Find(n, ns[..m]);
        FindIsWalk(n, ns[..m], d);
        StepLeads(n, d, ns[m], i);
        var hs: seq<nat> :| Walk(n, ns[..m], hs) && hs[m] == d;
        assert Walk(n, ns, hs + [i]);
      }
    }
  }

  lemma StepCode(n: NameTree, d: nat, name: Name)
    requires d < |n.inodes|
    ensures Step(n, d, name) == -ENOTDIR <==> !IsDir(n.inodes[d])
  {
    hide IsDir, DirOf;
  }

  /** It fails where a name is asked of something that is not a directory, or of a directory that does not have it. */
  lemma {:induction false} FindFails(n: NameTree, ns: seq<Name>)
    requires TreeOk(n)
    ensures Find(n, ns) == -ENOTDIR <==>
      exists k :: 0 <= k < |ns| && 0 < Find(n, ns[..k]) < |n.inodes| && !IsDir(n.inodes[Find(n, ns[..k])])
  {
    hide NamesOk, LookupOf, IsDir;
    if ns != [] {
      var m := |ns| - 1;
      FindFails(n, ns[..m]);
      FindStep(n, ns);
      var d := Find(n, ns[..m]);
      if d > 0 { StepCode(n, d, ns[m]); } else { FindLive(n, ns[..m]); }
      assert forall k :: 0 <= k <= m ==> ns[..m][..k] == ns[..k];
      assert ns[..m][..m] == ns[..m];
    }
  }

  /** Every inode is reached by one path only. */
  lemma {:induction false} PathUnique(n: NameTree, p: seq<Name>, q: seq<Name>)
    requires TreeOk(n) && Find(n, p) > 0 && Find(n, p) == Find(n, q)
    ensures p == q
    decreases |p|
  {
    hide NamesOk, LookupOf, IsDir, DirOf;
    NodesIndexed(n);
    if p != [] && q != [] {
      FindStep(n, p);
      FindStep(n, q);
      var p0, q0 := p[..|p| - 1], q[..|q| - 1];
      StepPlace(n, Find(n, p0), p[|p| - 1]);
      StepPlace(n, Find(n, q0), q[|q| - 1]);
      PathUnique(n, p0, q0);
      assert p == p0 + [p[|p| - 1]] && q == q0 + [q[|q| - 1]];
    } else if p != [] {
      FindStep(n, p);
      StepPlace(n, Find(n, p[..|p| - 1]), p[|p| - 1]);
    } else if q != [] {
      FindStep(n, q);
      StepPlace(n, Find(n, q[..|q| - 1]), q[|q| - 1]);
    }
  }

  /** Every inode in use is reached from the root: the path to it, by its place. */
  ghost function PathTo(n: NameTree, i: nat): seq<Name>
    requires TreeOk(n) && i in n.nodes
    decreases if i in n.depth then n.depth[i] else 0
  {
    if i == 1 then []
    else
      assert Sits(i, n.place[i], n.inodes, n.nodes, n.disk, n.depth);
      PathTo(n, n.place[i].dir) + [CStr(Dir(n, n.place[i].dir)[n.place[i].slot].name)]
  }

  lemma {:induction false} PathToReaches(n: NameTree, i: nat)
    requires TreeOk(n) && i in n.nodes
    ensures Find(n, PathTo(n, i)) == i
    decreases if i in n.depth then n.depth[i] else 0
  {
    hide DirOf;
    if i != 1 {
      var pl := n.place[i];
      assert Sits(i, pl, n.inodes, n.nodes, n.disk, n.depth);
      PathToReaches(n, pl.dir);
      var p := PathTo(n, pl.dir);
      var name := CStr(Dir(n, pl.dir)[pl.slot].name);
      assert (p + [name])[..|p|] == p;
      assert DirOk(pl.dir, Dir(n, pl.dir), n.place);
      LookupHit(Dir(n, pl.dir), name, pl.slot);
    }
  }

  /** The depth of an inode is the length of the path to it. */
  lemma {:induction false} PathToDepth(n: NameTree, i: nat)
    requires TreeOk(n) && i in n.nodes
    ensures i in n.depth && |PathTo(n, i)| == n.depth[i]
    decreases if i in n.depth then n.depth[i] else 0
  {
    hide DirOf;
    if i != 1 {
      assert Sits(i, n.place[i], n.inodes, n.nodes, n.disk, n.depth);
      PathToDepth(n, n.place[i].dir);
    }
  }
}
