/** What every run of the directory operations guarantees. */
module FsTheorems {
  import opened Directory
  import opened Images
  import opened DirOps
  import opened Namespace
  import opened FsRuns

  ghost predicate Runs(s: State, steps: seq<Step>, s': State)
    decreases |steps|
  {
    if steps == [] then s' == s
    else Enabled(s, steps[0]) && Runs(Apply(s, steps[0]), steps[1..], s')
  }

  ghost predicate Reachable(s: State)
  {
    exists s0, steps :: Init(s0) && Runs(s0, steps, s)
  }

  lemma {:induction false} RunKeepsInv(s: State, steps: seq<Step>, s': State)
    requires Inv(s) && Runs(s, steps, s')
    ensures Inv(s')
    decreases |steps|
  {
    if steps != [] {
      StepKeepsInv(s, steps[0]);
      RunKeepsInv(Apply(s, steps[0]), steps[1..], s');
    }
  }

  lemma ReachableInv(s: State)
    requires Reachable(s)
    ensures Inv(s)
  {
    var s0, steps :| Init(s0) && Runs(s0, steps, s);
    InitHoldsInv(s0);
    RunKeepsInv(s0, steps, s);
  }

  /** Slot k of directory d is a non-dot entry for inode c. */
  ghost predicate NamedAt(s: State, d: Ino, k: nat, c: Ino)
    requires Wf(s.img)
  {
    LiveDir(s, d) && k < |Entries(s.img, d)| && !Dot(Entries(s.img, d)[k].name) && Entries(s.img, d)[k].ino == c
  }

  lemma NamedAtPlace(s: State, d: Ino, k: nat, c: Ino)
    requires Inv(s) && NamedAt(s, d, k, c)
    ensures c in s.nodes && c != ROOT && s.nodes[c].parent == d && s.nodes[c].name == Entries(s.img, d)[k].name
  {
    AbsAt(s, d);
    assert DirLayout(s, d);
    DistinctLookup(Entries(s.img, d), k);
    assert DirSound(Abs(s), d);
  }

  lemma PlaceIsNamed(s: State, c: Ino) returns (k: nat)
    requires Inv(s) && c in s.nodes && c != ROOT
    ensures LiveDir(s, s.nodes[c].parent) && !Dot(s.nodes[c].name)
    ensures Find(s.img, s.nodes[c].parent, s.nodes[c].name) == Found(c) && NamedAt(s, s.nodes[c].parent, k, c)
  {
    var d, n := s.nodes[c].parent, s.nodes[c].name;
    assert NodeSound(Abs(s), c);
    AbsAt(s, d);
    assert DirLayout(s, d);
    FoundInMap(s, d, n);
    var es := Entries(s.img, d);
    ListedIffFound(es, n);
    k :| 0 <= k < |es| && es[k].name == n;
    DistinctLookup(es, k);
  }

  lemma OneSlot(s: State, d: Ino, k: nat, d': Ino, k': nat, c: Ino)
    requires Inv(s) && NamedAt(s, d, k, c) && NamedAt(s, d', k', c)
    ensures d == d' && k == k'
  {
    NamedAtPlace(s, d, k, c);
    NamedAtPlace(s, d', k', c);
    assert DirLayout(s, d);
  }

  /** The inodes in use other than the root are exactly those that a non-dot entry names, and one slot names each. */
  lemma NamedExactlyOnce(s: State, c: Ino)
    requires Reachable(s)
    ensures Wf(s.img)
    ensures c in s.img.used && c != ROOT <==> exists d: Ino, k: nat :: NamedAt(s, d, k, c)
    ensures forall d: Ino, k: nat, d': Ino, k': nat | NamedAt(s, d, k, c) && NamedAt(s, d', k', c) :: d == d' && k == k'
    ensures c in s.img.used && c != ROOT ==>
              && c in s.nodes && LiveDir(s, s.nodes[c].parent) && !Dot(s.nodes[c].name)
              && Find(s.img, s.nodes[c].parent, s.nodes[c].name) == Found(c)
  {
    ReachableInv(s);
    if c in s.img.used && c != ROOT {
      var k := PlaceIsNamed(s, c);
    }
    forall d: Ino, k: nat | NamedAt(s, d, k, c)
      ensures c in s.img.used && c != ROOT
    {
      NamedAtPlace(s, d, k, c);
    }
    forall d: Ino, k: nat, d': Ino, k': nat | NamedAt(s, d, k, c) && NamedAt(s, d', k', c)
      ensures d == d' && k == k'
    {
      OneSlot(s, d, k, d', k', c);
    }
  }

  /** "." names the directory itself and ".." the directory that names it. */
  lemma DotsNameSelfAndParent(s: State, d: Ino)
    requires Reachable(s) && LiveDir(s, d)
    ensures Wf(s.img) && Find(s.img, d, ".") == Found(d)
    ensures Find(s.img, d, "..").Found?
    ensures var p := Find(s.img, d, "..").ino; if d == ROOT then p == ROOT else exists k: nat :: NamedAt(s, p, k, d)
  {
    ReachableInv(s);
    AbsAt(s, d);
    FoundInMap(s, d, ".");
    FoundInMap(s, d, "..");
    assert DirSound(Abs(s), d) && NodeSound(Abs(s), d);
    if d != ROOT {
      var k := PlaceIsNamed(s, d);
    }
  }

  /** Every entry leads to an inode in use, so lookups on the way never read a free one. */
  lemma StaysClosed(s: State)
    requires Reachable(s)
    ensures Wf(s.img) && Closed(s.img)
  {
    ReachableInv(s);
    forall d: Ino, k: nat | IsDir(s.img, d) && k < |Entries(s.img, d)|
      ensures Entries(s.img, d)[k].ino in s.img.used
    {
      EntryUsed(s, d, k);
    }
  }

  lemma EntryUsed(s: State, d: Ino, k: nat)
    requires Inv(s) && LiveDir(s, d) && k < |Entries(s.img, d)|
    ensures Entries(s.img, d)[k].ino in s.nodes
  {
    AbsAt(s, d);
    assert DirLayout(s, d) && DirSound(Abs(s), d) && NodeSound(Abs(s), d);
    DistinctLookup(Entries(s.img, d), k);
  }

  /** One component: the lookup in the image against the map of the tree. */
  lemma FindStep(s: State, d: Ino, name: string)
    requires Inv(s) && LiveDir(s, d)
    ensures d in Abs(s).dirs && d in Abs(s).nodes
    ensures Find(s.img, d, name) == if name in Abs(s).dirs[d] then Found(Abs(s).dirs[d][name]) else NoEntry
    ensures name in Abs(s).dirs[d] ==>
              var c := Abs(s).dirs[d][name]; c in s.nodes && (c in Abs(s).dirs <==> LiveDir(s, c))
  {
    AbsAt(s, d);
    LookupIsMap(Entries(s.img, d), name);
    assert DirSound(Abs(s), d) && NodeSound(Abs(s), d);
    if name in Abs(s).dirs[d] {
      AbsAt(s, Abs(s).dirs[d][name]);
    }
  }

  /** path_inode on the image walks the tree, and sees live inodes only. */
  lemma {:induction false} ResolveIsWalk(s: State, d: Ino, path: seq<string>)
    requires Inv(s) && d in s.nodes && (path != [] ==> LiveDir(s, d))
    ensures path != [] ==> d in Abs(s).dirs
    ensures Resolve(s.img, d, path) == Walk(Abs(s), d, path)
    ensures Resolve(s.img, d, path).Found? ==> Resolve(s.img, d, path).ino in s.nodes
    decreases |path|
  {
    if path != [] {
      FindStep(s, d, path[0]);
      var r := Find(s.img, d, path[0]);
      if r.Found? && (|path| > 1 ==> LiveDir(s, r.ino)) {
        ResolveIsWalk(s, r.ino, path[1..]);
      }
    }
  }

  /** Every live inode is reached from the root by one path without dot components, and by no other. */
  lemma NamespaceStaysTree(s: State, c: Ino)
    requires Reachable(s) && c in s.img.used
    ensures Wf(s.img) && IsDir(s.img, ROOT)
    ensures exists path: seq<string> ::
              && NoDots(path) && Resolve(s.img, ROOT, path) == Found(c)
              && forall q: seq<string> | NoDots(q) && Resolve(s.img, ROOT, q) == Found(c) :: q == path
  {
    ReachableInv(s);
    var t := Abs(s);
    AbsAt(s, ROOT);
    var path := PathTo(t, c);
    PathReaches(t, c);
    PathNoDots(t, c);
    ResolveIsWalk(s, ROOT, path);
    forall q: seq<string> | NoDots(q) && Resolve(s.img, ROOT, q) == Found(c)
      ensures q == path
    {
      ResolveIsWalk(s, ROOT, q);
      PathUnique(t, q);
    }
  }

  /** Size and links agree in every live directory, and rmdir refuses exactly the directories with a non-dot entry. */
  lemma RmdirRefusesExactly(s: State, p: Ino, name: string)
    requires Reachable(s) && Enabled(s, Rmdir(p, name))
    ensures var c := Child(s, p, name);
            && LiveDir(s, c) && s.img.inodes[c].size == DENTRY_SIZE * s.img.inodes[c].links
            && (s.img.inodes[c].links != 2 <==> exists n :: !Dot(n) && Find(s.img, c, n).Found?)
            && (Apply(s, Rmdir(p, name)) == s <==> exists n :: !Dot(n) && Find(s.img, c, n).Found?)
  {
    ReachableInv(s);
    RemovalFacts(s, p, name);
    var c := Child(s, p, name);
    assert DirLayout(s, c);
    LinksCountEntries(s, c);
    var m := DirMap(Entries(s.img, c));
    forall n
      ensures n in m <==> Find(s.img, c, n).Found?
    {
      FoundInMap(s, c, n);
    }
    if !OnlyDots(m) {
      var n :| n in m && !Dot(n);
      assert Find(s.img, c, n).Found?;
    }
    if s.img.inodes[c].links == 2 {
      assert c in s.nodes && c !in Apply(s, Rmdir(p, name)).nodes;
    }
  }

  /** What a step does to a tree: refused only for a directory that is not empty. */
  ghost predicate Edits(t: Tree, step: Step, t': Tree)
  {
    match step
    case Create(p, name, ino) => p in t.dirs && p in t.nodes && t' == AddName(t, p, name, ino)
    case Mkdir(p, name, ino, _) => p in t.dirs && p in t.nodes && t' == AddDir(t, p, name, ino)
    case Unlink(name) => ROOT in t.dirs && name in t.dirs[ROOT] && t' == RemoveName(t, ROOT, name)
    case Rmdir(p, name) =>
      && p in t.dirs && name in t.dirs[p] && t.dirs[p][name] in t.dirs
      && t' == if OnlyDots(t.dirs[t.dirs[p][name]]) then RemoveName(t, p, name) else t
  }

  /** The image operations, with their slots, swaps and link counts, refine the operations on finite maps. */
  lemma StepRefinesTree(s: State, step: Step)
    requires Reachable(s) && Enabled(s, step)
    ensures Inv(s) && Inv(Apply(s, step)) && Edits(Abs(s), step, Abs(Apply(s, step)))
  {
    ReachableInv(s);
    match step
    case Create(p, name, ino) => CreateKeepsInv(s, p, name, ino);
    case Mkdir(p, name, ino, blk) => MkdirKeepsInv(s, p, name, ino, blk);
    case Rmdir(p, name) => RmdirKeepsInv(s, p, name);
    case Unlink(name) => UnlinkKeepsInv(s, name);
  }

  /** Lookup in the image is lookup in those maps, whatever stale slots lie past the end. */
  lemma LookupReadsTree(s: State, d: Ino, name: string)
    requires Reachable(s) && LiveDir(s, d)
    ensures Layout(s) && d in Abs(s).dirs
    ensures Find(s.img, d, name) == if name in Abs(s).dirs[d] then Found(Abs(s).dirs[d][name]) else NoEntry
  {
    ReachableInv(s);
    FindStep(s, d, name);
  }
}
