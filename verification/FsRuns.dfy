/** Runs of mkdir, create, rmdir and root-level unlink on an a1fs image. */
module FsRuns {
  import opened Directory
  import opened Images
  import opened DirOps
  import opened Namespace

  /** The image, the data blocks in use, and as history the places of the inodes in use. */
  datatype State = State(img: Image, nodes: map<Ino, Place>, busy: set<nat>)

  ghost predicate LiveDir(s: State, d: Ino) { IsDir(s.img, d) }

  /** A live directory: one block of its own, distinct names, and as many links as entries. */
  ghost predicate DirLayout(s: State, d: Ino)
    requires Wf(s.img) && LiveDir(s, d)
  {
    && OneBlock(s.img, d)
    && s.img.inodes[d].size == DENTRY_SIZE * s.img.inodes[d].links && s.img.inodes[d].links >= 2
    && DistinctNames(Entries(s.img, d))
    && Block(s.img, d) in s.busy
  }

  ghost predicate Layout(s: State)
  {
    && Wf(s.img)
    && s.nodes.Keys == s.img.used
    && (forall d: Ino | LiveDir(s, d) :: DirLayout(s, d))
    && (forall d: Ino, e: Ino | LiveDir(s, d) && LiveDir(s, e) && d != e :: Block(s.img, d) != Block(s.img, e))
  }

  /** The namespace an image holds. */
  ghost function Abs(s: State): Tree
    requires Layout(s)
  {
    Tree(map d: Ino | d in s.img.used && IsDir(s.img, d) :: DirMap(Entries(s.img, d)), s.nodes)
  }

  ghost predicate Inv(s: State) { Layout(s) && IsTree(Abs(s)) }

  datatype Step =
    | Create(p: Ino, name: string, ino: Ino)
    | Mkdir(p: Ino, name: string, ino: Ino, blk: nat)
    | Rmdir(p: Ino, name: string)
    | Unlink(name: string)

  /** What the kernel and the allocator guarantee a call that adds a name, to a directory that is not full. */
  ghost predicate CanAdd(s: State, p: Ino, name: string, ino: Ino)
  {
    && LiveDir(s, p) && HasRoom(s.img, p)
    && !Dot(name) && !Find(s.img, p, name).Found?
    && ino !in s.img.used && ino < |s.img.inodes| && CanAppend(s.img, p)
  }

  /** What the kernel guarantees a call that removes a name, from a directory that is not full. */
  ghost predicate CanRemove(s: State, p: Ino, name: string)
  {
    && LiveDir(s, p) && HasRoom(s.img, p) && s.img.inodes[p].links > 0
    && !Dot(name) && Find(s.img, p, name).Found?
  }

  ghost function Child(s: State, p: Ino, name: string): Ino
    requires CanRemove(s, p, name)
  {
    Find(s.img, p, name).ino
  }

  ghost predicate Enabled(s: State, step: Step)
  {
    match step
    case Create(p, name, ino) => CanAdd(s, p, name, ino)
    case Mkdir(p, name, ino, blk) => CanAdd(s, p, name, ino) && blk !in s.busy && blk < |s.img.blocks|
    case Rmdir(p, name) => CanRemove(s, p, name) && IsDir(s.img, Child(s, p, name))
    case Unlink(name) => CanRemove(s, ROOT, name) && !IsDir(s.img, Child(s, ROOT, name))
  }

  ghost function Apply(s: State, step: Step): State
    requires Enabled(s, step)
  {
    match step
    case Create(p, name, ino) =>
      State(CreateImage(s.img, p, name, ino), AddPlace(s.nodes, p, name, ino), s.busy)
    case Mkdir(p, name, ino, blk) =>
      State(MkdirImage(s.img, p, name, ino, blk), AddPlace(s.nodes, p, name, ino), s.busy + {blk})
    case Rmdir(p, name) =>
      var c := Child(s, p, name);
      if s.img.inodes[c].links != 2 then s
      else State(Unmark(DropLink(RemoveEntry(s.img, p, name), p), c), s.nodes - {c}, s.busy - {Block(s.img, c)})
    case Unlink(name) =>
      var c := Child(s, ROOT, name);
      State(Unmark(DropLink(RemoveEntry(s.img, ROOT, name), ROOT), c), s.nodes - {c}, s.busy)
  }

  /** mkfs: an image whose only inode in use is the root, with its two dot entries in block 0. */
  ghost predicate Init(s: State)
  {
    && Wf(s.img) && s.nodes == map[ROOT := Place(ROOT, "/", 0)] && s.busy == {0}
    && s.img.used == {ROOT} && |s.img.blocks| > 0
    && s.img.inodes[0] == Inode(true, 2, 2 * DENTRY_SIZE, 0, 1)
    && s.img.extents[0][0] == Extent(0, 1)
    && s.img.blocks[0][0] == Dentry(0, ".") && s.img.blocks[0][1] == Dentry(0, "..")
  }

  // ----- Each operation acts on the tree

  lemma DotsMap(c: Ino, p: Ino)
    ensures DirMap([Dentry(c, "."), Dentry(p, "..")]) == Dots(c, p)
  {
    var es := [Dentry(c, "."), Dentry(p, "..")];
    assert es[..1] == [Dentry(c, ".")] && es[..1][..0] == [];
    assert DirMap(es[..1]) == map["." := c];
  }

  lemma InitHoldsInv(s: State)
    requires Init(s)
    ensures Inv(s)
  {
    OneBlockEntries(s.img, 0);
    var es := Entries(s.img, 0);
    assert es == [Dentry(0, "."), Dentry(0, "..")];
    assert es[0].name != es[1].name;
    assert DirLayout(s, 0);
    DotsMap(0, 0);
    assert Layout(s);
    assert Abs(s) == Formatted();
    FormattedIsTree();
  }

  /** Directories whose inode, extent and block an operation does not write keep their layout and entries. */
  lemma UntouchedDir(s: State, s': State, d: Ino)
    requires Layout(s) && LiveDir(s, d) && LiveDir(s', d) && Wf(s'.img) && Block(s.img, d) in s'.busy
    requires s'.img.inodes[d] == s.img.inodes[d] && s'.img.extents[d] == s.img.extents[d]
    requires Block(s.img, d) < |s.img.blocks| == |s'.img.blocks|
    requires s'.img.blocks[Block(s.img, d)] == s.img.blocks[Block(s.img, d)]
    ensures DirLayout(s', d) && Entries(s'.img, d) == Entries(s.img, d)
  {
    assert DirLayout(s, d);
    SameEntries(s.img, s'.img, d);
  }

  lemma FoundInMap(s: State, p: Ino, name: string)
    requires Layout(s) && LiveDir(s, p)
    ensures Find(s.img, p, name).Found? <==> name in DirMap(Entries(s.img, p))
    ensures Find(s.img, p, name).Found? ==> Find(s.img, p, name).ino == DirMap(Entries(s.img, p))[name]
  {
    LookupIsMap(Entries(s.img, p), name);
  }

  /** The operation rewrote directory p, gave new inode `c` its own fate, and left the other directories alone. */
  ghost predicate OnlyTouches(s: State, s': State, p: Ino, c: Ino)
    requires Wf(s.img) && Wf(s'.img)
  {
    forall d: Ino | LiveDir(s', d) && d != p && d != c :: LiveDir(s, d) && Entries(s'.img, d) == Entries(s.img, d)
  }

  lemma AppendLayout(s: State, s': State, p: Ino, name: string, ino: Ino)
    requires Layout(s) && LiveDir(s, p) && LiveDir(s', p) && Wf(s'.img) && OneBlock(s'.img, p)
    requires !Find(s.img, p, name).Found?
    requires Entries(s'.img, p) == Entries(s.img, p) + [Dentry(ino, name)]
    requires var n := s.img.inodes[p]; s'.img.inodes[p] == n.(size := n.size + DENTRY_SIZE, links := n.links + 1)
    requires Block(s'.img, p) == Block(s.img, p) && s.busy <= s'.busy
    ensures DirLayout(s', p)
    ensures DirMap(Entries(s'.img, p)) == DirMap(Entries(s.img, p))[name := ino]
  {
    assert DirLayout(s, p);
    FoundInMap(s, p, name);
    AppendIsInsert(Entries(s.img, p), Dentry(ino, name));
  }

  /** Directory d is as it was. */
  ghost predicate Left(s: State, s': State, d: Ino)
    requires Wf(s.img) && Wf(s'.img)
  {
    LiveDir(s, d) && LiveDir(s', d) && DirLayout(s', d) && Entries(s'.img, d) == Entries(s.img, d) &&
    |s.img.extents[d]| > 0 && Block(s'.img, d) == Block(s.img, d)
  }

  lemma CreateLeaves(s: State, s': State, p: Ino, name: string, ino: Ino, d: Ino)
    requires Layout(s) && Enabled(s, Create(p, name, ino)) && s' == Apply(s, Create(p, name, ino)) && Wf(s'.img)
    requires LiveDir(s', d) && d != p
    ensures Left(s, s', d)
  {
    CreateKeepsWf(s.img, p, name, ino);
    assert DirLayout(s, d) && DirLayout(s, p);
    OneBlockEntries(s.img, d);
    UntouchedDir(s, s', d);
  }

  /** A name was added to directory p for inode c, which has no block or one that was not in use. */
  lemma LayoutAfterAdd(s: State, s': State, p: Ino, c: Ino)
    requires Layout(s) && LiveDir(s, p) && c !in s.img.used
    requires Wf(s'.img) && s'.nodes.Keys == s'.img.used == s.img.used + {c}
    requires LiveDir(s', p) && DirLayout(s', p) && Block(s'.img, p) == Block(s.img, p)
    requires forall d: Ino | LiveDir(s', d) && d != p && d != c :: Left(s, s', d)
    requires forall d: Ino | LiveDir(s, d) :: LiveDir(s', d)
    requires LiveDir(s', c) ==> DirLayout(s', c) && Block(s'.img, c) !in s.busy
    ensures Layout(s') && OnlyTouches(s, s', p, c)
  {
    assert forall d: Ino | LiveDir(s, d) :: DirLayout(s, d);
  }

  lemma CreateParent(s: State, s': State, p: Ino, name: string, ino: Ino)
    requires Layout(s) && Enabled(s, Create(p, name, ino)) && s' == Apply(s, Create(p, name, ino))
    ensures Wf(s'.img) && LiveDir(s', p) && DirLayout(s', p) && Block(s'.img, p) == Block(s.img, p)
    ensures DirMap(Entries(s'.img, p)) == DirMap(Entries(s.img, p))[name := ino]
  {
    CreateAppends(s.img, p, name, ino);
    AppendLayout(s, s', p, name, ino);
  }

  lemma CreateLayout(s: State, p: Ino, name: string, ino: Ino)
    requires Layout(s) && Enabled(s, Create(p, name, ino))
    ensures var s' := Apply(s, Create(p, name, ino));
            && Layout(s') && LiveDir(s', p) && !LiveDir(s', ino) && OnlyTouches(s, s', p, ino)
            && DirMap(Entries(s'.img, p)) == DirMap(Entries(s.img, p))[name := ino]
            && forall d: Ino | LiveDir(s, d) :: LiveDir(s', d)
  {
    var s' := Apply(s, Create(p, name, ino));
    CreateParent(s, s', p, name, ino);
    forall d: Ino | LiveDir(s', d) && d != p && d != ino
      ensures Left(s, s', d)
    {
      CreateLeaves(s, s', p, name, ino, d);
    }
    LayoutAfterAdd(s, s', p, ino);
  }

  lemma NewDirLayout(s: State, p: Ino, d: Ino)
    requires Wf(s.img) && LiveDir(s, d) && OneBlock(s.img, d) && Block(s.img, d) in s.busy
    requires Entries(s.img, d) == [Dentry(d, "."), Dentry(p, "..")]
    requires s.img.inodes[d].links == 2 && s.img.inodes[d].size == 2 * DENTRY_SIZE
    ensures DirLayout(s, d)
  {
  }

  lemma MkdirParent(s: State, s': State, p: Ino, name: string, ino: Ino, blk: nat)
    requires Layout(s) && Enabled(s, Mkdir(p, name, ino, blk)) && s' == Apply(s, Mkdir(p, name, ino, blk))
    ensures Wf(s'.img) && LiveDir(s', p) && DirLayout(s', p) && Block(s'.img, p) == Block(s.img, p)
    ensures DirMap(Entries(s'.img, p)) == DirMap(Entries(s.img, p))[name := ino]
    ensures LiveDir(s', ino) && DirLayout(s', ino) && Block(s'.img, ino) == blk
    ensures DirMap(Entries(s'.img, ino)) == Dots(ino, p)
  {
    assert DirLayout(s, p);
    MkdirAppends(s.img, p, name, ino, blk);
    AppendLayout(s, s', p, name, ino);
    DotsMap(ino, p);
    NewDirLayout(s', p, ino);
  }

  lemma MkdirLeaves(s: State, s': State, p: Ino, name: string, ino: Ino, blk: nat, d: Ino)
    requires Layout(s) && Enabled(s, Mkdir(p, name, ino, blk)) && s' == Apply(s, Mkdir(p, name, ino, blk)) && Wf(s'.img)
    requires LiveDir(s', d) && d != p && d != ino
    ensures Left(s, s', d)
  {
    assert LiveDir(s, d);
    assert DirLayout(s, d) && DirLayout(s, p);
    OneBlockEntries(s.img, p);
    OneBlockEntries(s.img, d);
    UntouchedDir(s, s', d);
  }

  lemma MkdirLayout(s: State, p: Ino, name: string, ino: Ino, blk: nat)
    requires Layout(s) && Enabled(s, Mkdir(p, name, ino, blk))
    ensures var s' := Apply(s, Mkdir(p, name, ino, blk));
            && Layout(s') && LiveDir(s', p) && LiveDir(s', ino) && OnlyTouches(s, s', p, ino)
            && DirMap(Entries(s'.img, p)) == DirMap(Entries(s.img, p))[name := ino]
            && DirMap(Entries(s'.img, ino)) == Dots(ino, p)
            && forall d: Ino | LiveDir(s, d) :: LiveDir(s', d)
  {
    var s' := Apply(s, Mkdir(p, name, ino, blk));
    MkdirParent(s, s', p, name, ino, blk);
    forall d: Ino | LiveDir(s', d) && d != p && d != ino
      ensures Left(s, s', d)
    {
      MkdirLeaves(s, s', p, name, ino, blk, d);
    }
    LayoutAfterAdd(s, s', p, ino);
  }

  /** Inode c is free, and else only the inode and the block of directory p differ. */
  ghost predicate EditsOnly(img: Image, img': Image, p: Ino, c: Ino)
    requires OneBlock(img, p)
  {
    && Wf(img') && img'.used == img.used - {c} && |img'.inodes| == |img.inodes| && |img'.blocks| == |img.blocks| && img'.extents == img.extents
    && (forall i :: 0 <= i < |img.inodes| && i != p ==> img'.inodes[i] == img.inodes[i])
    && (forall b :: 0 <= b < |img.blocks| && b != Block(img, p) ==> img'.blocks[b] == img.blocks[b])
  }

  lemma UnmarkKeeps(img: Image, p: Ino, c: Ino)
    requires OneBlock(img, p) && c != p
    ensures var img' := Unmark(img, c); OneBlock(img', p) && Entries(img', p) == Entries(img, p)
  {
  }

  lemma RemoveEdits(img: Image, p: Ino, name: string, x: nat, c: Ino)
    requires HasRoom(img, p) && c != p && 1 < img.inodes[p].size / DENTRY_SIZE && img.inodes[p].links > 0
    requires DistinctNames(Entries(img, p)) && x < |Entries(img, p)| && Entries(img, p)[x].name == name
    ensures var img', n := Unmark(DropLink(RemoveEntry(img, p, name), p), c), img.inodes[p];
            && EditsOnly(img, img', p, c) && OneBlock(img', p)
            && img'.inodes[p] == n.(size := n.size - DENTRY_SIZE, links := n.links - 1)
            && Entries(img', p) == SwapRemove(Entries(img, p), x)
  {
    RemoveSwaps(img, p, name, x);
    DropLinkKeeps(RemoveEntry(img, p, name), p);
    UnmarkKeeps(DropLink(RemoveEntry(img, p, name), p), p, c);
  }

  lemma RemoveLeaves(s: State, s': State, p: Ino, c: Ino, d: Ino)
    requires Layout(s) && LiveDir(s, p) && OneBlock(s.img, p) && EditsOnly(s.img, s'.img, p, c)
    requires forall b | b in s.busy && b !in s'.busy :: LiveDir(s, c) && b == Block(s.img, c)
    requires LiveDir(s', d) && d != p
    ensures Left(s, s', d)
  {
    assert LiveDir(s, d) && DirLayout(s, d) && d != c;
    OneBlockEntries(s.img, d);
    UntouchedDir(s, s', d);
  }

  /** Removing a non-dot name from directory p, and node c from the table. */
  lemma RemoveLayout(s: State, s': State, p: Ino, x: nat, c: Ino)
    requires Layout(s) && LiveDir(s, p) && DirLayout(s, p) && s.img.inodes[p].links >= 3 && x < |Entries(s.img, p)|
    requires EditsOnly(s.img, s'.img, p, c) && OneBlock(s'.img, p)
    requires var n := s.img.inodes[p]; s'.img.inodes[p] == n.(size := n.size - DENTRY_SIZE, links := n.links - 1)
    requires Entries(s'.img, p) == SwapRemove(Entries(s.img, p), x)
    requires s'.nodes == s.nodes - {c} && c != p
    requires forall b | b in s.busy && b !in s'.busy :: LiveDir(s, c) && b == Block(s.img, c)
    ensures Layout(s') && OnlyTouches(s, s', p, p)
  {
    RemoveIsDelete(Entries(s.img, p), x);
    assert DirLayout(s', p);
    forall d: Ino | LiveDir(s', d) && d != p
      ensures Left(s, s', d)
    {
      RemoveLeaves(s, s', p, c, d);
    }
  }

  /** What the abstraction says of one inode. */
  lemma AbsAt(s: State, d: Ino)
    requires Layout(s)
    ensures d in Abs(s).dirs <==> LiveDir(s, d)
    ensures LiveDir(s, d) ==> Abs(s).dirs[d] == DirMap(Entries(s.img, d))
  {
  }

  /** Directories that an operation did not touch have the same map before and after. */
  lemma AbsUntouched(s: State, s': State, p: Ino, c: Ino, d: Ino)
    requires Layout(s) && Layout(s') && OnlyTouches(s, s', p, c) && d != p && d != c
    requires LiveDir(s, d) ==> LiveDir(s', d)
    ensures Same(Abs(s), Abs(s'), d)
  {
    AbsAt(s, d);
    AbsAt(s', d);
  }

  lemma AddNameTree(s: State, s': State, p: Ino, name: string, c: Ino)
    requires Layout(s) && Layout(s') && LiveDir(s, p) && LiveDir(s', p) && c !in s.nodes && !LiveDir(s', c)
    requires OnlyTouches(s, s', p, c) && s'.nodes == AddPlace(s.nodes, p, name, c)
    requires DirMap(Entries(s'.img, p)) == DirMap(Entries(s.img, p))[name := c]
    requires forall d: Ino | LiveDir(s, d) :: LiveDir(s', d)
    ensures Abs(s') == AddName(Abs(s), p, name, c)
  {
    AbsAt(s, p);
    AbsAt(s', p);
    AbsAt(s, c);
    AbsAt(s', c);
    forall d: Ino | d != p
      ensures Same(Abs(s), Abs(s'), d)
    {
      if d != c {
        AbsUntouched(s, s', p, c, d);
      }
    }
    IsAddName(Abs(s), Abs(s'), p, name, c, DirMap(Entries(s.img, p)), DirMap(Entries(s'.img, p)));
  }

  lemma AddDirTree(s: State, s': State, p: Ino, name: string, c: Ino)
    requires Layout(s) && Layout(s') && LiveDir(s, p) && LiveDir(s', p) && c !in s.nodes && LiveDir(s', c)
    requires OnlyTouches(s, s', p, c) && s'.nodes == AddPlace(s.nodes, p, name, c)
    requires DirMap(Entries(s'.img, p)) == DirMap(Entries(s.img, p))[name := c]
    requires DirMap(Entries(s'.img, c)) == Dots(c, p)
    requires forall d: Ino | LiveDir(s, d) :: LiveDir(s', d)
    ensures Abs(s') == AddDir(Abs(s), p, name, c)
  {
    AbsAt(s, p);
    AbsAt(s', p);
    AbsAt(s', c);
    forall d: Ino | d != p && d != c
      ensures Same(Abs(s), Abs(s'), d)
    {
      AbsUntouched(s, s', p, c, d);
    }
    IsAddDir(Abs(s), Abs(s'), p, name, c, DirMap(Entries(s.img, p)), DirMap(Entries(s'.img, p)));
  }

  lemma RemoveNameTree(s: State, s': State, p: Ino, name: string, c: Ino)
    requires Layout(s) && Layout(s') && LiveDir(s, p) && LiveDir(s', p) && c != p
    requires name in DirMap(Entries(s.img, p)) && DirMap(Entries(s.img, p))[name] == c
    requires OnlyTouches(s, s', p, p) && s'.nodes == s.nodes - {c}
    requires DirMap(Entries(s'.img, p)) == DirMap(Entries(s.img, p)) - {name}
    requires forall d: Ino | LiveDir(s, d) && d != c :: LiveDir(s', d)
    ensures Abs(s') == RemoveName(Abs(s), p, name)
  {
    AbsAt(s, p);
    AbsAt(s', p);
    AbsAt(s', c);
    forall d: Ino | d != p && d != c
      ensures Same(Abs(s), Abs(s'), d)
    {
      AbsUntouched(s, s', p, p, d);
    }
    IsRemoveName(Abs(s), Abs(s'), p, name);
  }

  /** The link-count test of rmdir: a live directory has two links exactly when only its dot entries remain. */
  lemma LinksCountEntries(s: State, d: Ino)
    requires Inv(s) && LiveDir(s, d)
    ensures s.img.inodes[d].links == 2 <==> OnlyDots(DirMap(Entries(s.img, d)))
  {
    assert DirLayout(s, d);
    AbsAt(s, d);
    assert DirSound(Abs(s), d);
    DotsCount(Entries(s.img, d));
    OneBlockEntries(s.img, d);
  }

  lemma DotsCount(es: seq<Dentry>)
    requires DistinctNames(es) && "." in DirMap(es) && ".." in DirMap(es)
    ensures |es| == 2 <==> OnlyDots(DirMap(es))
  {
    ListedIffFound(es, ".");
    ListedIffFound(es, "..");
    var i :| 0 <= i < |es| && es[i].name == ".";
    var j :| 0 <= j < |es| && es[j].name == "..";
    forall n | n in DirMap(es) && |es| == 2
      ensures Dot(n)
    {
      ListedIffFound(es, n);
    }
    if |es| > 2 {
      var k := if i != 0 && j != 0 then 0 else if i != 1 && j != 1 then 1 else 2;
      DistinctLookup(es, k);
      assert es[k].name in DirMap(es) && !Dot(es[k].name);
    }
  }

  lemma CreateKeepsInv(s: State, p: Ino, name: string, ino: Ino)
    requires Inv(s) && Enabled(s, Create(p, name, ino))
    ensures Inv(Apply(s, Create(p, name, ino)))
    ensures p in Abs(s).dirs && Abs(Apply(s, Create(p, name, ino))) == AddName(Abs(s), p, name, ino)
  {
    CreateLayout(s, p, name, ino);
    AddNameTree(s, Apply(s, Create(p, name, ino)), p, name, ino);
    FoundInMap(s, p, name);
    AbsAt(s, p);
    AddFileKeepsTree(Abs(s), p, name, ino);
  }

  lemma MkdirKeepsInv(s: State, p: Ino, name: string, ino: Ino, blk: nat)
    requires Inv(s) && Enabled(s, Mkdir(p, name, ino, blk))
    ensures Inv(Apply(s, Mkdir(p, name, ino, blk)))
    ensures p in Abs(s).dirs && Abs(Apply(s, Mkdir(p, name, ino, blk))) == AddDir(Abs(s), p, name, ino)
  {
    MkdirLayout(s, p, name, ino, blk);
    AddDirTree(s, Apply(s, Mkdir(p, name, ino, blk)), p, name, ino);
    FoundInMap(s, p, name);
    AbsAt(s, p);
    AddDirKeepsTree(Abs(s), p, name, ino);
  }

  /** What the tree says of a name about to be removed. */
  lemma RemovalFacts(s: State, p: Ino, name: string)
    requires Inv(s) && CanRemove(s, p, name)
    ensures var c := Child(s, p, name);
            c != p && c in s.nodes && name in DirMap(Entries(s.img, p)) && DirMap(Entries(s.img, p))[name] == c
    ensures s.img.inodes[p].links >= 3 && DirLayout(s, p)
  {
    FoundInMap(s, p, name);
    AbsAt(s, p);
    var c := Child(s, p, name);
    assert DirSound(Abs(s), p) && NodeSound(Abs(s), c);
    LinksCountEntries(s, p);
    assert DirLayout(s, p);
  }

  ghost predicate Removes(s: State, s': State, p: Ino, name: string, c: Ino)
    requires HasRoom(s.img, p) && s.img.inodes[p].links > 0
  {
    && s'.img == Unmark(DropLink(RemoveEntry(s.img, p, name), p), c) && s'.nodes == s.nodes - {c}
    && forall b | b in s.busy && b !in s'.busy :: LiveDir(s, c) && b == Block(s.img, c)
  }

  lemma RemoveEntryLayout(s: State, s': State, p: Ino, name: string, c: Ino, x: nat)
    requires Layout(s) && LiveDir(s, p) && DirLayout(s, p) && HasRoom(s.img, p) && s.img.inodes[p].links >= 3 && c != p
    requires Removes(s, s', p, name, c)
    requires x < |Entries(s.img, p)| && Entries(s.img, p)[x].name == name
    ensures Layout(s') && LiveDir(s', p) && OnlyTouches(s, s', p, p)
    ensures DirMap(Entries(s'.img, p)) == DirMap(Entries(s.img, p)) - {name}
    ensures forall d: Ino | LiveDir(s, d) && d != c :: LiveDir(s', d)
  {
    RemoveEdits(s.img, p, name, x, c);
    RemoveLayout(s, s', p, x, c);
    RemoveIsDelete(Entries(s.img, p), x);
  }

  lemma RemoveKeepsInv(s: State, s': State, p: Ino, name: string)
    requires Inv(s) && CanRemove(s, p, name) && Removes(s, s', p, name, Child(s, p, name))
    requires LiveDir(s, Child(s, p, name)) ==> OnlyDots(DirMap(Entries(s.img, Child(s, p, name))))
    ensures Inv(s')
    ensures p in Abs(s).dirs && name in Abs(s).dirs[p] && Abs(s') == RemoveName(Abs(s), p, name)
  {
    var c, es := Child(s, p, name), Entries(s.img, p);
    RemovalFacts(s, p, name);
    ListedIffFound(es, name);
    var x :| 0 <= x < |es| && es[x].name == name;
    RemoveEntryLayout(s, s', p, name, c, x);
    RemoveNameTree(s, s', p, name, c);
    AbsAt(s, p);
    AbsAt(s, c);
    RemoveKeepsTree(Abs(s), p, name);
  }

  lemma RmdirKeepsInv(s: State, p: Ino, name: string)
    requires Inv(s) && Enabled(s, Rmdir(p, name))
    ensures Inv(Apply(s, Rmdir(p, name)))
    ensures p in Abs(s).dirs && name in Abs(s).dirs[p] && Abs(s).dirs[p][name] in Abs(s).dirs
    ensures Abs(Apply(s, Rmdir(p, name))) ==
            if OnlyDots(Abs(s).dirs[Abs(s).dirs[p][name]]) then RemoveName(Abs(s), p, name) else Abs(s)
  {
    RemovalFacts(s, p, name);
    var c := Child(s, p, name);
    LinksCountEntries(s, c);
    AbsAt(s, p);
    AbsAt(s, c);
    if s.img.inodes[c].links == 2 {
      RemoveKeepsInv(s, Apply(s, Rmdir(p, name)), p, name);
    }
  }

  lemma UnlinkKeepsInv(s: State, name: string)
    requires Inv(s) && Enabled(s, Unlink(name))
    ensures Inv(Apply(s, Unlink(name)))
    ensures ROOT in Abs(s).dirs && name in Abs(s).dirs[ROOT] && Abs(s).dirs[ROOT][name] !in Abs(s).dirs
    ensures Abs(Apply(s, Unlink(name))) == RemoveName(Abs(s), ROOT, name)
  {
    RemovalFacts(s, ROOT, name);
    AbsAt(s, ROOT);
    AbsAt(s, Child(s, ROOT, name));
    RemoveKeepsInv(s, Apply(s, Unlink(name)), ROOT, name);
  }

  lemma StepKeepsInv(s: State, step: Step)
    requires Inv(s) && Enabled(s, step)
    ensures Inv(Apply(s, step))
  {
    match step
    case Create(p, name, ino) => CreateKeepsInv(s, p, name, ino);
    case Mkdir(p, name, ino, blk) => MkdirKeepsInv(s, p, name, ino, blk);
    case Rmdir(p, name) => RmdirKeepsInv(s, p, name);
    case Unlink(name) => UnlinkKeepsInv(s, name);
  }
}
