/** What the inode table and the block bitmap hold after every run. */
module FsInodes {
  import opened Directory
  import opened Images
  import opened DirOps
  import opened Namespace
  import opened FsRuns
  import opened FsTheorems

  // ----- Files

  /** A file as created: one link, no bytes, no extents, and its own index as its number. */
  predicate PlainFile(n: Inode, i: Ino)
  {
    !n.dir && n.links == 1 && n.size == 0 && n.number == i && n.extentCount == 0
  }

  ghost predicate FilesPlain(img: Image)
  {
    forall i | i in img.used && i < |img.inodes| && !img.inodes[i].dir :: PlainFile(img.inodes[i], i)
  }

  lemma CreateKeepsFiles(img: Image, p: Ino, name: string, ino: Ino)
    requires CanAppend(img, p) && ino < |img.inodes| && ino != p && FilesPlain(img)
    ensures var img' := CreateImage(img, p, name, ino);
            FilesPlain(img') && ino in img'.used && ino < |img'.inodes| && PlainFile(img'.inodes[ino], ino)
  {
  }

  lemma MkdirKeepsFiles(img: Image, p: Ino, name: string, ino: Ino, blk: nat)
    requires CanAppend(img, p) && ino < |img.inodes| && ino != p && blk < |img.blocks| && FilesPlain(img)
    ensures FilesPlain(MkdirImage(img, p, name, ino, blk))
  {
  }

  lemma RemoveKeepsFiles(img: Image, p: Ino, name: string, c: Ino)
    requires HasRoom(img, p) && img.inodes[p].links > 0 && FilesPlain(img)
    ensures FilesPlain(Unmark(DropLink(RemoveEntry(img, p, name), p), c))
  {
  }

  lemma StepKeepsFiles(s: State, step: Step)
    requires Enabled(s, step) && FilesPlain(s.img)
    ensures FilesPlain(Apply(s, step).img)
  {
    match step
    case Create(p, name, ino) => CreateKeepsFiles(s.img, p, name, ino);
    case Mkdir(p, name, ino, blk) => MkdirKeepsFiles(s.img, p, name, ino, blk);
    case Rmdir(p, name) => RemoveKeepsFiles(s.img, p, name, Child(s, p, name));
    case Unlink(name) => RemoveKeepsFiles(s.img, ROOT, name, Child(s, ROOT, name));
  }

  // ----- Blocks

  /** Block b is the block of live directory d. */
  ghost predicate Owns(s: State, d: Ino, b: nat)
  {
    LiveDir(s, d) && d < |s.img.extents| && |s.img.extents[d]| > 0 && Block(s.img, d) == b
  }

  /** The blocks in use are exactly those of the live directories. */
  ghost predicate BusyExact(s: State)
  {
    forall b: nat :: b in s.busy <==> exists d: Ino :: Owns(s, d, b)
  }

  /** The live directories keep their blocks, but for c. */
  ghost predicate SameOwners(s: State, s': State, c: Ino)
  {
    forall d: Ino, b: nat | d != c :: Owns(s, d, b) <==> Owns(s', d, b)
  }

  lemma AddKeepsBusy(s: State, s': State, c: Ino, blk: nat)
    requires BusyExact(s) && SameOwners(s, s', c) && !LiveDir(s, c)
    requires forall b: nat :: Owns(s', c, b) <==> b == blk
    requires s'.busy == s.busy + {blk}
    ensures BusyExact(s')
  {
    forall b: nat
      ensures b in s'.busy <==> exists d: Ino :: Owns(s', d, b)
    {
      if b == blk {
        assert Owns(s', c, b);
      } else {
        assert (exists d: Ino :: Owns(s, d, b)) <==> exists d: Ino :: Owns(s', d, b);
      }
    }
  }

  lemma DropKeepsBusy(s: State, s': State, c: Ino, blk: nat)
    requires BusyExact(s) && SameOwners(s, s', c) && !LiveDir(s', c) && Owns(s, c, blk)
    requires forall d: Ino | Owns(s, d, blk) :: d == c
    requires s'.busy == s.busy - {blk}
    ensures BusyExact(s')
  {
    forall b: nat
      ensures b in s'.busy <==> exists d: Ino :: Owns(s', d, b)
    {
      if b != blk {
        assert (exists d: Ino :: Owns(s, d, b)) <==> exists d: Ino :: Owns(s', d, b);
      }
    }
  }

  lemma SameKeepsBusy(s: State, s': State, c: Ino)
    requires BusyExact(s) && SameOwners(s, s', c) && !LiveDir(s, c) && !LiveDir(s', c) && s'.busy == s.busy
    ensures BusyExact(s')
  {
    forall b: nat
      ensures b in s'.busy <==> exists d: Ino :: Owns(s', d, b)
    {
      assert (exists d: Ino :: Owns(s, d, b)) <==> exists d: Ino :: Owns(s', d, b);
    }
  }

  lemma RemovalOwners(s: State, s': State, p: Ino, name: string, c: Ino)
    requires HasRoom(s.img, p) && s.img.inodes[p].links > 0 && s'.img == Unmark(DropLink(RemoveEntry(s.img, p, name), p), c)
    ensures SameOwners(s, s', c) && !LiveDir(s', c)
  {
  }

  lemma RmdirKeepsBusy(s: State, p: Ino, name: string)
    requires Inv(s) && BusyExact(s) && Enabled(s, Rmdir(p, name))
    ensures BusyExact(Apply(s, Rmdir(p, name)))
  {
    var c := Child(s, p, name);
    if s.img.inodes[c].links == 2 {
      assert DirLayout(s, c);
      RemovalOwners(s, Apply(s, Rmdir(p, name)), p, name, c);
      DropKeepsBusy(s, Apply(s, Rmdir(p, name)), c, Block(s.img, c));
    }
  }

  lemma CreateKeepsBusy(s: State, s': State, p: Ino, name: string, ino: Ino)
    requires Layout(s) && BusyExact(s) && CanAdd(s, p, name, ino) && s'.img == CreateImage(s.img, p, name, ino) && s'.busy == s.busy
    ensures BusyExact(s')
  {
    assert SameOwners(s, s', ino);
    SameKeepsBusy(s, s', ino);
  }

  lemma MkdirOwners(s: State, s': State, p: Ino, name: string, ino: Ino, blk: nat)
    requires Wf(s.img) && CanAdd(s, p, name, ino) && blk < |s.img.blocks| && s'.img == MkdirImage(s.img, p, name, ino, blk)
    ensures SameOwners(s, s', ino) && forall b: nat :: Owns(s', ino, b) <==> b == blk
  {
  }

  lemma MkdirKeepsBusy(s: State, s': State, p: Ino, name: string, ino: Ino, blk: nat)
    requires Layout(s) && BusyExact(s) && CanAdd(s, p, name, ino) && blk < |s.img.blocks|
    requires s'.img == MkdirImage(s.img, p, name, ino, blk) && s'.busy == s.busy + {blk}
    ensures BusyExact(s')
  {
    MkdirOwners(s, s', p, name, ino, blk);
    AddKeepsBusy(s, s', ino, blk);
  }

  lemma UnlinkKeepsBusy(s: State, name: string)
    requires BusyExact(s) && Enabled(s, Unlink(name))
    ensures BusyExact(Apply(s, Unlink(name)))
  {
    var s', c := Apply(s, Unlink(name)), Child(s, ROOT, name);
    RemovalOwners(s, s', ROOT, name, c);
    SameKeepsBusy(s, s', c);
  }

  lemma StepKeepsBusy(s: State, step: Step)
    requires Inv(s) && BusyExact(s) && Enabled(s, step)
    ensures BusyExact(Apply(s, step))
  {
    match step
    case Create(p, name, ino) => CreateKeepsBusy(s, Apply(s, step), p, name, ino);
    case Mkdir(p, name, ino, blk) => MkdirKeepsBusy(s, Apply(s, step), p, name, ino, blk);
    case Rmdir(p, name) => RmdirKeepsBusy(s, p, name);
    case Unlink(name) => UnlinkKeepsBusy(s, name);
  }

  // ----- Over every run

  lemma {:induction false} RunKeepsTables(s: State, steps: seq<Step>, s': State)
    requires Inv(s) && FilesPlain(s.img) && BusyExact(s) && FsTheorems.Runs(s, steps, s')
    ensures Inv(s') && FilesPlain(s'.img) && BusyExact(s')
    decreases |steps|
  {
    if steps != [] {
      StepKeepsFiles(s, steps[0]);
      StepKeepsBusy(s, steps[0]);
      StepKeepsInv(s, steps[0]);
      RunKeepsTables(Apply(s, steps[0]), steps[1..], s');
    }
  }

  lemma InitTables(s: State)
    requires Init(s)
    ensures FilesPlain(s.img) && BusyExact(s)
  {
    assert Owns(s, ROOT, 0);
  }

  lemma ReachableTables(s: State)
    requires Reachable(s)
    ensures Inv(s) && FilesPlain(s.img) && BusyExact(s)
  {
    var s0, steps :| Init(s0) && FsTheorems.Runs(s0, steps, s);
    InitHoldsInv(s0);
    InitTables(s0);
    RunKeepsTables(s0, steps, s);
  }

  /** After every run a file in use is as created, and its one link is the one slot that names it. */
  lemma FilesStayPlain(s: State, c: Ino)
    requires Reachable(s) && c in s.img.used && !IsDir(s.img, c)
    ensures Wf(s.img) && c < |s.img.inodes| && PlainFile(s.img.inodes[c], c)
    ensures exists d: Ino, k: nat :: NamedAt(s, d, k, c)
    ensures forall d: Ino, k: nat, d': Ino, k': nat | NamedAt(s, d, k, c) && NamedAt(s, d', k', c) :: d == d' && k == k'
  {
    ReachableTables(s);
    AbsAt(s, ROOT);
    NamedExactlyOnce(s, c);
  }

  /** After every run the data blocks in use are exactly the blocks of the directories in use, one each: none is leaked or shared. */
  lemma BlocksStayExact(s: State, b: nat)
    requires Reachable(s)
    ensures b in s.busy <==> exists d: Ino :: Owns(s, d, b)
    ensures forall d: Ino, e: Ino | Owns(s, d, b) && Owns(s, e, b) :: d == e
  {
    ReachableTables(s);
  }

  // ----- What an operation leaves alone

  /** Inodes, extents and blocks other than those named are untouched, in use or not. */
  ghost predicate TouchesOnly(img: Image, img': Image, inodes: set<Ino>, extents: set<Ino>, blocks: set<nat>)
  {
    && |img'.inodes| == |img.inodes| && |img'.extents| == |img.extents| && |img'.blocks| == |img.blocks|
    && (forall i | 0 <= i < |img.inodes| && i !in inodes :: img'.inodes[i] == img.inodes[i])
    && (forall i | 0 <= i < |img.extents| && i !in extents :: img'.extents[i] == img.extents[i])
    && (forall b | 0 <= b < |img.blocks| && b !in blocks :: img'.blocks[b] == img.blocks[b])
  }

  /** Two blocks or extent blocks differ in these places only. */
  ghost predicate SlotsOnly<T>(a: seq<T>, b: seq<T>, slots: set<nat>)
  {
    |a| == |b| && forall x | 0 <= x < |a| && x !in slots :: b[x] == a[x]
  }

  lemma CreateTouches(img: Image, p: Ino, name: string, ino: Ino)
    requires HasRoom(img, p) && ino < |img.inodes| && ino != p
    ensures CanAppend(img, p) && TouchesOnly(img, CreateImage(img, p, name, ino), {p, ino}, {}, {Block(img, p)})
    ensures var img', b := CreateImage(img, p, name, ino), Block(img, p);
            && b < |img.blocks| && |img'.blocks| == |img.blocks|
            && SlotsOnly(img.blocks[b], img'.blocks[b], {img.inodes[p].size / DENTRY_SIZE})
  {
    CreateKeepsWf(img, p, name, ino);
  }

  lemma MkdirTouches(img: Image, p: Ino, name: string, ino: Ino, blk: nat)
    requires HasRoom(img, p) && ino < |img.inodes| && ino != p && blk < |img.blocks| && blk != Block(img, p)
    ensures CanAppend(img, p) && TouchesOnly(img, MkdirImage(img, p, name, ino, blk), {p, ino}, {ino}, {Block(img, p), blk})
    ensures var img', b := MkdirImage(img, p, name, ino, blk), Block(img, p);
            && b < |img.blocks| && |img'.blocks| == |img.blocks| && ino < |img.extents| == |img'.extents|
            && SlotsOnly(img.blocks[b], img'.blocks[b], {img.inodes[p].size / DENTRY_SIZE})
            && SlotsOnly(img.blocks[blk], img'.blocks[blk], {0, 1})
            && SlotsOnly(img.extents[ino], img'.extents[ino], {0})
  {
    OneBlockEntries(img, p);
    assert AppendBlock(img, p) == Block(img, p);
  }

  lemma RemoveTouches(img: Image, p: Ino, name: string, c: Ino)
    requires HasRoom(img, p) && img.inodes[p].links > 0
    ensures TouchesOnly(img, Unmark(DropLink(RemoveEntry(img, p, name), p), c), {p}, {}, {Block(img, p)})
    ensures var img', b := Unmark(DropLink(RemoveEntry(img, p, name), p), c), Block(img, p);
            && b < |img.blocks| && |img'.blocks| == |img.blocks|
            && SlotsOnly(img.blocks[b], img'.blocks[b], {FirstSlot(img.blocks[b], name)})
  {
    OneBlockEntries(img, p);
  }
}
