/** A run that fills a directory, so that the next name created in it overwrites an entry. */
module FsWitnesses {
  import opened Directory
  import opened Images
  import opened DirOps
  import opened Namespace
  import opened FsRuns
  import opened FsTheorems

  const INODES := 16

  /** A name of k + 3 letters. */
  function Name(k: nat): (n: string)
    ensures |n| == k + 3 && !Dot(n)
  {
    seq(k + 3, _ => 'a')
  }

  function Root(): Inode { Inode(true, 2, 2 * DENTRY_SIZE, 0, 1) }

  /** A small image just formatted. */
  function SmallImage(): Image
  {
    Image({ROOT},
          [Root()] + seq(INODES - 1, _ => Inode(false, 0, 0, 0, 0)),
          seq(INODES, _ => seq(512, _ => Extent(0, 1))),
          [[Dentry(0, "."), Dentry(0, "..")] + seq(PER_BLOCK - 2, _ => Dentry(0, ""))])
  }

  /** The root holds "." first and k names of up to k + 2 letters, created in inodes 1 to k. */
  ghost predicate RootHolds(img: Image, k: nat)
  {
    && OneBlock(img, ROOT) && |img.inodes| == INODES && img.inodes[ROOT].size == (k + 2) * DENTRY_SIZE
    && (forall i | i in img.used :: i <= k)
    && |Entries(img, ROOT)| == k + 2 && Entries(img, ROOT)[0].name == "."
    && forall j :: 0 <= j < k + 2 ==> |Entries(img, ROOT)[j].name| < k + 3
  }

  lemma SmallImageHolds(img: Image)
    requires img == SmallImage()
    ensures Wf(img) && RootHolds(img, 0)
  {
    OneBlockEntries(img, ROOT);
  }

  lemma Formatting() returns (s: State)
    ensures Reachable(s) && RootHolds(s.img, 0)
  {
    s := State(SmallImage(), map[ROOT := Place(ROOT, "/", 0)], {0});
    SmallImageHolds(s.img);
    assert Init(s) && FsTheorems.Runs(s, [], s);
  }

  lemma NextHolds(img: Image, k: nat)
    requires RootHolds(img, k) && k < PER_BLOCK - 2
    ensures CanAppend(img, ROOT) && RootHolds(CreateImage(img, ROOT, Name(k), k + 1), k + 1)
  {
    CreateAppends(img, ROOT, Name(k), k + 1);
  }

  lemma NextEnabled(s: State, k: nat)
    requires RootHolds(s.img, k) && k < PER_BLOCK - 2
    ensures Enabled(s, Create(ROOT, Name(k), k + 1))
  {
    ListedIffFound(Entries(s.img, ROOT), Name(k));
    NextHolds(s.img, k);
  }

  lemma RunsFrom(s: State, step: Step, t: State, rest: seq<Step>, s': State)
    requires Enabled(s, step) && t == Apply(s, step) && FsTheorems.Runs(t, rest, s')
    ensures FsTheorems.Runs(s, [step] + rest, s')
  {
    assert ([step] + rest)[1..] == rest;
  }

  lemma {:induction false} RunsThen(s: State, steps: seq<Step>, t: State, step: Step, s': State)
    requires FsTheorems.Runs(s, steps, t) && Enabled(t, step) && s' == Apply(t, step)
    ensures FsTheorems.Runs(s, steps + [step], s')
    decreases |steps|
  {
    if steps == [] {
      RunsFrom(s, step, s', [], s');
      assert steps + [step] == [step] + [];
    } else {
      var u := Apply(s, steps[0]);
      RunsThen(u, steps[1..], t, step, s');
      RunsFrom(s, steps[0], u, steps[1..] + [step], s');
      assert steps + [step] == [steps[0]] + (steps[1..] + [step]);
    }
  }

  lemma Extend(s: State, step: Step) returns (s': State)
    requires Reachable(s) && Enabled(s, step)
    ensures Reachable(s') && s' == Apply(s, step)
  {
    var s0, steps :| Init(s0) && FsTheorems.Runs(s0, steps, s);
    s' := Apply(s, step);
    RunsThen(s0, steps, s, step, s');
  }

  lemma CreateNext(s: State, k: nat) returns (s': State)
    requires Reachable(s) && RootHolds(s.img, k) && k < PER_BLOCK - 2
    ensures Reachable(s') && RootHolds(s'.img, k + 1)
  {
    NextEnabled(s, k);
    NextHolds(s.img, k);
    s' := Extend(s, Create(ROOT, Name(k), k + 1));
    assert s'.img == CreateImage(s.img, ROOT, Name(k), k + 1);
  }

  lemma {:induction false} CreateMany(k: nat) returns (s: State)
    requires k <= PER_BLOCK - 2
    ensures Reachable(s) && RootHolds(s.img, k)
  {
    if k == 0 {
      s := Formatting();
    } else {
      s := CreateMany(k - 1);
      s := CreateNext(s, k - 1);
    }
  }

  /** In a full root that holds "." first, one more name leaves "." out. */
  lemma FullLosesDot(img: Image, name: string, ino: Ino)
    requires RootHolds(img, PER_BLOCK - 2) && DistinctNames(Entries(img, ROOT)) && !Dot(name) && ino < |img.inodes| && ino != ROOT
    ensures CanAppend(img, ROOT)
    ensures var img' := CreateImage(img, ROOT, name, ino); Wf(img') && IsDir(img', ROOT) && Find(img', ROOT, ".") == NoEntry
  {
    CreateAppendsIff(img, ROOT, name, ino);
    var es, es' := Entries(img, ROOT), Entries(CreateImage(img, ROOT, name, ino), ROOT);
    ListedIffFound(es', ".");
    assert forall j :: 0 < j < |es'| ==> es'[j] == es[j];
  }

  /** Fourteen creates fill the root, and a fifteenth, whatever its name, loses ".". */
  lemma RootGetsFull(name: string) returns (s: State, ino: Ino)
    requires !Dot(name)
    ensures Reachable(s) && OneBlock(s.img, ROOT) && !HasRoom(s.img, ROOT)
    ensures ino !in s.img.used && ino < |s.img.inodes| && Find(s.img, ROOT, ".") == Found(ROOT) && CanAppend(s.img, ROOT)
    ensures var img' := CreateImage(s.img, ROOT, name, ino); Wf(img') && IsDir(img', ROOT) && Find(img', ROOT, ".") == NoEntry
  {
    s := CreateMany(PER_BLOCK - 2);
    ino := INODES - 1;
    DotsNameSelfAndParent(s, ROOT);
    ReachableInv(s);
    assert DirLayout(s, ROOT);
    FullLosesDot(s.img, name, ino);
  }
}
