/** What mkdir, create, rmdir and unlink do to the image, on an already resolved parent and name. */
module DirOps {
  import opened Directory
  import opened Images

  function SetSlot(img: Image, b: nat, x: nat, d: Dentry): Image
    requires b < |img.blocks| && x < |img.blocks[b]|
  {
    img.(blocks := img.blocks[b := img.blocks[b][x := d]])
  }

  /** The inode bitmap marks inode i as in use, or as free. */
  function Mark(img: Image, i: Ino): Image { img.(used := img.used + {i}) }

  function Unmark(img: Image, i: Ino): Image { img.(used := img.used - {i}) }

  function SetInode(img: Image, i: Ino, n: Inode): Image
    requires i < |img.inodes|
  {
    img.(inodes := img.inodes[i := n])
  }

  /** The block an entry is appended to: the last one of the last extent. */
  function AppendBlock(img: Image, p: Ino): int
    requires p < |img.inodes| && p < |img.extents| && 0 < img.inodes[p].extentCount <= |img.extents[p]|
  {
    var e := img.extents[p][img.inodes[p].extentCount - 1];
    e.start + e.count - 1
  }

  function AppendSlot(img: Image, p: Ino): (x: nat)
    requires p < |img.inodes|
    ensures x < PER_BLOCK
  {
    (img.inodes[p].size % BLOCK_SIZE) / DENTRY_SIZE
  }

  ghost predicate CanAppend(img: Image, p: Ino)
  {
    Wf(img) && IsDir(img, p) && 0 < img.inodes[p].extentCount && 0 <= AppendBlock(img, p) < |img.blocks|
  }

  /** The parent gains an entry and a link. */
  function Grow(img: Image, p: Ino): Image
    requires p < |img.inodes|
  {
    var n := img.inodes[p];
    SetInode(img, p, n.(size := n.size + DENTRY_SIZE, links := n.links + 1))
  }

  /** a1fs_create, from the parent update on. */
  ghost function CreateImage(img: Image, p: Ino, name: string, ino: Ino): Image
    requires CanAppend(img, p) && ino < |img.inodes|
  {
    var b, x := AppendBlock(img, p), AppendSlot(img, p);
    var a := SetInode(Grow(img, p), ino, Inode(false, 1, 0, ino, 0));
    Mark(SetSlot(a, b, x, Dentry(ino, name)), ino)
  }

  /** a1fs_mkdir, from the parent update on. */
  ghost function MkdirImage(img: Image, p: Ino, name: string, ino: Ino, blk: nat): Image
    requires CanAppend(img, p) && ino < |img.inodes| && blk < |img.blocks|
  {
    var b, x := AppendBlock(img, p), AppendSlot(img, p);
    var a := SetInode(Grow(img, p), ino, Inode(true, 2, 2 * DENTRY_SIZE, ino, 1));
    var e := a.(extents := a.extents[ino := a.extents[ino][0 := Extent(blk, 1)]]);
    var f := SetSlot(SetSlot(e, blk, 0, Dentry(ino, ".")), blk, 1, Dentry(p, ".."));
    Mark(SetSlot(f, b, x, Dentry(ino, name)), ino)
  }

  /** Index of the first slot of that name, stale slots included; the length if there is none. */
  function FirstSlot(block: seq<Dentry>, name: string): (x: nat)
    ensures x <= |block| && (x < |block| ==> block[x].name == name)
    ensures forall k :: 0 <= k < x ==> block[k].name != name
  {
    if block == [] || block[0].name == name then 0 else 1 + FirstSlot(block[1..], name)
  }

  /** A directory of one block with 1 to 16 entries. */
  ghost predicate OneBlock(img: Image, p: Ino)
  {
    && Wf(img) && IsDir(img, p)
    && img.inodes[p].extentCount == 1 && img.extents[p][0].count == 1
    && img.inodes[p].size % DENTRY_SIZE == 0 && 0 < img.inodes[p].size / DENTRY_SIZE <= PER_BLOCK
  }

  /** It has a free slot, so that an entry can be added; removal too goes wrong in a full block. */
  ghost predicate HasRoom(img: Image, p: Ino)
  {
    OneBlock(img, p) && img.inodes[p].size / DENTRY_SIZE < PER_BLOCK
  }

  function Block(img: Image, p: Ino): nat
    requires p < |img.extents| && |img.extents[p]| > 0
  {
    img.extents[p][0].start
  }

  /**
   The removal loops can run on directory p with the size and extent count of inode w: the slot they
   take for the last entry lies in the data area.
   */
  ghost predicate Removable(img: Image, p: Ino, w: Ino)
  {
    && OneBlock(img, p) && w < |img.inodes| && img.inodes[w].extentCount == 1 && DENTRY_SIZE <= img.inodes[w].size
    && Block(img, p) < |img.blocks| && (img.inodes[w].size / DENTRY_SIZE % PER_BLOCK > 0 || Block(img, p) > 0)
  }

  /** That slot: the one before the block when the number of entries is a multiple of 16. */
  ghost function LastSlot(img: Image, p: Ino, w: Ino): Dentry
    requires Removable(img, p, w)
  {
    var b, n := Block(img, p), img.inodes[w].size / DENTRY_SIZE % PER_BLOCK;
    if n > 0 then img.blocks[b][n - 1] else img.blocks[b - 1][PER_BLOCK - 1]
  }

  /**
   The removal loops of rmdir and unlink: the last entry replaces the first one of that name, and the
   size of inode w shrinks.
   */
  ghost function RemoveVia(img: Image, p: Ino, w: Ino, name: string): Image
    requires Removable(img, p, w)
  {
    var b, n := Block(img, p), img.inodes[w];
    var x := FirstSlot(img.blocks[b], name);
    if x == PER_BLOCK then img
    else
      var a := if x == n.size / DENTRY_SIZE % PER_BLOCK - 1 then img else SetSlot(img, b, x, LastSlot(img, p, w));
      SetInode(a, w, n.(size := n.size - DENTRY_SIZE))
  }

  lemma HasRoomRemovable(img: Image, p: Ino)
    requires HasRoom(img, p)
    ensures Removable(img, p, p)
  {
    assert DirOk(img, p);
    assert img.extents[p][0].start + img.extents[p][0].count <= |img.blocks|;
  }

  /** In rmdir the inode updated is that of the directory itself. */
  ghost function RemoveEntry(img: Image, p: Ino, name: string): Image
    requires HasRoom(img, p)
  {
    HasRoomRemovable(img, p);
    RemoveVia(img, p, p, name)
  }

  function DropLink(img: Image, p: Ino): Image
    requires p < |img.inodes| && img.inodes[p].links > 0
  {
    SetInode(img, p, img.inodes[p].(links := img.inodes[p].links - 1))
  }

  // ----- What the operations do to the entries of every directory

  lemma SingleBlock(e: Extent, blocks: seq<seq<Dentry>>)
    requires e.count == 1 && e.start < |blocks|
    ensures InTable(blocks, [e]) && Slots(blocks, [e]) == blocks[e.start]
  {
    assert [e][..0] == [];
    assert ExtentSlots(blocks, e.start, 1) == [] + blocks[e.start];
  }

  lemma OneBlockEntries(img: Image, p: Ino)
    requires OneBlock(img, p)
    ensures Block(img, p) < |img.blocks|
    ensures Entries(img, p) == img.blocks[Block(img, p)][..img.inodes[p].size / DENTRY_SIZE]
  {
    assert DirOk(img, p);
    var e := img.extents[p][0];
    assert e.start + e.count <= |img.blocks|;
    assert img.extents[p][..1] == [e];
    SingleBlock(e, img.blocks);
  }

  /** A name that resolves has a slot in the directory's block. */
  lemma FoundHasSlot(img: Image, p: Ino, name: string)
    requires OneBlock(img, p) && Find(img, p, name).Found?
    ensures Block(img, p) < |img.blocks| && FirstSlot(img.blocks[Block(img, p)], name) < PER_BLOCK
  {
    OneBlockEntries(img, p);
    ListedIffFound(Entries(img, p), name);
    var i :| 0 <= i < |Entries(img, p)| && Entries(img, p)[i].name == name;
    assert img.blocks[Block(img, p)][i].name == name;
  }

  /** A directory whose inode, extents and block are unchanged has the same entries. */
  lemma SameEntries(img: Image, img': Image, d: Ino)
    requires OneBlock(img, d) && Wf(img') && IsDir(img', d)
    requires img'.inodes[d] == img.inodes[d] && Block(img', d) == Block(img, d) && img'.extents[d][0] == img.extents[d][0]
    requires Block(img, d) < |img.blocks| == |img'.blocks| && img'.blocks[Block(img, d)] == img.blocks[Block(img, d)]
    ensures OneBlock(img', d) && Entries(img', d) == Entries(img, d)
  {
    OneBlockEntries(img, d);
    OneBlockEntries(img', d);
  }

  lemma CreateKeepsWf(img: Image, p: Ino, name: string, ino: Ino)
    requires OneBlock(img, p) && ino < |img.inodes| && ino != p
    ensures CanAppend(img, p)
    ensures var img', n := CreateImage(img, p, name, ino), img.inodes[p].size / DENTRY_SIZE;
            && Wf(img') && IsDir(img', p) && img'.inodes[p].size / DENTRY_SIZE == n + 1 && img'.extents == img.extents
            && Block(img, p) < |img.blocks|
            && img'.blocks == img.blocks[Block(img, p) := img.blocks[Block(img, p)][n % PER_BLOCK := Dentry(ino, name)]]
  {
    OneBlockEntries(img, p);
    var img' := CreateImage(img, p, name, ino);
    assert AppendBlock(img, p) == Block(img, p) && AppendSlot(img, p) == img.inodes[p].size / DENTRY_SIZE % PER_BLOCK;
    forall i | i in img'.used
      ensures i < |img'.inodes| && (img'.inodes[i].dir ==> DirOk(img', i))
    {
      assert i != ino && img.inodes[i].dir ==> DirOk(img, i);
    }
  }

  lemma CreateAppends(img: Image, p: Ino, name: string, ino: Ino)
    requires HasRoom(img, p) && ino < |img.inodes| && ino != p
    ensures CanAppend(img, p)
    ensures var img' := CreateImage(img, p, name, ino);
            && Wf(img') && OneBlock(img', p)
            && Entries(img', p) == Entries(img, p) + [Dentry(ino, name)]
  {
    OneBlockEntries(img, p);
    CreateKeepsWf(img, p, name, ino);
    OneBlockEntries(CreateImage(img, p, name, ino), p);
  }

  /**
   create appends its entry exactly when the block has a free slot: in a full block it overwrites the
   first entry, which is ".".
   */
  lemma CreateAppendsIff(img: Image, p: Ino, name: string, ino: Ino)
    requires OneBlock(img, p) && ino < |img.inodes| && ino != p
    ensures CanAppend(img, p)
    ensures var img' := CreateImage(img, p, name, ino);
            && Wf(img') && IsDir(img', p)
            && (Entries(img', p) == Entries(img, p) + [Dentry(ino, name)] <==> HasRoom(img, p))
            && (!HasRoom(img, p) ==> Entries(img', p) == Entries(img, p)[0 := Dentry(ino, name)])
  {
    CreateKeepsWf(img, p, name, ino);
    if HasRoom(img, p) {
      CreateAppends(img, p, name, ino);
    } else {
      OneBlockEntries(img, p);
      FullEntries(CreateImage(img, p, name, ino), p);
    }
  }

  lemma FullEntries(img: Image, p: Ino)
    requires Wf(img) && IsDir(img, p) && img.inodes[p].extentCount == 1 && img.extents[p][0].count == 1
    requires img.inodes[p].size / DENTRY_SIZE > PER_BLOCK
    ensures Block(img, p) < |img.blocks| && Entries(img, p) == img.blocks[Block(img, p)]
  {
    assert DirOk(img, p);
    var e := img.extents[p][0];
    assert e.start + e.count <= |img.blocks|;
    assert img.extents[p][..1] == [e];
    SingleBlock(e, img.blocks);
  }

  lemma MkdirAppends(img: Image, p: Ino, name: string, ino: Ino, blk: nat)
    requires HasRoom(img, p) && ino < |img.inodes| && ino != p
    requires blk < |img.blocks| && blk != Block(img, p)
    ensures CanAppend(img, p)
    ensures var img' := MkdirImage(img, p, name, ino, blk);
            && Wf(img') && OneBlock(img', p) && OneBlock(img', ino)
            && Entries(img', p) == Entries(img, p) + [Dentry(ino, name)]
            && Entries(img', ino) == [Dentry(ino, "."), Dentry(p, "..")]
  {
    OneBlockEntries(img, p);
    var img' := MkdirImage(img, p, name, ino, blk);
    assert AppendBlock(img, p) == Block(img, p) && AppendSlot(img, p) == img.inodes[p].size / DENTRY_SIZE;
    forall i | i in img'.used
      ensures i < |img'.inodes| && (img'.inodes[i].dir ==> DirOk(img', i))
    {
      assert i != ino && img.inodes[i].dir ==> DirOk(img, i);
    }
    assert Wf(img');
    OneBlockEntries(img', p);
    OneBlockEntries(img', ino);
  }

  lemma RemoveKeepsWf(img: Image, p: Ino, w: Ino, name: string)
    requires Removable(img, p, w)
    ensures var img' := RemoveVia(img, p, w, name);
            && Wf(img') && IsDir(img', p) && img'.extents == img.extents && |img'.blocks| == |img.blocks|
            && (w != p ==> img'.inodes[p] == img.inodes[p])
  {
    var img' := RemoveVia(img, p, w, name);
    forall i | i in img'.used
      ensures i < |img'.inodes| && (img'.inodes[i].dir ==> DirOk(img', i))
    {
      assert img.inodes[i].dir ==> DirOk(img, i);
    }
  }

  lemma RemoveSwaps(img: Image, p: Ino, name: string, x: nat)
    requires HasRoom(img, p) && 1 < img.inodes[p].size / DENTRY_SIZE
    requires DistinctNames(Entries(img, p)) && x < |Entries(img, p)| && Entries(img, p)[x].name == name
    ensures var img' := RemoveEntry(img, p, name);
            && Wf(img') && HasRoom(img', p)
            && img'.inodes[p] == img.inodes[p].(size := img.inodes[p].size - DENTRY_SIZE)
            && Entries(img', p) == SwapRemove(Entries(img, p), x)
  {
    OneBlockEntries(img, p);
    var img', b := RemoveEntry(img, p, name), Block(img, p);
    var y := FirstSlot(img.blocks[b], name);
    assert y == x by {
      assert img.blocks[b][x].name == name;
      assert forall k :: 0 <= k < x ==> img.blocks[b][k] == Entries(img, p)[k];
    }
    RemoveKeepsWf(img, p, p, name);
    OneBlockEntries(img', p);
  }

  lemma DropLinkKeeps(img: Image, p: Ino)
    requires OneBlock(img, p) && img.inodes[p].links > 0
    ensures var img' := DropLink(img, p); OneBlock(img', p) && Entries(img', p) == Entries(img, p)
  {
  }

  /** rmdir drops the parent's link after the removal loops, unlink before them: it makes no difference. */
  lemma DropLinkCommutes(img: Image, p: Ino, name: string)
    requires HasRoom(img, p) && img.inodes[p].links > 0
    ensures HasRoom(DropLink(img, p), p)
    ensures RemoveEntry(DropLink(img, p), p, name) == DropLink(RemoveEntry(img, p, name), p)
  {
  }

  // ----- Where removal goes wrong

  lemma FirstIsEntry(img: Image, p: Ino, name: string, x: nat)
    requires OneBlock(img, p) && DistinctNames(Entries(img, p)) && x < |Entries(img, p)| && Entries(img, p)[x].name == name
    ensures Block(img, p) < |img.blocks| && FirstSlot(img.blocks[Block(img, p)], name) == x
  {
    OneBlockEntries(img, p);
    var block := img.blocks[Block(img, p)];
    assert block[x].name == name;
    assert forall k :: 0 <= k < x ==> block[k] == Entries(img, p)[k];
  }

  /**
   In a full block, anywhere but at the start of the data area, removal is removal of the entry exactly
   when it is the last one or the slot before the block happens to equal the last one.
   */
  lemma RemoveFullIff(img: Image, p: Ino, name: string, x: nat)
    requires Removable(img, p, p) && !HasRoom(img, p)
    requires DistinctNames(Entries(img, p)) && x < |Entries(img, p)| && Entries(img, p)[x].name == name
    ensures |Entries(img, p)| == PER_BLOCK
    ensures var img' := RemoveVia(img, p, p, name);
            && Wf(img') && IsDir(img', p)
            && (Entries(img', p) == SwapRemove(Entries(img, p), x) <==>
                x == PER_BLOCK - 1 || img.blocks[Block(img, p) - 1][PER_BLOCK - 1] == Entries(img, p)[PER_BLOCK - 1])
  {
    OneBlockEntries(img, p);
    FirstIsEntry(img, p, name, x);
    RemoveKeepsWf(img, p, p, name);
    var img' := RemoveVia(img, p, p, name);
    OneBlockEntries(img', p);
    var es, last := Entries(img, p), img.blocks[Block(img, p) - 1][PER_BLOCK - 1];
    assert Entries(img', p) == es[x := last][..PER_BLOCK - 1];
    if x < PER_BLOCK - 1 {
      assert Entries(img', p)[x] == last && SwapRemove(es, x)[x] == es[PER_BLOCK - 1];
    }
  }

  /** a1fs_unlink drops the link of inode 64 * p before the removal loops, which do nothing without extents. */
  ghost predicate CanUnlink(img: Image, p: Ino)
  {
    && HasRoom(img, p) && 64 * p < |img.inodes| && img.inodes[64 * p].links > 0
    && (img.inodes[64 * p].extentCount == 0 || Removable(img, p, 64 * p))
  }

  lemma DropLinkElsewhere(img: Image, p: Ino, w: Ino)
    requires HasRoom(img, p) && w < |img.inodes| && img.inodes[w].links > 0
    ensures var img' := DropLink(img, w);
            HasRoom(img', p) && Entries(img', p) == Entries(img, p) && (Removable(img, p, w) ==> Removable(img', p, w))
  {
    var img' := DropLink(img, w);
    forall i | i in img'.used
      ensures i < |img'.inodes| && (img'.inodes[i].dir ==> DirOk(img', i))
    {
      assert img.inodes[i].dir ==> DirOk(img, i);
    }
    OneBlockEntries(img, p);
    OneBlockEntries(img', p);
  }

  ghost function UnlinkImage(img: Image, p: Ino, name: string): Image
    requires CanUnlink(img, p)
  {
    DropLinkElsewhere(img, p, 64 * p);
    var a := DropLink(img, 64 * p);
    if img.inodes[64 * p].extentCount == 0 then a else RemoveVia(a, p, 64 * p, name)
  }

  /** In the root that is what rmdir does. */
  lemma UnlinkInRoot(img: Image, name: string)
    requires HasRoom(img, 0) && img.inodes[0].links > 0
    ensures CanUnlink(img, 0) && UnlinkImage(img, 0, name) == DropLink(RemoveEntry(img, 0, name), 0)
  {
    HasRoomRemovable(img, 0);
    DropLinkCommutes(img, 0, name);
  }

  lemma UnlinkInodes(img: Image, p: Ino, name: string)
    requires CanUnlink(img, p)
    ensures var img' := UnlinkImage(img, p, name);
            && |img'.inodes| == |img.inodes| && img'.inodes[64 * p].links == img.inodes[64 * p].links - 1
            && forall i | 0 <= i < |img.inodes| && i != 64 * p :: img'.inodes[i] == img.inodes[i]
  {
  }

  /** Below the root the directory keeps its size: unlink removes the entry exactly when the parent is the root. */
  lemma UnlinkRemovesIff(img: Image, p: Ino, name: string, x: nat)
    requires CanUnlink(img, p) && 1 < img.inodes[p].size / DENTRY_SIZE
    requires DistinctNames(Entries(img, p)) && x < |Entries(img, p)| && Entries(img, p)[x].name == name
    ensures var img' := UnlinkImage(img, p, name);
            && Wf(img') && IsDir(img', p)
            && (Entries(img', p) == SwapRemove(Entries(img, p), x) <==> p == 0)
            && (p != 0 ==> |Entries(img', p)| == |Entries(img, p)|)
            && img'.inodes[64 * p].links == img.inodes[64 * p].links - 1
            && (forall i | 0 <= i < |img.inodes| && i != 64 * p :: img'.inodes[i] == img.inodes[i])
  {
    DropLinkElsewhere(img, p, 64 * p);
    UnlinkInodes(img, p, name);
    if p == 0 {
      UnlinkInRoot(img, name);
      RemoveSwaps(img, 0, name, x);
      DropLinkKeeps(RemoveEntry(img, 0, name), 0);
    } else {
      UnlinkKeepsSize(img, p, name);
      OneBlockEntries(img, p);
      OneBlockEntries(UnlinkImage(img, p, name), p);
    }
  }

  lemma UnlinkKeepsSize(img: Image, p: Ino, name: string)
    requires CanUnlink(img, p) && p != 0
    ensures var img' := UnlinkImage(img, p, name); OneBlock(img', p) && img'.inodes[p] == img.inodes[p]
  {
    var a := DropLink(img, 64 * p);
    DropLinkElsewhere(img, p, 64 * p);
    if img.inodes[64 * p].extentCount != 0 {
      RemoveKeepsWf(a, p, 64 * p, name);
    }
  }
}
