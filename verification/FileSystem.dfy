/** The directory operations of a1fs.c, working in place on the mapped image. */
module FileSystem {
  import opened Directory
  import opened Images
  import opened DirOps

  /** Length of the local name and inode arrays of `helper` and `a1fs_readdir`. */
  const MAX_ENTRIES := 512

  /** Reading one more block, slot by slot, up to the entry count. */
  lemma PrefixGrow(a: seq<Dentry>, b: seq<Dentry>, n: nat, x: nat)
    requires x <= |b| && (x == |b| || |Prefix(a, n)| + x == n)
    requires |Prefix(a, n)| + x <= n
    ensures Prefix(a + b, n) == Prefix(a, n) + b[..x]
  {
  }

  lemma NextBlock(blocks: seq<seq<Dentry>>, done: seq<Dentry>, start: nat, k: nat)
    requires start + k < |blocks|
    ensures done + ExtentSlots(blocks, start, k) + blocks[start + k] == done + ExtentSlots(blocks, start, k + 1)
  {
  }

  /** Leaving the loop over an extent after k of m blocks loses nothing once all entries are there. */
  lemma {:induction false} LeftEarly(blocks: seq<seq<Dentry>>, done: seq<Dentry>, start: nat, k: nat, m: nat, n: nat)
    requires start + m <= |blocks| && k <= m
    requires k == m || |done + ExtentSlots(blocks, start, k)| >= n
    ensures Prefix(done + ExtentSlots(blocks, start, m), n) == Prefix(done + ExtentSlots(blocks, start, k), n)
    ensures |ExtentSlots(blocks, start, m)| >= |ExtentSlots(blocks, start, k)|
  {
    if k < m {
      LeftEarly(blocks, done, start, k, m - 1, n);
      var a, b := done + ExtentSlots(blocks, start, m - 1), blocks[start + m - 1];
      assert done + ExtentSlots(blocks, start, m) == a + b;
      assert (a + b)[..n] == a[..n];
    }
  }

  /** The slot before slot n of block b, counted through the data area. */
  lemma SlotAddress(b: nat, n: nat)
    requires n < PER_BLOCK && (n > 0 || b > 0)
    ensures var k := b * PER_BLOCK + n - 1;
            k / PER_BLOCK == (if n > 0 then b else b - 1) && k % PER_BLOCK == (if n > 0 then n - 1 else PER_BLOCK - 1)
  {
  }

  datatype Status = Done | NotEmpty

  class FsImage {
    var used: set<Ino>
    var inodes: seq<Inode>
    var extents: seq<seq<Extent>>
    var blocks: seq<seq<Dentry>>

    ghost function Value(): Image
      reads this
    {
      Image(used, inodes, extents, blocks)
    }

    /** The inner loop: the slots of block j, while entries remain. */
    method TakeBlock(acc: seq<Dentry>, j: nat, entryCount: nat, ghost before: seq<Dentry>) returns (r: seq<Dentry>)
      requires j < |blocks| && |blocks[j]| == PER_BLOCK && acc == Prefix(before, entryCount)
      ensures r == Prefix(before + blocks[j], entryCount)
    {
      r := acc;
      var x := 0;
      while x < PER_BLOCK && |r| < entryCount
        invariant x <= PER_BLOCK && r == acc + blocks[j][..x] && |r| <= entryCount
      {
        r := r + [blocks[j][x]];
        x := x + 1;
      }
      PrefixGrow(before, blocks[j], entryCount, x);
    }

    /**
     The middle loop: the blocks of one extent. a1fs_readdir leaves it once it has all entries
     (`early`), `helper` does not.
     */
    method TakeExtent(before: seq<Dentry>, e: Extent, entryCount: nat, early: bool, ghost done: seq<Dentry>) returns (acc: seq<Dentry>)
      requires e.start + e.count <= |blocks| && before == Prefix(done, entryCount)
      requires forall b :: 0 <= b < |blocks| ==> |blocks[b]| == PER_BLOCK
      ensures acc == Prefix(done + ExtentSlots(blocks, e.start, e.count), entryCount)
    {
      acc := before;
      var j := e.start;
      ghost var seen := done;
      assert done + ExtentSlots(blocks, e.start, 0) == done;
      while j < e.count + e.start && (early ==> |acc| < entryCount)
        invariant e.start <= j <= e.start + e.count
        invariant acc == Prefix(seen, entryCount) && seen == done + ExtentSlots(blocks, e.start, j - e.start)
      {
        acc := TakeBlock(acc, j, entryCount, seen);
        NextBlock(blocks, done, e.start, j - e.start);
        seen := seen + blocks[j];
        j := j + 1;
      }
      LeftEarly(blocks, done, e.start, j - e.start, e.count, entryCount);
    }

    /** The loops of `helper` and `a1fs_readdir` over the extents of directory i. */
    method Collect(i: Ino, early: bool) returns (acc: seq<Dentry>)
      requires Wf(Value()) && IsDir(Value(), i)
      ensures acc == Entries(Value(), i)
    {
      assert DirOk(Value(), i);
      var entryCount := inodes[i].size / DENTRY_SIZE;
      var es := extents[inodes[i].number];
      acc := [];
      var k := 0;
      while k < inodes[i].extentCount
        invariant k <= inodes[i].extentCount
        invariant InTable(blocks, es[..k]) && acc == Prefix(Slots(blocks, es[..k]), entryCount)
      {
        assert es[..k + 1][..k] == es[..k];
        acc := TakeExtent(acc, es[k], entryCount, early, Slots(blocks, es[..k]));
        k := k + 1;
      }
    }

    /** `helper` */
    method Helper(i: Ino, name: string) returns (r: Lookup)
      requires Wf(Value()) && IsDir(Value(), i) && |Entries(Value(), i)| <= MAX_ENTRIES
      ensures r == Find(Value(), i, name)
    {
      var acc := Collect(i, false);
      r := NoEntry;
      var k := 0;
      while k < |acc|
        invariant k <= |acc| && r == LastMatch(acc[..k], name)
      {
        assert acc[..k + 1][..k] == acc[..k];
        if acc[k].name == name {
          r := Found(acc[k].ino);
        }
        k := k + 1;
      }
      assert acc[..k] == acc;
    }

    /** a1fs_readdir: the names passed to the filler, in order. */
    method ReadDir(i: Ino) returns (names: seq<string>)
      requires Wf(Value()) && IsDir(Value(), i) && |Entries(Value(), i)| <= MAX_ENTRIES
      ensures |names| == |Entries(Value(), i)|
      ensures forall k :: 0 <= k < |names| ==> names[k] == Entries(Value(), i)[k].name
      ensures forall n :: n in names <==> Find(Value(), i, n).Found?
    {
      var acc := Collect(i, true);
      names := seq(|acc|, k requires 0 <= k < |acc| => acc[k].name);
      forall n
        ensures n in names <==> Find(Value(), i, n).Found?
      {
        ListedIffFound(acc, n);
        if k :| 0 <= k < |acc| && acc[k].name == n {
          assert names[k] == n;
        }
      }
    }

    /** path_inode on the components of an absolute path. */
    method PathInode(path: seq<string>) returns (r: Lookup)
      requires Wf(Value()) && Closed(Value()) && IsDir(Value(), 0)
      requires forall i | IsDir(Value(), i) :: |Entries(Value(), i)| <= MAX_ENTRIES
      ensures r == Resolve(Value(), 0, path)
    {
      var root: Ino := 0;
      var k := 0;
      while k < |path|
        invariant k <= |path| && root in used && (k < |path| ==> IsDir(Value(), root))
        invariant Resolve(Value(), 0, path) == Resolve(Value(), root, path[k..])
      {
        assert path[k..][1..] == path[k + 1..];
        r := Helper(root, path[k]);
        FindsUsed(Value(), root, path[k]);
        if r.NoEntry? {
          return;
        }
        root := r.ino;
        k := k + 1;
        if k < |path| && !inodes[root].dir {
          return NotDirectory;
        }
      }
      return Found(root);
    }

    /** a1fs_create on a resolved parent, with the inode the allocator chose. */
    method Create(p: Ino, name: string, ino: Ino)
      requires CanAppend(Value(), p) && ino < |inodes|
      modifies this
      ensures Value() == CreateImage(old(Value()), p, name, ino)
      ensures old(HasRoom(Value(), p)) && ino != p ==>
                OneBlock(Value(), p) && Entries(Value(), p) == old(Entries(Value(), p)) + [Dentry(ino, name)]
    {
      if HasRoom(Value(), p) && ino != p {
        CreateAppends(Value(), p, name, ino);
      }
      used := used + {ino};
      var e := extents[p][inodes[p].extentCount - 1];
      var slot := (inodes[p].size % BLOCK_SIZE) / DENTRY_SIZE;
      var block := e.start + e.count - 1;
      inodes := inodes[p := inodes[p].(links := inodes[p].links + 1)];
      inodes := inodes[p := inodes[p].(size := inodes[p].size + DENTRY_SIZE)];
      inodes := inodes[ino := Inode(false, 1, 0, ino, 0)];
      blocks := blocks[block := blocks[block][slot := Dentry(ino, name)]];
    }

    /** The inode, the extent and the dot entries of a new directory. */
    method InitDir(p: Ino, ino: Ino, blk: nat)
      requires ino < |inodes| == |extents| && |extents[ino]| > 0 && blk < |blocks| && |blocks[blk]| == PER_BLOCK
      modifies this`inodes, this`extents, this`blocks
      ensures inodes == old(inodes)[ino := Inode(true, 2, 2 * DENTRY_SIZE, ino, 1)]
      ensures extents == old(extents)[ino := old(extents)[ino][0 := Extent(blk, 1)]]
      ensures blocks == old(blocks)[blk := old(blocks)[blk][0 := Dentry(ino, ".")][1 := Dentry(p, "..")]]
    {
      extents := extents[ino := extents[ino][0 := Extent(blk, 1)]];
      inodes := inodes[ino := Inode(true, 2, 2 * DENTRY_SIZE, ino, 1)];
      blocks := blocks[blk := blocks[blk][0 := Dentry(ino, ".")]];
      blocks := blocks[blk := blocks[blk][1 := Dentry(p, "..")]];
    }

    /** The writes of a1fs_mkdir, with the inode and block the allocator chose. */
    method WriteDir(p: Ino, name: string, ino: Ino, blk: nat)
      requires CanAppend(Value(), p) && ino < |inodes| && blk < |blocks|
      modifies this
      ensures Value() == MkdirImage(old(Value()), p, name, ino, blk)
    {
      used := used + {ino};
      var e := extents[p][inodes[p].extentCount - 1];
      var slot := (inodes[p].size % BLOCK_SIZE) / DENTRY_SIZE;
      var block := e.start + e.count - 1;
      inodes := inodes[p := inodes[p].(size := inodes[p].size + DENTRY_SIZE)];
      inodes := inodes[p := inodes[p].(links := inodes[p].links + 1)];
      InitDir(p, ino, blk);
      blocks := blocks[block := blocks[block][slot := Dentry(ino, name)]];
    }

    /** a1fs_mkdir on a resolved parent. */
    method Mkdir(p: Ino, name: string, ino: Ino, blk: nat)
      requires CanAppend(Value(), p) && ino < |inodes| && blk < |blocks|
      modifies this
      ensures Value() == MkdirImage(old(Value()), p, name, ino, blk)
      ensures old(HasRoom(Value(), p)) && ino != p && blk != old(Block(Value(), p)) ==>
                && OneBlock(Value(), p) && Entries(Value(), p) == old(Entries(Value(), p)) + [Dentry(ino, name)]
                && OneBlock(Value(), ino) && Entries(Value(), ino) == [Dentry(ino, "."), Dentry(p, "..")]
    {
      if HasRoom(Value(), p) && ino != p && blk != Block(Value(), p) {
        MkdirAppends(Value(), p, name, ino, blk);
      }
      WriteDir(p, name, ino, blk);
    }

    /** The innermost removal loop: the slots of block j; w is the inode whose size is used and updated. */
    method RemoveFromBlock(p: Ino, w: Ino, name: string, j: nat) returns (found: bool)
      requires Removable(Value(), p, w) && j == Block(Value(), p)
      modifies this`inodes, this`blocks
      ensures found <==> FirstSlot(old(blocks)[j], name) < PER_BLOCK
      ensures Value() == RemoveVia(old(Value()), p, w, name)
    {
      var numLastEntry := (inodes[w].size / DENTRY_SIZE) % PER_BLOCK;
      var x := 0;
      while x < PER_BLOCK && blocks[j][x].name != name
        invariant x <= PER_BLOCK && forall k :: 0 <= k < x ==> blocks[j][k].name != name
      {
        x := x + 1;
      }
      assert x == FirstSlot(blocks[j], name);
      if x == PER_BLOCK {
        return false;
      }
      if x != numLastEntry - 1 {
        var last := extents[p][inodes[w].extentCount - 1];
        SlotAddress(last.start + last.count - 1, numLastEntry);
        var address := (last.start + last.count - 1) * PER_BLOCK + numLastEntry - 1;
        var lastEntry := blocks[address / PER_BLOCK][address % PER_BLOCK];
        blocks := blocks[j := blocks[j][x := lastEntry]];
      }
      inodes := inodes[w := inodes[w].(size := inodes[w].size - DENTRY_SIZE)];
      return true;
    }

    /** The middle removal loop: the blocks of the first extent. */
    method RemoveFromExtent(p: Ino, w: Ino, name: string) returns (found: bool)
      requires Removable(Value(), p, w)
      modifies this`inodes, this`blocks
      ensures found <==> FirstSlot(old(blocks)[Block(old(Value()), p)], name) < PER_BLOCK
      ensures Value() == RemoveVia(old(Value()), p, w, name)
    {
      var start, count := extents[p][0].start, extents[p][0].count;
      found := false;
      var j := start;
      while j < count + start && !found
        invariant start <= j <= start + count
        invariant j == start ==> !found && Value() == old(Value())
        invariant j > start ==> (found <==> FirstSlot(old(blocks)[start], name) < PER_BLOCK)
        invariant j > start ==> Value() == RemoveVia(old(Value()), p, w, name)
      {
        found := RemoveFromBlock(p, w, name, j);
        j := j + 1;
      }
    }

    /** The removal loops of a1fs_rmdir and a1fs_unlink over the extents of the parent, counted in inode w. */
    method RemoveName(p: Ino, w: Ino, name: string) returns (found: bool)
      requires Removable(Value(), p, w) || (w < |inodes| && inodes[w].extentCount == 0)
      modifies this`inodes, this`blocks
      ensures old(Removable(Value(), p, w)) ==>
                && (found <==> FirstSlot(old(blocks)[Block(old(Value()), p)], name) < PER_BLOCK)
                && Value() == RemoveVia(old(Value()), p, w, name)
      ensures old(inodes[w].extentCount) == 0 ==> !found && Value() == old(Value())
    {
      found := false;
      var i, n := 0, inodes[w].extentCount;
      while i < inodes[w].extentCount && !found
        invariant w < |inodes| && inodes[w].extentCount == n <= 1 && 0 <= i <= n
        invariant i == 0 ==> !found && Value() == old(Value())
        invariant i == 1 ==> (found <==> FirstSlot(old(blocks)[Block(old(Value()), p)], name) < PER_BLOCK)
        invariant i == 1 ==> Value() == RemoveVia(old(Value()), p, w, name)
        decreases n - i
      {
        found := RemoveFromExtent(p, w, name);
        i := i + 1;
      }
    }

    /** a1fs_rmdir on a resolved parent. */
    method Rmdir(p: Ino, name: string) returns (r: Status)
      requires HasRoom(Value(), p) && inodes[p].links > 0 && Closed(Value()) && Find(Value(), p, name).Found?
      modifies this`used, this`inodes, this`blocks
      ensures var c := old(Find(Value(), p, name).ino);
              && c in old(used) && (r == NotEmpty <==> old(inodes)[c].links != 2)
              && Value() == if r == NotEmpty then old(Value()) else Unmark(DropLink(RemoveEntry(old(Value()), p, name), p), c)
    {
      OneBlockEntries(Value(), p);
      HasRoomRemovable(Value(), p);
      FoundHasSlot(Value(), p, name);
      var child := Helper(p, name);
      FindsUsed(Value(), p, name);
      if inodes[child.ino].links != 2 {
        return NotEmpty;
      }
      var found := RemoveName(p, p, name);
      if found {
        inodes := inodes[p := inodes[p].(links := inodes[p].links - 1)];
      }
      used := used - {child.ino};
      return Done;
    }

    /** a1fs_unlink; the inode it updates is the one at 64 times the parent's number. */
    method Unlink(p: Ino, name: string)
      requires CanUnlink(Value(), p) && Find(Value(), p, name).Found?
      modifies this`used, this`inodes, this`blocks
      ensures Value() == Unmark(UnlinkImage(old(Value()), p, name), old(Find(Value(), p, name).ino))
    {
      OneBlockEntries(Value(), p);
      var file := Helper(p, name);
      var parent := p * 64;
      DropLinkElsewhere(Value(), p, parent);
      inodes := inodes[parent := inodes[parent].(links := inodes[parent].links - 1)];
      var _ := RemoveName(p, parent, name);
      used := used - {file.ino};
    }
  }
}
