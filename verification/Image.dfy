/** The parts of an a1fs image that the directory layer works on: inode bitmap, inode table, extent blocks, data blocks. */
module Images {
  import opened Directory

  const DENTRY_SIZE := 256
  const BLOCK_SIZE := 4096
  const PER_BLOCK := 16

  datatype Extent = Extent(start: nat, count: nat)

  datatype Inode = Inode(dir: bool, links: nat, size: nat, number: nat, extentCount: nat)

  /** `used` is the inode bitmap; inodes and blocks not in use hold whatever bytes were there. */
  datatype Image = Image(used: set<Ino>, inodes: seq<Inode>, extents: seq<seq<Extent>>, blocks: seq<seq<Dentry>>)

  /** All slots of an extent, in order. */
  ghost function ExtentSlots(blocks: seq<seq<Dentry>>, start: nat, count: nat): seq<Dentry>
    requires start + count <= |blocks|
  {
    if count == 0 then [] else ExtentSlots(blocks, start, count - 1) + blocks[start + count - 1]
  }

  ghost predicate InTable(blocks: seq<seq<Dentry>>, es: seq<Extent>)
  {
    forall k :: 0 <= k < |es| ==> es[k].start + es[k].count <= |blocks|
  }

  /** All slots of a list of extents, in order. */
  ghost function Slots(blocks: seq<seq<Dentry>>, es: seq<Extent>): seq<Dentry>
    requires InTable(blocks, es)
  {
    if es == [] then []
    else
      var last := es[|es| - 1];
      Slots(blocks, es[..|es| - 1]) + ExtentSlots(blocks, last.start, last.count)
  }

  function Prefix<T>(s: seq<T>, n: nat): seq<T>
  {
    if n <= |s| then s[..n] else s
  }

  ghost predicate DirOk(img: Image, i: nat)
    requires i < |img.inodes|
  {
    var d := img.inodes[i];
    && d.number == i < |img.extents|
    && d.extentCount <= |img.extents[i]|
    && forall k :: 0 <= k < d.extentCount ==> img.extents[i][k].start + img.extents[i][k].count <= |img.blocks|
  }

  /** Tables have their shape, and the directories in use lie inside the data area. */
  ghost predicate Wf(img: Image)
  {
    && img.inodes != [] && |img.extents| == |img.inodes|
    && (forall i :: 0 <= i < |img.extents| ==> |img.extents[i]| == 512)
    && (forall b :: 0 <= b < |img.blocks| ==> |img.blocks[b]| == PER_BLOCK)
    && (forall i | i in img.used :: i < |img.inodes| && (img.inodes[i].dir ==> DirOk(img, i)))
  }

  ghost predicate IsDir(img: Image, i: Ino) { i in img.used && i < |img.inodes| && img.inodes[i].dir }

  /** The extents of a directory. */
  ghost function DirExtents(img: Image, i: Ino): (es: seq<Extent>)
    requires Wf(img) && IsDir(img, i)
    ensures InTable(img.blocks, es)
  {
    assert DirOk(img, i);
    img.extents[i][..img.inodes[i].extentCount]
  }

  /** The entries of a directory: its slots up to its size. */
  ghost function Entries(img: Image, i: Ino): seq<Dentry>
    requires Wf(img) && IsDir(img, i)
  {
    Prefix(Slots(img.blocks, DirExtents(img, i)), img.inodes[i].size / DENTRY_SIZE)
  }

  /** The entries of directories in use name inodes in use. */
  ghost predicate Closed(img: Image)
    requires Wf(img)
  {
    forall i, k | IsDir(img, i) && 0 <= k < |Entries(img, i)| :: Entries(img, i)[k].ino in img.used
  }

  lemma {:induction false} MatchIsEntry(es: seq<Dentry>, name: string)
    ensures LastMatch(es, name).Found? ==> exists k :: 0 <= k < |es| && es[k] == Dentry(LastMatch(es, name).ino, name)
  {
    if es != [] && es[|es| - 1].name != name {
      MatchIsEntry(es[..|es| - 1], name);
    }
  }

  /** `helper`: the entry of that name in directory i. */
  ghost function Find(img: Image, i: Ino, name: string): (r: Lookup)
    requires Wf(img) && IsDir(img, i)
    ensures !r.NotDirectory?
  {
    LookupIsMap(Entries(img, i), name);
    LastMatch(Entries(img, i), name)
  }

  lemma FindsUsed(img: Image, i: Ino, name: string)
    requires Wf(img) && Closed(img) && IsDir(img, i)
    ensures Find(img, i, name).Found? ==> Find(img, i, name).ino in img.used
  {
    MatchIsEntry(Entries(img, i), name);
  }

  /** `path_inode` from directory i: every component but the last must resolve to a directory. */
  ghost function Resolve(img: Image, i: Ino, path: seq<string>): Lookup
    requires Wf(img) && (path != [] ==> IsDir(img, i))
    decreases |path|
  {
    if path == [] then Found(i)
    else
      var r := Find(img, i, path[0]);
      if r.NoEntry? then NoEntry
      else if |path| > 1 && !IsDir(img, r.ino) then NotDirectory
      else Resolve(img, r.ino, path[1..])
  }

  /** Resolving one more component is a lookup in what the shorter path resolves to. */
  lemma {:induction false} ResolveExtend(img: Image, i: Ino, path: seq<string>, name: string)
    requires Wf(img) && IsDir(img, i)
    ensures Resolve(img, i, path + [name]) ==
            match Resolve(img, i, path)
            case Found(j) => if IsDir(img, j) then Find(img, j, name) else NotDirectory
            case e => e
    decreases |path|
  {
    var whole := path + [name];
    if path == [] {
      assert whole[1..] == [];
    } else {
      assert whole[0] == path[0] && whole[1..] == path[1..] + [name];
      var r := Find(img, i, path[0]);
      if r.Found? && IsDir(img, r.ino) {
        ResolveExtend(img, r.ino, path[1..], name);
      }
    }
  }

  /** The first k components resolve to something that is not a directory. */
  ghost predicate BlockedAt(img: Image, i: Ino, path: seq<string>, k: nat)
    requires Wf(img) && IsDir(img, i)
  {
    0 < k < |path| && Resolve(img, i, path[..k]).Found? && !IsDir(img, Resolve(img, i, path[..k]).ino)
  }

  /** The first k components resolve to a directory in which component k is not found. */
  ghost predicate MissingAt(img: Image, i: Ino, path: seq<string>, k: nat)
    requires Wf(img) && IsDir(img, i)
  {
    k < |path| && Resolve(img, i, path[..k]).Found? && IsDir(img, Resolve(img, i, path[..k]).ino) &&
    Find(img, Resolve(img, i, path[..k]).ino, path[k]) == NoEntry
  }

  /** With one component more, the errors are those of the shorter path and the one at its end. */
  lemma ErrorsExtend(img: Image, i: Ino, front: seq<string>, name: string, k: nat)
    requires Wf(img) && IsDir(img, i) && k <= |front|
    ensures BlockedAt(img, i, front + [name], k) <==>
            if k < |front| then BlockedAt(img, i, front, k)
            else Resolve(img, i, front).Found? && !IsDir(img, Resolve(img, i, front).ino)
    ensures MissingAt(img, i, front + [name], k) <==>
            if k < |front| then MissingAt(img, i, front, k)
            else Resolve(img, i, front).Found? && IsDir(img, Resolve(img, i, front).ino) &&
                 Find(img, Resolve(img, i, front).ino, name) == NoEntry
  {
    assert (front + [name])[..k] == front[..k];
    if k == |front| {
      assert front[..k] == front;
    } else {
      assert (front + [name])[k] == front[k];
    }
  }

  /** path_inode answers ENOTDIR exactly when a proper prefix is no directory, ENOENT exactly when a component is missing from one. */
  lemma {:induction false} ResolveErrors(img: Image, i: Ino, path: seq<string>)
    requires Wf(img) && IsDir(img, i)
    ensures Resolve(img, i, path) == NotDirectory <==> exists k: nat :: BlockedAt(img, i, path, k)
    ensures Resolve(img, i, path) == NoEntry <==> exists k: nat :: MissingAt(img, i, path, k)
    decreases |path|
  {
    if path != [] {
      var n := |path| - 1;
      var front, name := path[..n], path[n];
      assert path == front + [name];
      ResolveErrors(img, i, front);
      ResolveExtend(img, i, front, name);
      ErrorsExtend(img, i, front, name, n);
      forall k: nat | k < n
        ensures BlockedAt(img, i, front, k) ==> BlockedAt(img, i, path, k)
        ensures MissingAt(img, i, front, k) ==> MissingAt(img, i, path, k)
      {
        ErrorsExtend(img, i, front, name, k);
      }
      forall k: nat | k < n
        ensures BlockedAt(img, i, path, k) ==> BlockedAt(img, i, front, k)
        ensures MissingAt(img, i, path, k) ==> MissingAt(img, i, front, k)
      {
        ErrorsExtend(img, i, front, name, k);
      }
      assert BlockedAt(img, i, path, n) <==> Resolve(img, i, path) == NotDirectory && Resolve(img, i, front).Found?;
    }
  }
}
