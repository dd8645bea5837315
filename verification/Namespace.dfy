/** The namespace as a tree of finite maps, and what creating and removing names does to it. */
module Namespace {
  import opened Directory

  /** History of a live inode: the directory that names it, the name, and its distance from the root. */
  datatype Place = Place(parent: Ino, name: string, depth: nat)

  datatype Tree = Tree(dirs: map<Ino, map<string, Ino>>, nodes: map<Ino, Place>)

  predicate Dot(n: string) { n == "." || n == ".." }

  const ROOT: Ino := 0

  /** Directory d holds its dot entries, and its other entries are exactly the nodes placed there. */
  ghost predicate DirSound(t: Tree, d: Ino)
    requires d in t.dirs && d in t.nodes
  {
    && "." in t.dirs[d] && t.dirs[d]["."] == d
    && ".." in t.dirs[d] && t.dirs[d][".."] == t.nodes[d].parent
    && forall n | n in t.dirs[d] && !Dot(n) ::
         var c := t.dirs[d][n]; c != ROOT && c in t.nodes && t.nodes[c].parent == d && t.nodes[c].name == n
  }

  /** A node other than the root is named by its parent directory, one step closer to the root. */
  ghost predicate NodeSound(t: Tree, c: Ino)
    requires c in t.nodes
  {
    var pl := t.nodes[c];
    if c == ROOT then pl.parent == ROOT && pl.depth == 0
    else
      && pl.parent in t.dirs && pl.parent in t.nodes && !Dot(pl.name)
      && pl.name in t.dirs[pl.parent] && t.dirs[pl.parent][pl.name] == c
      && pl.depth == t.nodes[pl.parent].depth + 1
  }

  ghost predicate IsTree(t: Tree)
  {
    && ROOT in t.dirs
    && (forall d: Ino | d in t.dirs :: d in t.nodes)
    && (forall d: Ino {:trigger DirSound(t, d)} | d in t.dirs :: DirSound(t, d))
    && (forall c: Ino {:trigger NodeSound(t, c)} | c in t.nodes :: NodeSound(t, c))
  }

  /** An empty directory d below p. */
  function Dots(d: Ino, p: Ino): map<string, Ino>
  {
    map["." := d, ".." := p]
  }

  /** The formatted file system. */
  function Formatted(): Tree
  {
    Tree(map[ROOT := Dots(ROOT, ROOT)], map[ROOT := Place(ROOT, "/", 0)])
  }

  function AddPlace(nodes: map<Ino, Place>, p: Ino, name: string, c: Ino): map<Ino, Place>
  {
    nodes[c := Place(p, name, if p in nodes then nodes[p].depth + 1 else 0)]
  }

  function AddName(t: Tree, p: Ino, name: string, c: Ino): Tree
    requires p in t.dirs && p in t.nodes
  {
    var m: map<string, Ino> := t.dirs[p][name := c];
    Tree(t.dirs[p := m], AddPlace(t.nodes, p, name, c))
  }

  function AddDir(t: Tree, p: Ino, name: string, c: Ino): Tree
    requires p in t.dirs && p in t.nodes
  {
    var a := AddName(t, p, name, c);
    a.(dirs := a.dirs[c := Dots(c, p)])
  }

  function RemoveName(t: Tree, p: Ino, name: string): Tree
    requires p in t.dirs && name in t.dirs[p]
  {
    var c := t.dirs[p][name];
    var m: map<string, Ino> := t.dirs[p] - {name};
    Tree(t.dirs[p := m] - {c}, t.nodes - {c})
  }

  /** Inode d is a directory of both trees, with the same map, or of neither. */
  ghost predicate Same(t: Tree, t': Tree, d: Ino)
  {
    (d in t'.dirs <==> d in t.dirs) && (d in t.dirs ==> t'.dirs[d] == t.dirs[d])
  }

  lemma SameDirs(t: Tree, t': Tree)
    requires forall d: Ino :: Same(t, t', d)
    ensures t.dirs == t'.dirs
  {
    forall d: Ino
      ensures (d in t.dirs <==> d in t'.dirs) && (d in t.dirs ==> t.dirs[d] == t'.dirs[d])
    {
      assert Same(t, t', d);
    }
  }

  lemma IsAddName(t: Tree, t': Tree, p: Ino, name: string, c: Ino, m: map<string, Ino>, m': map<string, Ino>)
    requires p in t.dirs && p in t.nodes && p in t'.dirs && t.dirs[p] == m && t'.dirs[p] == m' == m[name := c]
    requires t'.nodes == AddPlace(t.nodes, p, name, c)
    requires forall d: Ino | d != p :: Same(t, t', d)
    ensures t' == AddName(t, p, name, c)
  {
    forall d: Ino
      ensures Same(t', AddName(t, p, name, c), d)
    {
      assert d != p ==> Same(t, t', d);
    }
    SameDirs(t', AddName(t, p, name, c));
  }

  lemma IsAddDir(t: Tree, t': Tree, p: Ino, name: string, c: Ino, m: map<string, Ino>, m': map<string, Ino>)
    requires p in t.dirs && p in t.nodes && p in t'.dirs && t.dirs[p] == m && t'.dirs[p] == m' == m[name := c] && c != p
    requires c in t'.dirs && t'.dirs[c] == Dots(c, p)
    requires t'.nodes == AddPlace(t.nodes, p, name, c)
    requires forall d: Ino | d != p && d != c :: Same(t, t', d)
    ensures t' == AddDir(t, p, name, c)
  {
    forall d: Ino
      ensures Same(t', AddDir(t, p, name, c), d)
    {
      assert d != p && d != c ==> Same(t, t', d);
    }
    SameDirs(t', AddDir(t, p, name, c));
  }

  lemma IsRemoveName(t: Tree, t': Tree, p: Ino, name: string)
    requires p in t.dirs && name in t.dirs[p] && p in t'.dirs && t'.dirs[p] == t.dirs[p] - {name}
    requires var c := t.dirs[p][name]; c != p && c !in t'.dirs && t'.nodes == t.nodes - {c}
    requires forall d: Ino | d != p && d != t.dirs[p][name] :: Same(t, t', d)
    ensures t' == RemoveName(t, p, name)
  {
    forall d: Ino
      ensures Same(t', RemoveName(t, p, name), d)
    {
      assert d != p && d != t.dirs[p][name] ==> Same(t, t', d);
    }
    SameDirs(t', RemoveName(t, p, name));
  }

  predicate OnlyDots(m: map<string, Ino>) { forall n | n in m :: Dot(n) }

  lemma FormattedIsTree()
    ensures IsTree(Formatted())
  {
  }

  lemma AddFileKeepsTree(t: Tree, p: Ino, name: string, c: Ino)
    requires IsTree(t) && p in t.dirs && p in t.nodes && name !in t.dirs[p] && c !in t.nodes
    ensures IsTree(AddName(t, p, name, c))
  {
    var t' := AddName(t, p, name, c);
    assert DirSound(t, p);
    forall d: Ino | d in t'.dirs
      ensures d in t'.nodes && DirSound(t', d)
    {
      AddKeepsDir(t, p, name, c, d);
    }
    forall x: Ino | x in t'.nodes
      ensures NodeSound(t', x)
    {
      assert x != c ==> NodeSound(t, x);
    }
  }

  lemma AddKeepsDir(t: Tree, p: Ino, name: string, c: Ino, d: Ino)
    requires IsTree(t) && p in t.dirs && p in t.nodes && name !in t.dirs[p] && c !in t.nodes && d in t.dirs
    ensures var t' := AddName(t, p, name, c); d in t'.nodes && DirSound(t', d)
  {
    assert DirSound(t, d);
  }

  lemma AddDirKeepsTree(t: Tree, p: Ino, name: string, c: Ino)
    requires IsTree(t) && p in t.dirs && p in t.nodes && name !in t.dirs[p] && c !in t.nodes
    ensures IsTree(AddDir(t, p, name, c))
  {
    AddFileKeepsTree(t, p, name, c);
    var a, t' := AddName(t, p, name, c), AddDir(t, p, name, c);
    forall d: Ino | d in t'.dirs
      ensures d in t'.nodes && DirSound(t', d)
    {
      assert d != c ==> DirSound(a, d);
    }
    forall x: Ino | x in t'.nodes
      ensures NodeSound(t', x)
    {
      assert NodeSound(a, x);
    }
  }

  /** A file or an empty directory about to be removed is nobody's parent. */
  lemma LeafHasNoChildren(t: Tree, p: Ino, name: string)
    requires IsTree(t) && p in t.dirs && name in t.dirs[p] && !Dot(name)
    requires var c := t.dirs[p][name]; c in t.dirs ==> OnlyDots(t.dirs[c])
    ensures var c := t.dirs[p][name];
            && c != p && c != ROOT && c in t.nodes
            && forall x: Ino | x in t.nodes && x != ROOT :: t.nodes[x].parent != c
  {
    var c := t.dirs[p][name];
    assert DirSound(t, p) && NodeSound(t, c) && NodeSound(t, p);
    forall x: Ino | x in t.nodes && x != ROOT
      ensures t.nodes[x].parent != c
    {
      assert NodeSound(t, x);
    }
  }

  lemma RemoveKeepsDir(t: Tree, p: Ino, name: string, d: Ino)
    requires IsTree(t) && p in t.dirs && name in t.dirs[p] && !Dot(name) && t.dirs[p][name] != p
    requires d in t.dirs && d != t.dirs[p][name]
    ensures var t' := RemoveName(t, p, name); d in t'.dirs && d in t'.nodes && DirSound(t', d)
  {
    assert DirSound(t, d) && DirSound(t, p) && NodeSound(t, d);
    assert d != ROOT ==> NodeSound(t, t.nodes[d].parent);
  }

  lemma RemoveKeepsNode(t: Tree, p: Ino, name: string, x: Ino)
    requires p in t.dirs && name in t.dirs[p] && t.dirs[p][name] != p
    requires x in t.nodes && NodeSound(t, x) && x != t.dirs[p][name] && (x != ROOT ==> t.nodes[x].parent != t.dirs[p][name])
    ensures NodeSound(RemoveName(t, p, name), x)
  {
  }

  /** Removing a file or an empty directory leaves a tree. */
  lemma RemoveKeepsTree(t: Tree, p: Ino, name: string)
    requires IsTree(t) && p in t.dirs && name in t.dirs[p] && !Dot(name)
    requires var c := t.dirs[p][name]; c in t.dirs ==> OnlyDots(t.dirs[c])
    ensures IsTree(RemoveName(t, p, name))
  {
    var c, t' := t.dirs[p][name], RemoveName(t, p, name);
    LeafHasNoChildren(t, p, name);
    forall d: Ino | d in t'.dirs
      ensures d in t'.nodes && DirSound(t', d)
    {
      RemoveKeepsDir(t, p, name, d);
    }
    forall x: Ino | x in t'.nodes
      ensures NodeSound(t', x)
    {
      RemoveKeepsNode(t, p, name, x);
    }
  }

  // ----- Paths

  /** path_inode on the tree. */
  function Walk(t: Tree, d: Ino, path: seq<string>): Lookup
    requires IsTree(t) && d in t.nodes && (path != [] ==> d in t.dirs)
    decreases |path|
  {
    if path == [] then Found(d)
    else if path[0] !in t.dirs[d] then NoEntry
    else
      var c := t.dirs[d][path[0]];
      assert DirSound(t, d) && NodeSound(t, d);
      if |path| > 1 && c !in t.dirs then NotDirectory else Walk(t, c, path[1..])
  }

  /** The components from the root to node c. */
  ghost function PathTo(t: Tree, c: Ino): seq<string>
    requires IsTree(t) && c in t.nodes
    decreases t.nodes[c].depth
  {
    assert NodeSound(t, c);
    if c == ROOT then [] else PathTo(t, t.nodes[c].parent) + [t.nodes[c].name]
  }

  lemma {:induction false} WalkExtend(t: Tree, d: Ino, path: seq<string>, name: string)
    requires IsTree(t) && d in t.dirs && d in t.nodes
    ensures Walk(t, d, path + [name]) ==
            match Walk(t, d, path)
            case Found(c) => if c !in t.dirs then NotDirectory
                             else if name in t.dirs[c] then Found(t.dirs[c][name]) else NoEntry
            case e => e
    decreases |path|
  {
    var whole := path + [name];
    if path == [] {
      assert whole[1..] == [];
      assert DirSound(t, d);
    } else {
      assert whole[0] == path[0] && whole[1..] == path[1..] + [name];
      if path[0] in t.dirs[d] {
        var c := t.dirs[d][path[0]];
        assert DirSound(t, d) && NodeSound(t, d);
        if c in t.dirs {
          WalkExtend(t, c, path[1..], name);
        }
      }
    }
  }

  predicate NoDots(path: seq<string>) { forall i :: 0 <= i < |path| ==> !Dot(path[i]) }

  lemma {:induction false} PathNoDots(t: Tree, c: Ino)
    requires IsTree(t) && c in t.nodes
    ensures NoDots(PathTo(t, c))
    decreases t.nodes[c].depth
  {
    assert NodeSound(t, c);
    if c != ROOT {
      PathNoDots(t, t.nodes[c].parent);
    }
  }

  /** Every live inode is reached from the root along its path. */
  lemma {:induction false} PathReaches(t: Tree, c: Ino)
    requires IsTree(t) && c in t.nodes
    ensures Walk(t, ROOT, PathTo(t, c)) == Found(c)
    decreases t.nodes[c].depth
  {
    assert NodeSound(t, c) && DirSound(t, ROOT);
    if c != ROOT {
      PathReaches(t, t.nodes[c].parent);
      WalkExtend(t, ROOT, PathTo(t, t.nodes[c].parent), t.nodes[c].name);
    }
  }

  /** No other path without dot components reaches it. */
  lemma {:induction false} PathUnique(t: Tree, path: seq<string>)
    requires IsTree(t) && NoDots(path) && Walk(t, ROOT, path).Found?
    ensures var c := Walk(t, ROOT, path).ino; c in t.nodes && path == PathTo(t, c)
    decreases |path|
  {
    assert NodeSound(t, ROOT);
    if path != [] {
      var front, last := path[..|path| - 1], path[|path| - 1];
      assert path == front + [last] && !Dot(last) && NoDots(front);
      WalkExtend(t, ROOT, front, last);
      PathUnique(t, front);
      ChildPath(t, Walk(t, ROOT, front).ino, last);
    }
  }

  /** The path of a child is the path of its directory and the child's name. */
  lemma ChildPath(t: Tree, d: Ino, name: string)
    requires IsTree(t) && d in t.dirs && name in t.dirs[d] && !Dot(name)
    ensures d in t.nodes && t.dirs[d][name] in t.nodes && PathTo(t, t.dirs[d][name]) == PathTo(t, d) + [name]
  {
    assert DirSound(t, d);
  }
}
