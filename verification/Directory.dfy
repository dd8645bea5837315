/** Directory contents as packed arrays of entries, and the finite maps they stand for. */
module Directory {

  type Ino = nat

  datatype Dentry = Dentry(ino: Ino, name: string)

  datatype Lookup = Found(ino: Ino) | NoEntry | NotDirectory

  /** The last loop of `helper`: a later entry overrides an earlier one. */
  function LastMatch(es: seq<Dentry>, name: string): Lookup
  {
    if es == [] then NoEntry
    else
      var last := es[|es| - 1];
      if last.name == name then Found(last.ino) else LastMatch(es[..|es| - 1], name)
  }

  /** The finite map an entry array stands for. */
  function DirMap(es: seq<Dentry>): map<string, Ino>
  {
    if es == [] then map[] else DirMap(es[..|es| - 1])[es[|es| - 1].name := es[|es| - 1].ino]
  }

  ghost predicate DistinctNames(es: seq<Dentry>)
  {
    forall i, j :: 0 <= i < j < |es| ==> es[i].name != es[j].name
  }

  lemma {:induction false} LookupIsMap(es: seq<Dentry>, name: string)
    ensures LastMatch(es, name) == if name in DirMap(es) then Found(DirMap(es)[name]) else NoEntry
  {
    if es != [] {
      LookupIsMap(es[..|es| - 1], name);
    }
  }

  /** Listing and lookup agree: a name is listed exactly when it is found. */
  lemma {:induction false} ListedIffFound(es: seq<Dentry>, name: string)
    ensures (exists i :: 0 <= i < |es| && es[i].name == name) <==> LastMatch(es, name).Found?
    ensures name in DirMap(es) <==> exists i :: 0 <= i < |es| && es[i].name == name
  {
    if es != [] {
      var front := es[..|es| - 1];
      ListedIffFound(front, name);
      if i :| 0 <= i < |front| && front[i].name == name {
        assert es[i].name == name;
      }
      if i :| 0 <= i < |es| && es[i].name == name {
        assert i < |front| ==> front[i].name == name;
      }
    }
  }

  lemma {:induction false} DistinctLookup(es: seq<Dentry>, k: nat)
    requires DistinctNames(es) && k < |es|
    ensures es[k].name in DirMap(es) && DirMap(es)[es[k].name] == es[k].ino
  {
    if k < |es| - 1 {
      DistinctLookup(es[..|es| - 1], k);
    }
  }

  lemma AppendIsInsert(es: seq<Dentry>, d: Dentry)
    ensures DirMap(es + [d]) == DirMap(es)[d.name := d.ino]
    ensures DistinctNames(es) && d.name !in DirMap(es) ==> DistinctNames(es + [d])
  {
    assert (es + [d])[..|es|] == es;
    ListedIffFound(es, d.name);
  }

  /** Swap-with-last removal of the entry at index x. */
  function SwapRemove(es: seq<Dentry>, x: nat): seq<Dentry>
    requires x < |es|
  {
    var last := |es| - 1;
    if x == last then es[..last] else es[..last][x := es[last]]
  }

  /** Two arrays with distinct names and the same entries stand for the same map. */
  lemma MapByEntries(es: seq<Dentry>, m: map<string, Ino>)
    requires DistinctNames(es)
    requires forall n | n in m :: exists i :: 0 <= i < |es| && es[i].name == n
    requires forall i :: 0 <= i < |es| ==> es[i].name in m && m[es[i].name] == es[i].ino
    ensures DirMap(es) == m
  {
    forall n
      ensures n in DirMap(es) <==> n in m
      ensures n in m ==> n in DirMap(es) && DirMap(es)[n] == m[n]
    {
      ListedIffFound(es, n);
      if n in m {
        var i :| 0 <= i < |es| && es[i].name == n;
        DistinctLookup(es, i);
      }
    }
  }

  lemma SwapRemoveAt(es: seq<Dentry>, x: nat)
    requires x < |es|
    ensures var r := SwapRemove(es, x);
            |r| == |es| - 1 && forall i {:trigger r[i]} :: 0 <= i < |r| ==> r[i] == es[if i == x then |es| - 1 else i]
    ensures DistinctNames(es) ==> DistinctNames(SwapRemove(es, x))
  {
  }

  /** Every entry but the removed one survives. */
  lemma Survives(es: seq<Dentry>, x: nat, k: nat)
    requires x < |es| && k < |es| && k != x
    ensures exists i :: 0 <= i < |SwapRemove(es, x)| && SwapRemove(es, x)[i] == es[k]
  {
    SwapRemoveAt(es, x);
    assert SwapRemove(es, x)[if k == |es| - 1 then x else k] == es[k];
  }

  lemma RemoveIsDelete(es: seq<Dentry>, x: nat)
    requires DistinctNames(es) && x < |es|
    ensures DirMap(SwapRemove(es, x)) == DirMap(es) - {es[x].name}
    ensures DistinctNames(SwapRemove(es, x))
  {
    var r, m := SwapRemove(es, x), DirMap(es) - {es[x].name};
    SwapRemoveAt(es, x);
    forall i | 0 <= i < |r|
      ensures r[i].name in m && m[r[i].name] == r[i].ino
    {
      DistinctLookup(es, if i == x then |es| - 1 else i);
    }
    forall n | n in m
      ensures exists i :: 0 <= i < |r| && r[i].name == n
    {
      ListedIffFound(es, n);
      var k :| 0 <= k < |es| && es[k].name == n;
      Survives(es, x, k);
    }
    MapByEntries(r, m);
  }
}
