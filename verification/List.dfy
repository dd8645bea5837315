/** The circular intrusive doubly linked list of list.h, proved against the sequence of its entries. */
module Lists {

  class ListEntry {
    var next: ListEntry?
    var prev: ListEntry?

    /** list_entry_init */
    constructor ()
      ensures next == null == prev
    {
      next, prev := null, null;
    }

    function IsLinked(): bool
      reads this
    {
      next != null
    }
  }

  /** The entries in order, starting at the head, close into a ring in both directions. */
  ghost predicate Circular(ring: seq<ListEntry>)
    reads ring
  {
    && ring != []
    && Distinct(ring)
    && (forall i {:trigger ring[i].next} :: 0 <= i < |ring| ==> ring[i].next == if i + 1 < |ring| then ring[i + 1] else ring[0])
    && (forall i {:trigger ring[i].prev} :: 0 <= i < |ring| ==> ring[i].prev == if i > 0 then ring[i - 1] else ring[|ring| - 1])
  }

  ghost predicate Distinct(s: seq<ListEntry>)
  {
    forall i, j :: 0 <= i < j < |s| ==> s[i] != s[j]
  }

  /** The ring after inserting `x` at position k of the entries. */
  lemma InsertAt(h: ListEntry, e: seq<ListEntry>, k: nat, x: ListEntry)
    requires Distinct([h] + e) && x !in [h] + e && k <= |e|
    ensures var s, s' := [h] + e, [h] + (e[..k] + [x] + e[k..]);
            && Distinct(s') && |s'| == |s| + 1
            && (forall i {:trigger s'[i]} :: 0 <= i <= k ==> s'[i] == s[i])
            && s'[k + 1] == x
            && (forall i {:trigger s'[i]} :: k + 1 < i < |s'| ==> s'[i] == s[i - 1])
  {
    var s, s' := [h] + e, [h] + (e[..k] + [x] + e[k..]);
    assert s' == s[..k + 1] + [x] + s[k + 1..];
  }

  lemma RemoveAt(s: seq<ListEntry>, k: nat, s': seq<ListEntry>)
    requires Distinct(s) && k < |s| && s' == s[..k] + s[k + 1..]
    ensures Distinct(s') && |s'| == |s| - 1 && s[k] !in s'
    ensures forall i {:trigger s'[i]} :: 0 <= i < |s'| ==> s'[i] == if i < k then s[i] else s[i + 1]
  {
  }

  class List {
    const head: ListEntry
    ghost var entries: seq<ListEntry>

    ghost function Ring(): seq<ListEntry>
      reads this
    {
      [head] + entries
    }

    ghost predicate Valid()
      reads this, Ring()
    {
      Circular(Ring())
    }

    /** list_init */
    constructor ()
      ensures Valid() && entries == [] && fresh(head)
    {
      var h := new ListEntry();
      h.next, h.prev := h, h;
      head := h;
      entries := [];
    }

    /** The four assignments of __list_insert. */
    static method Link(entry: ListEntry, prev: ListEntry, next: ListEntry)
      requires entry != prev && entry != next
      modifies entry, prev`next, next`prev
      ensures entry.prev == prev && entry.next == next && prev.next == entry && next.prev == entry
    {
      next.prev := entry;
      entry.next := next;
      entry.prev := prev;
      prev.next := entry;
    }

    /** The assignments of list_del. */
    static method Unlink(entry: ListEntry)
      requires entry.next != null && entry.prev != null && entry.next != entry && entry.prev != entry
      modifies entry, entry.next`prev, entry.prev`next
      ensures old(entry.next).prev == old(entry.prev) && old(entry.prev).next == old(entry.next)
      ensures entry.next == null == entry.prev
    {
      entry.next.prev := entry.prev;
      entry.prev.next := entry.next;
      entry.next, entry.prev := null, null;
    }

    /** __list_insert: `entry` goes between the entries at positions k and k + 1 of the ring. */
    method Insert(entry: ListEntry, prev: ListEntry, next: ListEntry, ghost k: nat)
      requires Valid() && entry !in Ring() && k < |Ring()|
      requires prev == Ring()[k] && next == if k + 1 < |Ring()| then Ring()[k + 1] else head
      modifies this`entries, entry, prev, next
      ensures Valid() && entries == old(entries)[..k] + [entry] + old(entries)[k..]
    {
      ghost var was := Ring();
      InsertAt(head, entries, k, entry);
      entries := entries[..k] + [entry] + entries[k..];
      ghost var now := Ring();
      assert now[k] == prev && (k + 2 < |now| ==> now[k + 2] == next) && now[0] == was[0] == head;
      Link(entry, prev, next);
      forall i | 0 <= i < |now|
        ensures now[i].next == if i + 1 < |now| then now[i + 1] else now[0]
      {
      }
      forall i | 0 <= i < |now|
        ensures now[i].prev == if i > 0 then now[i - 1] else now[|now| - 1]
      {
      }
    }

    method AddHead(entry: ListEntry)
      requires Valid() && entry !in Ring()
      modifies this`entries, entry, Ring()
      ensures Valid() && entries == [entry] + old(entries)
    {
      assert Ring()[0] == head;
      Insert(entry, head, head.next, 0);
    }

    method AddTail(entry: ListEntry)
      requires Valid() && entry !in Ring()
      modifies this`entries, entry, Ring()
      ensures Valid() && entries == old(entries) + [entry]
    {
      assert Ring()[0] == head && Ring()[|entries|].next == head;
      Insert(entry, head.prev, head, |entries|);
    }

    /** list_del, for the entry at position k. */
    method Delete(entry: ListEntry, ghost k: nat)
      requires Valid() && k < |entries| && entries[k] == entry
      modifies this`entries, Ring()
      ensures Valid() && !entry.IsLinked() && entry !in entries
      ensures entries == old(entries)[..k] + old(entries)[k + 1..]
    {
      ghost var was := Ring();
      ghost var now := was[..k + 1] + was[k + 2..];
      RemoveAt(was, k + 1, now);
      entries := entries[..k] + entries[k + 1..];
      assert Ring() == now && entries == now[1..] && now[0] == was[0] == head && was[k + 1] == entry;
      assert entry.next == if k + 2 < |was| then was[k + 2] else head;
      assert entry.prev == was[k];
      Unlink(entry);
      forall i | 0 <= i < |now|
        ensures now[i].next == if i + 1 < |now| then now[i + 1] else now[0]
      {
      }
      forall i | 0 <= i < |now|
        ensures now[i].prev == if i > 0 then now[i - 1] else now[|now| - 1]
      {
      }
    }

    /** list_for_each, recording the entries it hands to the loop body. */
    method ForEach() returns (visited: seq<ListEntry>)
      requires Valid()
      ensures visited == entries
    {
      visited := [];
      assert Ring()[0] == head;
      assert forall i :: 0 <= i < |entries| ==> Ring()[i + 1] == entries[i];
      var pos := head.next;
      while pos != head
        invariant |visited| <= |entries| && visited == entries[..|visited|]
        invariant pos == if |visited| < |entries| then entries[|visited|] else head
        decreases |entries| - |visited|
      {
        assert pos == Ring()[|visited| + 1];
        visited := visited + [pos];
        pos := pos.next;
      }
    }
  }

  /** Registering a node and removing it again, as a poll call does, restores the list and touches no other one. */
  method AddThenDelete(a: List, b: List, entry: ListEntry)
    requires a.Valid() && b.Valid() && a != b
    requires entry !in a.Ring() && forall x | x in b.Ring() :: x !in a.Ring() && x != entry
    modifies a`entries, entry, a.Ring()
    ensures a.Valid() && a.entries == old(a.entries) && !entry.IsLinked()
    ensures b.Valid() && b.entries == old(b.entries)
  {
    ghost var ring, was := a.Ring(), a.entries;
    a.AddTail(entry);
    assert a.Ring() == ring + [entry];
    a.Delete(entry, |was|);
    assert a.entries == was;
    assert forall i :: 0 <= i < |b.Ring()| ==> b.Ring()[i] in old(b.Ring());
  }
}
