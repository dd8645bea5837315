/** The values a ring can take: the array as a sequence, the two cursors and the full flag. */
module RingValues {
  import opened Framing

  const POISON: byte := 0xDD

  function Fill(n: nat): (s: seq<byte>)
    ensures |s| == n && forall i :: 0 <= i < n ==> s[i] == POISON
  {
    seq(n, _ => POISON)
  }

  /** `s` with the bytes from `at` on overwritten by `piece`. */
  function Splice(s: seq<byte>, at: nat, piece: seq<byte>): (r: seq<byte>)
    requires at + |piece| <= |s|
    ensures |r| == |s|
  {
    seq(|s|, i requires 0 <= i < |s| => if at <= i < at + |piece| then piece[i - at] else s[i])
  }

  /** Copying the end of `d` and then its start, the end already marked free or not. */
  lemma TwoParts(x: seq<byte>, y: seq<byte>, z: seq<byte>, d: seq<byte>, d': seq<byte>, head: nat, k: nat, m: nat)
    requires m <= head && head + k == |d| && k + m <= |x|
    requires d' == d || d' == Splice(d, head, Fill(k))
    requires y == Splice(x, 0, d[head..head + k]) && z == Splice(y, k, d'[0..m])
    ensures z == Splice(x, 0, d[head..head + k] + d[0..m])
  {
  }

  lemma SplicePrefix(s: seq<byte>, piece: seq<byte>)
    requires |piece| <= |s|
    ensures Splice(s, 0, piece)[..|piece|] == piece && Splice(s, 0, piece)[|piece|..] == s[|piece|..]
  {
  }

  datatype Ring = Ring(data: seq<byte>, head: nat, tail: nat, full: bool) {

    predicate InBounds()
    {
      && |data| <= SIZE_LIMIT
      && (if data == [] then head == tail == 0 && !full else head < |data| && tail < |data|)
      && (full ==> head == tail)
    }

    /** Number of bytes in the window that starts at head and ends before tail. */
    function Length(): nat
      requires InBounds()
    {
      if full then |data| else if tail >= head then tail - head else |data| + tail - head
    }

    /** Array index of the k-th byte counted from head. */
    function At(k: nat): (i: nat)
      requires InBounds() && k < |data|
      ensures i < |data|
    {
      if head + k < |data| then head + k else head + k - |data|
    }

    /** The bytes held, oldest first. */
    function Contents(): (s: seq<byte>)
      requires InBounds()
      ensures |s| == Length() <= |data|
    {
      seq(Length(), k requires 0 <= k < Length() => data[At(k)])
    }

    /** Every byte outside the window carries the poison mark. */
    predicate Poisoned()
      requires InBounds()
    {
      forall k :: Length() <= k < |data| ==> data[At(k)] == POISON
    }

    predicate Valid() { InBounds() && Poisoned() }
  }

  /** The bytes of the window that the first copy of a read takes. */
  lemma FrontLinear(r: Ring, n: nat, x: seq<byte>, x': seq<byte>)
    requires r.InBounds() && n <= r.Length() && r.head + n <= |r.data| && n <= |x|
    requires x' == Splice(x, 0, r.data[r.head..r.head + n])
    ensures x' == Splice(x, 0, r.Contents()[..n])
  {
  }

  /** A wrapped read is the rest of the array followed by a prefix of it. */
  lemma FrontWrapped(r: Ring, n: nat, x: seq<byte>, x': seq<byte>)
    requires r.InBounds() && n <= r.Length() && r.head + n > |r.data| && n <= |x|
    requires n - (|r.data| - r.head) <= r.head
    requires var k := |r.data| - r.head; x' == Splice(x, 0, r.data[r.head..r.head + k] + r.data[0..n - k])
    ensures x' == Splice(x, 0, r.Contents()[..n])
  {
  }

  /** Moving head past `n` live bytes and poisoning exactly those drops them from the contents. */
  lemma Drop(r: Ring, n: nat, r': Ring)
    requires r.Valid() && 0 < n <= r.Length()
    requires r'.tail == r.tail && !r'.full && |r'.data| == |r.data|
    requires r'.head == if n < |r.data| then r.At(n) else r.head
    requires forall k :: 0 <= k < |r.data| ==>
               r'.data[r.At(k)] == if k < n then POISON else r.data[r.At(k)]
    ensures r'.Valid() && r'.Contents() == r.Contents()[n..]
  {
    assert r'.InBounds() && r'.Length() == r.Length() - n;
    forall k | 0 <= k < |r.data| - n
      ensures r'.At(k) == r.At(n + k)
    {
    }
    forall k | |r.data| - n <= k < |r.data|
      ensures r'.At(k) == r.At(k - (|r.data| - n))
    {
    }
  }

  /** Storing `piece` in the free bytes after tail and moving tail past it appends it to the contents. */
  lemma Append(r: Ring, piece: seq<byte>, r': Ring)
    requires r.Valid() && 0 < |piece| <= |r.data| - r.Length()
    requires r'.head == r.head && |r'.data| == |r.data|
    requires r'.tail == (if r.Length() + |piece| < |r.data| then r.At(r.Length() + |piece|) else r.head)
    requires r'.full <==> r'.head == r'.tail
    requires forall k :: 0 <= k < |r.data| ==>
               r'.data[r.At(k)] == if r.Length() <= k < r.Length() + |piece| then piece[k - r.Length()]
                                   else r.data[r.At(k)]
    ensures r'.Valid() && r'.Contents() == r.Contents() + piece
  {
    assert r'.InBounds() && r'.Length() == r.Length() + |piece|;
    assert forall k :: 0 <= k < |r.data| ==> r'.At(k) == r.At(k);
  }

  /** The ring after `n` bytes that do not cross the end were read and marked free. */
  function DropStraight(r: Ring, n: nat): Ring
    requires r.head + n <= |r.data|
  {
    Ring(Splice(r.data, r.head, Fill(n)), if r.head + n == |r.data| then 0 else r.head + n, r.tail, false)
  }

  /** The ring after the rest of the array and `m` bytes from its start were read and marked free. */
  function DropAround(r: Ring, m: nat): Ring
    requires r.head <= |r.data| && m <= |r.data|
  {
    Ring(Splice(Splice(r.data, r.head, Fill(|r.data| - r.head)), 0, Fill(m)), m, r.tail, false)
  }

  /** The ring after `piece` was stored without crossing the end. */
  function StoreStraight(r: Ring, piece: seq<byte>): Ring
    requires r.tail + |piece| <= |r.data|
  {
    var t := if r.tail + |piece| == |r.data| then 0 else r.tail + |piece|;
    Ring(Splice(r.data, r.tail, piece), r.head, t, r.full || r.head == t)
  }

  /** The ring after `a` was stored up to the end and `b` from the start. */
  function StoreAround(r: Ring, a: seq<byte>, b: seq<byte>): Ring
    requires r.tail + |a| <= |r.data| && |b| <= |r.data|
  {
    Ring(Splice(Splice(r.data, r.tail, a), 0, b), r.head, |b|, r.full || r.head == |b|)
  }

  lemma DropStraightDrops(r: Ring, n: nat)
    requires r.Valid() && 0 < n <= r.Length() && r.head + n <= |r.data|
    ensures DropStraight(r, n).Valid() && DropStraight(r, n).Contents() == r.Contents()[n..]
  {
    Drop(r, n, DropStraight(r, n));
  }

  lemma DropAroundDrops(r: Ring, n: nat)
    requires r.Valid() && n <= r.Length() && r.head + n > |r.data|
    ensures var m := n - (|r.data| - r.head); m <= r.head && DropAround(r, m).Valid() && DropAround(r, m).Contents() == r.Contents()[n..]
  {
    Drop(r, n, DropAround(r, n - (|r.data| - r.head)));
  }

  lemma FreeStraight(r: Ring, n: nat)
    requires r.Valid() && n <= |r.data| - r.Length() && r.tail + n <= |r.data|
    ensures forall i :: r.tail <= i < r.tail + n ==> r.data[i] == POISON
  {
    forall i | r.tail <= i < r.tail + n
      ensures r.data[i] == POISON
    {
      assert i == r.At(r.Length() + (i - r.tail));
    }
  }

  lemma FreeAround(r: Ring, n: nat)
    requires r.Valid() && n <= |r.data| - r.Length() && r.tail + n > |r.data|
    ensures forall i :: r.tail <= i < |r.data| ==> r.data[i] == POISON
    ensures n - (|r.data| - r.tail) <= r.tail && forall i :: 0 <= i < n - (|r.data| - r.tail) ==> r.data[i] == POISON
  {
    FreeStraight(r, |r.data| - r.tail);
    forall i | 0 <= i < n - (|r.data| - r.tail)
      ensures r.data[i] == POISON
    {
      assert i == r.At(r.Length() + (|r.data| - r.tail) + i);
    }
  }

  lemma StoreStraightAppends(r: Ring, piece: seq<byte>)
    requires r.Valid() && 0 < |piece| <= |r.data| - r.Length() && r.tail + |piece| <= |r.data|
    ensures StoreStraight(r, piece).Valid() && StoreStraight(r, piece).Contents() == r.Contents() + piece
  {
    Append(r, piece, StoreStraight(r, piece));
  }

  lemma StoreAroundAppends(r: Ring, a: seq<byte>, b: seq<byte>)
    requires r.Valid() && |a| + |b| <= |r.data| - r.Length() && r.tail + |a| == |r.data| && b != []
    ensures StoreAround(r, a, b).Valid() && StoreAround(r, a, b).Contents() == r.Contents() + (a + b)
  {
    Append(r, a + b, StoreAround(r, a, b));
  }
}

/**
 The byte ring of ring_buffer.c. Each operation is proved against the byte sequence `Contents()`:
 a write appends to it, a read drops a prefix, a peek leaves it alone, a failed call changes nothing.
 */
module RingBuffers {
  import opened Framing
  import opened RingValues

  /** size_t arithmetic wraps modulo 2^64. */
  function Add64(a: nat, b: nat): (r: nat)
    ensures a + b < TWO64 ==> r == a + b
  {
    (a + b) % TWO64
  }

  function Sub64(a: nat, b: nat): (r: nat)
    ensures 0 <= a - b < TWO64 ==> r == a - b
  {
    (a - b) % TWO64
  }

  class RingBuffer {
    var buffer: array<byte>
    var size: nat
    var head: nat
    var tail: nat
    var full: bool

    ghost function View(): Ring
      reads this, buffer
    {
      Ring(buffer[..], head, tail, full)
    }

    ghost predicate Valid()
      reads this, buffer
    {
      View().Valid() && size == buffer.Length
    }

    ghost function Contents(): seq<byte>
      requires Valid()
      reads this, buffer
    {
      View().Contents()
    }

    constructor (capacity: nat)
      requires capacity <= SIZE_LIMIT
      ensures Valid() && fresh(buffer)
      ensures size == capacity && Contents() == []
    {
      buffer := new byte[capacity](_ => POISON);
      size := capacity;
      head, tail, full := 0, 0, false;
    }

    function Used(): (n: nat)
      requires Valid()
      reads this, buffer
      ensures n == |Contents()|
    {
      if full then size
      else if tail >= head then Sub64(tail, head)
      else Sub64(Add64(size, tail), head)
    }

    function Free(): (n: nat)
      requires Valid()
      reads this, buffer
      ensures n == size - |Contents()|
    {
      Sub64(size, Used())
    }

    /** Scans a segment as check_free does; the answer says whether its assertion holds throughout. */
    method CheckFree(start: nat, length: nat) returns (ok: bool)
      requires start + length <= buffer.Length
      ensures ok <==> forall i :: start <= i < start + length ==> buffer[i] == POISON
    {
      ok := true;
      var i := 0;
      while i < length
        invariant i <= length
        invariant ok <==> forall j :: start <= j < start + i ==> buffer[j] == POISON
      {
        if buffer[start + i] != POISON {
          ok := false;
        }
        i := i + 1;
      }
    }

    method MarkFree(start: nat, length: nat)
      requires start + length <= buffer.Length
      modifies buffer
      ensures buffer[..] == Splice(old(buffer[..]), start, Fill(length))
    {
      forall i | start <= i < start + length {
        buffer[i] := POISON;
      }
    }

    /** Copies `n` bytes out of the array, then marks them free when `remove` is set. */
    method CopyOut(dst: array<byte>, at: nat, from: nat, n: nat, remove: bool)
      requires dst != buffer && at + n <= dst.Length && from + n <= buffer.Length
      modifies buffer, dst
      ensures dst[..] == Splice(old(dst[..]), at, old(buffer[..])[from..from + n])
      ensures remove ==> buffer[..] == Splice(old(buffer[..]), from, Fill(n))
      ensures !remove ==> buffer[..] == old(buffer[..])
    {
      forall i | 0 <= i < n {
        dst[at + i] := buffer[from + i];
      }
      if remove {
        MarkFree(from, n);
      }
    }

    /** Copies the rest of the array from head on, then a prefix of it that ends before head. */
    method CopyOutTwice(dst: array<byte>, first: nat, second: nat, remove: bool)
      requires dst != buffer && first + second <= dst.Length && head + first == buffer.Length && second <= head
      modifies buffer, dst
      ensures dst[..] == Splice(old(dst[..]), 0, old(buffer[..])[head..head + first] + old(buffer[..])[0..second])
      ensures remove ==> buffer[..] == Splice(Splice(old(buffer[..]), head, Fill(first)), 0, Fill(second))
      ensures !remove ==> buffer[..] == old(buffer[..])
    {
      ghost var x, d := dst[..], buffer[..];
      CopyOut(dst, 0, head, first, remove);
      ghost var y, d' := dst[..], buffer[..];
      assert d' == if remove then Splice(d, head, Fill(first)) else d;
      CopyOut(dst, first, 0, second, remove);
      ghost var z := dst[..];
      assert z == Splice(y, first, d'[0..second]);
      TwoParts(x, y, z, d, d', head, first, second);
    }

    /** Checks that `n` bytes of the array are free, then copies `n` bytes in. */
    method CopyIn(src: array<byte>, from: nat, at: nat, n: nat)
      requires src != buffer && at + n <= buffer.Length && from + n <= src.Length
      requires forall i :: at <= i < at + n ==> buffer[..][i] == POISON
      modifies buffer
      ensures buffer[..] == Splice(old(buffer[..]), at, src[..][from..from + n])
    {
      var clean := CheckFree(at, n);
      assert clean by {
        forall i | at <= i < at + n ensures buffer[i] == POISON { assert buffer[..][i] == POISON; }
      }
      forall i | 0 <= i < n {
        buffer[at + i] := src[from + i];
      }
    }

    /** Head moves past what was read; something was removed, so the ring is not full. */
    method MoveHead(to: nat)
      modifies this`head, this`full
      ensures head == (if to == size then 0 else to) && !full && buffer[..] == old(buffer[..])
    {
      head := to;
      if head == size {
        head := 0;
      }
      full := false;
    }

    /** Tail moves past what was written; something was inserted, so head == tail means full. */
    method MoveTail(to: nat)
      modifies this`tail, this`full
      ensures tail == (if to == size then 0 else to) && full == (old(full) || head == tail) && buffer[..] == old(buffer[..])
    {
      tail := to;
      if tail == size {
        tail := 0;
      }
      if head == tail {
        full := true;
      }
    }

    /** The branch of ring_buffer_read_common whose bytes do not cross the end of the array. */
    method ReadLinear(dst: array<byte>, length: nat, remove: bool)
      requires dst != buffer && length <= dst.Length && size == buffer.Length && head + length <= size
      modifies this, buffer, dst
      ensures buffer == old(buffer) && size == old(size)
      ensures dst[..] == Splice(old(dst[..]), 0, old(View()).data[old(head)..old(head) + length])
      ensures remove ==> View() == DropStraight(old(View()), length)
      ensures !remove ==> View() == old(View())
    {
      CopyOut(dst, 0, head, length, remove);
      if remove {
        MoveHead(head + length);
      }
    }

    /** The branch of ring_buffer_read_common that copies in two parts. */
    method ReadSplit(dst: array<byte>, length: nat, remove: bool)
      requires dst != buffer && length <= dst.Length && size == buffer.Length <= SIZE_LIMIT
      requires head < size < head + length && length - (size - head) <= head
      modifies this, buffer, dst
      ensures buffer == old(buffer) && size == old(size)
      ensures var r, k := old(View()), old(size - head);
              dst[..] == Splice(old(dst[..]), 0, r.data[r.head..r.head + k] + r.data[0..length - k])
      ensures remove ==> View() == DropAround(old(View()), length - old(size - head))
      ensures !remove ==> View() == old(View())
    {
      var copyLen := Sub64(size, head);
      var nextCopyLen := Sub64(length, copyLen);
      CopyOutTwice(dst, copyLen, nextCopyLen, remove);
      if remove {
        MoveHead(nextCopyLen);
      }
    }

    method ReadCommon(dst: array<byte>, length: nat, remove: bool) returns (ok: bool)
      requires Valid() && dst != buffer
      requires 0 < length < TWO64
      requires length <= |Contents()| ==> length <= dst.Length
      modifies this, buffer, dst
      ensures Valid() && buffer == old(buffer) && size == old(size)
      ensures ok <==> length <= |old(Contents())|
      ensures ok ==> dst[..] == Splice(old(dst[..]), 0, old(Contents())[..length])
      ensures !ok ==> dst[..] == old(dst[..])
      ensures !ok || !remove ==> View() == old(View())
      ensures ok && remove ==> Contents() == old(Contents())[length..]
    {
      if length > Used() {
        return false;
      }
      ghost var was, x := View(), dst[..];
      if Add64(head, length) <= size {
        DropStraightDrops(was, length);
        ReadLinear(dst, length, remove);
        FrontLinear(was, length, x, dst[..]);
      } else {
        DropAroundDrops(was, length);
        ReadSplit(dst, length, remove);
        FrontWrapped(was, length, x, dst[..]);
      }
      return true;
    }

    method Read(dst: array<byte>, length: nat) returns (ok: bool)
      requires Valid() && dst != buffer
      requires 0 < length < TWO64
      requires length <= |Contents()| ==> length <= dst.Length
      modifies this, buffer, dst
      ensures Valid() && buffer == old(buffer) && size == old(size)
      ensures ok <==> length <= |old(Contents())|
      ensures ok ==> dst[..] == Splice(old(dst[..]), 0, old(Contents())[..length])
      ensures !ok ==> dst[..] == old(dst[..])
      ensures Contents() == if ok then old(Contents())[length..] else old(Contents())
      ensures !ok ==> View() == old(View())
    {
      ok := ReadCommon(dst, length, true);
    }

    method Peek(dst: array<byte>, length: nat) returns (ok: bool)
      requires Valid() && dst != buffer
      requires 0 < length < TWO64
      requires length <= |Contents()| ==> length <= dst.Length
      modifies this, buffer, dst
      ensures Valid() && buffer == old(buffer) && size == old(size) && View() == old(View())
      ensures ok <==> length <= |Contents()|
      ensures ok ==> dst[..] == Splice(old(dst[..]), 0, Contents()[..length])
      ensures !ok ==> dst[..] == old(dst[..])
    {
      ok := ReadCommon(dst, length, false);
    }

    /** The branch of ring_buffer_write whose bytes do not cross the end of the array. */
    method WriteLinear(src: array<byte>, length: nat)
      requires src != buffer && length <= src.Length && size == buffer.Length && tail + length <= size
      requires forall i :: tail <= i < tail + length ==> buffer[..][i] == POISON
      modifies this, buffer
      ensures buffer == old(buffer) && size == old(size)
      ensures View() == StoreStraight(old(View()), src[..][0..length])
    {
      CopyIn(src, 0, tail, length);
      MoveTail(tail + length);
    }

    /** The branch of ring_buffer_write that copies in two parts. */
    method WriteSplit(src: array<byte>, length: nat)
      requires src != buffer && length <= src.Length && size == buffer.Length <= SIZE_LIMIT
      requires tail < size < tail + length && length - (size - tail) <= tail
      requires forall i :: tail <= i < size ==> buffer[..][i] == POISON
      requires forall i :: 0 <= i < length - (size - tail) ==> buffer[..][i] == POISON
      modifies this, buffer
      ensures buffer == old(buffer) && size == old(size)
      ensures var k := old(size - tail); View() == StoreAround(old(View()), src[..][0..k], src[..][k..length])
    {
      var copyLen := Sub64(size, tail);
      var nextCopyLen := Sub64(length, copyLen);
      CopyIn(src, 0, tail, copyLen);
      CopyIn(src, copyLen, 0, nextCopyLen);
      MoveTail(nextCopyLen);
    }

    method Write(src: array<byte>, length: nat) returns (ok: bool)
      requires Valid() && src != buffer
      requires 0 < length <= src.Length && length < TWO64
      modifies this, buffer
      ensures Valid() && buffer == old(buffer) && size == old(size)
      ensures ok <==> length <= size - |old(Contents())|
      ensures Contents() == if ok then old(Contents()) + src[..length] else old(Contents())
      ensures !ok ==> View() == old(View())
    {
      if length > Free() {
        return false;
      }
      ghost var was, bytes := View(), src[..];
      if Add64(tail, length) <= size {
        FreeStraight(was, length);
        StoreStraightAppends(was, bytes[0..length]);
        WriteLinear(src, length);
      } else {
        ghost var k := size - tail;
        FreeAround(was, length);
        StoreAroundAppends(was, bytes[0..k], bytes[k..length]);
        assert bytes[0..k] + bytes[k..length] == bytes[..length];
        WriteSplit(src, length);
      }
      assert src[..] == bytes;
      return true;
    }
  }
}
