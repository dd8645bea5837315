/**
 The queue backend as msg_queue.c updates it in place. Each method is one critical section and is
 proved to do to the object's value what the function of the same name in QueueCore says; the
 assertions in the bodies are results the program computes and ignores.
 */
module Backends {
  import opened Framing
  import opened RingValues
  import opened RingBuffers
  import opened Handles
  import opened QueueCore

  class Backend {
    const buffer: RingBuffer
    var counts: Counts
    var event: set<Event>
    ghost var queued: seq<Message>

    ghost predicate Valid()
      reads this, buffer, buffer.buffer
    {
      && buffer.Valid()
      && buffer.Contents() == Frames(queued)
      && forall m | m in queued :: m != [] && Encodable(m)
    }

    ghost function View(): Mq
      requires buffer.Valid()
      reads this, buffer, buffer.buffer
    {
      Mq(buffer.size, buffer.Contents(), counts, event)
    }

    /** mq_init; `junk` is what the allocated memory holds in the event word. */
    constructor (capacity: nat, junk: set<Event>)
      requires capacity <= SIZE_LIMIT
      ensures Valid() && fresh(buffer) && fresh(buffer.buffer)
      ensures View() == Create(capacity, junk)
    {
      buffer := new RingBuffer(capacity);
      counts := Counts(0, 0, 0, false, false);
      event := junk;
      queued := [];
    }

    /** The handle opened can be closed again, which gives back the counts there were. */
    method Open(f: Flags)
      requires Valid()
      modifies this`counts
      ensures Valid() && View() == QueueCore.Open(old(View()), f)
      ensures (f.reader ==> !counts.noReaders) && (f.writer ==> !counts.noWriters)
      ensures old(counts.readers <= counts.refs && counts.writers <= counts.refs) ==>
                CanClose(counts, f) &&
                Release(counts, f).(noReaders := old(counts.noReaders), noWriters := old(counts.noWriters)) == old(counts)
    {
      counts := counts.(refs := counts.refs + 1);
      if f.reader {
        counts := counts.(readers := counts.readers + 1, noReaders := false);
      }
      if f.writer {
        counts := counts.(writers := counts.writers + 1, noWriters := false);
      }
    }

    /** The counts of mq_close. */
    method Drop(f: Flags)
      requires CanClose(counts, f)
      modifies this`counts
      ensures counts == Release(old(counts), f)
    {
      if f.reader {
        counts := counts.(readers := counts.readers - 1);
        if counts.readers == 0 {
          counts := counts.(noReaders := true);
        }
      }
      if f.writer {
        counts := counts.(writers := counts.writers - 1);
        if counts.writers == 0 {
          counts := counts.(noWriters := true);
        }
      }
      counts := counts.(refs := counts.refs - 1);
    }

    /** The events of the sides that are gone. */
    method ShowMissing()
      modifies this`event
      ensures event == old(event) + (if counts.noReaders then {Writable, NoReaders} else {})
                     + (if counts.noWriters then {Readable, NoWriters} else {})
    {
      if counts.noReaders {
        event := event + {Writable, NoReaders};
      }
      if counts.noWriters {
        event := event + {Readable, NoWriters};
      }
    }

    method Close(f: Flags) returns (last: bool)
      requires Valid() && CanClose(counts, f)
      modifies this`counts, this`event
      ensures Valid()
      ensures last <==> Release(old(counts), f).refs == 0
      ensures counts == Release(old(counts), f)
      ensures !last ==> View() == QueueCore.Close(old(View()), f)
    {
      Drop(f);
      if counts.refs == 0 {
        return true;
      }
      ShowMissing();
      return false;
    }

    /** Reads (or peeks at) the length word at the head of the ring. */
    method Header(remove: bool) returns (length: nat)
      requires buffer.Valid() && |buffer.Contents()| >= WORD
      modifies buffer, buffer.buffer
      ensures buffer.Valid() && buffer.size == old(buffer.size) && buffer.buffer == old(buffer.buffer)
      ensures length == Decode(old(buffer.Contents())[..WORD])
      ensures buffer.Contents() == old(buffer.Contents())[if remove then WORD else 0..]
    {
      var word := new byte[WORD];
      SplicePrefix(word[..], buffer.Contents()[..WORD]);
      var ok;
      if remove {
        ok := buffer.Read(word, WORD);
      } else {
        ok := buffer.Peek(word, WORD);
      }
      assert ok;
      assert word[..] == word[..][..WORD];
      length := Decode(word[..]);
    }

    /** The peek and the two reads that take the head frame out of the ring. */
    method TakeFrame(dst: array<byte>) returns (length: nat)
      requires Valid() && queued != [] && dst != buffer.buffer && |queued[0]| <= dst.Length
      modifies buffer, buffer.buffer, this`queued, dst
      ensures Valid() && buffer.size == old(buffer.size) && buffer.buffer == old(buffer.buffer)
      ensures old(queued) != [] && queued == old(queued)[1..]
      ensures length == |old(queued)[0]| <= dst.Length && dst[..length] == old(queued)[0]
      ensures dst[length..] == old(dst[..])[length..]
    {
      ghost var m, was := queued[0], buffer.Contents();
      assert m in queued;
      ParseHead(queued);
      assert |HeadBody(was)| == Decode(was[..WORD]) && was[0..] == was;
      length := Header(false);
      length := Header(true);
      ghost var rest := buffer.Contents();
      assert rest[..length] == m && rest[length..] == AfterHead(was);
      ghost var was' := dst[..];
      SplicePrefix(was', m);
      var ok := buffer.Read(dst, length);
      assert ok;
      assert dst[..] == Splice(was', 0, m);
      assert dst[..length] == dst[..][..length] && dst[length..] == dst[..][length..];
      queued := queued[1..];
    }

    /** A section of msg_queue_read. The message must fit the caller's buffer. */
    method Read(f: Flags, dst: array<byte>) returns (r: ReadResult)
      requires Valid() && dst != buffer.buffer && (queued != [] ==> |queued[0]| <= dst.Length)
      modifies buffer, buffer.buffer, this`queued, this`event, dst
      ensures Valid() && Framed(old(View())) && buffer.buffer == old(buffer.buffer)
      ensures r == ReadResultOf(old(View()), f) && View() == AfterRead(old(View()), f)
      ensures r.Got? ==> |r.msg| <= dst.Length && dst[..|r.msg|] == r.msg && dst[|r.msg|..] == old(dst[..])[|r.msg|..]
      ensures !r.Got? ==> dst[..] == old(dst[..])
    {
      if queued != [] {
        ParseHead(queued);
      }
      if counts.noWriters && buffer.Used() == 0 {
        event := event + {NoWriters};
        return EndOfFile;
      }
      if !counts.noWriters && buffer.Used() == 0 {
        return if f.nonblock then WouldBlock else ReadWait;
      }
      var length := TakeFrame(dst);
      if buffer.Used() == 0 && !counts.noWriters {
        event := event - {Readable};
      }
      event := event + {Writable};
      return Got(dst[..length]);
    }

    /** Writes the length word. */
    method PutHeader(length: nat)
      requires buffer.Valid() && WORD <= buffer.size - |buffer.Contents()|
      modifies buffer, buffer.buffer
      ensures buffer.Valid() && buffer.size == old(buffer.size) && buffer.buffer == old(buffer.buffer)
      ensures buffer.Contents() == old(buffer.Contents()) + Encode(length, WORD)
    {
      var word := new byte[WORD](i requires 0 <= i < WORD => Encode(length, WORD)[i]);
      assert word[..WORD] == Encode(length, WORD);
      var result := buffer.Write(word, WORD);
      assert result;
    }

    /** The two writes that store a frame. */
    method PutFrame(src: array<byte>, length: nat)
      requires Valid() && src != buffer.buffer && 0 < length <= src.Length && WORD + length < TWO64
      requires WORD + length <= buffer.size - |buffer.Contents()|
      modifies buffer, buffer.buffer, this`queued
      ensures Valid() && buffer.size == old(buffer.size) && buffer.buffer == old(buffer.buffer)
      ensures queued == old(queued) + [src[..length]]
      ensures buffer.Contents() == old(buffer.Contents()) + Frame(src[..length])
    {
      ghost var m, was := src[..length], buffer.Contents();
      FramesAppend(queued, m);
      assert was + Encode(length, WORD) + m == was + Frame(m);
      PutHeader(length);
      assert src[..length] == m;
      var result := buffer.Write(src, length);
      assert result;
      queued := queued + [m];
    }

    /** The wait loop of msg_queue_write and what follows it; also where a woken writer resumes. */
    method ResumeWrite(f: Flags, src: array<byte>, length: nat) returns (r: WriteResult)
      requires Valid() && src != buffer.buffer && 0 < length <= src.Length && WORD + length < TWO64
      modifies buffer, buffer.buffer, this`queued, this`event
      ensures Valid() && buffer.buffer == old(buffer.buffer)
      ensures r == ResumedWriteResult(old(View()), f, src[..length])
      ensures View() == AfterWrite(old(View()), f, src[..length], r)
    {
      if buffer.Free() < Add64(length, WORD) {
        return WriteWait;
      }
      PutFrame(src, length);
      if f.nonblock {
        return Accepted(-1);
      }
      if buffer.Free() == 0 && !counts.noReaders {
        event := event - {Writable};
      }
      event := event + {Readable};
      return Accepted(0);
    }

    /** A section of msg_queue_write entered by the call. */
    method Write(f: Flags, src: array<byte>, length: nat) returns (r: WriteResult)
      requires Valid() && src != buffer.buffer && length <= src.Length && WORD + length < TWO64
      modifies buffer, buffer.buffer, this`queued, this`event
      ensures Valid() && buffer.buffer == old(buffer.buffer)
      ensures r == WriteResultOf(old(View()), f, src[..length])
      ensures View() == AfterWrite(old(View()), f, src[..length], r)
    {
      if length == 0 {
        return BadLength;
      }
      if counts.noReaders {
        return BrokenPipe;
      }
      if buffer.size <= Add64(length, WORD) {
        return TooLong;
      }
      r := ResumeWrite(f, src, length);
    }
  }
}
