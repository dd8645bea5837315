/** Handles: the backend address with the open flags stored in its three low bits. */
module Handles {

  const READER: bv64 := 0x1
  const WRITER: bv64 := 0x2
  const NONBLOCK: bv64 := 0x4
  const ALL_FLAGS: bv64 := READER | WRITER | NONBLOCK

  datatype Flags = Flags(reader: bool, writer: bool, nonblock: bool)

  function Bits(f: Flags): (b: bv64)
    ensures b & !ALL_FLAGS == 0
  {
    (if f.reader then READER else 0) | (if f.writer then WRITER else 0) | (if f.nonblock then NONBLOCK else 0)
  }

  function MakeHandle(backend: bv64, f: Flags): (h: bv64)
    requires backend & ALL_FLAGS == 0
    ensures GetBackend(h) == backend && GetFlags(h) == f
  {
    backend | Bits(f)
  }

  function GetBackend(h: bv64): bv64 { h & !ALL_FLAGS }

  function GetFlags(h: bv64): Flags
  {
    var b := h & ALL_FLAGS;
    Flags(b & READER != 0, b & WRITER != 0, b & NONBLOCK != 0)
  }
}

/**
 What one critical section of msg_queue.c (lock to unlock or cond_wait) does to the queue,
 as functions on the value of the backend. Condition-variable signals are left to the Monitor.
 */
module QueueCore {
  import opened Framing
  import opened Handles

  datatype Event = Readable | Writable | NoReaders | NoWriters

  /** The handle counts of a backend and the flags that a side has lost its last handle. */
  datatype Counts = Counts(refs: nat, readers: nat, writers: nat, noReaders: bool, noWriters: bool)

  datatype Mq = Mq(capacity: nat, bytes: seq<byte>, counts: Counts, event: set<Event>) {
    function Free(): int { capacity - |bytes| }
  }

  /** Bytes of ring space a message takes. */
  function Cost(m: Message): nat { WORD + |m| }

  /** A message the length and capacity checks let through. */
  predicate Fits(capacity: nat, m: Message)
  {
    m != [] && Cost(m) < TWO64 && Cost(m) < capacity
  }

  /** mq_init, which leaves queue_event at whatever the allocated memory holds. */
  function Create(capacity: nat, event: set<Event>): Mq
  {
    Mq(capacity, [], Counts(0, 0, 0, false, false), event)
  }

  /** mq_open */
  function Acquire(n: Counts, f: Flags): Counts
  {
    var r := if f.reader then n.(readers := n.readers + 1, noReaders := false) else n;
    var w := if f.writer then r.(writers := r.writers + 1, noWriters := false) else r;
    w.(refs := w.refs + 1)
  }

  function Open(q: Mq, f: Flags): Mq
  {
    q.(counts := Acquire(q.counts, f))
  }

  /** The assertions of mq_close and the counts it decrements. */
  predicate CanClose(n: Counts, f: Flags)
  {
    && n.refs >= n.readers && n.refs >= n.writers && n.refs > 0
    && (f.reader ==> n.readers > 0) && (f.writer ==> n.writers > 0)
  }

  /** mq_close */
  function Release(n: Counts, f: Flags): Counts
    requires CanClose(n, f)
  {
    var r := if f.reader then n.(readers := n.readers - 1, noReaders := n.noReaders || n.readers == 1) else n;
    var w := if f.writer then r.(writers := r.writers - 1, noWriters := r.noWriters || r.writers == 1) else r;
    w.(refs := w.refs - 1)
  }

  /** msg_queue_close of a handle that is not the last one: mq_close, then the events of a missing side. */
  function Close(q: Mq, f: Flags): Mq
    requires CanClose(q.counts, f)
  {
    var n := Release(q.counts, f);
    var e := if n.noReaders then q.event + {Writable, NoReaders} else q.event;
    q.(counts := n, event := if n.noWriters then e + {Readable, NoWriters} else e)
  }

  datatype ReadResult = EndOfFile | WouldBlock | ReadWait | Got(msg: Message)

  predicate Framed(q: Mq) { q.bytes == [] || HasFrame(q.bytes) }

  /** A section of msg_queue_read, entered by the call or by the return of cond_wait. */
  function ReadResultOf(q: Mq, f: Flags): ReadResult
    requires Framed(q)
  {
    if q.bytes == [] then
      if q.counts.noWriters then EndOfFile else if f.nonblock then WouldBlock else ReadWait
    else Got(HeadBody(q.bytes))
  }

  function AfterRead(q: Mq, f: Flags): Mq
    requires Framed(q)
  {
    match ReadResultOf(q, f)
    case EndOfFile => q.(event := q.event + {NoWriters})
    case WouldBlock => q
    case ReadWait => q
    case Got(_) =>
      var rest := AfterHead(q.bytes);
      var e := if rest == [] && !q.counts.noWriters then q.event - {Readable} else q.event;
      q.(bytes := rest, event := e + {Writable})
  }

  datatype WriteResult = BadLength | BrokenPipe | TooLong | WriteWait | Accepted(code: int)

  /** The wait loop of msg_queue_write and what follows it: where cond_wait returns to. */
  function ResumedWriteResult(q: Mq, f: Flags, m: Message): WriteResult
  {
    if q.Free() < Cost(m) then WriteWait else Accepted(if f.nonblock then -1 else 0)
  }

  /** A section of msg_queue_write entered by the call. */
  function WriteResultOf(q: Mq, f: Flags, m: Message): WriteResult
  {
    if m == [] then BadLength
    else if q.counts.noReaders then BrokenPipe
    else if q.capacity <= Cost(m) then TooLong
    else ResumedWriteResult(q, f, m)
  }

  /** The state after a message was stored; a non-blocking handle returns before the event update. */
  function AfterAccept(q: Mq, f: Flags, m: Message): Mq
  {
    var s := q.(bytes := q.bytes + Frame(m));
    if f.nonblock then s else
    var e := if s.Free() == 0 && !q.counts.noReaders then q.event - {Writable} else q.event;
    s.(event := e + {Readable})
  }

  function AfterWrite(q: Mq, f: Flags, m: Message, r: WriteResult): Mq
  {
    if r.Accepted? then AfterAccept(q, f, m) else q
  }
}
