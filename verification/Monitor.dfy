/**
 Threads blocked inside read and write. A blocked call is asleep on a condition variable or
 woken and waiting for the mutex.
 */
module WaitSets {
  import opened Framing
  import opened Handles
  import opened QueueCore

  type Tid = nat

  datatype ReadCall = ReadCall(t: Tid, flags: Flags, room: nat)

  datatype WriteCall = WriteCall(t: Tid, flags: Flags, msg: Message)

  datatype Waits = Waits(
    sleepR: set<ReadCall>, wokenR: set<ReadCall>,     // on space_empty
    sleepW: set<WriteCall>, wokenW: set<WriteCall>)   // on space_full
  {
    /** Thread `t` is in no blocked call. */
    predicate Idle(t: Tid)
    {
      && (forall c | c in sleepR + wokenR :: c.t != t)
      && (forall c | c in sleepW + wokenW :: c.t != t)
    }

    function WakeReaders(wake: set<ReadCall>): Waits
    {
      this.(sleepR := sleepR - wake, wokenR := wokenR + wake)
    }

    function WakeWriters(wake: set<WriteCall>): Waits
    {
      this.(sleepW := sleepW - wake, wokenW := wokenW + wake)
    }

    /**
     No call is both asleep and woken, blocked readers use blocking handles, and blocked writers
     carry messages that fit an empty ring.
     */
    ghost predicate Lawful(capacity: nat)
    {
      && sleepR !! wokenR && sleepW !! wokenW
      && (forall c | c in sleepR :: !c.flags.nonblock)
      && (forall c | c in wokenR :: !c.flags.nonblock)
      && (forall c | c in sleepW :: Fits(capacity, c.msg))
      && (forall c | c in wokenW :: Fits(capacity, c.msg))
    }

    /**
     With `n` messages queued: sleeping readers are covered by woken ones, up to `slack` that are
     about to be served; no reader sleeps once the writers are gone; and a sleeping writer has a
     message to be read or a woken writer ahead of it.
     */
    ghost predicate Covered(n: nat, slack: nat, noWriters: bool)
    {
      && (sleepR != {} ==> n <= |wokenR| + slack)
      && (noWriters ==> sleepR == {})
      && (sleepW != {} ==> n > 0 || wokenW != {})
    }
  }

  const NoWaits := Waits({}, {}, {}, {})

  /** POSIX cond_signal: at least one of the sleepers, if any, wakes up. */
  predicate Signals<C(==)>(sleepers: set<C>, wake: set<C>)
  {
    wake <= sleepers && (sleepers != {} ==> wake != {})
  }

  /** A message was stored and space_empty signalled. */
  lemma StoreCovers(w: Waits, wake: set<ReadCall>, n: nat, noWriters: bool, capacity: nat)
    requires w.Lawful(capacity) && Signals(w.sleepR, wake)
    requires w.sleepR != {} ==> n <= |w.wokenR|
    requires noWriters ==> w.sleepR == {}
    ensures w.WakeReaders(wake).Lawful(capacity) && w.WakeReaders(wake).Covered(n + 1, 0, noWriters)
  {
  }

  /** A message was taken and space_full signalled. */
  lemma TakeCovers(w: Waits, wake: set<WriteCall>, n: nat, noWriters: bool, capacity: nat)
    requires w.Lawful(capacity) && Signals(w.sleepW, wake) && n > 0
    requires w.Covered(n, 1, noWriters)
    ensures w.WakeWriters(wake).Lawful(capacity) && w.WakeWriters(wake).Covered(n - 1, 0, noWriters)
  {
  }

  lemma SpuriousCovers(w: Waits, r: set<ReadCall>, x: set<WriteCall>, n: nat, noWriters: bool, capacity: nat)
    requires w.Lawful(capacity) && w.Covered(n, 0, noWriters) && r <= w.sleepR && x <= w.sleepW
    ensures var v := w.WakeReaders(r).WakeWriters(x); v.Lawful(capacity) && v.Covered(n, 0, noWriters)
  {
  }

  /** The broadcasts of msg_queue_close. */
  lemma BroadcastCovers(w: Waits, writers: bool, readers: bool, n: nat, noWriters: bool, capacity: nat)
    requires w.Lawful(capacity) && w.Covered(n, 0, noWriters)
    ensures var a := if writers then w.WakeWriters(w.sleepW) else w;
            var b := if readers then a.WakeReaders(a.sleepR) else a;
            b.Lawful(capacity) && b.Covered(n, 0, noWriters) && (readers ==> b.Covered(n, 0, true))
  {
  }
}

/**
 The message queue as a monitor: any number of threads run critical sections in any order, a
 signal wakes at least one sleeper if there is one, and a sleeper may wake unasked.
 */
module Monitor {
  import opened Framing
  import opened Handles
  import opened QueueCore
  import opened WaitSets

  datatype State = State(
    mq: Mq,
    handles: multiset<Flags>,                      // open handles
    waits: Waits,
    everReader: bool, everWriter: bool,            // history: was the side ever opened
    accepted: seq<Message>, delivered: seq<Message>)   // history: messages in and out
  {
    /** The queue exists until its last handle is closed. */
    predicate Alive() { handles != multiset{} }

    /** Messages accepted and not yet delivered. */
    function Queued(): seq<Message>
    {
      if |delivered| <= |accepted| then accepted[|delivered|..] else []
    }
  }

  datatype Step =
    | OpenHandle(flags: Flags)
    | CloseHandle(flags: Flags)
    | ReadEnter(rc: ReadCall, wakeW: set<WriteCall>)
    | ReadResume(rc: ReadCall, wakeW: set<WriteCall>)
    | WriteEnter(wc: WriteCall, wakeR: set<ReadCall>)
    | WriteResume(wc: WriteCall, wakeR: set<ReadCall>)
    | Spurious(r: set<ReadCall>, w: set<WriteCall>)

  /** msg_queue_create */
  function Initial(capacity: nat, event: set<Event>, flags: Flags): State
  {
    State(Open(Create(capacity, event), flags), multiset{flags}, NoWaits, flags.reader, flags.writer, [], [])
  }

  /** A queue just created; msg_queue_create refuses a capacity without room for one message. */
  ghost predicate Init(s: State)
  {
    s.mq.capacity > WORD && exists f :: s == Initial(s.mq.capacity, s.mq.event, f)
  }

  /** The reader's section can run: a message, if there is one, fits the caller's buffer. */
  predicate ReadEnabled(s: State, c: ReadCall, wake: set<WriteCall>)
  {
    && Framed(s.mq)
    && (ReadResultOf(s.mq, c.flags).Got? ==>
          |HeadBody(s.mq.bytes)| <= c.room && Signals(s.waits.sleepW, wake))
  }

  predicate Enabled(s: State, step: Step)
  {
    s.Alive() &&
    match step
    case OpenHandle(f) => true
    case CloseHandle(f) => f in s.handles && CanClose(s.mq.counts, f)
    case ReadEnter(c, wake) =>
      s.waits.Idle(c.t) && c.flags in s.handles && c.flags.reader && ReadEnabled(s, c, wake)
    case ReadResume(c, wake) =>
      c in s.waits.wokenR && ReadEnabled(s, c, wake)
    case WriteEnter(c, wake) =>
      s.waits.Idle(c.t) && c.flags in s.handles && c.flags.writer && Cost(c.msg) < TWO64 &&
      (WriteResultOf(s.mq, c.flags, c.msg).Accepted? ==> Signals(s.waits.sleepR, wake))
    case WriteResume(c, wake) =>
      c in s.waits.wokenW &&
      (ResumedWriteResult(s.mq, c.flags, c.msg).Accepted? ==> Signals(s.waits.sleepR, wake))
    case Spurious(r, w) => r <= s.waits.sleepR && w <= s.waits.sleepW
  }

  function ApplyOpen(s: State, f: Flags): State
  {
    s.(mq := Open(s.mq, f), handles := s.handles + multiset{f},
       everReader := s.everReader || f.reader, everWriter := s.everWriter || f.writer)
  }

  /** Closing the last handle destroys the queue; otherwise a side without handles is broadcast to the other. */
  function ApplyClose(s: State, f: Flags): State
    requires f in s.handles && CanClose(s.mq.counts, f)
  {
    var left := s.handles - multiset{f};
    if Release(s.mq.counts, f).refs == 0 then s.(mq := s.mq.(counts := Release(s.mq.counts, f)), handles := left)
    else
      var q := Close(s.mq, f);
      var a := if q.counts.noReaders then s.waits.WakeWriters(s.waits.sleepW) else s.waits;
      var b := if q.counts.noWriters then a.WakeReaders(a.sleepR) else a;
      s.(mq := q, handles := left, waits := b)
  }

  /** A section of msg_queue_read by a thread that is not blocked. */
  function ApplyRead(s: State, c: ReadCall, wake: set<WriteCall>): State
    requires Framed(s.mq)
  {
    var q := AfterRead(s.mq, c.flags);
    match ReadResultOf(s.mq, c.flags)
    case ReadWait => s.(waits := s.waits.(sleepR := s.waits.sleepR + {c}))
    case Got(m) => s.(mq := q, delivered := s.delivered + [m], waits := s.waits.WakeWriters(wake))
    case _ => s.(mq := q)
  }

  /** A section of msg_queue_write, with result `r`, by a thread that is not blocked. */
  function ApplyWrite(s: State, c: WriteCall, r: WriteResult, wake: set<ReadCall>): State
  {
    match r
    case WriteWait => s.(waits := s.waits.(sleepW := s.waits.sleepW + {c}))
    case Accepted(_) =>
      s.(mq := AfterAccept(s.mq, c.flags, c.msg), accepted := s.accepted + [c.msg],
         waits := s.waits.WakeReaders(wake))
    case _ => s
  }

  function Apply(s: State, step: Step): State
    requires Enabled(s, step)
  {
    match step
    case OpenHandle(f) => ApplyOpen(s, f)
    case CloseHandle(f) => ApplyClose(s, f)
    case ReadEnter(c, wake) => ApplyRead(s, c, wake)
    case ReadResume(c, wake) =>
      ApplyRead(s.(waits := s.waits.(wokenR := s.waits.wokenR - {c})), c, wake)
    case WriteEnter(c, wake) => ApplyWrite(s, c, WriteResultOf(s.mq, c.flags, c.msg), wake)
    case WriteResume(c, wake) =>
      ApplyWrite(s.(waits := s.waits.(wokenW := s.waits.wokenW - {c})), c,
                 ResumedWriteResult(s.mq, c.flags, c.msg), wake)
    case Spurious(r, w) => s.(waits := s.waits.WakeReaders(r).WakeWriters(w))
  }

  // ----- The invariant

  ghost function ReaderCount(h: multiset<Flags>): nat
  {
    h[Flags(true, false, false)] + h[Flags(true, false, true)] + h[Flags(true, true, false)] + h[Flags(true, true, true)]
  }

  ghost function WriterCount(h: multiset<Flags>): nat
  {
    h[Flags(false, true, false)] + h[Flags(false, true, true)] + h[Flags(true, true, false)] + h[Flags(true, true, true)]
  }

  /** The counters count the open handles by flag, and a side is gone when it was opened and has no handle left. */
  ghost predicate Ledger(n: Counts, h: multiset<Flags>, everReader: bool, everWriter: bool)
  {
    && n.refs == |h|
    && n.readers == ReaderCount(h) && n.writers == WriterCount(h)
    && (n.noReaders <==> everReader && n.readers == 0)
    && (n.noWriters <==> everWriter && n.writers == 0)
    && (n.readers > 0 ==> everReader) && (n.writers > 0 ==> everWriter)
  }

  ghost predicate LedgerOf(s: State) { Ledger(s.mq.counts, s.handles, s.everReader, s.everWriter) }

  /** The ring holds exactly the frames of the messages accepted and not yet delivered. */
  ghost predicate Fifo(s: State)
  {
    && s.delivered <= s.accepted
    && s.mq.bytes == Frames(s.Queued())
    && |s.mq.bytes| <= s.mq.capacity
    && forall m | m in s.accepted :: Fits(s.mq.capacity, m)
  }

  /** What holds of the ring, the messages and the blocked threads. */
  ghost predicate Sound(s: State)
  {
    && s.mq.capacity > WORD
    && Fifo(s)
    && s.waits.Lawful(s.mq.capacity)
    && (s.Alive() ==> s.waits.Covered(|s.Queued()|, 0, s.mq.counts.noWriters))
  }

  ghost predicate Inv(s: State) { LedgerOf(s) && Sound(s) }

  // ----- Every step keeps it

  lemma CountsBound(h: multiset<Flags>)
    ensures ReaderCount(h) <= |h| && WriterCount(h) <= |h|
    ensures forall f | f in h :: (f.reader ==> ReaderCount(h) > 0) && (f.writer ==> WriterCount(h) > 0)
  {
    var r := h[Flags(true, false, false) := 0][Flags(true, false, true) := 0][Flags(true, true, false) := 0][Flags(true, true, true) := 0];
    assert |r| == |h| - ReaderCount(h);
    var w := h[Flags(false, true, false) := 0][Flags(false, true, true) := 0][Flags(true, true, false) := 0][Flags(true, true, true) := 0];
    assert |w| == |h| - WriterCount(h);
  }

  /** The assertions of mq_close and mq_destroy hold for every open handle, and the last one destroys. */
  lemma CloseAssertions(n: Counts, h: multiset<Flags>, everReader: bool, everWriter: bool, f: Flags)
    requires Ledger(n, h, everReader, everWriter) && f in h
    ensures CanClose(n, f)
    ensures Release(n, f).refs == 0 <==> h - multiset{f} == multiset{}
    ensures Release(n, f).refs == 0 ==> Release(n, f).readers == 0 && Release(n, f).writers == 0
  {
    CountsBound(h);
    assert |h - multiset{f}| == |h| - 1;
    assert h == (h - multiset{f}) + multiset{f};
  }

  lemma ReleaseKeepsLedger(n: Counts, h: multiset<Flags>, everReader: bool, everWriter: bool, f: Flags)
    requires Ledger(n, h, everReader, everWriter) && f in h && CanClose(n, f)
    ensures Ledger(Release(n, f), h - multiset{f}, everReader, everWriter)
  {
    var left := h - multiset{f};
    assert forall g :: left[g] == if g == f then h[g] - 1 else h[g];
    assert |left| == |h| - 1;
    CountsBound(h);
  }

  lemma AcquireKeepsLedger(n: Counts, h: multiset<Flags>, everReader: bool, everWriter: bool, f: Flags)
    requires Ledger(n, h, everReader, everWriter)
    ensures Ledger(Acquire(n, f), h + multiset{f}, everReader || f.reader, everWriter || f.writer)
  {
  }

  lemma CountsKept(s: State, step: Step)
    requires Enabled(s, step) && !step.OpenHandle? && !step.CloseHandle?
    ensures var s' := Apply(s, step);
            && s'.mq.counts == s.mq.counts && s'.handles == s.handles
            && s'.everReader == s.everReader && s'.everWriter == s.everWriter
  {
  }

  lemma StepKeepsLedger(s: State, step: Step)
    requires LedgerOf(s) && Enabled(s, step)
    ensures LedgerOf(Apply(s, step))
  {
    match step
    case OpenHandle(f) => AcquireKeepsLedger(s.mq.counts, s.handles, s.everReader, s.everWriter, f);
    case CloseHandle(f) => ReleaseKeepsLedger(s.mq.counts, s.handles, s.everReader, s.everWriter, f);
    case _ => CountsKept(s, step);
  }

  lemma CloseKeepsSound(s: State, f: Flags)
    requires Sound(s) && s.Alive() && f in s.handles && CanClose(s.mq.counts, f)
    requires Release(s.mq.counts, f).refs == 0 <==> s.handles - multiset{f} == multiset{}
    ensures Sound(ApplyClose(s, f))
  {
    var s' := ApplyClose(s, f);
    assert Fifo(s');
    if s'.Alive() {
      var n := Release(s.mq.counts, f);
      BroadcastCovers(s.waits, n.noReaders, n.noWriters, |s.Queued()|, s.mq.counts.noWriters, s.mq.capacity);
    }
  }

  /** The ring is empty or starts with a frame, so the ignored results of the peek and both reads are true. */
  lemma FramedAlways(s: State)
    requires Fifo(s)
    ensures Framed(s.mq)
    ensures s.mq.bytes == [] <==> s.Queued() == []
    ensures s.Queued() != [] ==>
              && HasFrame(s.mq.bytes)
              && HeadBody(s.mq.bytes) == s.Queued()[0]
              && AfterHead(s.mq.bytes) == Frames(s.Queued()[1..])
  {
    if s.Queued() != [] {
      assert s.Queued()[0] in s.accepted;
      ParseHead(s.Queued());
    }
  }

  lemma ReadKeepsFifo(s: State, c: ReadCall, wake: set<WriteCall>)
    requires Fifo(s) && Framed(s.mq)
    ensures var s' := ApplyRead(s, c, wake);
            && Fifo(s')
            && if ReadResultOf(s.mq, c.flags).Got? then s.Queued() != [] && s'.Queued() == s.Queued()[1..]
               else s.Queued() == [] && s'.Queued() == []
  {
    FramedAlways(s);
    var s' := ApplyRead(s, c, wake);
    if ReadResultOf(s.mq, c.flags).Got? {
      assert s.accepted == s.delivered + s.Queued();
      assert s'.delivered <= s.accepted;
      assert s'.Queued() == s.Queued()[1..];
    }
  }

  lemma WriteKeepsFifo(s: State, c: WriteCall, r: WriteResult, wake: set<ReadCall>)
    requires Fifo(s)
    requires r.Accepted? ==> Fits(s.mq.capacity, c.msg) && s.mq.Free() >= Cost(c.msg)
    ensures var s' := ApplyWrite(s, c, r, wake);
            Fifo(s') && s'.Queued() == if r.Accepted? then s.Queued() + [c.msg] else s.Queued()
  {
    if r.Accepted? {
      var s' := ApplyWrite(s, c, r, wake);
      assert s'.Queued() == s.Queued() + [c.msg];
      FramesAppend(s.Queued(), c.msg);
    }
  }

  /** A reader's section, from a state in which one message may be owed to this very reader. */
  lemma ReadKeepsSound(s: State, c: ReadCall, wake: set<WriteCall>)
    requires s.mq.capacity > WORD && Fifo(s)
    requires s.waits.Lawful(s.mq.capacity)
    requires s.waits.Covered(|s.Queued()|, 1, s.mq.counts.noWriters)
    requires c !in s.waits.wokenR && ReadEnabled(s, c, wake)
    ensures Sound(ApplyRead(s, c, wake))
  {
    ReadKeepsFifo(s, c, wake);
    if ReadResultOf(s.mq, c.flags).Got? {
      TakeCovers(s.waits, wake, |s.Queued()|, s.mq.counts.noWriters, s.mq.capacity);
    }
  }

  /** The message is stored: whatever the sleeping writers had to hope for, a message is queued now. */
  lemma AcceptKeepsSound(s: State, c: WriteCall, r: WriteResult, wake: set<ReadCall>)
    requires s.mq.capacity > WORD && Fifo(s)
    requires s.waits.Lawful(s.mq.capacity)
    requires s.waits.sleepR != {} ==> |s.Queued()| <= |s.waits.wokenR|
    requires s.mq.counts.noWriters ==> s.waits.sleepR == {}
    requires r.Accepted? && Fits(s.mq.capacity, c.msg) && s.mq.Free() >= Cost(c.msg)
    requires Signals(s.waits.sleepR, wake)
    ensures Sound(ApplyWrite(s, c, r, wake))
  {
    WriteKeepsFifo(s, c, r, wake);
    StoreCovers(s.waits, wake, |s.Queued()|, s.mq.counts.noWriters, s.mq.capacity);
  }

  /** The writer sleeps: its message fits an empty ring and not this one, so a message is queued. */
  lemma WaitKeepsSound(s: State, c: WriteCall, wake: set<ReadCall>)
    requires s.mq.capacity > WORD && Fifo(s)
    requires s.waits.Lawful(s.mq.capacity) && c !in s.waits.wokenW
    requires s.waits.sleepR != {} ==> |s.Queued()| <= |s.waits.wokenR|
    requires s.mq.counts.noWriters ==> s.waits.sleepR == {}
    requires Fits(s.mq.capacity, c.msg) && s.mq.Free() < Cost(c.msg)
    ensures Sound(ApplyWrite(s, c, WriteWait, wake))
  {
  }

  lemma InitHoldsInv(s: State)
    requires Init(s)
    ensures Inv(s)
  {
  }

  lemma ResumeKeepsSound(s: State, step: Step)
    requires Sound(s) && Enabled(s, step) && (step.ReadResume? || step.WriteResume?)
    ensures Sound(Apply(s, step))
  {
    match step
    case ReadResume(c, wake) =>
      ReadKeepsSound(s.(waits := s.waits.(wokenR := s.waits.wokenR - {c})), c, wake);
    case WriteResume(c, wake) =>
      var s0 := s.(waits := s.waits.(wokenW := s.waits.wokenW - {c}));
      if s.mq.Free() < Cost(c.msg) {
        WaitKeepsSound(s0, c, wake);
      } else {
        AcceptKeepsSound(s0, c, ResumedWriteResult(s.mq, c.flags, c.msg), wake);
      }
  }

  lemma WriteEnterKeepsSound(s: State, c: WriteCall, wake: set<ReadCall>)
    requires Sound(s) && Enabled(s, WriteEnter(c, wake))
    ensures Sound(Apply(s, WriteEnter(c, wake)))
  {
    match WriteResultOf(s.mq, c.flags, c.msg)
    case WriteWait => WaitKeepsSound(s, c, wake);
    case Accepted(code) => AcceptKeepsSound(s, c, Accepted(code), wake);
    case _ => assert Apply(s, WriteEnter(c, wake)) == s;
  }

  /** Every critical section, by any thread, keeps the invariant. */
  lemma StepKeepsInv(s: State, step: Step)
    requires Inv(s) && Enabled(s, step)
    ensures Inv(Apply(s, step))
  {
    StepKeepsLedger(s, step);
    StepKeepsSound(s, step);
  }

  lemma StepKeepsSound(s: State, step: Step)
    requires Inv(s) && Enabled(s, step)
    ensures Sound(Apply(s, step))
  {
    match step
    case OpenHandle(f) =>
    case CloseHandle(f) =>
      CloseAssertions(s.mq.counts, s.handles, s.everReader, s.everWriter, f);
      CloseKeepsSound(s, f);
    case ReadEnter(c, wake) => ReadKeepsSound(s, c, wake);
    case WriteEnter(c, wake) => WriteEnterKeepsSound(s, c, wake);
    case Spurious(r, w) => SpuriousCovers(s.waits, r, w, |s.Queued()|, s.mq.counts.noWriters, s.mq.capacity);
    case _ => ResumeKeepsSound(s, step);
  }
}
