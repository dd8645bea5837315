/** What each call answers and does, in terms of the handles that are open and the messages so far. */
module MonitorOutcomes {
  import opened Framing
  import opened Handles
  import opened QueueCore
  import opened WaitSets
  import opened Monitor
  import opened MonitorTheorems

  /** A side was opened and none of its handles is left. */
  ghost predicate ReadersGone(s: State) { s.everReader && forall g | g in s.handles :: !g.reader }

  ghost predicate WritersGone(s: State) { s.everWriter && forall g | g in s.handles :: !g.writer }

  lemma GoneIsFlagged(s: State)
    requires Reachable(s)
    ensures s.mq.counts.noReaders <==> ReadersGone(s)
    ensures s.mq.counts.noWriters <==> WritersGone(s)
  {
    HandleLedger(s, Flags(true, true, true));
  }

  /** These readers and writers, and no others, have been woken. */
  function Woken(w: Waits, r: set<ReadCall>, x: set<WriteCall>): Waits
  {
    Waits(w.sleepR - r, w.wokenR + r, w.sleepW - x, w.wokenW + x)
  }

  /** Reads and writes change the contents and the events of a queue, not its size or its counts. */
  predicate SameBut(q: Mq, q': Mq) { q'.capacity == q.capacity && q'.counts == q.counts }

  // ----- Write

  /** What a call of msg_queue_write returns when it is over. */
  function Answer(r: WriteResult): int
    requires !r.WriteWait?
  {
    if r.Accepted? then r.code else -1
  }

  /** A write that the checks at its start refuse. */
  ghost predicate Refused(s: State, c: WriteCall)
  {
    c.msg == [] || ReadersGone(s) || s.mq.capacity <= Cost(c.msg)
  }

  /** The reason given is the first that applies: no bytes, no readers left, too many bytes. */
  lemma WriteRefusals(s: State, c: WriteCall)
    requires Reachable(s)
    ensures var r := WriteResultOf(s.mq, c.flags, c.msg);
            && (r == BadLength <==> c.msg == [])
            && (r == BrokenPipe <==> c.msg != [] && ReadersGone(s))
            && (r == TooLong <==> c.msg != [] && !ReadersGone(s) && s.mq.capacity <= Cost(c.msg))
            && (r == WriteWait <==> !Refused(s, c) && s.mq.Free() < Cost(c.msg))
            && (r.Accepted? <==> !Refused(s, c) && Cost(c.msg) <= s.mq.Free())
  {
    GoneIsFlagged(s);
  }

  lemma AppliedWrite(s: State, c: WriteCall, r: WriteResult, wake: set<ReadCall>)
    ensures var s' := ApplyWrite(s, c, r, wake);
            && (r.Accepted? ==>
                  s' == s.(mq := s'.mq, accepted := s.accepted + [c.msg], waits := Woken(s.waits, wake, {})) && SameBut(s.mq, s'.mq))
            && (r.WriteWait? ==> s' == s.(waits := s.waits.(sleepW := s.waits.sleepW + {c})))
            && (!r.Accepted? && !r.WriteWait? ==> s' == s)
            && (s'.accepted == s.accepted + [c.msg] <==> r.Accepted?)
  {
    assert s.accepted != s.accepted + [c.msg];
    assert Woken(s.waits, wake, {}) == s.waits.WakeReaders(wake);
  }

  /** A write stores its message, sleeps or changes nothing at all, and which of them its arguments and the handles decide. */
  lemma WriteOutcome(s: State, c: WriteCall, wake: set<ReadCall>)
    requires Reachable(s) && Enabled(s, WriteEnter(c, wake))
    ensures var s' := Apply(s, WriteEnter(c, wake));
            && (s'.accepted == s.accepted + [c.msg] <==> !Refused(s, c) && Cost(c.msg) <= s.mq.Free())
            && (Refused(s, c) ==> s' == s)
            && (!Refused(s, c) && Cost(c.msg) <= s.mq.Free() ==>
                  s' == s.(mq := s'.mq, accepted := s.accepted + [c.msg], waits := Woken(s.waits, wake, {})) && SameBut(s.mq, s'.mq))
            && (!Refused(s, c) && s.mq.Free() < Cost(c.msg) ==>
                  c in s'.waits.sleepW && s' == s.(waits := s.waits.(sleepW := s.waits.sleepW + {c})))
  {
    WriteRefusals(s, c);
    AppliedWrite(s, c, WriteResultOf(s.mq, c.flags, c.msg), wake);
  }

  /** A woken write asks for room only. */
  lemma WriteResumeOutcome(s: State, c: WriteCall, wake: set<ReadCall>)
    requires Enabled(s, WriteResume(c, wake))
    ensures var s' := Apply(s, WriteResume(c, wake));
            && (s'.accepted == s.accepted + [c.msg] <==> Cost(c.msg) <= s.mq.Free())
            && (Cost(c.msg) <= s.mq.Free() ==>
                  && s' == s.(mq := s'.mq, accepted := s.accepted + [c.msg],
                              waits := Woken(s.waits, wake, {}).(wokenW := s.waits.wokenW - {c}))
                  && SameBut(s.mq, s'.mq))
            && (s.mq.Free() < Cost(c.msg) ==>
                  s' == s.(waits := s.waits.(sleepW := s.waits.sleepW + {c}, wokenW := s.waits.wokenW - {c})))
  {
    var w := s.waits.(wokenW := s.waits.wokenW - {c});
    AppliedWrite(s.(waits := w), c, ResumedWriteResult(s.mq, c.flags, c.msg), wake);
    assert Woken(w, wake, {}) == Woken(s.waits, wake, {}).(wokenW := s.waits.wokenW - {c});
  }

  /**
   The answer is 0 exactly when the message was stored with a blocking handle, and then the section
   raised READABLE; every other answer is -1 and leaves the events alone, stored or not.
   */
  lemma WriteAnswer(q: Mq, f: Flags, m: Message, r: WriteResult)
    requires r == WriteResultOf(q, f, m) || r == ResumedWriteResult(q, f, m)
    requires !r.WriteWait?
    ensures Answer(r) == 0 <==> r.Accepted? && !f.nonblock
    ensures Answer(r) == 0 ==> Readable in AfterWrite(q, f, m, r).event && AfterWrite(q, f, m, r).bytes == q.bytes + Frame(m)
    ensures Answer(r) != 0 ==> Answer(r) == -1 && AfterWrite(q, f, m, r).event == q.event
    ensures Readable !in q.event ==> (Answer(r) == 0 <==> Readable in AfterWrite(q, f, m, r).event)
    ensures !r.Accepted? ==> AfterWrite(q, f, m, r) == q
  {
  }

  // ----- Read

  /** What a read finds. */
  lemma ReadOutcome(s: State, f: Flags)
    requires Reachable(s)
    ensures Framed(s.mq)
    ensures var r := ReadResultOf(s.mq, f);
            && (r == EndOfFile <==> s.delivered == s.accepted && WritersGone(s))
            && (r == WouldBlock <==> s.delivered == s.accepted && !WritersGone(s) && f.nonblock)
            && (r == ReadWait <==> s.delivered == s.accepted && !WritersGone(s) && !f.nonblock)
            && (r.Got? <==> |s.delivered| < |s.accepted|)
            && (r.Got? ==> r.msg == s.accepted[|s.delivered|])
  {
    EofExact(s, f);
    GoneIsFlagged(s);
    ReachableInv(s);
    NothingLost(s);
  }

  lemma AppliedRead(s: State, c: ReadCall, wake: set<WriteCall>)
    requires Framed(s.mq)
    ensures var s', r := ApplyRead(s, c, wake), ReadResultOf(s.mq, c.flags);
            && (r.Got? ==> s' == s.(mq := s'.mq, delivered := s.delivered + [r.msg], waits := Woken(s.waits, {}, wake)))
            && (r == ReadWait ==> s' == s.(waits := s.waits.(sleepR := s.waits.sleepR + {c})))
            && (!r.Got? && r != ReadWait ==> s' == s.(mq := s'.mq))
            && (!r.Got? ==> s'.mq.bytes == s.mq.bytes)
            && SameBut(s.mq, s'.mq)
  {
    assert Woken(s.waits, {}, wake) == s.waits.WakeWriters(wake);
  }

  /** A read delivers the next message, sleeps, or changes nothing but the events. */
  lemma ReadSectionOutcome(s: State, c: ReadCall, wake: set<WriteCall>)
    requires Reachable(s) && Enabled(s, ReadEnter(c, wake))
    ensures var s' := Apply(s, ReadEnter(c, wake));
            && (if |s.delivered| < |s.accepted| then
                  s' == s.(mq := s'.mq, delivered := s.delivered + [s.accepted[|s.delivered|]], waits := Woken(s.waits, {}, wake))
                else
                  s'.mq.bytes == s.mq.bytes &&
                  s' == s.(mq := s'.mq, waits := if c in s'.waits.sleepR then s.waits.(sleepR := s.waits.sleepR + {c}) else s.waits))
            && SameBut(s.mq, s'.mq)
            && (c in s'.waits.sleepR <==> s.delivered == s.accepted && !WritersGone(s) && !c.flags.nonblock)
  {
    ReadOutcome(s, c.flags);
    AppliedRead(s, c, wake);
    NotYetAsleep(s, c);
  }

  lemma NotYetAsleep(s: State, c: ReadCall)
    requires s.waits.Idle(c.t)
    ensures c !in s.waits.sleepR && c !in s.waits.wokenR
  {
    assert c in s.waits.sleepR || c in s.waits.wokenR ==> c in s.waits.sleepR + s.waits.wokenR;
  }

  lemma ReadResumeOutcome(s: State, c: ReadCall, wake: set<WriteCall>)
    requires Reachable(s) && Enabled(s, ReadResume(c, wake))
    ensures var s' := Apply(s, ReadResume(c, wake));
            && (if |s.delivered| < |s.accepted| then
                  s' == s.(mq := s'.mq, delivered := s.delivered + [s.accepted[|s.delivered|]],
                           waits := Woken(s.waits, {}, wake).(wokenR := s.waits.wokenR - {c}))
                else
                  s'.mq.bytes == s.mq.bytes && s'.delivered == s.delivered && s'.accepted == s.accepted &&
                  s'.waits.wokenR == s.waits.wokenR - {c} && s'.waits.sleepW == s.waits.sleepW && s'.waits.wokenW == s.waits.wokenW)
            && SameBut(s.mq, s'.mq)
            && (c in s'.waits.sleepR <==> s.delivered == s.accepted && !WritersGone(s))
  {
    var w := s.waits.(wokenR := s.waits.wokenR - {c});
    ReadOutcome(s, c.flags);
    WokenBlocks(s, c);
    AppliedRead(s.(waits := w), c, wake);
    assert Woken(w, {}, wake) == Woken(s.waits, {}, wake).(wokenR := s.waits.wokenR - {c});
  }

  lemma WokenBlocks(s: State, c: ReadCall)
    requires Reachable(s) && c in s.waits.wokenR
    ensures c !in s.waits.sleepR && !c.flags.nonblock
  {
    ReachableInv(s);
  }

  // ----- Close

  /** Closing wakes everyone who waits for a side that is gone, and no one else. */
  lemma CloseOutcome(s: State, f: Flags)
    requires Reachable(s) && Enabled(s, CloseHandle(f)) && Apply(s, CloseHandle(f)).Alive()
    ensures var s' := Apply(s, CloseHandle(f));
            && s'.handles == s.handles - multiset{f} && s'.mq.bytes == s.mq.bytes
            && s'.accepted == s.accepted && s'.delivered == s.delivered
            && s'.waits.sleepW == (if ReadersGone(s') then {} else s.waits.sleepW)
            && s'.waits.wokenW == (if ReadersGone(s') then s.waits.wokenW + s.waits.sleepW else s.waits.wokenW)
            && s'.waits.sleepR == (if WritersGone(s') then {} else s.waits.sleepR)
            && s'.waits.wokenR == (if WritersGone(s') then s.waits.wokenR + s.waits.sleepR else s.waits.wokenR)
  {
    var s' := Extend(s, CloseHandle(f));
    GoneIsFlagged(s');
    HandleLedger(s, f);
    CloseWaits(s, f);
  }

  lemma CloseWaits(s: State, f: Flags)
    requires f in s.handles && CanClose(s.mq.counts, f) && Release(s.mq.counts, f).refs != 0
    ensures var s' := ApplyClose(s, f);
            && s'.handles == s.handles - multiset{f} && s'.mq.bytes == s.mq.bytes
            && s'.accepted == s.accepted && s'.delivered == s.delivered
            && s'.waits.sleepW == (if s'.mq.counts.noReaders then {} else s.waits.sleepW)
            && s'.waits.wokenW == (if s'.mq.counts.noReaders then s.waits.wokenW + s.waits.sleepW else s.waits.wokenW)
            && s'.waits.sleepR == (if s'.mq.counts.noWriters then {} else s.waits.sleepR)
            && s'.waits.wokenR == (if s'.mq.counts.noWriters then s.waits.wokenR + s.waits.sleepR else s.waits.wokenR)
  {
    assert s.waits.sleepW - s.waits.sleepW == {} && s.waits.sleepR - s.waits.sleepR == {};
  }

  // ----- Open, and waking unasked

  /** Opening a handle brings its sides back and does nothing else. */
  lemma OpenOutcome(s: State, f: Flags)
    requires Reachable(s) && Enabled(s, OpenHandle(f))
    ensures var s' := Apply(s, OpenHandle(f));
            && s'.handles == s.handles + multiset{f} && s'.waits == s.waits
            && s'.mq == s.mq.(counts := s'.mq.counts) && s'.accepted == s.accepted && s'.delivered == s.delivered
            && (ReadersGone(s') <==> ReadersGone(s) && !f.reader) && (WritersGone(s') <==> WritersGone(s) && !f.writer)
  {
    var s' := Extend(s, OpenHandle(f));
    GoneIsFlagged(s);
    GoneIsFlagged(s');
  }

  /** Any sleepers may wake at any time, and lose nothing but their sleep. */
  lemma UnaskedOutcome(s: State, r: set<ReadCall>, x: set<WriteCall>)
    requires s.Alive() && r <= s.waits.sleepR && x <= s.waits.sleepW
    ensures Enabled(s, Spurious(r, x)) && Apply(s, Spurious(r, x)) == s.(waits := Woken(s.waits, r, x))
  {
  }

  // ----- Every call can be made

  /**
   A thread can call exactly when it is idle and has an open handle of the right kind, and go on exactly
   when it is woken, whatever sleepers its signal goes to; a reader's buffer must hold the next message.
   */
  lemma CallsPossible(s: State, w: WriteCall, r: ReadCall, wakeR: set<ReadCall>, wakeW: set<WriteCall>)
    requires Reachable(s) && s.Alive() && Signals(s.waits.sleepR, wakeR) && Signals(s.waits.sleepW, wakeW)
    ensures s.waits.Idle(w.t) && w.flags in s.handles && w.flags.writer && Cost(w.msg) < TWO64 <==> Enabled(s, WriteEnter(w, wakeR))
    ensures w in s.waits.wokenW <==> Enabled(s, WriteResume(w, wakeR))
    ensures s.waits.Idle(r.t) && r.flags in s.handles && r.flags.reader && (s.Queued() != [] ==> |s.Queued()[0]| <= r.room) <==>
              Enabled(s, ReadEnter(r, wakeW))
    ensures r in s.waits.wokenR && (s.Queued() != [] ==> |s.Queued()[0]| <= r.room) <==> Enabled(s, ReadResume(r, wakeW))
  {
    ReadsPossible(s, r, wakeW);
  }

  lemma ReadsPossible(s: State, r: ReadCall, wake: set<WriteCall>)
    requires Reachable(s) && Signals(s.waits.sleepW, wake)
    ensures ReadEnabled(s, r, wake) <==> (s.Queued() != [] ==> |s.Queued()[0]| <= r.room)
  {
    ReachableInv(s);
    FramedAlways(s);
  }

  /** Exactly the open handles can be closed. */
  lemma ClosesPossible(s: State, f: Flags)
    requires Reachable(s) && s.Alive()
    ensures f in s.handles <==> Enabled(s, CloseHandle(f))
  {
    HandleLedger(s, f);
  }
}
