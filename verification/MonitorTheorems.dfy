/** What every run of the monitor guarantees. */
module MonitorTheorems {
  import opened Framing
  import opened Handles
  import opened QueueCore
  import opened WaitSets
  import opened Monitor

  ghost predicate Runs(s: State, steps: seq<Step>, s': State)
    decreases |steps|
  {
    if steps == [] then s' == s
    else Enabled(s, steps[0]) && Runs(Apply(s, steps[0]), steps[1..], s')
  }

  ghost predicate Reachable(s: State)
  {
    exists s0, steps :: Init(s0) && Runs(s0, steps, s)
  }

  lemma {:induction false} RunKeepsInv(s: State, steps: seq<Step>, s': State)
    requires Inv(s) && Runs(s, steps, s')
    ensures Inv(s')
    decreases |steps|
  {
    if steps != [] {
      StepKeepsInv(s, steps[0]);
      RunKeepsInv(Apply(s, steps[0]), steps[1..], s');
    }
  }

  lemma ReachableInv(s: State)
    requires Reachable(s)
    ensures Inv(s)
  {
    var s0, steps :| Init(s0) && Runs(s0, steps, s);
    InitHoldsInv(s0);
    RunKeepsInv(s0, steps, s);
  }

  /** A message is never queued behind sleeping readers only, and nobody waits for writers that are gone. */
  lemma NoLostReaderWakeup(s: State)
    requires Reachable(s) && s.Alive()
    ensures s.waits.sleepR != {} ==> |s.Queued()| <= |s.waits.wokenR|
    ensures s.mq.counts.noWriters ==> s.waits.sleepR == {}
  {
    ReachableInv(s);
  }

  /** A woken thread goes on and its call is over: it is blocked no more. */
  predicate Completes(s: State, step: Step)
  {
    Enabled(s, step) &&
    var w := Apply(s, step).waits;
    || (step.ReadResume? && step.rc !in w.sleepR + w.wokenR)
    || (step.WriteResume? && step.wc !in w.sleepW + w.wokenW)
  }

  lemma WokenReaderCompletes(s: State, c: ReadCall)
    requires Sound(s) && s.Alive() && c in s.waits.wokenR && s.Queued() != [] && |s.Queued()[0]| <= c.room
    ensures Completes(s, ReadResume(c, s.waits.sleepW))
  {
    FramedAlways(s);
  }

  lemma WokenWriterCompletes(s: State, c: WriteCall)
    requires Sound(s) && s.Alive() && c in s.waits.wokenW && s.Queued() == []
    ensures Completes(s, WriteResume(c, s.waits.sleepR))
  {
  }

  /** Some woken reader's buffer holds the next message, if there is one. */
  predicate ReaderHasRoom(s: State)
  {
    s.Queued() != [] ==> exists c | c in s.waits.wokenR :: |s.Queued()[0]| <= c.room
  }

  /**
   When both sides have a sleeper, some thread is woken, and some woken thread can go on and complete
   its call if one of the woken readers has room for the next message.
   */
  lemma NoDeadlock(s: State)
    requires Reachable(s) && s.Alive() && s.waits.sleepR != {} && s.waits.sleepW != {}
    ensures if s.Queued() != [] then s.waits.wokenR != {} else s.waits.wokenW != {}
    ensures ReaderHasRoom(s) ==> exists step :: Completes(s, step)
  {
    ReachableInv(s);
    if s.Queued() == [] {
      var c :| c in s.waits.wokenW;
      WokenWriterCompletes(s, c);
    } else if ReaderHasRoom(s) {
      var c :| c in s.waits.wokenR && |s.Queued()[0]| <= c.room;
      WokenReaderCompletes(s, c);
    }
  }

  /** The ring reads as the queued messages and as no other sequence. */
  lemma OneReading(s: State, ms: seq<Message>)
    requires Fifo(s) && (forall m | m in ms :: Encodable(m)) && s.mq.bytes == Frames(ms)
    ensures ms == s.Queued()
  {
    forall m | m in s.Queued()
      ensures Encodable(m)
    {
      assert m in s.accepted;
    }
    FramesInjective(ms, s.Queued());
  }

  lemma NothingLost(s: State)
    requires Fifo(s)
    ensures s.accepted == s.delivered + s.Queued()
  {
  }

  /** Messages come out as they went in, and the ring has exactly one reading: the messages in between. */
  lemma FifoConservation(s: State, ms: seq<Message>)
    requires Reachable(s) && forall m | m in ms :: Encodable(m)
    ensures s.accepted == s.delivered + s.Queued()
    ensures s.mq.bytes == Frames(ms) <==> ms == s.Queued()
    ensures Framed(s.mq) && |s.mq.bytes| <= s.mq.capacity
  {
    ReachableInv(s);
    NothingLost(s);
    FramedAlways(s);
    if s.mq.bytes == Frames(ms) {
      OneReading(s, ms);
    }
  }

  /** The counters against the open handles, and what closing any of them asserts. */
  lemma HandleLedger(s: State, f: Flags)
    requires Reachable(s)
    ensures s.mq.counts.refs == |s.handles|
    ensures s.mq.counts.readers == ReaderCount(s.handles) && s.mq.counts.writers == WriterCount(s.handles)
    ensures s.mq.counts.noReaders <==> s.everReader && forall g | g in s.handles :: !g.reader
    ensures s.mq.counts.noWriters <==> s.everWriter && forall g | g in s.handles :: !g.writer
    ensures f in s.handles ==>
              && Enabled(s, CloseHandle(f))
              && (!Apply(s, CloseHandle(f)).Alive() <==> Release(s.mq.counts, f).refs == 0)
              && (Release(s.mq.counts, f).refs == 0 ==>
                    Release(s.mq.counts, f).readers == 0 && Release(s.mq.counts, f).writers == 0)
  {
    ReachableInv(s);
    var h := s.handles;
    CountsBound(h);
    if ReaderCount(h) > 0 {
      assert exists g :: g in h && g.reader by {
        assert Flags(true, false, false) in h || Flags(true, false, true) in h || Flags(true, true, false) in h || Flags(true, true, true) in h;
      }
    }
    if WriterCount(h) > 0 {
      assert exists g :: g in h && g.writer by {
        assert Flags(false, true, false) in h || Flags(false, true, true) in h || Flags(true, true, false) in h || Flags(true, true, true) in h;
      }
    }
    if f in h {
      CloseAssertions(s.mq.counts, h, s.everReader, s.everWriter, f);
    }
  }

  // ----- End of file

  /** A section of msg_queue_read answers 0 exactly at the end of the stream, and never delivers an empty message. */
  lemma EofExact(s: State, f: Flags)
    requires Reachable(s)
    ensures Framed(s.mq)
    ensures ReadResultOf(s.mq, f) == EndOfFile <==> s.mq.counts.noWriters && s.delivered == s.accepted
    ensures ReadResultOf(s.mq, f).Got? <==> |s.delivered| < |s.accepted|
    ensures ReadResultOf(s.mq, f).Got? ==>
              ReadResultOf(s.mq, f).msg == s.accepted[|s.delivered|] && |ReadResultOf(s.mq, f).msg| >= 1
  {
    ReachableInv(s);
    FramedAlways(s);
    NothingLost(s);
    if s.Queued() != [] {
      assert s.Queued()[0] == s.accepted[|s.delivered|];
      assert Fits(s.mq.capacity, s.accepted[|s.delivered|]);
    }
  }

  predicate AtEof(s: State) { s.mq.counts.noWriters && s.mq.bytes == [] }

  predicate NoWriterOpened(steps: seq<Step>)
  {
    forall i :: 0 <= i < |steps| && steps[i].OpenHandle? ==> !steps[i].flags.writer
  }

  lemma EofStep(s: State, step: Step)
    requires Inv(s) && Enabled(s, step) && AtEof(s) && s.waits.sleepW == {} == s.waits.wokenW
    requires step.OpenHandle? ==> !step.flags.writer
    ensures var s' := Apply(s, step); AtEof(s') && s'.waits.sleepW == {} == s'.waits.wokenW
  {
  }

  lemma {:induction false} EofPersists(s: State, steps: seq<Step>, s': State)
    requires Inv(s) && AtEof(s) && s.waits.sleepW == {} == s.waits.wokenW
    requires Runs(s, steps, s') && NoWriterOpened(steps)
    ensures AtEof(s')
    decreases |steps|
  {
    if steps != [] {
      assert steps[0].OpenHandle? ==> !steps[0].flags.writer;
      EofStep(s, steps[0]);
      StepKeepsInv(s, steps[0]);
      assert NoWriterOpened(steps[1..]);
      EofPersists(Apply(s, steps[0]), steps[1..], s');
    }
  }

  /** A writer still blocked when the last writer handle was closed is woken and can end the end of file. */
  lemma BlockedWriterEndsEof(s: State) returns (step: Step)
    requires Inv(s) && s.Alive() && AtEof(s) && (s.waits.sleepW != {} || s.waits.wokenW != {})
    ensures step.WriteResume? && Enabled(s, step) && !AtEof(Apply(s, step))
  {
    FramedAlways(s);
    var c :| c in s.waits.wokenW;
    step := WriteResume(c, {});
  }

  lemma RunOfOne(s: State, step: Step, s': State)
    requires Enabled(s, step) && s' == Apply(s, step)
    ensures Runs(s, [step], s')
  {
    assert Runs(s', [step][1..], s');
  }

  /** Every run that opens no writer handle stays at end of file. */
  ghost predicate EofLasts(s: State)
  {
    forall steps, s' | Runs(s, steps, s') && NoWriterOpened(steps) :: AtEof(s')
  }

  lemma EofLastsUnblocked(s: State)
    requires Reachable(s) && AtEof(s) && s.waits.sleepW == {} == s.waits.wokenW
    ensures EofLasts(s)
  {
    ReachableInv(s);
    forall steps, s' | Runs(s, steps, s') && NoWriterOpened(steps)
      ensures AtEof(s')
    {
      EofPersists(s, steps, s');
    }
  }

  lemma EofEnds(s: State)
    requires Reachable(s) && s.Alive() && AtEof(s) && (s.waits.sleepW != {} || s.waits.wokenW != {})
    ensures !EofLasts(s)
  {
    ReachableInv(s);
    var step := BlockedWriterEndsEof(s);
    RunOfOne(s, step, Apply(s, step));
    assert NoWriterOpened([step]);
  }

  /** End of file lasts until a writer handle is opened, if and only if no writer is blocked in the queue. */
  lemma EofPersistsIff(s: State)
    requires Reachable(s) && s.Alive() && AtEof(s)
    ensures EofLasts(s) <==> s.waits.sleepW == {} && s.waits.wokenW == {}
  {
    if s.waits.sleepW == {} && s.waits.wokenW == {} {
      EofLastsUnblocked(s);
    } else {
      EofEnds(s);
    }
  }

  lemma {:induction false} RunsThen(s: State, steps: seq<Step>, s': State, step: Step)
    requires Runs(s, steps, s') && Enabled(s', step)
    ensures Runs(s, steps + [step], Apply(s', step))
    decreases |steps|
  {
    if steps == [] {
      assert [step][1..] == [];
    } else {
      RunsThen(Apply(s, steps[0]), steps[1..], s', step);
      assert (steps + [step])[1..] == steps[1..] + [step];
    }
  }

  lemma Extend(s: State, step: Step) returns (s': State)
    requires Reachable(s) && Enabled(s, step)
    ensures Reachable(s') && s' == Apply(s, step)
  {
    var s0, steps :| Init(s0) && Runs(s0, steps, s);
    RunsThen(s0, steps, s, step);
    s' := Apply(s, step);
  }

  // ----- Single steps, for building runs

  /** A write that finds room, with no reader asleep, stores its message. */
  lemma AcceptStep(s: State, c: WriteCall)
    requires s.Alive() && s.waits.Idle(c.t) && c.flags in s.handles && c.flags.writer && s.waits.sleepR == {}
    requires Fits(s.mq.capacity, c.msg) && !s.mq.counts.noReaders && Cost(c.msg) <= s.mq.Free()
    ensures Enabled(s, WriteEnter(c, {}))
    ensures Apply(s, WriteEnter(c, {})) == s.(mq := AfterAccept(s.mq, c.flags, c.msg), accepted := s.accepted + [c.msg])
  {
    assert s.waits.WakeReaders({}) == s.waits;
  }

  /** The ring starts with the frame of the oldest message. */
  lemma OldestFrame(s: State)
    requires Reachable(s) && s.delivered < s.accepted
    ensures Framed(s.mq) && s.mq.bytes != [] && HeadBody(s.mq.bytes) == s.accepted[|s.delivered|]
    ensures |AfterHead(s.mq.bytes)| == |s.mq.bytes| - Cost(HeadBody(s.mq.bytes))
  {
    ReachableInv(s);
    FramedAlways(s);
  }

  /** A read with room for the head message takes it. */
  lemma TakeStep(s: State, c: ReadCall, wake: set<WriteCall>)
    requires s.Alive() && s.waits.Idle(c.t) && c.flags in s.handles && c.flags.reader && Signals(s.waits.sleepW, wake)
    requires Framed(s.mq) && s.mq.bytes != [] && |HeadBody(s.mq.bytes)| <= c.room
    ensures Enabled(s, ReadEnter(c, wake))
    ensures Apply(s, ReadEnter(c, wake)) ==
            s.(mq := AfterRead(s.mq, c.flags), delivered := s.delivered + [HeadBody(s.mq.bytes)], waits := s.waits.WakeWriters(wake))
  {
  }
}
