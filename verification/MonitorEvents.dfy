/** What the event bits that poll reports mean, over all runs. */
module MonitorEvents {
  import opened Framing
  import opened Handles
  import opened QueueCore
  import opened WaitSets
  import opened Monitor
  import opened MonitorTheorems

  // ----- MQPOLL_READABLE

  predicate ReadableExact(s: State)
  {
    Readable in s.mq.event <==> s.mq.bytes != [] || s.mq.counts.noWriters
  }

  /** The two steps after which the READABLE bit no longer tells the truth. */
  predicate Spoils(s: State, step: Step)
    requires Enabled(s, step)
  {
    match step
    case OpenHandle(f) => f.writer && AtEof(s)
    case WriteEnter(c, _) =>
      c.flags.nonblock && s.mq.bytes == [] && !s.mq.counts.noWriters && WriteResultOf(s.mq, c.flags, c.msg).Accepted?
    case WriteResume(c, _) =>
      c.flags.nonblock && s.mq.bytes == [] && !s.mq.counts.noWriters && ResumedWriteResult(s.mq, c.flags, c.msg).Accepted?
    case _ => false
  }

  lemma ReadableAfterRead(s: State, c: ReadCall, wake: set<WriteCall>)
    requires Framed(s.mq) && ReadableExact(s)
    ensures ReadableExact(ApplyRead(s, c, wake))
  {
  }

  lemma ReadableAfterWrite(s: State, c: WriteCall, r: WriteResult, wake: set<ReadCall>)
    requires ReadableExact(s)
    ensures ReadableExact(ApplyWrite(s, c, r, wake)) <==>
            !(r.Accepted? && c.flags.nonblock && s.mq.bytes == [] && !s.mq.counts.noWriters)
  {
  }

  lemma ReadableAfterClose(s: State, f: Flags)
    requires Enabled(s, CloseHandle(f)) && ReadableExact(s) && Release(s.mq.counts, f).refs != 0
    ensures ReadableExact(ApplyClose(s, f))
  {
  }

  /** From a state where READABLE is exact it stays exact precisely when the step is not a spoiling one. */
  lemma ReadableStep(s: State, step: Step)
    requires Enabled(s, step) && ReadableExact(s)
    requires step.CloseHandle? ==> Release(s.mq.counts, step.flags).refs != 0
    ensures ReadableExact(Apply(s, step)) <==> !Spoils(s, step)
  {
    match step
    case OpenHandle(f) =>
    case CloseHandle(f) => ReadableAfterClose(s, f);
    case ReadEnter(c, wake) => ReadableAfterRead(s, c, wake);
    case ReadResume(c, wake) =>
      ReadableAfterRead(s.(waits := s.waits.(wokenR := s.waits.wokenR - {c})), c, wake);
    case WriteEnter(c, wake) => ReadableAfterWrite(s, c, WriteResultOf(s.mq, c.flags, c.msg), wake);
    case WriteResume(c, wake) =>
      ReadableAfterWrite(s.(waits := s.waits.(wokenW := s.waits.wokenW - {c})), c,
                         ResumedWriteResult(s.mq, c.flags, c.msg), wake);
    case Spurious(r, w) =>
  }

  ghost predicate NeverSpoiled(s: State, steps: seq<Step>)
    decreases |steps|
  {
    steps == [] ||
    (Enabled(s, steps[0]) && !Spoils(s, steps[0]) && NeverSpoiled(Apply(s, steps[0]), steps[1..]))
  }

  lemma {:induction false} ReadableRun(s: State, steps: seq<Step>, s': State)
    requires Inv(s) && (s.Alive() ==> ReadableExact(s)) && Runs(s, steps, s') && NeverSpoiled(s, steps)
    ensures s'.Alive() ==> ReadableExact(s')
    decreases |steps|
  {
    if steps != [] {
      if Apply(s, steps[0]).Alive() {
        if steps[0].CloseHandle? {
          CloseAssertions(s.mq.counts, s.handles, s.everReader, s.everWriter, steps[0].flags);
        }
        ReadableStep(s, steps[0]);
      }
      StepKeepsInv(s, steps[0]);
      ReadableRun(Apply(s, steps[0]), steps[1..], s');
    }
  }

  /** In a run without spoiling steps READABLE says exactly that a read by a blocking handle returns at once. */
  lemma ReadableMeansReady(s0: State, steps: seq<Step>, s: State, f: Flags)
    requires Init(s0) && s0.mq.event == {} && Runs(s0, steps, s) && NeverSpoiled(s0, steps) && s.Alive() && !f.nonblock
    ensures Framed(s.mq)
    ensures Readable in s.mq.event <==> s.Queued() != [] || s.mq.counts.noWriters
    ensures Readable in s.mq.event <==> !ReadResultOf(s.mq, f).ReadWait?
  {
    InitHoldsInv(s0);
    RunKeepsInv(s0, steps, s);
    ReadableRun(s0, steps, s);
    FramedAlways(s);
  }

  // ----- MQPOLL_WRITABLE

  /** Room was seen by a read since creation, and there is room now. */
  predicate Drained(s: State) { s.delivered != [] && s.mq.Free() > 0 }

  predicate WritableExact(s: State)
  {
    Writable in s.mq.event <==> Drained(s) || s.mq.counts.noReaders
  }

  /** The steps after which the WRITABLE bit no longer has that meaning. */
  predicate SpoilsWritable(s: State, step: Step)
    requires Enabled(s, step)
  {
    match step
    case OpenHandle(f) => f.reader && s.mq.counts.noReaders && !Drained(s)
    case WriteEnter(c, _) =>
      WriteResultOf(s.mq, c.flags, c.msg).Accepted? && FillsUnseen(s, c)
    case WriteResume(c, _) =>
      ResumedWriteResult(s.mq, c.flags, c.msg).Accepted? && FillsUnseen(s, c)
    case _ => false
  }

  /** A non-blocking write takes the last free byte. */
  predicate FillsUnseen(s: State, c: WriteCall)
  {
    c.flags.nonblock && !s.mq.counts.noReaders && s.delivered != [] && s.mq.Free() == Cost(c.msg)
  }

  lemma WritableAfterRead(s: State, c: ReadCall, wake: set<WriteCall>)
    requires Framed(s.mq) && WritableExact(s) && |s.mq.bytes| <= s.mq.capacity
    ensures WritableExact(ApplyRead(s, c, wake))
  {
    var s' := ApplyRead(s, c, wake);
    if ReadResultOf(s.mq, c.flags).Got? {
      assert s'.delivered != [] && s'.mq.Free() > 0;
    }
  }

  lemma WritableAfterWrite(s: State, c: WriteCall, r: WriteResult, wake: set<ReadCall>)
    requires WritableExact(s) && (r.Accepted? ==> Cost(c.msg) <= s.mq.Free())
    ensures WritableExact(ApplyWrite(s, c, r, wake)) <==> !(r.Accepted? && FillsUnseen(s, c))
  {
    if r.Accepted? {
      assert AfterAccept(s.mq, c.flags, c.msg).Free() == s.mq.Free() - Cost(c.msg);
    }
  }

  lemma WritableAfterClose(s: State, f: Flags)
    requires Enabled(s, CloseHandle(f)) && WritableExact(s) && Release(s.mq.counts, f).refs != 0
    ensures WritableExact(ApplyClose(s, f))
  {
  }

  /** From a state where WRITABLE has that meaning it keeps it precisely when the step is not a spoiling one. */
  lemma WritableStep(s: State, step: Step)
    requires Enabled(s, step) && WritableExact(s) && |s.mq.bytes| <= s.mq.capacity
    requires step.CloseHandle? ==> Release(s.mq.counts, step.flags).refs != 0
    ensures WritableExact(Apply(s, step)) <==> !SpoilsWritable(s, step)
  {
    match step
    case OpenHandle(f) =>
    case CloseHandle(f) => WritableAfterClose(s, f);
    case ReadEnter(c, wake) => WritableAfterRead(s, c, wake);
    case ReadResume(c, wake) =>
      WritableAfterRead(s.(waits := s.waits.(wokenR := s.waits.wokenR - {c})), c, wake);
    case WriteEnter(c, wake) => WritableAfterWrite(s, c, WriteResultOf(s.mq, c.flags, c.msg), wake);
    case WriteResume(c, wake) =>
      WritableAfterWrite(s.(waits := s.waits.(wokenW := s.waits.wokenW - {c})), c,
                         ResumedWriteResult(s.mq, c.flags, c.msg), wake);
    case Spurious(r, w) =>
  }

  ghost predicate NeverSpoiledWritable(s: State, steps: seq<Step>)
    decreases |steps|
  {
    steps == [] ||
    (Enabled(s, steps[0]) && !SpoilsWritable(s, steps[0]) && NeverSpoiledWritable(Apply(s, steps[0]), steps[1..]))
  }

  lemma {:induction false} WritableRun(s: State, steps: seq<Step>, s': State)
    requires Inv(s) && (s.Alive() ==> WritableExact(s)) && Runs(s, steps, s') && NeverSpoiledWritable(s, steps)
    ensures s'.Alive() ==> WritableExact(s')
    decreases |steps|
  {
    if steps != [] {
      if Apply(s, steps[0]).Alive() {
        if steps[0].CloseHandle? {
          CloseAssertions(s.mq.counts, s.handles, s.everReader, s.everWriter, steps[0].flags);
        }
        WritableStep(s, steps[0]);
      }
      StepKeepsInv(s, steps[0]);
      WritableRun(Apply(s, steps[0]), steps[1..], s');
    }
  }

  /** The header's meaning: room for a header and one byte, or all reader handles closed. */
  predicate DocumentedWritable(s: State) { s.mq.Free() >= WORD + 1 || s.mq.counts.noReaders }

  /**
   The bit agrees with its documented meaning exactly outside two situations: room that nobody has
   read a message to make yet, and room of one to eight bytes.
   */
  lemma WritableDocumentedIff(s0: State, steps: seq<Step>, s: State)
    requires Init(s0) && s0.mq.event == {} && Runs(s0, steps, s) && NeverSpoiledWritable(s0, steps) && s.Alive()
    ensures (Writable in s.mq.event <==> DocumentedWritable(s)) <==>
            s.mq.counts.noReaders || (if s.delivered == [] then s.mq.Free() <= WORD else !(0 < s.mq.Free() <= WORD))
  {
    InitHoldsInv(s0);
    WritableRun(s0, steps, s);
  }

  // ----- A side that is gone

  /** While a side has lost its last handle, the events that say so are set. */
  predicate MissingSideShown(q: Mq)
  {
    && (q.counts.noReaders ==> {Writable, NoReaders} <= q.event)
    && (q.counts.noWriters ==> {Readable, NoWriters} <= q.event)
  }

  lemma MissingAfterRead(q: Mq, f: Flags)
    requires Framed(q) && MissingSideShown(q)
    ensures MissingSideShown(AfterRead(q, f))
  {
  }

  lemma MissingAfterAccept(q: Mq, c: WriteCall)
    requires MissingSideShown(q)
    ensures MissingSideShown(AfterAccept(q, c.flags, c.msg))
  {
  }

  lemma MissingSideStep(s: State, step: Step)
    requires Enabled(s, step) && MissingSideShown(s.mq)
    requires step.CloseHandle? ==> Release(s.mq.counts, step.flags).refs != 0
    ensures MissingSideShown(Apply(s, step).mq)
  {
    match step
    case ReadEnter(c, wake) => MissingAfterRead(s.mq, c.flags);
    case ReadResume(c, wake) => MissingAfterRead(s.mq, c.flags);
    case WriteEnter(c, wake) => MissingAfterAccept(s.mq, c);
    case WriteResume(c, wake) => MissingAfterAccept(s.mq, c);
    case _ =>
  }

  lemma {:induction false} MissingSideRun(s: State, steps: seq<Step>, s': State)
    requires Inv(s) && (s.Alive() ==> MissingSideShown(s.mq)) && Runs(s, steps, s')
    ensures s'.Alive() ==> MissingSideShown(s'.mq)
    decreases |steps|
  {
    if steps != [] {
      if Apply(s, steps[0]).Alive() {
        if steps[0].CloseHandle? {
          CloseAssertions(s.mq.counts, s.handles, s.everReader, s.everWriter, steps[0].flags);
        }
        MissingSideStep(s, steps[0]);
      }
      StepKeepsInv(s, steps[0]);
      MissingSideRun(Apply(s, steps[0]), steps[1..], s');
    }
  }

  /** In every run, including reopening and non-blocking handles. */
  lemma MissingSideAlwaysShown(s: State)
    requires Reachable(s) && s.Alive()
    ensures MissingSideShown(s.mq)
  {
    var s0, steps :| Init(s0) && Runs(s0, steps, s);
    InitHoldsInv(s0);
    MissingSideRun(s0, steps, s);
  }
}
