/**
 One queue of the poll model together with the monitor of its readers and writers. Its events change
 exactly as the critical sections of the monitor say; poll calls and the other queues run as before.
 */
module PolledQueue {
  import opened Framing
  import opened Handles
  import opened QueueCore
  import Monitor
  import MonitorTheorems
  import MonitorEvents
  import Poll
  import PollTheorems

  datatype State = State(mon: Monitor.State, poll: Poll.State)

  datatype Step = Section(m: Monitor.Step) | Elsewhere(p: Poll.Step)

  /** What a section does to the events: nothing, an update with a walk of the list, or a silent raise. */
  datatype Effect = Nothing | Walks(cleared: set<Event>, raised: set<Event>) | Silently(events: set<Event>)

  function ReadEffect(mq: Mq, f: Flags): Effect
    requires Framed(mq)
  {
    match ReadResultOf(mq, f)
    case EndOfFile => Walks({}, {NoWriters})
    case Got(_) => Walks(if AfterHead(mq.bytes) == [] && !mq.counts.noWriters then {Readable} else {}, {Writable})
    case _ => Nothing
  }

  function WriteEffect(mq: Mq, f: Flags, m: Message, r: WriteResult): Effect
  {
    if r.Accepted? && !f.nonblock then
      Walks(if mq.Free() == Cost(m) && !mq.counts.noReaders then {Writable} else {}, {Readable})
    else Nothing
  }

  function CloseEffect(mq: Mq, f: Flags): Effect
    requires CanClose(mq.counts, f)
  {
    var n := Release(mq.counts, f);
    if n.refs == 0 then Nothing
    else Silently((if n.noReaders then {Writable, NoReaders} else {}) + (if n.noWriters then {Readable, NoWriters} else {}))
  }

  function EffectOf(m: Monitor.State, step: Monitor.Step): Effect
    requires Monitor.Enabled(m, step)
  {
    match step
    case CloseHandle(f) => CloseEffect(m.mq, f)
    case ReadEnter(c, _) => ReadEffect(m.mq, c.flags)
    case ReadResume(c, _) => ReadEffect(m.mq, c.flags)
    case WriteEnter(c, _) => WriteEffect(m.mq, c.flags, c.msg, WriteResultOf(m.mq, c.flags, c.msg))
    case WriteResume(c, _) => WriteEffect(m.mq, c.flags, c.msg, ResumedWriteResult(m.mq, c.flags, c.msg))
    case _ => Nothing
  }

  /** The step of the poll model that goes with a section on q. */
  function PollStep(q: Poll.Qid, e: Effect): Poll.Step
    requires !e.Nothing?
  {
    match e
    case Walks(cleared, raised) => Poll.Update(q, cleared, raised)
    case Silently(events) => Poll.CloseRaises(q, events)
  }

  /**
   Sections need the mutex of q, and only they begin updates or silent raises there. That the events
   allow the step of the poll model which goes with a section is no restriction, by `SectionPossible`.
   */
  predicate Enabled(s: State, q: Poll.Qid, step: Step)
  {
    match step
    case Section(m) =>
      Monitor.Enabled(s.mon, m) && q in s.poll.queues && s.poll.queues[q].walk.Unlocked? &&
      var e := EffectOf(s.mon, m);
      e.Nothing? || Poll.Enabled(s.poll, PollStep(q, e))
    case Elsewhere(p) => Poll.Enabled(s.poll, p) && !(p.Update? && p.q == q) && !(p.CloseRaises? && p.q == q)
  }

  function Apply(s: State, q: Poll.Qid, step: Step): State
    requires Enabled(s, q, step)
  {
    match step
    case Section(m) =>
      var e := EffectOf(s.mon, m);
      State(Monitor.Apply(s.mon, m), if e.Nothing? then s.poll else Poll.Apply(s.poll, PollStep(q, e)))
    case Elsewhere(p) => s.(poll := Poll.Apply(s.poll, p))
  }

  /** The events of q once the update under way, if any, is complete. */
  function Settled(x: Poll.Queue): set<Event>
  {
    if x.walk.Updating? then x.event + x.walk.raised else x.event
  }

  /** Both models agree on the events of q. */
  ghost predicate Agrees(s: State, q: Poll.Qid)
  {
    q in s.poll.queues && s.mon.mq.event == Settled(s.poll.queues[q])
  }

  ghost predicate Init(s: State, q: Poll.Qid)
  {
    Monitor.Init(s.mon) && Poll.Init(s.poll) && Agrees(s, q)
  }

  ghost predicate Runs(s: State, q: Poll.Qid, steps: seq<Step>, s': State)
    decreases |steps|
  {
    if steps == [] then s' == s
    else Enabled(s, q, steps[0]) && Runs(Apply(s, q, steps[0]), q, steps[1..], s')
  }

  /** No section of the run makes READABLE untrue. */
  ghost predicate NeverSpoiled(s: State, q: Poll.Qid, steps: seq<Step>)
    decreases |steps|
  {
    steps == [] ||
    (Enabled(s, q, steps[0]) && (steps[0].Section? ==> !MonitorEvents.Spoils(s.mon, steps[0].m)) &&
     NeverSpoiled(Apply(s, q, steps[0]), q, steps[1..]))
  }

  // ----- The events change as the sections say

  function Changed(event: set<Event>, e: Effect): set<Event>
  {
    match e
    case Nothing => event
    case Walks(cleared, raised) => event - cleared + raised
    case Silently(events) => event + events
  }

  lemma ReadEvents(mq: Mq, f: Flags)
    requires Framed(mq)
    ensures AfterRead(mq, f).event == Changed(mq.event, ReadEffect(mq, f))
  {
  }

  lemma WriteEvents(mq: Mq, f: Flags, m: Message, r: WriteResult)
    ensures AfterWrite(mq, f, m, r).event == Changed(mq.event, WriteEffect(mq, f, m, r))
  {
  }

  lemma CloseEvents(mq: Mq, f: Flags)
    requires CanClose(mq.counts, f) && Release(mq.counts, f).refs != 0
    ensures Close(mq, f).event == Changed(mq.event, CloseEffect(mq, f))
  {
  }

  lemma SectionEvents(m: Monitor.State, step: Monitor.Step)
    requires Monitor.Enabled(m, step)
    ensures Monitor.Apply(m, step).mq.event == Changed(m.mq.event, EffectOf(m, step))
  {
    match step
    case CloseHandle(f) => if Release(m.mq.counts, f).refs != 0 { CloseEvents(m.mq, f); }
    case ReadEnter(c, _) => ReadEvents(m.mq, c.flags);
    case ReadResume(c, _) => ReadEvents(m.mq, c.flags);
    case WriteEnter(c, _) => WriteEvents(m.mq, c.flags, c.msg, WriteResultOf(m.mq, c.flags, c.msg));
    case WriteResume(c, _) => WriteEvents(m.mq, c.flags, c.msg, ResumedWriteResult(m.mq, c.flags, c.msg));
    case _ =>
  }

  lemma ElsewhereKeepsEvents(p: Poll.State, q: Poll.Qid, step: Poll.Step)
    requires Poll.Enabled(p, step) && q in p.queues
    requires !(step.Update? && step.q == q) && !(step.CloseRaises? && step.q == q)
    ensures q in Poll.Apply(p, step).queues && Settled(Poll.Apply(p, step).queues[q]) == Settled(p.queues[q])
  {
  }

  lemma EffectChangesEvents(p: Poll.State, q: Poll.Qid, e: Effect)
    requires q in p.queues && !e.Nothing? && Poll.Enabled(p, PollStep(q, e))
    ensures var x := Poll.Apply(p, PollStep(q, e)).queues; q in x && Settled(x[q]) == Changed(p.queues[q].event, e)
  {
  }

  lemma StepKeepsAgreement(s: State, q: Poll.Qid, step: Step)
    requires Agrees(s, q) && Enabled(s, q, step)
    ensures Agrees(Apply(s, q, step), q)
  {
    match step
    case Section(m) =>
      SectionEvents(s.mon, m);
      var e := EffectOf(s.mon, m);
      if !e.Nothing? {
        EffectChangesEvents(s.poll, q, e);
      }
    case Elsewhere(p) => ElsewhereKeepsEvents(s.poll, q, p);
  }

  lemma MonitorFirst(m: Monitor.State, step: Monitor.Step, ms: seq<Monitor.Step>, m': Monitor.State)
    requires Monitor.Enabled(m, step) && MonitorTheorems.Runs(Monitor.Apply(m, step), ms, m')
    ensures MonitorTheorems.Runs(m, [step] + ms, m')
    ensures !MonitorEvents.Spoils(m, step) && MonitorEvents.NeverSpoiled(Monitor.Apply(m, step), ms) ==>
              MonitorEvents.NeverSpoiled(m, [step] + ms)
  {
    assert ([step] + ms)[1..] == ms;
  }

  lemma PollFirst(p: Poll.State, step: Poll.Step, ps: seq<Poll.Step>, p': Poll.State)
    requires Poll.Enabled(p, step) && PollTheorems.Runs(Poll.Apply(p, step), ps, p')
    ensures PollTheorems.Runs(p, [step] + ps, p')
  {
    assert ([step] + ps)[1..] == ps;
  }

  /** A joint run is a run of the monitor and a run of the poll model, side by side. */
  lemma {:induction false} Project(s: State, q: Poll.Qid, steps: seq<Step>, s': State)
      returns (ms: seq<Monitor.Step>, ps: seq<Poll.Step>)
    requires Agrees(s, q) && Runs(s, q, steps, s')
    ensures Agrees(s', q)
    ensures MonitorTheorems.Runs(s.mon, ms, s'.mon) && PollTheorems.Runs(s.poll, ps, s'.poll)
    ensures NeverSpoiled(s, q, steps) ==> MonitorEvents.NeverSpoiled(s.mon, ms)
    decreases |steps|
  {
    if steps == [] {
      ms, ps := [], [];
    } else {
      StepKeepsAgreement(s, q, steps[0]);
      ms, ps := Project(Apply(s, q, steps[0]), q, steps[1..], s');
      match steps[0]
      case Section(m) =>
        var e := EffectOf(s.mon, m);
        MonitorFirst(s.mon, m, ms, s'.mon);
        ms := [m] + ms;
        if !e.Nothing? {
          PollFirst(s.poll, PollStep(q, e), ps, s'.poll);
          ps := [PollStep(q, e)] + ps;
        }
      case Elsewhere(p) =>
        PollFirst(s.poll, p, ps, s'.poll);
        ps := [p] + ps;
    }
  }

  predicate Lawful(event: set<Event>, e: Effect)
  {
    match e
    case Nothing => true
    case Walks(cleared, raised) => Poll.ByReadOrWrite(event, cleared, raised)
    case Silently(events) => Poll.ByClose(events)
  }

  /** What a section does to the events is one of the updates of the poll model. */
  lemma EffectLawful(m: Monitor.State, step: Monitor.Step)
    requires Monitor.Enabled(m, step) && (m.mq.counts.noWriters ==> NoWriters in m.mq.event)
    ensures Lawful(m.mq.event, EffectOf(m, step))
  {
    match step
    case CloseHandle(f) => CloseLawful(m.mq, f);
    case ReadEnter(c, _) => ReadLawful(m.mq, c.flags);
    case ReadResume(c, _) => ReadLawful(m.mq, c.flags);
    case _ =>
  }

  lemma ReadLawful(mq: Mq, f: Flags)
    requires Framed(mq) && (mq.counts.noWriters ==> NoWriters in mq.event)
    ensures Lawful(mq.event, ReadEffect(mq, f))
  {
  }

  lemma CloseLawful(mq: Mq, f: Flags)
    requires CanClose(mq.counts, f)
    ensures Lawful(mq.event, CloseEffect(mq, f))
  {
    var n := Release(mq.counts, f);
    assert {} + {Readable, NoWriters} == {Readable, NoWriters} && {Writable, NoReaders} + {} == {Writable, NoReaders};
  }

  lemma SidesShown(s0: State, q: Poll.Qid, steps: seq<Step>, s: State)
    requires Init(s0, q) && Runs(s0, q, steps, s) && s.mon.Alive()
    ensures Agrees(s, q) && (s.mon.mq.counts.noWriters ==> NoWriters in s.mon.mq.event)
  {
    var ms, ps := Project(s0, q, steps, s);
    assert MonitorTheorems.Reachable(s.mon);
    MonitorEvents.MissingSideAlwaysShown(s.mon);
  }

  lemma LawfulEnabled(p: Poll.State, q: Poll.Qid, e: Effect)
    requires q in p.queues && p.queues[q].walk.Unlocked? && Lawful(p.queues[q].event, e) && !e.Nothing?
    ensures Poll.Enabled(p, PollStep(q, e))
  {
  }

  /** In every run, whatever section the monitor can run with the mutex of q free is a step of the joined system. */
  lemma SectionPossible(s0: State, q: Poll.Qid, steps: seq<Step>, s: State, m: Monitor.Step)
    requires Init(s0, q) && Runs(s0, q, steps, s)
    requires Monitor.Enabled(s.mon, m) && q in s.poll.queues && s.poll.queues[q].walk.Unlocked?
    ensures Enabled(s, q, Section(m))
  {
    SidesShown(s0, q, steps, s);
    EffectLawful(s.mon, m);
    var e := EffectOf(s.mon, m);
    if !e.Nothing? {
      LawfulEnabled(s.poll, q, e);
    }
  }

  // ----- What a poll call learns about the queue

  /**
   When helper_count finds READABLE set, at any moment of any run without spoiling steps, a blocking
   read returns at once; with the mutex free it also finds it whenever one would.
   */
  lemma ReadableSeenMeansReady(s0: State, q: Poll.Qid, steps: seq<Step>, s: State, f: Flags)
    requires Init(s0, q) && s0.mon.mq.event == {} && Runs(s0, q, steps, s) && NeverSpoiled(s0, q, steps)
    requires s.mon.Alive() && !f.nonblock
    ensures Framed(s.mon.mq) && q in s.poll.queues
    ensures Readable in s.poll.queues[q].event ==> !ReadResultOf(s.mon.mq, f).ReadWait?
    ensures s.poll.queues[q].walk.Unlocked? ==>
              (Readable in s.poll.queues[q].event <==> !ReadResultOf(s.mon.mq, f).ReadWait?)
  {
    var ms, ps := Project(s0, q, steps, s);
    MonitorEvents.ReadableMeansReady(s0.mon, ms, s.mon, f);
  }

  /**
   In those runs no poll call that asks for READABLE first sleeps through a message: with the mutex of
   the queue free the queue is empty and has writers, unless a close raised READABLE since the last walk.
   */
  lemma NoSleepThroughMessage(s0: State, q: Poll.Qid, steps: seq<Step>, s: State, p: Poll.Pid)
    requires Init(s0, q) && s0.mon.mq.event == {} && Runs(s0, q, steps, s) && NeverSpoiled(s0, q, steps)
    requires s.mon.Alive() && PollTheorems.SleepsOn(s.poll, p, q) && Readable in s.poll.pollers[p].fds[0].events
    requires q in s.poll.queues && s.poll.queues[q].walk.Unlocked? && Readable !in s.poll.queues[q].silent
    ensures s.mon.Queued() == [] && !s.mon.mq.counts.noWriters
  {
    var ms, ps := Project(s0, q, steps, s);
    MonitorEvents.ReadableMeansReady(s0.mon, ms, s.mon, Flags(true, false, false));
    if Readable in s.mon.mq.event {
      var x := s.poll.queues[q];
      assert Readable in s.poll.pollers[p].fds[0].events * (x.event - x.silent);
      PollTheorems.PollNoLostWakeupWithClose(s.poll, p, q);
    }
  }
}
