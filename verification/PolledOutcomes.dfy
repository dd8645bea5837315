/** What poll calls see of each section, in terms of messages and handles: which sections begin a walk, and what a walk makes good. */
module PolledOutcomes {
  import opened Framing
  import opened Handles
  import opened QueueCore
  import opened WaitSets
  import Monitor
  import MonitorTheorems
  import opened MonitorOutcomes
  import Poll
  import PollTheorems
  import opened PolledQueue

  lemma MonReachable(s0: State, q: Poll.Qid, steps: seq<Step>, s: State)
    requires Init(s0, q) && Runs(s0, q, steps, s)
    ensures Agrees(s, q) && MonitorTheorems.Reachable(s.mon) && PollTheorems.Reachable(s.poll)
  {
    var ms, ps := Project(s0, q, steps, s);
  }

  /** One message is left, the next to be delivered. */
  predicate LastOne(m: Monitor.State) { |m.accepted| == |m.delivered| + 1 }

  /**
   A read that takes a message clears READABLE with the last one, unless the writers are gone, and
   begins a walk for WRITABLE; a read at end of file begins a walk for NOWRITERS; no other read does.
   */
  ghost predicate ReadSeen(m: Monitor.State, e: Effect)
  {
    if |m.delivered| < |m.accepted| then
      e == Walks(if LastOne(m) && !WritersGone(m) then {Readable} else {}, {Writable})
    else if WritersGone(m) then e == Walks({}, {NoWriters})
    else e == Nothing
  }

  lemma ReadEffectSeen(m: Monitor.State, f: Flags)
    requires MonitorTheorems.Reachable(m)
    ensures Framed(m.mq) && ReadSeen(m, ReadEffect(m.mq, f))
  {
    ReadOutcome(m, f);
    GoneIsFlagged(m);
    if |m.delivered| < |m.accepted| {
      LastFrame(m);
    }
  }

  lemma LastFrame(m: Monitor.State)
    requires MonitorTheorems.Reachable(m) && |m.delivered| < |m.accepted|
    ensures Framed(m.mq) && m.mq.bytes != [] && (AfterHead(m.mq.bytes) == [] <==> LastOne(m))
  {
    MonitorTheorems.ReachableInv(m);
    Monitor.FramedAlways(m);
    var rest := m.Queued()[1..];
    assert rest != [] ==> Frames(rest) == Frame(rest[0]) + Frames(rest[1..]);
  }

  /** A write that stores its message with a blocking handle clears WRITABLE if the ring is full then, unless the readers are gone, and begins a walk for READABLE; no other write does. */
  ghost predicate WriteSeen(m: Monitor.State, c: WriteCall, stored: bool, e: Effect)
  {
    if stored && !c.flags.nonblock then
      e == Walks(if m.mq.Free() == Cost(c.msg) && !ReadersGone(m) then {Writable} else {}, {Readable})
    else e == Nothing
  }

  lemma WriteEffectSeen(m: Monitor.State, c: WriteCall)
    requires MonitorTheorems.Reachable(m)
    ensures WriteSeen(m, c, !Refused(m, c) && Cost(c.msg) <= m.mq.Free(),
                      WriteEffect(m.mq, c.flags, c.msg, WriteResultOf(m.mq, c.flags, c.msg)))
    ensures WriteSeen(m, c, Cost(c.msg) <= m.mq.Free(),
                      WriteEffect(m.mq, c.flags, c.msg, ResumedWriteResult(m.mq, c.flags, c.msg)))
  {
    WriteRefusals(m, c);
    GoneIsFlagged(m);
  }

  /** A close that leaves a handle raises, without a walk, the events of the sides that are gone then. */
  ghost predicate CloseSeen(m: Monitor.State, m': Monitor.State, e: Effect)
  {
    e == Silently((if ReadersGone(m') then {Writable, NoReaders} else {}) + (if WritersGone(m') then {Readable, NoWriters} else {}))
  }

  lemma CloseEffectSeen(m: Monitor.State, f: Flags)
    requires MonitorTheorems.Reachable(m) && Monitor.Enabled(m, Monitor.CloseHandle(f))
    requires Monitor.Apply(m, Monitor.CloseHandle(f)).Alive()
    ensures CloseSeen(m, Monitor.Apply(m, Monitor.CloseHandle(f)), CloseEffect(m.mq, f))
  {
    MonitorTheorems.HandleLedger(m, f);
    var m' := MonitorTheorems.Extend(m, Monitor.CloseHandle(f));
    GoneIsFlagged(m');
  }

  ghost predicate EffectSeen(m: Monitor.State, step: Monitor.Step, e: Effect)
    requires Monitor.Enabled(m, step)
  {
    match step
    case OpenHandle(f) => e == Nothing
    case CloseHandle(f) => Monitor.Apply(m, step).Alive() ==> CloseSeen(m, Monitor.Apply(m, step), e)
    case ReadEnter(c, _) => ReadSeen(m, e)
    case ReadResume(c, _) => ReadSeen(m, e)
    case WriteEnter(c, _) => WriteSeen(m, c, !Refused(m, c) && Cost(c.msg) <= m.mq.Free(), e)
    case WriteResume(c, _) => WriteSeen(m, c, Cost(c.msg) <= m.mq.Free(), e)
    case Spurious(_, _) => e == Nothing
  }

  lemma EffectIsSeen(m: Monitor.State, step: Monitor.Step)
    requires MonitorTheorems.Reachable(m) && Monitor.Enabled(m, step)
    ensures EffectSeen(m, step, EffectOf(m, step))
  {
    match step
    case CloseHandle(f) => if Monitor.Apply(m, step).Alive() { CloseEffectSeen(m, f); }
    case ReadEnter(c, _) => ReadEffectSeen(m, c.flags);
    case ReadResume(c, _) => ReadEffectSeen(m, c.flags);
    case WriteEnter(c, _) => WriteEffectSeen(m, c);
    case WriteResume(c, _) => WriteEffectSeen(m, c);
    case _ =>
  }

  /** The effect on the queue: the first write of an update, or a silent raise. */
  predicate Carries(x: Poll.Queue, x': Poll.Queue, e: Effect)
  {
    match e
    case Nothing => x' == x
    case Walks(cleared, raised) => x' == x.(event := x.event - cleared, walk := Poll.Updating(raised))
    case Silently(events) => x' == x.(event := x.event + events, silent := x.silent + (events - x.event))
  }

  lemma StepCarries(p: Poll.State, q: Poll.Qid, e: Effect)
    requires q in p.queues && !e.Nothing? && Poll.Enabled(p, PollStep(q, e))
    ensures q in Poll.Apply(p, PollStep(q, e)).queues && Carries(p.queues[q], Poll.Apply(p, PollStep(q, e)).queues[q], e)
  {
  }

  /** What a section does to the queue that poll calls see, for every section of every run. */
  lemma SectionSeen(s0: State, q: Poll.Qid, steps: seq<Step>, s: State, m: Monitor.Step)
    requires Init(s0, q) && Runs(s0, q, steps, s) && Enabled(s, q, Section(m))
    ensures q in Apply(s, q, Section(m)).poll.queues
    ensures EffectSeen(s.mon, m, EffectOf(s.mon, m))
    ensures Carries(s.poll.queues[q], Apply(s, q, Section(m)).poll.queues[q], EffectOf(s.mon, m))
  {
    MonReachable(s0, q, steps, s);
    EffectIsSeen(s.mon, m);
    var e := EffectOf(s.mon, m);
    if !e.Nothing? {
      StepCarries(s.poll, q, e);
    }
  }

  // ----- What a walk makes good

  /** When a walk has just begun, every call asleep on a set event of its first descriptor is ahead of it, closes or not. */
  lemma WalkFindsAll(p: Poll.State, q: Poll.Qid, r: Poll.Pid)
    requires PollTheorems.Reachable(p) && Poll.Enabled(p, Poll.Raise(q))
    ensures var p' := Poll.Apply(p, Poll.Raise(q));
            PollTheorems.SleepsOn(p', r, q) && p'.pollers[r].fds[0].events * p'.queues[q].event != {} ==>
              Poll.Pending(p', q, Poll.Node(r, 0))
  {
    var p' := PollReach(p, Poll.Raise(q));
    if PollTheorems.SleepsOn(p', r, q) && p'.pollers[r].fds[0].events * p'.queues[q].event != {} {
      assert p'.queues[q].event - {} == p'.queues[q].event;
      PollTheorems.PollNoLostWakeupWithClose(p', r, q);
    }
  }

  lemma PollReach(p: Poll.State, step: Poll.Step) returns (p': Poll.State)
    requires PollTheorems.Reachable(p) && Poll.Enabled(p, step)
    ensures PollTheorems.Reachable(p') && p' == Poll.Apply(p, step)
  {
    var o, ps :| Poll.Init(o) && PollTheorems.Runs(o, ps, p);
    PollTheorems.RunsThen(o, ps, p, step);
    p' := Poll.Apply(p, step);
  }

  /**
   The wakeup for NOWRITERS that a close leaves out is made good by the first read that finds the end
   of file: it raises the event and begins a walk that has every call asleep for it still ahead.
   */
  lemma EofReadWakes(s0: State, q: Poll.Qid, steps: seq<Step>, s: State, c: ReadCall, wake: set<WriteCall>, r: Poll.Pid)
    requires Init(s0, q) && Runs(s0, q, steps, s) && Enabled(s, q, Section(Monitor.ReadEnter(c, wake)))
    requires s.mon.delivered == s.mon.accepted && WritersGone(s.mon)
    ensures var t := Apply(s, q, Section(Monitor.ReadEnter(c, wake)));
            Enabled(t, q, Elsewhere(Poll.Raise(q))) &&
            var s' := Apply(t, q, Elsewhere(Poll.Raise(q)));
            && q in s'.poll.queues && NoWriters in s'.poll.queues[q].event
            && (PollTheorems.SleepsOn(s'.poll, r, q) && NoWriters in s'.poll.pollers[r].fds[0].events ==>
                  Poll.Pending(s'.poll, q, Poll.Node(r, 0)))
  {
    var m := Monitor.ReadEnter(c, wake);
    SectionSeen(s0, q, steps, s, m);
    MonReachable(s0, q, steps, s);
    var p := PollReach(s.poll, PollStep(q, EffectOf(s.mon, m)));
    WalkFindsAll(p, q, r);
    var p' := Poll.Apply(p, Poll.Raise(q));
    if PollTheorems.SleepsOn(p', r, q) && NoWriters in p'.pollers[r].fds[0].events {
      assert NoWriters in p'.pollers[r].fds[0].events * p'.queues[q].event;
    }
  }
}
