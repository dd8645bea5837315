/** Which descriptors of a poll call are heard when reads and writes bring about the events of the queue. */
module PolledDescriptors {
  import opened Framing
  import opened QueueCore
  import opened Handles
  import opened WaitSets
  import Monitor
  import Poll
  import PollTheorems
  import opened PollRuns
  import opened PollDescriptors
  import opened PolledQueue

  /** No handle of q is closed, and no close raises events elsewhere. */
  predicate NoClose(step: Step)
  {
    match step
    case Section(m) => !m.CloseHandle?
    case Elsewhere(p) => !p.CloseRaises?
  }

  predicate CloseFree(steps: seq<Step>) { forall i :: 0 <= i < |steps| ==> NoClose(steps[i]) }

  lemma {:induction false} ProjectCloseFree(s: State, q: Poll.Qid, steps: seq<Step>, s': State)
    requires Runs(s, q, steps, s') && CloseFree(steps)
    ensures PollTheorems.Leads(s.poll, s'.poll, PollTheorems.NoCloses())
    decreases |steps|
  {
    var free := PollTheorems.NoCloses();
    if steps == [] {
      assert PollTheorems.Runs(s.poll, [], s.poll) && PollTheorems.All([], free);
    } else {
      var t := Apply(s, q, steps[0]);
      assert NoClose(steps[0]) && CloseFree(steps[1..]);
      ProjectCloseFree(t, q, steps[1..], s');
      match steps[0]
      case Section(m) =>
        var e := EffectOf(s.mon, m);
        if !e.Nothing? {
          LeadsFirst(s.poll, PollStep(q, e), s'.poll, free);
        }
      case Elsewhere(p) => LeadsFirst(s.poll, p, s'.poll, free);
    }
  }

  lemma LeadsFirst(p: Poll.State, step: Poll.Step, p': Poll.State, allowed: iset<Poll.Step>)
    requires Poll.Enabled(p, step) && step in allowed && PollTheorems.Leads(Poll.Apply(p, step), p', allowed)
    ensures PollTheorems.Leads(p, p', allowed)
  {
    var ps :| PollTheorems.Runs(Poll.Apply(p, step), ps, p') && PollTheorems.All(ps, allowed);
    PollFirst(p, step, ps, p');
    assert PollTheorems.All([step] + ps, allowed);
  }

  /** Joint runs without closes from s to s'. */
  ghost predicate LeadsFreely(s: State, q: Poll.Qid, s': State)
  {
    exists steps :: Runs(s, q, steps, s') && CloseFree(steps)
  }

  lemma Stay(s: State, q: Poll.Qid)
    ensures LeadsFreely(s, q, s)
  {
    assert Runs(s, q, [], s) && CloseFree([]);
  }

  lemma First(s: State, q: Poll.Qid, step: Step, s': State)
    requires Enabled(s, q, step) && NoClose(step) && LeadsFreely(Apply(s, q, step), q, s')
    ensures LeadsFreely(s, q, s')
  {
    var steps :| Runs(Apply(s, q, step), q, steps, s') && CloseFree(steps);
    assert ([step] + steps)[1..] == steps;
    assert Runs(s, q, [step] + steps, s') && CloseFree([step] + steps);
  }

  /** Poll steps that begin no section, on any queue. */
  ghost function Sectionless(): iset<Poll.Step> { iset p: Poll.Step | !p.Update? && !p.CloseRaises? }

  lemma {:induction false} Then(s: State, q: Poll.Qid, steps: seq<Step>, t: State, s': State)
    requires Runs(s, q, steps, t) && CloseFree(steps) && LeadsFreely(t, q, s')
    ensures LeadsFreely(s, q, s')
    decreases |steps|
  {
    if steps != [] {
      assert NoClose(steps[0]) && CloseFree(steps[1..]);
      Then(Apply(s, q, steps[0]), q, steps[1..], t, s');
      First(s, q, steps[0], s');
    }
  }

  lemma Transitive(s: State, q: Poll.Qid, t: State, s': State)
    requires LeadsFreely(s, q, t) && LeadsFreely(t, q, s')
    ensures LeadsFreely(s, q, s')
  {
    var steps :| Runs(s, q, steps, t) && CloseFree(steps);
    Then(s, q, steps, t, s');
  }

  /** What the poll model does without sections can be done in the joined system. */
  lemma {:induction false} LiftRun(m: Monitor.State, q: Poll.Qid, p: Poll.State, ps: seq<Poll.Step>, p': Poll.State)
    requires PollTheorems.Runs(p, ps, p') && PollTheorems.All(ps, Sectionless())
    ensures LeadsFreely(State(m, p), q, State(m, p'))
    decreases |ps|
  {
    Stay(State(m, p'), q);
    if ps != [] {
      assert ps[0] in Sectionless() && PollTheorems.All(ps[1..], Sectionless());
      LiftRun(m, q, Poll.Apply(p, ps[0]), ps[1..], p');
      First(State(m, p), q, Elsewhere(ps[0]), State(m, p'));
    }
  }

  lemma Lift(m: Monitor.State, q: Poll.Qid, p: Poll.State, p': Poll.State)
    requires PollTheorems.Leads(p, p', Sectionless())
    ensures LeadsFreely(State(m, p), q, State(m, p'))
  {
    var ps :| PollTheorems.Runs(p, ps, p') && PollTheorems.All(ps, Sectionless());
    LiftRun(m, q, p, ps, p');
  }

  /** A section that updates the events. */
  lemma OneSection(m: Monitor.State, q: Poll.Qid, p: Poll.State, step: Monitor.Step) returns (s: State)
    requires Monitor.Enabled(m, step) && !step.CloseHandle? && q in p.queues && p.queues[q].walk.Unlocked?
    requires Lawful(p.queues[q].event, EffectOf(m, step))
    ensures s.mon == Monitor.Apply(m, step) && LeadsFreely(State(m, p), q, s)
    ensures s.poll == if EffectOf(m, step).Nothing? then p else Poll.Apply(p, PollStep(q, EffectOf(m, step)))
  {
    if !EffectOf(m, step).Nothing? {
      LawfulEnabled(p, q, EffectOf(m, step));
    }
    s := Apply(State(m, p), q, Section(step));
    Stay(s, q);
    First(State(m, p), q, Section(step), s);
  }

  /** A new queue with one handle for both sides. */
  function NewQueue(nonblock: bool): Monitor.State
  {
    Monitor.Initial(40, {}, Flags(true, true, nonblock))
  }

  /** A write stores one byte; with a blocking handle it goes on to raise READABLE. */
  lemma WritesOne(nonblock: bool, c: WriteCall)
    requires c == WriteCall(1, Flags(true, true, nonblock), [0])
    ensures var m := NewQueue(nonblock);
            Monitor.Enabled(m, Monitor.WriteEnter(c, {})) &&
            EffectOf(m, Monitor.WriteEnter(c, {})) == if nonblock then Nothing else Walks({}, {Readable})
  {
  }

  /** A read of that byte goes on to raise WRITABLE. */
  lemma ReadsOne(c: WriteCall, r: ReadCall, m: Monitor.State)
    requires c == WriteCall(1, Flags(true, true, true), [0]) && r == ReadCall(1, Flags(true, true, true), 1)
    requires Monitor.Enabled(NewQueue(true), Monitor.WriteEnter(c, {})) && m == Monitor.Apply(NewQueue(true), Monitor.WriteEnter(c, {}))
    ensures Monitor.Enabled(m, Monitor.ReadEnter(r, {})) && EffectOf(m, Monitor.ReadEnter(r, {})) == Walks({Readable}, {Writable})
  {
    var ms: seq<Message> := [[0]];
    assert Frames(ms) == Frame([0]) + Frames(ms[1..]) && ms[1..] == [];
    assert m.mq.bytes == Frames(ms);
    ParseHead(ms);
  }

  /** The poll state in which a section on q is about to raise e. */
  function AboutToRaise(p: Poll.State, q: Poll.Qid, e: Event): Poll.State
    requires q in p.queues
  {
    Poll.SetQueue(p, q, p.queues[q].(event := {}, walk := Poll.Updating({e})))
  }

  lemma SectionRaises(m: Monitor.State, q: Poll.Qid, p: Poll.State, step: Monitor.Step, cleared: set<Event>, e: Event) returns (m': Monitor.State)
    requires Monitor.Enabled(m, step) && !step.CloseHandle? && EffectOf(m, step) == Walks(cleared, {e})
    requires q in p.queues && p.queues[q].walk.Unlocked? && p.queues[q].event == {} && Poll.ByReadOrWrite({}, cleared, {e})
    ensures LeadsFreely(State(m, p), q, State(m', AboutToRaise(p, q, e)))
  {
    var s := OneSection(m, q, p, step);
    assert p.queues[q].event - cleared == {};
    m' := s.mon;
  }

  /** A write on a blocking handle comes to raise READABLE. */
  lemma ComesToReadable(q: Poll.Qid, p: Poll.State) returns (m: Monitor.State)
    requires q in p.queues && p.queues[q].walk.Unlocked? && p.queues[q].event == {}
    ensures LeadsFreely(State(NewQueue(false), p), q, State(m, AboutToRaise(p, q, Readable)))
  {
    var c := WriteCall(1, Flags(true, true, false), [0]);
    WritesOne(false, c);
    m := SectionRaises(NewQueue(false), q, p, Monitor.WriteEnter(c, {}), {}, Readable);
  }

  /** A write on a non-blocking handle and a read come to raise WRITABLE. */
  lemma ComesToWritable(q: Poll.Qid, p: Poll.State) returns (m: Monitor.State)
    requires q in p.queues && p.queues[q].walk.Unlocked? && p.queues[q].event == {}
    ensures LeadsFreely(State(NewQueue(true), p), q, State(m, AboutToRaise(p, q, Writable)))
  {
    var c, r := WriteCall(1, Flags(true, true, true), [0]), ReadCall(1, Flags(true, true, true), 1);
    WritesOne(true, c);
    var t := OneSection(NewQueue(true), q, p, Monitor.WriteEnter(c, {}));
    ReadsOne(c, r, t.mon);
    m := SectionRaises(t.mon, q, p, Monitor.ReadEnter(r, {}), {Readable}, Writable);
    Transitive(State(NewQueue(true), p), q, t, State(m, AboutToRaise(p, q, Writable)));
  }

  lemma ComesToRaise(q: Poll.Qid, p: Poll.State, e: Event) returns (m: Monitor.State)
    requires q in p.queues && p.queues[q].walk.Unlocked? && p.queues[q].event == {} && e in Traffic
    ensures LeadsFreely(State(NewQueue(e == Writable), p), q, State(m, AboutToRaise(p, q, e)))
  {
    if e == Writable {
      m := ComesToWritable(q, p);
    } else {
      m := ComesToReadable(q, p);
    }
  }

  /** From there the walk goes past the sleeping call. */
  lemma WalkLosesWakeup(fds: seq<Poll.Fd>, q: Poll.Qid, e: Event, p: Poll.State) returns (p': Poll.State)
    requires Poll.Inv(p) && p.queues.Keys == QueuesOf(fds) && q in p.queues
    requires p.pollers == map[7 := Poll.Poller(fds, {}, Poll.Sleeping)]
    requires p.queues[q].event == {} && p.queues[q].walk == Poll.Updating({e}) && !FirstAsks(fds, q, e)
    ensures PollTheorems.Leads(p, p', Sectionless()) && p'.pollers == p.pollers
    ensures q in p'.queues && e in p'.queues[q].event && p'.queues[q].walk.Unlocked?
  {
    var c := Course(p, Sectionless());
    AtOrigin(c);
    p' := WalkedPast(p, c, fds, q, e);
  }

  lemma CallSleeps(fds: seq<Poll.Fd>) returns (p: Poll.State)
    requires Poll.Acceptable(fds)
    ensures PollTheorems.Leads(Fresh(QueuesOf(fds), {}), p, Sectionless()) && Poll.Inv(p) && Silent(p)
    ensures p.queues.Keys == QueuesOf(fds) && p.pollers == map[7 := Poll.Poller(fds, {}, Poll.Sleeping)]
  {
    var c := Course(Fresh(QueuesOf(fds), {}), Sectionless());
    p := FallsAsleep(c, fds);
    OnInv(p, c);
  }

  lemma AboutToRaiseKeeps(p: Poll.State, q: Poll.Qid, e: Event)
    requires Poll.Inv(p) && q in p.queues && p.queues[q].walk.Unlocked? && p.queues[q].event == {} && e in Traffic
    ensures Poll.Inv(AboutToRaise(p, q, e))
  {
    var step := Poll.Update(q, {}, {e});
    Poll.StepKeepsInv(p, step);
    assert p.queues[q].event - {} == {};
    assert Poll.Apply(p, step) == AboutToRaise(p, q, e);
  }

  /** Descriptor i, not covered, loses a wakeup in a run in which reads and writes bring about every event. */
  lemma UncoveredLostJointly(fds: seq<Poll.Fd>, i: nat) returns (s0: State, s: State)
    requires Poll.Acceptable(fds) && i < |fds| && fds[i].Watch? && !CoveredByFirst(fds, i)
    ensures Init(s0, fds[i].q) && LeadsFreely(s0, fds[i].q, s) && Lost(s.poll, 7, fds, i)
  {
    var q, o := fds[i].q, Fresh(QueuesOf(fds), {});
    var e := UncoveredEvent(fds, i);
    var m0 := NewQueue(e == Writable);
    var p := CallSleeps(fds);
    assert q in QueuesOf(fds);
    Lift(m0, q, o, p);
    var m := ComesToRaise(q, p, e);
    AboutToRaiseKeeps(p, q, e);
    var p' := WalkLosesWakeup(fds, q, e, AboutToRaise(p, q, e));
    Lift(m, q, AboutToRaise(p, q, e), p');
    s0, s := State(m0, o), State(m, p');
    Transitive(s0, q, State(m0, p), State(m, AboutToRaise(p, q, e)));
    Transitive(s0, q, State(m, AboutToRaise(p, q, e)), s);
    LostThere(fds, i, e, p');
    assert Init(s0, q);
  }

  lemma LostThere(fds: seq<Poll.Fd>, i: nat, e: Event, p: Poll.State)
    requires i < |fds| && fds[i].Watch? && e in fds[i].events && p.pollers == map[7 := Poll.Poller(fds, {}, Poll.Sleeping)]
    requires fds[i].q in p.queues && e in p.queues[fds[i].q].event && p.queues[fds[i].q].walk.Unlocked?
    ensures Lost(p, 7, fds, i)
  {
    assert e in fds[i].events * p.queues[fds[i].q].event;
  }

  /**
   The exact condition of `PollDescriptors.DescriptorHeardIff` when the events of the queue are those
   its readers and writers bring about: every array, every descriptor, every run without closes.
   */
  lemma DescriptorHeardJointlyIff(fds: seq<Poll.Fd>, i: nat)
    requires Poll.Acceptable(fds) && i < |fds| && fds[i].Watch?
    ensures (forall s0, s, p | Init(s0, fds[i].q) && LeadsFreely(s0, fds[i].q, s) :: !Lost(s.poll, p, fds, i))
            <==> CoveredByFirst(fds, i)
  {
    if CoveredByFirst(fds, i) {
      forall s0, s, p | Init(s0, fds[i].q) && LeadsFreely(s0, fds[i].q, s)
        ensures !Lost(s.poll, p, fds, i)
      {
        var steps :| Runs(s0, fds[i].q, steps, s) && CloseFree(steps);
        ProjectCloseFree(s0, fds[i].q, steps, s);
        CoveredNeverLost(fds, i, s.poll, p);
      }
    } else {
      var s0, s := UncoveredLostJointly(fds, i);
    }
  }
}
