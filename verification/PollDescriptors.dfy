/** Exactly which descriptors of a poll call can rely on being woken. */
module PollDescriptors {
  import opened QueueCore
  import opened Poll
  import opened PollTheorems
  import opened PollRuns

  function QueuesOf(fds: seq<Fd>): set<Qid>
  {
    set i | 0 <= i < |fds| && fds[i].Watch? :: fds[i].q
  }

  /** A poll call with array fds sleeps although descriptor i is ready, and no walk has still to reach its first node. */
  ghost predicate Lost(s: State, p: Pid, fds: seq<Fd>, i: nat)
    requires i < |fds| && fds[i].Watch?
  {
    && p in s.pollers && s.pollers[p].fds == fds && s.pollers[p].pc.Sleeping?
    && fds[i].q in s.queues && fds[i].events * s.queues[fds[i].q].event != {}
    && !Pending(s, fds[i].q, Node(p, 0))
  }

  /** The events that reads and writes bring about; the other two take a close. */
  const Traffic: set<Event> := {Readable, Writable}

  /** The first descriptor watches the queue of descriptor i for all the traffic it asks for, if any. */
  predicate CoveredByFirst(fds: seq<Fd>, i: nat)
    requires i < |fds| && fds[i].Watch?
  {
    fds[i].events * Traffic == {} || (fds[0].Watch? && fds[0].q == fds[i].q && fds[i].events * Traffic <= fds[0].events)
  }

  // ----- Without closes only traffic becomes ready

  /** The call has found descriptor i not ready and is asleep or on its way to sleep. */
  predicate Unready(r: Poller, i: nat)
  {
    r.pc.Sleeping? || (r.pc.Counting? && i < r.pc.k && r.pc.found == 0)
  }

  /** Of the events that descriptor i asks for, only traffic is set. */
  ghost predicate OnlyTraffic(s: State, p: Pid, i: nat)
    requires p in s.pollers
  {
    var r := s.pollers[p];
    i < |r.fds| && r.fds[i].Watch? && Unready(r, i) ==>
      r.fds[i].q in s.queues && r.fds[i].events * s.queues[r.fds[i].q].event <= Traffic
  }

  /** An update under way raises traffic, or what is set already. */
  predicate Modest(x: Queue)
  {
    x.walk.Updating? ==> x.walk.raised - Traffic <= x.event
  }

  ghost predicate NoNewSides(s: State)
  {
    && (forall q | q in s.queues :: Modest(s.queues[q]))
    && (forall p: Pid, i: nat | p in s.pollers :: OnlyTraffic(s, p, i))
  }

  lemma MoveKeepsSides(s: State, p: Pid, pc: Pc)
    requires NoNewSides(s) && p in s.pollers && forall i: nat :: OnlyTraffic(SetPc(s, p, pc), p, i)
    ensures NoNewSides(SetPc(s, p, pc))
  {
    var s' := SetPc(s, p, pc);
    forall r: Pid, i: nat | r in s'.pollers
      ensures OnlyTraffic(s', r, i)
    {
      assert r != p ==> OnlyTraffic(s, r, i);
    }
  }

  lemma CountKeepsSides(s: State, p: Pid)
    requires NoNewSides(s) && Enabled(s, Count(p))
    ensures NoNewSides(Apply(s, Count(p)))
  {
    var s' := Apply(s, Count(p));
    forall i: nat
      ensures OnlyTraffic(s', p, i)
    {
      assert OnlyTraffic(s, p, i);
    }
    MoveKeepsSides(s, p, s'.pollers[p].pc);
  }

  lemma CallKeepsSides(s: State, step: Step)
    requires NoNewSides(s) && Enabled(s, step)
    requires step.BeginCount? || step.EndCount? || step.Spurious? || step.Rewake? || step.Recount? || step.EndRecount? || step.Free?
    ensures NoNewSides(Apply(s, step))
  {
    var s' := Apply(s, step);
    forall i: nat
      ensures OnlyTraffic(s', step.p, i)
    {
      assert OnlyTraffic(s, step.p, i);
    }
    MoveKeepsSides(s, step.p, s'.pollers[step.p].pc);
  }

  /** Events that are set stay among the old ones and traffic. */
  lemma QueueKeepsSides(s: State, q: Qid, x: Queue)
    requires NoNewSides(s) && q in s.queues && Modest(x) && x.event - Traffic <= s.queues[q].event
    ensures NoNewSides(SetQueue(s, q, x))
  {
    var s' := SetQueue(s, q, x);
    forall p: Pid, i: nat | p in s'.pollers
      ensures OnlyTraffic(s', p, i)
    {
      assert OnlyTraffic(s, p, i);
    }
  }

  lemma ListKeepsSides(s: State, step: Step)
    requires NoNewSides(s) && Enabled(s, step) && (step.Add? || step.Remove? || step.Start?)
    ensures NoNewSides(Apply(s, step))
  {
    var s' := Apply(s, step);
    forall p: Pid, i: nat | p in s'.pollers
      ensures OnlyTraffic(s', p, i)
    {
      assert p in s.pollers ==> OnlyTraffic(s, p, i);
    }
  }

  lemma SignalKeepsSides(s: State, q: Qid)
    requires NoNewSides(s) && Enabled(s, Signal(q))
    ensures NoNewSides(Apply(s, Signal(q)))
  {
    var n, t := Poll.Target(s, q), Advance(s, q);
    QueueKeepsSides(s, q, t.queues[q]);
    if n.i == 0 && s.pollers[n.p].pc.Sleeping? {
      MoveKeepsSides(t, n.p, Woken);
    }
  }

  lemma StepKeepsSides(s: State, step: Step)
    requires NoNewSides(s) && Enabled(s, step) && !step.CloseRaises?
    ensures NoNewSides(Apply(s, step))
  {
    match step
    case Start(p, fds, wild) => ListKeepsSides(s, step);
    case Add(p) => ListKeepsSides(s, step);
    case Remove(p) => ListKeepsSides(s, step);
    case Count(p) => CountKeepsSides(s, p);
    case Update(q, cleared, raised) => QueueKeepsSides(s, q, Apply(s, step).queues[q]);
    case Raise(q) => QueueKeepsSides(s, q, Apply(s, step).queues[q]);
    case Pass(q) => QueueKeepsSides(s, q, Apply(s, step).queues[q]);
    case Finish(q) => QueueKeepsSides(s, q, Apply(s, step).queues[q]);
    case Signal(q) => SignalKeepsSides(s, q);
    case _ => CallKeepsSides(s, step);
  }

  lemma {:induction false} RunKeepsSides(s: State, steps: seq<Step>, s': State)
    requires NoNewSides(s) && Runs(s, steps, s') && All(steps, NoCloses())
    ensures NoNewSides(s')
    decreases |steps|
  {
    if steps != [] {
      assert steps[0] in NoCloses();
      assert All(steps[1..], NoCloses());
      StepKeepsSides(s, steps[0]);
      RunKeepsSides(Apply(s, steps[0]), steps[1..], s');
    }
  }

  lemma ReachableNoNewSides(s: State)
    requires ReachableBy(s, NoCloses())
    ensures NoNewSides(s)
  {
    var o :| Init(o) && Leads(o, s, NoCloses());
    var steps :| Runs(o, steps, s) && All(steps, NoCloses());
    RunKeepsSides(o, steps, s);
  }

  lemma CoveredNeverLost(fds: seq<Fd>, i: nat, s: State, p: Pid)
    requires i < |fds| && fds[i].Watch? && CoveredByFirst(fds, i) && ReachableBy(s, NoCloses())
    ensures !Lost(s, p, fds, i)
  {
    if Lost(s, p, fds, i) {
      var event := s.queues[fds[i].q].event;
      ReachableNoNewSides(s);
      assert OnlyTraffic(s, p, i);
      var e :| e in fds[i].events * event;
      assert e in fds[i].events * Traffic && e in fds[0].events * event;
      PollNoLostWakeup(s, p, fds[i].q);
    }
  }

  // ----- A poll call by thread 7, alone

  /** Every queue is unlocked and without events. */
  ghost predicate Silent(s: State)
  {
    forall q | q in s.queues :: s.queues[q].walk.Unlocked? && s.queues[q].event == {}
  }

  /** Thread 7's call is the only one, on a course that may begin it and go on with anything begun. */
  ghost predicate Alone(s: State, c: Course, fds: seq<Fd>, pc: Pc)
  {
    && On(s, c) && Permissive(c.allowed) && s.queues.Keys == QueuesOf(fds)
    && s.pollers == map[7 := Poller(fds, {}, pc)]
  }

  lemma Registered(c: Course, fds: seq<Fd>) returns (s: State)
    requires Acceptable(fds) && c.origin == Fresh(QueuesOf(fds), {}) && Permissive(c.allowed) && Start(7, fds, {}) in c.allowed
    ensures Alone(s, c, fds, Adding(|fds|)) && Silent(s)
  {
    s := c.origin;
    AtOrigin(c);
    assert Known(s, fds);
    s := Register(s, c, 7, fds, |fds|);
  }

  /** A step of the poll call that moves nothing else. */
  lemma Moves(s: State, c: Course, fds: seq<Fd>, pc: Pc, step: Step, pc': Pc) returns (s': State)
    requires Alone(s, c, fds, pc) && Continues(step) && Enabled(s, step) && Apply(s, step) == SetPc(s, 7, pc')
    ensures Alone(s', c, fds, pc') && s'.queues == s.queues
  {
    s' := Go(s, c, step);
  }

  /** helper_count finds no descriptor ready. */
  lemma {:induction false} CountsNone(s: State, c: Course, fds: seq<Fd>, k: nat) returns (s': State)
    requires Alone(s, c, fds, Counting(k, 0)) && Silent(s) && k <= |fds|
    ensures Alone(s', c, fds, Counting(|fds|, 0)) && s'.queues == s.queues
    decreases |fds| - k
  {
    if k == |fds| {
      s' := s;
    } else {
      assert Known(s, fds) && At(s, 7);
      s' := Moves(s, c, fds, Counting(k, 0), Count(7), Counting(k + 1, 0));
      s' := CountsNone(s', c, fds, k + 1);
    }
  }

  lemma FallsAsleep(c: Course, fds: seq<Fd>) returns (s: State)
    requires Acceptable(fds) && c.origin == Fresh(QueuesOf(fds), {}) && Permissive(c.allowed) && Start(7, fds, {}) in c.allowed
    ensures Alone(s, c, fds, Sleeping) && Silent(s)
  {
    s := Registered(c, fds);
    assert Known(s, fds) && At(s, 7);
    s := Moves(s, c, fds, Adding(|fds|), BeginCount(7), Counting(0, 0));
    s := CountsNone(s, c, fds, 0);
    assert At(s, 7);
    s := Moves(s, c, fds, Counting(|fds|, 0), EndCount(7), Sleeping);
  }

  /** Descriptor 0 asks for event e of queue q. */
  predicate FirstAsks(fds: seq<Fd>, q: Qid, e: Event)
  {
    fds != [] && fds[0].Watch? && fds[0].q == q && e in fds[0].events
  }

  lemma NodesHarmless(s: State, c: Course, fds: seq<Fd>, q: Qid, e: Event, n: Node)
    requires Alone(s, c, fds, Sleeping) && q in s.queues && n in s.queues[q].list
    requires s.queues[q].event == {e} && !FirstAsks(fds, q, e)
    ensures Harmless(s, q, n)
  {
    OnInv(s, c);
    assert Belongs(s, q, n);
  }

  lemma RaisesOne(s: State, c: Course, fds: seq<Fd>, q: Qid, e: Event) returns (s': State)
    requires Alone(s, c, fds, Sleeping) && q in s.queues && s.queues[q].event == {} && s.queues[q].walk == Updating({e})
    ensures Alone(s', c, fds, Sleeping) && s'.queues[q] == Queue({e}, s.queues[q].list, Walking(0), {})
  {
    s' := Go(s, c, Raise(q));
    assert {} + {e} == {e};
  }

  /** A thread about to raise event e of queue q does so and walks its whole list without waking the call. */
  lemma WalkedPast(s: State, c: Course, fds: seq<Fd>, q: Qid, e: Event) returns (s': State)
    requires Alone(s, c, fds, Sleeping) && q in s.queues && s.queues[q].event == {} && s.queues[q].walk == Updating({e})
    requires !FirstAsks(fds, q, e)
    ensures Alone(s', c, fds, Sleeping) && e in s'.queues[q].event && s'.queues[q].walk.Unlocked?
  {
    var t := RaisesOne(s, c, fds, q, e);
    var n := |t.queues[q].list|;
    forall m | 0 <= m < n
      ensures Harmless(t, q, t.queues[q].list[m])
    {
      NodesHarmless(t, c, fds, q, e, t.queues[q].list[m]);
    }
    t := WalkTo(t, c, q, 0, n);
    s' := Go(t, c, Finish(q));
  }

  /** Some traffic that descriptor i asks for is not covered. */
  lemma UncoveredEvent(fds: seq<Fd>, i: nat) returns (e: Event)
    requires i < |fds| && fds[i].Watch? && !CoveredByFirst(fds, i)
    ensures e in fds[i].events && e in Traffic && !FirstAsks(fds, fds[i].q, e)
  {
    if fds[0].Watch? && fds[0].q == fds[i].q {
      e :| e in fds[i].events * Traffic && e !in fds[0].events;
    } else {
      e :| e in fds[i].events * Traffic;
    }
  }

  lemma UncoveredLost(fds: seq<Fd>, i: nat) returns (s: State)
    requires Acceptable(fds) && i < |fds| && fds[i].Watch? && !CoveredByFirst(fds, i)
    ensures ReachableBy(s, NoCloses()) && Lost(s, 7, fds, i)
  {
    var q, c := fds[i].q, Course(Fresh(QueuesOf(fds), {}), NoCloses());
    var e := UncoveredEvent(fds, i);
    s := FallsAsleep(c, fds);
    assert q in QueuesOf(fds);
    s := Go(s, c, Update(q, {}, {e}));
    s := WalkedPast(s, c, fds, q, e);
    assert e in fds[i].events * s.queues[q].event;
    assert Init(c.origin);
  }

  /**
   In runs without closes, descriptor i of an array never loses a wakeup if and only if it asks for
   no traffic, or the first descriptor watches the same queue for all the traffic it asks for.
   */
  lemma DescriptorHeardIff(fds: seq<Fd>, i: nat)
    requires Acceptable(fds) && i < |fds| && fds[i].Watch?
    ensures (forall s, p | ReachableBy(s, NoCloses()) :: !Lost(s, p, fds, i)) <==> CoveredByFirst(fds, i)
  {
    if CoveredByFirst(fds, i) {
      forall s, p | ReachableBy(s, NoCloses())
        ensures !Lost(s, p, fds, i)
      {
        CoveredNeverLost(fds, i, s, p);
      }
    } else {
      var s := UncoveredLost(fds, i);
    }
  }

  /** For one: an event of the second descriptor goes unheard when the first is null. */
  lemma SecondDescriptorLost() returns (s: State)
    ensures ReachableBy(s, NoCloses()) && Lost(s, 7, [Null, Watch(0, {Readable})], 1)
  {
    var fds := [Null, Watch(0, {Readable})];
    assert fds[1].Watch?;
    s := UncoveredLost(fds, 1);
  }

  /** A poll call asleep for NOWRITERS when the last writer closes: `CloseLosesWakeupIff` applies. */
  lemma CloseUnheard() returns (s: State)
    ensures Reachable(s) && SleepsOn(s, 7, 0) && s.pollers[7].fds[0].events == {NoWriters}
    ensures Enabled(s, CloseRaises(0, {Readable, NoWriters})) && s.queues[0].silent == {}
    ensures var s' := Apply(s, CloseRaises(0, {Readable, NoWriters}));
            SleepsOn(s', 7, 0) && NoWriters in s'.queues[0].event && !Pending(s', 0, Node(7, 0))
  {
    var fds := [Watch(0, {NoWriters})];
    assert fds[0].Watch?;
    var c := Course(Fresh(QueuesOf(fds), {}), NoCloses());
    s := FallsAsleep(c, fds);
    assert fds[0].q in QueuesOf(fds);
    assert Init(c.origin);
    StaysQuiet(s);
  }

  lemma StaysQuiet(s: State)
    requires ReachableBy(s, NoCloses())
    ensures Reachable(s) && Quiet(s)
  {
    var o :| Init(o) && Leads(o, s, NoCloses());
    var steps :| Runs(o, steps, s) && All(steps, NoCloses());
    RunKeepsQuiet(o, steps, s);
  }
}
