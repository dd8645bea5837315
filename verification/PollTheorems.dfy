/** What every interleaving of poll calls, readers, writers and closers guarantees. */
module PollTheorems {
  import opened QueueCore
  import opened Poll

  ghost predicate Runs(s: State, steps: seq<Step>, s': State)
    decreases |steps|
  {
    if steps == [] then s' == s
    else Enabled(s, steps[0]) && Runs(Apply(s, steps[0]), steps[1..], s')
  }

  ghost predicate Reachable(s: State)
  {
    exists s0, steps :: Init(s0) && Runs(s0, steps, s)
  }

  ghost predicate All(steps: seq<Step>, allowed: iset<Step>)
  {
    forall i :: 0 <= i < |steps| ==> steps[i] in allowed
  }

  /** Some run of allowed steps leads from o to s. */
  ghost predicate Leads(o: State, s: State, allowed: iset<Step>)
  {
    exists steps :: Runs(o, steps, s) && All(steps, allowed)
  }

  ghost predicate ReachableBy(s: State, allowed: iset<Step>)
  {
    exists o :: Init(o) && Leads(o, s, allowed)
  }

  ghost function NoCloses(): iset<Step> { iset step: Step | !step.CloseRaises? }

  lemma {:induction false} RunKeepsInv(s: State, steps: seq<Step>, s': State)
    requires Inv(s) && Runs(s, steps, s')
    ensures Inv(s')
    decreases |steps|
  {
    if steps != [] {
      StepKeepsInv(s, steps[0]);
      RunKeepsInv(Apply(s, steps[0]), steps[1..], s');
    }
  }

  lemma ReachableInv(s: State)
    requires Reachable(s)
    ensures Inv(s)
  {
    var s0, steps :| Init(s0) && Runs(s0, steps, s);
    RunKeepsInv(s0, steps, s);
  }

  /** Poller p sleeps in a poll call whose first descriptor asks for events of q. */
  predicate SleepsOn(s: State, p: Pid, q: Qid)
  {
    p in s.pollers && s.pollers[p].pc.Sleeping? &&
    s.pollers[p].fds != [] && s.pollers[p].fds[0].Watch? && s.pollers[p].fds[0].q == q
  }

  ghost predicate Quiet(s: State) { forall q | q in s.queues :: s.queues[q].silent == {} }

  lemma {:induction false} RunKeepsQuiet(s: State, steps: seq<Step>, s': State)
    requires Quiet(s) && Runs(s, steps, s') && All(steps, NoCloses())
    ensures Quiet(s')
    decreases |steps|
  {
    if steps != [] {
      assert steps[0] in NoCloses();
      assert All(steps[1..], NoCloses());
      RunKeepsQuiet(Apply(s, steps[0]), steps[1..], s');
    }
  }

  /**
   No wakeup raised by a read or a write is lost: when a poller sleeps although an event of its
   first descriptor is set, a thread holds that queue's mutex and has still to reach the poller's node.
   */
  lemma PollNoLostWakeup(s: State, p: Pid, q: Qid)
    requires ReachableBy(s, NoCloses())
    requires SleepsOn(s, p, q) && q in s.queues && s.pollers[p].fds[0].events * s.queues[q].event != {}
    ensures Pending(s, q, Node(p, 0))
  {
    var s0 :| Init(s0) && Leads(s0, s, NoCloses());
    var steps :| Runs(s0, steps, s) && All(steps, NoCloses());
    RunKeepsInv(s0, steps, s);
    RunKeepsQuiet(s0, steps, s);
    assert Heard(s, p) && s.queues[q].event - {} == s.queues[q].event;
  }

  /** With closes in the run the same holds for every event that was set when the last walk began or since set by one. */
  lemma PollNoLostWakeupWithClose(s: State, p: Pid, q: Qid)
    requires Reachable(s) && SleepsOn(s, p, q) && q in s.queues
    requires s.pollers[p].fds[0].events * (s.queues[q].event - s.queues[q].silent) != {}
    ensures Pending(s, q, Node(p, 0))
  {
    ReachableInv(s);
    assert Heard(s, p);
  }

  /** msg_queue_close raises its events without a walk: that loses a wakeup exactly when a sleeper asked for one of them. */
  lemma CloseLosesWakeupIff(s: State, q: Qid, raised: set<Event>)
    requires Reachable(s) && Enabled(s, CloseRaises(q, raised)) && s.queues[q].silent == {}
    ensures var s' := Apply(s, CloseRaises(q, raised));
            (exists p :: SleepsOn(s', p, q) && s'.pollers[p].fds[0].events * s'.queues[q].event != {} && !Pending(s', q, Node(p, 0)))
            <==> exists p :: SleepsOn(s, p, q) && s.pollers[p].fds[0].events * raised != {}
  {
    ReachableInv(s);
    var s' := Apply(s, CloseRaises(q, raised));
    forall p | SleepsOn(s, p, q)
      ensures s'.pollers[p].fds[0].events * s'.queues[q].event == s.pollers[p].fds[0].events * raised
      ensures SleepsOn(s', p, q) && !Pending(s', q, Node(p, 0))
    {
      assert Heard(s, p) && s.queues[q].event - {} == s.queues[q].event;
    }
    assert forall p | SleepsOn(s', p, q) :: SleepsOn(s, p, q);
  }

  /** Wakers only touch live nodes, and a call that has freed its nodes has none left on any list. */
  lemma NodesAreLive(s: State, q: Qid, n: Node)
    requires Reachable(s) && q in s.queues
    ensures n in s.queues[q].list ==>
              && n.p in s.pollers && !s.pollers[n.p].pc.Freed?
              && n.i < |s.pollers[n.p].fds| && s.pollers[n.p].fds[n.i].Watch? && s.pollers[n.p].fds[n.i].q == q
    ensures NoRepeats(s.queues[q].list)
    ensures (n.p in s.pollers && n.i < |s.pollers[n.p].fds| && s.pollers[n.p].fds[n.i].Watch? &&
             s.pollers[n.p].fds[n.i].q == q && s.pollers[n.p].pc.Sleeping?) ==> n in s.queues[q].list
    ensures s.queues[q].walk.Walking? ==> HasTarget(s, q) || s.queues[q].walk.pos == |s.queues[q].list|
  {
    ReachableInv(s);
    assert n in s.queues[q].list <==> Belongs(s, q, n);
    var x := s.queues[q];
    if x.walk.Walking? && x.walk.pos < |x.list| {
      assert x.list[x.walk.pos] in x.list;
      assert Belongs(s, q, x.list[x.walk.pos]);
    }
  }

  lemma {:induction false} RunsThen(s: State, steps: seq<Step>, s': State, step: Step)
    requires Runs(s, steps, s') && Enabled(s', step)
    ensures Runs(s, steps + [step], Apply(s', step))
    decreases |steps|
  {
    if steps == [] {
      assert [step][1..] == [];
    } else {
      RunsThen(Apply(s, steps[0]), steps[1..], s', step);
      assert (steps + [step])[1..] == steps[1..] + [step];
    }
  }

  lemma Extend(o: State, s: State, allowed: iset<Step>, step: Step) returns (s': State)
    requires Leads(o, s, allowed) && Enabled(s, step) && step in allowed
    ensures Leads(o, s', allowed) && s' == Apply(s, step)
  {
    var steps :| Runs(o, steps, s) && All(steps, allowed);
    RunsThen(o, steps, s, step);
    assert All(steps + [step], allowed);
    s' := Apply(s, step);
  }
}
