/** Pieces of runs from which the poll counterexamples are put together. */
module PollRuns {
  import opened QueueCore
  import opened Poll
  import opened PollTheorems

  const AllEvents: set<Event> := {Readable, Writable, NoReaders, NoWriters}

  lemma EveryEvent(e: Event)
    ensures e in AllEvents
  {
    match e
    case Readable =>
    case Writable =>
    case NoReaders =>
    case NoWriters =>
  }

  /** Where runs begin, and the steps they may take. */
  datatype Course = Course(origin: State, allowed: iset<Step>)

  ghost predicate On(s: State, c: Course) { Inv(c.origin) && Leads(c.origin, s, c.allowed) }

  /** Steps other than those that begin a poll call or a section on a queue. */
  predicate Continues(step: Step) { !step.Start? && !step.Update? && !step.CloseRaises? }

  ghost predicate Permissive(allowed: iset<Step>)
  {
    forall step: Step | Continues(step) :: step in allowed
  }

  lemma OnInv(s: State, c: Course)
    requires On(s, c)
    ensures Inv(s)
  {
    var steps :| Runs(c.origin, steps, s) && All(steps, c.allowed);
    RunKeepsInv(c.origin, steps, s);
  }

  lemma Go(s: State, c: Course, step: Step) returns (s': State)
    requires On(s, c) && Enabled(s, step) && step in c.allowed
    ensures On(s', c) && s' == Apply(s, step)
  {
    s' := Extend(c.origin, s, c.allowed, step);
  }

  lemma AtOrigin(c: Course)
    requires Inv(c.origin)
    ensures On(c.origin, c)
  {
    assert Runs(c.origin, [], c.origin) && All([], c.allowed);
  }

  ghost predicate AllUnlocked(s: State) { forall q | q in s.queues :: s.queues[q].walk.Unlocked? }

  /** The queues of t are those of s but for their lists. */
  ghost predicate SameButLists(s: State, t: State)
  {
    t.queues.Keys == s.queues.Keys &&
    forall q | q in s.queues :: t.queues[q] == s.queues[q].(list := t.queues[q].list)
  }

  lemma AddOne(s: State, c: Course, p: Pid, k: nat) returns (s': State)
    requires On(s, c) && Add(p) in c.allowed && AllUnlocked(s)
    requires p in s.pollers && k < |s.pollers[p].fds| && s.pollers[p].pc == Adding(k)
    ensures On(s', c) && SameButLists(s, s')
    ensures s'.pollers == s.pollers[p := s.pollers[p].(pc := Adding(k + 1))]
  {
    OnInv(s, c);
    assert At(s, p);
    s' := Go(s, c, Add(p));
  }

  /** A poll call registers its descriptors up to i while no queue is locked. */
  lemma {:induction false} AddUpTo(s: State, c: Course, p: Pid, k: nat, i: nat) returns (s': State)
    requires On(s, c) && Add(p) in c.allowed && AllUnlocked(s)
    requires p in s.pollers && k <= i <= |s.pollers[p].fds| && s.pollers[p].pc == Adding(k)
    ensures On(s', c) && SameButLists(s, s')
    ensures s'.pollers == s.pollers[p := s.pollers[p].(pc := Adding(i))]
    decreases i - k
  {
    if k == i {
      s' := s;
      assert s.pollers == s.pollers[p := s.pollers[p]];
    } else {
      var t := AddOne(s, c, p, k);
      s' := AddUpTo(t, c, p, k + 1, i);
    }
  }

  /** A poll call with array fds begins and registers its descriptors up to i. */
  lemma Register(s: State, c: Course, p: Pid, fds: seq<Fd>, i: nat) returns (s': State)
    requires On(s, c) && Add(p) in c.allowed && AllUnlocked(s)
    requires Start(p, fds, {}) in c.allowed && Enabled(s, Start(p, fds, {})) && i <= |fds|
    ensures On(s', c) && SameButLists(s, s')
    ensures s'.pollers == s.pollers[p := Poller(fds, {}, Adding(i))]
  {
    s' := Go(s, c, Start(p, fds, {}));
    s' := AddUpTo(s', c, p, 0, i);
  }

  /** A walk goes past node n without waking its poll call: the events do not match, or it is not a first node. */
  predicate Harmless(s: State, q: Qid, n: Node)
    requires q in s.queues
  {
    n.p in s.pollers && n.i < |s.pollers[n.p].fds| && s.pollers[n.p].fds[n.i].Watch? &&
    (s.pollers[n.p].fds[n.i].events * s.queues[q].event == {} || (n.i > 0 && n.i !in s.pollers[n.p].wild))
  }

  lemma WalkOne(s: State, c: Course, q: Qid, pos: nat) returns (s': State)
    requires On(s, c) && Permissive(c.allowed)
    requires q in s.queues && pos < |s.queues[q].list| && s.queues[q].walk == Walking(pos) && Harmless(s, q, s.queues[q].list[pos])
    ensures On(s', c) && s' == SetQueue(s, q, s.queues[q].(walk := Walking(pos + 1)))
  {
    s' := Go(s, c, if Matches(s, q) then Signal(q) else Pass(q));
  }

  lemma {:induction false} WalkTo(s: State, c: Course, q: Qid, pos: nat, stop: nat) returns (s': State)
    requires On(s, c) && Permissive(c.allowed)
    requires q in s.queues && pos <= stop <= |s.queues[q].list| && s.queues[q].walk == Walking(pos)
    requires forall m | pos <= m < stop :: Harmless(s, q, s.queues[q].list[m])
    ensures On(s', c) && s' == SetQueue(s, q, s.queues[q].(walk := Walking(stop)))
    decreases stop - pos
  {
    if pos == stop {
      s' := s;
      assert s.queues == s.queues[q := s.queues[q]];
    } else {
      var t := WalkOne(s, c, q, pos);
      s' := WalkTo(t, c, q, pos + 1, stop);
      assert s'.queues == s.queues[q := s.queues[q].(walk := Walking(stop))];
    }
  }

  /** Queues just created, with whatever events the allocated memory held. */
  function Fresh(qs: set<Qid>, event: set<Event>): State
  {
    State(map q | q in qs :: Queue(event, [], Unlocked, {}), map[])
  }
}
