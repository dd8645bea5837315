/**
 The lock order of poll calls. While a call registers descriptor i > 0 it holds the poll mutex of
 its node 0 and waits for the queue of descriptor i; a walk of the queue of descriptor 0 holds that
 queue and may wait for the poll mutex.
 */
module PollLocks {
  import opened QueueCore
  import opened Poll
  import opened PollTheorems
  import opened PollRuns

  /** Steps of calls and walks already under way, other than a spurious wakeup. */
  predicate Internal(step: Step)
  {
    !step.Start? && !step.Update? && !step.CloseRaises? && !step.Spurious?
  }

  ghost predicate Stuck(s: State) { forall step :: Internal(step) ==> !Enabled(s, step) }

  /** Something is under way: a section on a queue, or a poll call that is neither asleep nor done. */
  ghost predicate Busy(s: State)
  {
    || (exists q :: q in s.queues && !s.queues[q].walk.Unlocked?)
    || (exists p :: p in s.pollers && !s.pollers[p].pc.Sleeping? && !s.pollers[p].pc.Freed?)
  }

  /** No uninitialised mutex of a registered node blocks a walker; no assumption when only descriptor 0 is live. */
  predicate LaterNodesOpen(fds: seq<Fd>, wild: set<nat>)
  {
    forall i | 0 < i < |fds| && fds[i].Watch? :: i !in wild
  }

  /** Poll calls pass only these arrays. */
  ghost function Passing(arrays: iset<seq<Fd>>): iset<Step>
  {
    iset step: Step | step.Start? ==> step.fds in arrays
  }

  /** And their later nodes hold up no walk. */
  ghost function Using(arrays: iset<seq<Fd>>): iset<Step>
  {
    iset step: Step | step.Start? ==> step.fds in arrays && LaterNodesOpen(step.fds, step.wild)
  }

  /** A poll call about to register descriptor i. */
  datatype Hold = Hold(fds: seq<Fd>, i: nat) {
    predicate Crosses() { 0 < i < |fds| && fds[0].Watch? && fds[i].Watch? }

    /** The queue whose walk may wait for this call. */
    function Source(): Qid
      requires Crosses()
    {
      fds[0].q
    }

    /** The queue this call waits for. */
    function Target(): Qid
      requires Crosses()
    {
      fds[i].q
    }
  }

  /** Call j - 1 waits for the queue whose walk waits for call j. */
  predicate Joined(c: seq<Hold>, j: nat)
    requires 0 < j < |c| && c[j - 1].Crosses() && c[j].Crosses()
  {
    c[j - 1].Target() == c[j].Source()
  }

  /** Calls that may be made with these arrays, each waiting for a queue whose walk waits for the next. */
  ghost predicate Chain(arrays: iset<seq<Fd>>, c: seq<Hold>)
  {
    && (forall j | 0 <= j < |c| :: c[j].Crosses() && c[j].fds in arrays && Acceptable(c[j].fds))
    && (forall j {:trigger Joined(c, j)} | 0 < j < |c| :: Joined(c, j))
  }

  ghost predicate Cycle(arrays: iset<seq<Fd>>, c: seq<Hold>)
  {
    c != [] && Chain(arrays, c) && c[|c| - 1].Target() == c[0].Source()
  }

  // ----- A deadlock and its permanence

  /** The walk of q waits for the poll mutex of a call that waits to register a descriptor on a queue of d. */
  ghost predicate HeldUp(s: State, q: Qid, d: set<Qid>)
  {
    q in s.queues && s.queues[q].walk.Walking? && s.queues[q].walk.pos < |s.queues[q].list| &&
    var n := s.queues[q].list[s.queues[q].walk.pos];
    n.i == 0 && n.p in s.pollers &&
    var r := s.pollers[n.p];
    && r.pc.Adding? && Hold(r.fds, r.pc.k).Crosses()
    && r.fds[0].q == q && r.fds[0].events * s.queues[q].event != {}
    && r.fds[r.pc.k].q in d
  }

  /** A set of queues whose walks and calls wait for each other. */
  ghost predicate Deadlocked(s: State, d: set<Qid>)
  {
    d != {} && forall q {:trigger HeldUp(s, q, d)} | q in d :: HeldUp(s, q, d)
  }

  /** No step of any thread moves a walk or a call of the deadlock. */
  lemma HeldUpKept(s: State, d: set<Qid>, q: Qid, step: Step)
    requires Deadlocked(s, d) && q in d && Enabled(s, step)
    ensures HeldUp(Apply(s, step), q, d)
  {
    assert HeldUp(s, q, d);
    var n := s.queues[q].list[s.queues[q].walk.pos];
    var r := s.pollers[n.p];
    assert HeldUp(s, r.fds[r.pc.k].q, d);
    QueueLeft(s, q, n, step);
    CallLeft(s, r.fds[r.pc.k].q, n.p, step);
  }

  lemma QueueLeft(s: State, q: Qid, n: Node, step: Step)
    requires Enabled(s, step) && HasTarget(s, q) && Poll.Target(s, q) == n && Matches(s, q) && !PollMutexFree(s, n)
    ensures q in Apply(s, step).queues && Apply(s, step).queues[q] == s.queues[q]
  {
  }

  lemma CallLeft(s: State, q: Qid, p: Pid, step: Step)
    requires Enabled(s, step) && p in s.pollers && s.pollers[p].pc.Adding? && s.pollers[p].pc.k < |s.pollers[p].fds|
    requires s.pollers[p].fds[s.pollers[p].pc.k].Watch? && s.pollers[p].fds[s.pollers[p].pc.k].q == q
    requires q in s.queues && !s.queues[q].walk.Unlocked?
    ensures p in Apply(s, step).pollers && Apply(s, step).pollers[p] == s.pollers[p]
  {
  }

  /** Once there, a deadlock is there for good. */
  lemma {:induction false} DeadlockLasts(s: State, d: set<Qid>, steps: seq<Step>, s': State)
    requires Deadlocked(s, d) && Runs(s, steps, s')
    ensures Deadlocked(s', d)
    decreases |steps|
  {
    if steps != [] {
      forall q | q in d
        ensures HeldUp(Apply(s, steps[0]), q, d)
      {
        HeldUpKept(s, d, q, steps[0]);
      }
      DeadlockLasts(Apply(s, steps[0]), d, steps[1..], s');
    }
  }

  // ----- A deadlock has a cycle

  /** Every poll call there is was allowed to begin. */
  ghost predicate CallsAllowed(s: State, allowed: iset<Step>)
  {
    forall p | p in s.pollers ::
      Start(p, s.pollers[p].fds, s.pollers[p].wild) in allowed && Acceptable(s.pollers[p].fds)
  }

  lemma {:induction false} RunCallsAllowed(s: State, steps: seq<Step>, s': State, allowed: iset<Step>)
    requires CallsAllowed(s, allowed) && Runs(s, steps, s') && All(steps, allowed)
    ensures CallsAllowed(s', allowed)
    decreases |steps|
  {
    if steps != [] {
      StepCallsAllowed(s, steps[0], allowed);
      assert All(steps[1..], allowed);
      RunCallsAllowed(Apply(s, steps[0]), steps[1..], s', allowed);
    }
  }

  lemma StepCallsAllowed(s: State, step: Step, allowed: iset<Step>)
    requires CallsAllowed(s, allowed) && Enabled(s, step) && step in allowed
    ensures CallsAllowed(Apply(s, step), allowed)
  {
  }

  lemma ReachableCalls(s: State, allowed: iset<Step>)
    requires ReachableBy(s, allowed)
    ensures Inv(s) && CallsAllowed(s, allowed)
  {
    var o :| Init(o) && Leads(o, s, allowed);
    var steps :| Runs(o, steps, s) && All(steps, allowed);
    RunKeepsInv(o, steps, s);
    RunCallsAllowed(o, steps, s, allowed);
  }

  lemma Follow(arrays: iset<seq<Fd>>, c: seq<Hold>, h: Hold)
    requires c != [] && Chain(arrays, c)
    requires h.Crosses() && h.fds in arrays && Acceptable(h.fds) && c[|c| - 1].Target() == h.Source()
    ensures Chain(arrays, c + [h])
  {
    var d := c + [h];
    forall j | 0 <= j < |d|
      ensures d[j].Crosses() && d[j].fds in arrays && Acceptable(d[j].fds)
    {
      assert d[j] == if j < |c| then c[j] else h;
    }
    forall j | 0 < j < |d|
      ensures Joined(d, j)
    {
      assert d[j - 1] == c[j - 1] && d[j] == if j < |c| then c[j] else h;
      assert j < |c| ==> Joined(c, j);
    }
  }

  lemma Tail(arrays: iset<seq<Fd>>, c: seq<Hold>, j: nat)
    requires Chain(arrays, c) && j < |c|
    ensures Chain(arrays, c[j..])
  {
    var d := c[j..];
    assert forall m | 0 <= m < |d| :: d[m] == c[m + j];
    forall m | 0 < m < |d|
      ensures Joined(d, m)
    {
      assert Joined(c, m + j);
    }
  }

  ghost predicate WaitsAt(arrays: iset<seq<Fd>>, next: map<Qid, Hold>, q: Qid)
    requires q in next
  {
    && next[q].Crosses() && next[q].fds in arrays && Acceptable(next[q].fds)
    && next[q].Source() == q && next[q].Target() in next
  }

  /** For each queue a call that holds it up and waits for another of them. */
  ghost predicate Waits(arrays: iset<seq<Fd>>, next: map<Qid, Hold>)
  {
    forall q {:trigger WaitsAt(arrays, next, q)} | q in next :: WaitsAt(arrays, next, q)
  }

  /** The queues of a chain, without the last one waited for. */
  ghost predicate Visits(c: seq<Hold>, seen: set<Qid>)
    requires forall j | 0 <= j < |c| :: c[j].Crosses()
  {
    && (forall q | q in seen :: exists j :: 0 <= j < |c| && c[j].Source() == q)
    && (forall j | 0 <= j < |c| :: c[j].Source() in seen)
  }

  lemma VisitsOneMore(c: seq<Hold>, seen: set<Qid>, h: Hold)
    requires (forall j | 0 <= j < |c| :: c[j].Crosses()) && h.Crosses() && Visits(c, seen)
    ensures forall j | 0 <= j < |c + [h]| :: (c + [h])[j].Crosses()
    ensures Visits(c + [h], seen + {h.Source()})
  {
    var c' := c + [h];
    forall x | x in seen + {h.Source()}
      ensures exists j :: 0 <= j < |c'| && c'[j].Source() == x
    {
      if x in seen {
        var j :| 0 <= j < |c| && c[j].Source() == x;
        assert c'[j].Source() == x;
      } else {
        assert c'[|c|].Source() == x;
      }
    }
  }

  /** Following the calls must come back to a queue already seen. */
  lemma {:induction false} FindCycle(arrays: iset<seq<Fd>>, next: map<Qid, Hold>, seen: set<Qid>, c: seq<Hold>) returns (r: seq<Hold>)
    requires Waits(arrays, next) && c != [] && Chain(arrays, c) && Visits(c, seen)
    requires seen <= next.Keys && c[|c| - 1].Target() in next
    ensures Cycle(arrays, r)
    decreases next.Keys - seen
  {
    var q := c[|c| - 1].Target();
    if q in seen {
      var j :| 0 <= j < |c| && c[j].Source() == q;
      Tail(arrays, c, j);
      r := c[j..];
    } else {
      assert WaitsAt(arrays, next, q);
      Follow(arrays, c, next[q]);
      VisitsOneMore(c, seen, next[q]);
      r := FindCycle(arrays, next, seen + {q}, c + [next[q]]);
    }
  }

  /** The call that holds up q. */
  ghost function HoldAt(s: State, q: Qid, d: set<Qid>): Hold
    requires HeldUp(s, q, d)
  {
    var r := s.pollers[s.queues[q].list[s.queues[q].walk.pos].p];
    Hold(r.fds, r.pc.k)
  }

  lemma DeadlockWaits(s: State, arrays: iset<seq<Fd>>, d: set<Qid>, next: map<Qid, Hold>)
    requires CallsAllowed(s, Passing(arrays)) && Deadlocked(s, d)
    requires next == map q | q in d :: assert HeldUp(s, q, d); HoldAt(s, q, d)
    ensures Waits(arrays, next)
  {
    forall q | q in next
      ensures WaitsAt(arrays, next, q)
    {
      assert HeldUp(s, q, d);
      var p := s.queues[q].list[s.queues[q].walk.pos].p;
      assert Start(p, s.pollers[p].fds, s.pollers[p].wild) in Passing(arrays);
    }
  }

  lemma DeadlockHasCycle(s: State, arrays: iset<seq<Fd>>, d: set<Qid>) returns (c: seq<Hold>)
    requires ReachableBy(s, Passing(arrays)) && Deadlocked(s, d)
    ensures Cycle(arrays, c)
  {
    ReachableCalls(s, Passing(arrays));
    var next := map q | q in d :: assert HeldUp(s, q, d); HoldAt(s, q, d);
    DeadlockWaits(s, arrays, d, next);
    var q :| q in d;
    assert WaitsAt(arrays, next, q);
    assert [next[q]][0].Source() == q;
    c := FindCycle(arrays, next, {q}, [next[q]]);
  }

  // ----- A state in which nothing moves is a deadlock

  lemma PollerMoves(s: State, p: Pid) returns (step: Step)
    requires Inv(s) && p in s.pollers && !s.pollers[p].pc.Sleeping? && !s.pollers[p].pc.Freed?
    requires forall q | q in s.queues :: s.queues[q].walk.Unlocked?
    ensures Internal(step) && Enabled(s, step)
  {
    assert At(s, p);
    var n := |s.pollers[p].fds|;
    match s.pollers[p].pc
    case Adding(k) => step := if k < n then Add(p) else BeginCount(p);
    case Counting(k, _) => step := if k < n then Count(p) else EndCount(p);
    case Woken => step := Rewake(p);
    case Recounting(k, _) => step := if k < n then Recount(p) else EndRecount(p);
    case Removing(k, _) => step := if k < n then Remove(p) else Free(p);
  }

  /** A call that holds its poll mutex and cannot move waits for a locked queue. */
  lemma HolderWaits(s: State, p: Pid) returns (h: Hold)
    requires Inv(s) && Stuck(s) && p in s.pollers && s.pollers[p].HoldsPollMutex() && s.pollers[p].Linked(0)
    ensures s.pollers[p].pc.Adding? && h == Hold(s.pollers[p].fds, s.pollers[p].pc.k)
    ensures h.Crosses() && h.Target() in s.queues && !s.queues[h.Target()].walk.Unlocked?
  {
    assert At(s, p);
    var r := s.pollers[p];
    assert r.pc.Adding? by {
      assert !Enabled(s, Count(p)) && !Enabled(s, EndCount(p)) && !Enabled(s, Recount(p)) && !Enabled(s, EndRecount(p));
    }
    assert !Enabled(s, Add(p)) && !Enabled(s, BeginCount(p));
    h := Hold(r.fds, r.pc.k);
  }

  /** A section on q that cannot move walks, and waits for a call that holds its poll mutex. */
  lemma WalkWaits(s: State, q: Qid) returns (p: Pid)
    requires Inv(s) && Stuck(s) && q in s.queues && !s.queues[q].walk.Unlocked?
    requires forall p | p in s.pollers :: LaterNodesOpen(s.pollers[p].fds, s.pollers[p].wild)
    ensures HasTarget(s, q) && Poll.Target(s, q) == Node(p, 0) && Matches(s, q)
    ensures p in s.pollers && s.pollers[p].HoldsPollMutex() && s.pollers[p].Linked(0) && s.pollers[p].fds[0].q == q
  {
    assert !Enabled(s, Raise(q)) && !Enabled(s, Finish(q));
    var x := s.queues[q];
    var n := x.list[x.walk.pos];
    assert n in x.list;
    assert Belongs(s, q, n);
    assert !Enabled(s, Pass(q)) && !Enabled(s, Signal(q));
    p := n.p;
  }

  lemma SomeLocked(s: State) returns (q: Qid)
    requires Inv(s) && Busy(s) && Stuck(s)
    ensures q in s.queues && !s.queues[q].walk.Unlocked?
  {
    if r :| r in s.queues && !s.queues[r].walk.Unlocked? {
      q := r;
    } else {
      var p :| p in s.pollers && !s.pollers[p].pc.Sleeping? && !s.pollers[p].pc.Freed?;
      var step := PollerMoves(s, p);
      assert false;
    }
  }

  lemma LockedHeldUp(s: State, q: Qid, locked: set<Qid>)
    requires Inv(s) && Stuck(s) && q in s.queues && !s.queues[q].walk.Unlocked?
    requires forall p | p in s.pollers :: LaterNodesOpen(s.pollers[p].fds, s.pollers[p].wild)
    requires locked == set r | r in s.queues && !s.queues[r].walk.Unlocked?
    ensures HeldUp(s, q, locked)
  {
    var p := WalkWaits(s, q);
    var h := HolderWaits(s, p);
  }

  /** When everything under way waits, the locked queues are a deadlock. */
  lemma StuckIsDeadlocked(s: State, arrays: iset<seq<Fd>>) returns (d: set<Qid>)
    requires ReachableBy(s, Using(arrays)) && Busy(s) && Stuck(s)
    ensures Deadlocked(s, d)
  {
    ReachableCalls(s, Using(arrays));
    forall p | p in s.pollers
      ensures LaterNodesOpen(s.pollers[p].fds, s.pollers[p].wild)
    {
      assert Start(p, s.pollers[p].fds, s.pollers[p].wild) in Using(arrays);
    }
    var q := SomeLocked(s);
    d := set r | r in s.queues && !s.queues[r].walk.Unlocked?;
    assert q in d;
    forall r | r in d
      ensures HeldUp(s, r, d)
    {
      LockedHeldUp(s, r, d);
    }
  }

  // ----- A cycle makes a stuck state

  ghost function QueuesIn(c: seq<Hold>): set<Qid>
  {
    set j, i | 0 <= j < |c| && 0 <= i < |c[j].fds| && c[j].fds[i].Watch? :: c[j].fds[i].q
  }

  /** Queues that happen to be created with every event set. */
  ghost function CourseOf(arrays: iset<seq<Fd>>, c: seq<Hold>): Course
  {
    Course(Fresh(QueuesIn(c), AllEvents), Using(arrays))
  }

  /** The calls of the chain are threads 0, 1, and so on, each about to register its descriptor. */
  ghost predicate Placed(s: State, co: Course, c: seq<Hold>, n: nat)
    requires n <= |c|
  {
    && On(s, co)
    && (forall q | q in s.queues :: s.queues[q].event == AllEvents)
    && (forall p: Pid :: p in s.pollers <==> p < n)
    && (forall p | p in s.pollers :: s.pollers[p] == Poller(c[p].fds, {}, Adding(c[p].i)))
    && (forall j | 0 <= j < |c| :: Known(s, c[j].fds))
  }

  lemma UsingPermits(arrays: iset<seq<Fd>>)
    ensures Permissive(Using(arrays))
  {
  }

  lemma PlaceNone(co: Course, arrays: iset<seq<Fd>>, c: seq<Hold>) returns (s: State)
    requires co == CourseOf(arrays, c)
    ensures Placed(s, co, c, 0) && AllUnlocked(s)
  {
    s := co.origin;
    AtOrigin(co);
    forall j, i | 0 <= j < |c| && 0 <= i < |c[j].fds| && c[j].fds[i].Watch?
      ensures c[j].fds[i].q in s.queues
    {
      assert c[j].fds[i].q in QueuesIn(c);
    }
  }

  lemma PlaceOne(s: State, co: Course, arrays: iset<seq<Fd>>, c: seq<Hold>, n: nat) returns (s': State)
    requires co.allowed == Using(arrays) && Chain(arrays, c) && n < |c| && Placed(s, co, c, n) && AllUnlocked(s)
    ensures Placed(s', co, c, n + 1) && AllUnlocked(s')
  {
    UsingPermits(arrays);
    var h := c[n];
    assert h.Crosses() && h.fds in arrays && Acceptable(h.fds) && Known(s, h.fds);
    s' := Register(s, co, n, h.fds, h.i);
    forall j | 0 <= j < |c|
      ensures Known(s', c[j].fds)
    {
      assert Known(s, c[j].fds);
    }
  }

  lemma {:induction false} PlaceCalls(co: Course, arrays: iset<seq<Fd>>, c: seq<Hold>, n: nat) returns (s: State)
    requires co == CourseOf(arrays, c) && Chain(arrays, c) && n <= |c|
    ensures Placed(s, co, c, n) && AllUnlocked(s)
  {
    if n == 0 {
      s := PlaceNone(co, arrays, c);
    } else {
      s := PlaceCalls(co, arrays, c, n - 1);
      s := PlaceOne(s, co, arrays, c, n - 1);
    }
  }

  /** The walk of q has come to the first node of some call, with every event raised. */
  ghost predicate AtFirstNode(x: Queue)
  {
    x.walk.Walking? && x.walk.pos < |x.list| && x.list[x.walk.pos].i == 0 && x.event == AllEvents
  }

  lemma FirstZero(list: seq<Node>) returns (stop: nat)
    requires exists n :: n in list && n.i == 0
    ensures stop < |list| && list[stop].i == 0 && forall m | 0 <= m < stop :: list[m].i > 0
  {
    stop := 0;
    while list[stop].i != 0
      invariant stop < |list| && forall m | 0 <= m < stop :: list[m].i > 0
      invariant exists m :: stop <= m < |list| && list[m].i == 0
      decreases |list| - stop
    {
      stop := stop + 1;
    }
  }

  /** Only first nodes hold up a walk. */
  lemma LaterNodesHarmless(s: State, co: Course, arrays: iset<seq<Fd>>, c: seq<Hold>, q: Qid, n: Node)
    requires Placed(s, co, c, |c|) && q in s.queues && n in s.queues[q].list && n.i > 0
    ensures Harmless(s, q, n)
  {
    OnInv(s, co);
    assert Belongs(s, q, n);
  }

  lemma FirstNodeListed(s: State, co: Course, arrays: iset<seq<Fd>>, c: seq<Hold>, p: Pid)
    requires Chain(arrays, c) && Placed(s, co, c, |c|) && p < |c|
    ensures c[p].Crosses() && c[p].Source() in s.queues && Node(p, 0) in s.queues[c[p].Source()].list
  {
    OnInv(s, co);
    assert c[p].Crosses() && Known(s, c[p].fds);
    assert Belongs(s, c[p].Source(), Node(p, 0));
  }

  lemma QueueChanged(s: State, co: Course, arrays: iset<seq<Fd>>, c: seq<Hold>, q: Qid, x: Queue)
    requires Placed(s, co, c, |c|) && q in s.queues && On(SetQueue(s, q, x), co) && x.event == AllEvents
    ensures Placed(SetQueue(s, q, x), co, c, |c|)
  {
    forall j | 0 <= j < |c|
      ensures Known(SetQueue(s, q, x), c[j].fds)
    {
      assert Known(s, c[j].fds);
    }
  }

  /** A writer locks q and sets READABLE, which is set already. */
  lemma BeginWalk(s: State, co: Course, arrays: iset<seq<Fd>>, c: seq<Hold>, q: Qid) returns (s': State)
    requires co.allowed == Using(arrays) && Placed(s, co, c, |c|) && q in s.queues && s.queues[q].walk.Unlocked?
    ensures Placed(s', co, c, |c|) && s' == SetQueue(s, q, Queue(AllEvents, s.queues[q].list, Walking(0), {}))
  {
    UsingPermits(arrays);
    var x := s.queues[q];
    var t := Go(s, co, Update(q, {}, {Readable}));
    s' := Go(t, co, Raise(q));
    assert AllEvents - {} + {Readable} == AllEvents;
    assert s'.queues == s.queues[q := Queue(AllEvents, x.list, Walking(0), {})];
    QueueChanged(s, co, arrays, c, q, s'.queues[q]);
  }

  /** It walks as far as it can. */
  lemma WalkOn(s: State, co: Course, arrays: iset<seq<Fd>>, c: seq<Hold>, q: Qid) returns (s': State)
    requires co.allowed == Using(arrays) && Placed(s, co, c, |c|) && q in s.queues && s.queues[q].walk == Walking(0)
    requires exists n :: n in s.queues[q].list && n.i == 0
    ensures Placed(s', co, c, |c|) && q in s'.queues && s' == SetQueue(s, q, s'.queues[q]) && AtFirstNode(s'.queues[q])
  {
    var stop := FirstZero(s.queues[q].list);
    forall m | 0 <= m < stop
      ensures Harmless(s, q, s.queues[q].list[m])
    {
      LaterNodesHarmless(s, co, arrays, c, q, s.queues[q].list[m]);
    }
    UsingPermits(arrays);
    s' := WalkTo(s, co, q, 0, stop);
    QueueChanged(s, co, arrays, c, q, s'.queues[q]);
  }

  lemma SetTwice(s: State, q: Qid, x: Queue, y: Queue)
    ensures SetQueue(SetQueue(s, q, x), q, y) == SetQueue(s, q, y)
  {
  }

  lemma LockSource(s: State, co: Course, arrays: iset<seq<Fd>>, c: seq<Hold>, p: Pid, q: Qid) returns (s': State)
    requires co.allowed == Using(arrays) && Chain(arrays, c) && Placed(s, co, c, |c|) && p < |c| && c[p].Crosses() && q == c[p].Source()
    requires q in s.queues && s.queues[q].walk.Unlocked?
    ensures Placed(s', co, c, |c|) && q in s'.queues && s' == SetQueue(s, q, s'.queues[q]) && AtFirstNode(s'.queues[q])
  {
    var t := BeginWalk(s, co, arrays, c, q);
    FirstNodeListed(t, co, arrays, c, p);
    s' := WalkOn(t, co, arrays, c, q);
    SetTwice(s, q, t.queues[q], s'.queues[q]);
  }

  /** The sources of the first n calls are locked, and no other queue. */
  ghost predicate SourcesLocked(s: State, co: Course, arrays: iset<seq<Fd>>, c: seq<Hold>, n: nat)
    requires Chain(arrays, c) && n <= |c|
  {
    && Placed(s, co, c, |c|)
    && (forall q | q in s.queues :: s.queues[q].walk.Unlocked? || AtFirstNode(s.queues[q]))
    && (forall p | 0 <= p < n :: c[p].Source() in s.queues && AtFirstNode(s.queues[c[p].Source()]))
  }

  lemma OneMoreLocked(s: State, s': State, co: Course, arrays: iset<seq<Fd>>, c: seq<Hold>, n: nat, q: Qid)
    requires Chain(arrays, c) && n < |c| && SourcesLocked(s, co, arrays, c, n) && q == c[n].Source() && q in s.queues
    requires Placed(s', co, c, |c|) && q in s'.queues && s' == SetQueue(s, q, s'.queues[q]) && AtFirstNode(s'.queues[q])
    ensures SourcesLocked(s', co, arrays, c, n + 1)
  {
    forall p | 0 <= p < n + 1
      ensures c[p].Source() in s'.queues && AtFirstNode(s'.queues[c[p].Source()])
    {
      LockedStays(s, q, s'.queues[q], c[p].Source());
    }
    forall r | r in s'.queues
      ensures s'.queues[r].walk.Unlocked? || AtFirstNode(s'.queues[r])
    {
      assert r != q ==> s'.queues[r] == s.queues[r];
    }
  }

  lemma LockedStays(s: State, q: Qid, x: Queue, r: Qid)
    requires AtFirstNode(x) && (r == q || (r in s.queues && AtFirstNode(s.queues[r])))
    ensures r in SetQueue(s, q, x).queues && AtFirstNode(SetQueue(s, q, x).queues[r])
  {
  }

  lemma LockNext(s: State, co: Course, arrays: iset<seq<Fd>>, c: seq<Hold>, n: nat) returns (s': State)
    requires co.allowed == Using(arrays) && Chain(arrays, c) && n < |c| && SourcesLocked(s, co, arrays, c, n)
    ensures SourcesLocked(s', co, arrays, c, n + 1)
  {
    FirstNodeListed(s, co, arrays, c, n);
    var q := c[n].Source();
    if s.queues[q].walk.Unlocked? {
      s' := LockSource(s, co, arrays, c, n, q);
    } else {
      s' := s;
      assert s.queues[q := s.queues[q]] == s.queues;
    }
    OneMoreLocked(s, s', co, arrays, c, n, q);
  }

  lemma {:induction false} LockSources(co: Course, arrays: iset<seq<Fd>>, c: seq<Hold>, n: nat) returns (s: State)
    requires co == CourseOf(arrays, c) && Chain(arrays, c) && n <= |c|
    ensures SourcesLocked(s, co, arrays, c, n)
  {
    if n == 0 {
      s := PlaceCalls(co, arrays, c, |c|);
    } else {
      s := LockSources(co, arrays, c, n - 1);
      s := LockNext(s, co, arrays, c, n - 1);
    }
  }

  /** Each call of a cycle waits for a queue that is the source of a call. */
  lemma TargetLocked(s: State, co: Course, arrays: iset<seq<Fd>>, c: seq<Hold>, p: Pid)
    requires Cycle(arrays, c) && SourcesLocked(s, co, arrays, c, |c|) && p < |c|
    ensures c[p].Crosses() && c[p].Target() in s.queues && !s.queues[c[p].Target()].walk.Unlocked?
  {
    var next := if p + 1 < |c| then p + 1 else 0;
    assert c[p].Crosses() && (next > 0 ==> Joined(c, next));
    assert c[p].Target() == c[next].Source();
  }

  lemma AskedAndRaised(asked: set<Event>, raised: set<Event>)
    requires asked != {} && raised == AllEvents
    ensures asked * raised != {}
  {
    var e :| e in asked;
    EveryEvent(e);
    assert e in asked * raised;
  }

  lemma FirstNodeHeld(s: State, co: Course, arrays: iset<seq<Fd>>, c: seq<Hold>, q: Qid)
    requires Chain(arrays, c) && Placed(s, co, c, |c|) && q in s.queues && AtFirstNode(s.queues[q]) && HasTarget(s, q)
    ensures Matches(s, q) && !PollMutexFree(s, Poll.Target(s, q))
  {
    var n := Poll.Target(s, q);
    AskedAndRaised(s.pollers[n.p].fds[n.i].events, s.queues[q].event);
  }

  lemma NoWayOn(s: State, q: Qid)
    requires q in s.queues && s.queues[q].walk.Walking? && s.queues[q].walk.pos < |s.queues[q].list|
    requires HasTarget(s, q) ==> Matches(s, q) && !PollMutexFree(s, Poll.Target(s, q))
    ensures !Enabled(s, Pass(q)) && !Enabled(s, Signal(q)) && !Enabled(s, Finish(q)) && !Enabled(s, Raise(q))
  {
  }

  /** A walk that stands on a first node waits for a poll mutex that its call holds. */
  lemma WalkBlocked(s: State, co: Course, arrays: iset<seq<Fd>>, c: seq<Hold>, q: Qid)
    requires Chain(arrays, c) && Placed(s, co, c, |c|) && q in s.queues && AtFirstNode(s.queues[q])
    ensures !Enabled(s, Pass(q)) && !Enabled(s, Signal(q)) && !Enabled(s, Finish(q)) && !Enabled(s, Raise(q))
  {
    if HasTarget(s, q) {
      FirstNodeHeld(s, co, arrays, c, q);
    }
    NoWayOn(s, q);
  }

  lemma CallBlocked(s: State, co: Course, arrays: iset<seq<Fd>>, c: seq<Hold>, p: Pid, step: Step)
    requires Cycle(arrays, c) && SourcesLocked(s, co, arrays, c, |c|) && p < |c| && Internal(step)
    requires !step.Pass? && !step.Signal? && !step.Finish? && !step.Raise? && step.p == p
    ensures !Enabled(s, step)
  {
    TargetLocked(s, co, arrays, c, p);
  }

  lemma CycleIsStuck(s: State, co: Course, arrays: iset<seq<Fd>>, c: seq<Hold>)
    requires Cycle(arrays, c) && SourcesLocked(s, co, arrays, c, |c|)
    ensures Busy(s) && Stuck(s)
  {
    assert 0 in s.pollers && s.pollers[0].pc.Adding?;
    forall step | Internal(step)
      ensures !Enabled(s, step)
    {
      if step.Pass? || step.Signal? || step.Finish? || step.Raise? {
        if step.q in s.queues && AtFirstNode(s.queues[step.q]) {
          WalkBlocked(s, co, arrays, c, step.q);
        }
      } else if step.p < |c| {
        CallBlocked(s, co, arrays, c, step.p, step);
      }
    }
  }

  lemma CycleGetsStuck(arrays: iset<seq<Fd>>, c: seq<Hold>) returns (s: State)
    requires Cycle(arrays, c)
    ensures ReachableBy(s, Using(arrays)) && Busy(s) && Stuck(s)
  {
    var co := CourseOf(arrays, c);
    s := LockSources(co, arrays, c, |c|);
    CycleIsStuck(s, co, arrays, c);
    assert Init(co.origin);
  }

  lemma UsingPasses(s: State, arrays: iset<seq<Fd>>)
    requires ReachableBy(s, Using(arrays))
    ensures ReachableBy(s, Passing(arrays))
  {
    var o :| Init(o) && Leads(o, s, Using(arrays));
    var steps :| Runs(o, steps, s) && All(steps, Using(arrays));
    assert All(steps, Passing(arrays));
  }

  /**
   When poll calls pass only the given arrays, some run gets into a deadlock, which by `DeadlockLasts`
   is there for good, if and only if the arrays hold a cycle of crossing calls.
   */
  lemma DeadlockIffCycle(arrays: iset<seq<Fd>>)
    ensures (exists s, d :: ReachableBy(s, Passing(arrays)) && Deadlocked(s, d)) <==> exists c :: Cycle(arrays, c)
  {
    if s, d :| ReachableBy(s, Passing(arrays)) && Deadlocked(s, d) {
      var c := DeadlockHasCycle(s, arrays, d);
    }
    if c: seq<Hold> :| Cycle(arrays, c) {
      var s := CycleGetsStuck(arrays, c);
      var d := StuckIsDeadlocked(s, arrays);
      UsingPasses(s, arrays);
    }
  }

  /** In the same case, and with later nodes that hold up no walk, everything under way can come to wait at once. */
  lemma StuckIffCycle(arrays: iset<seq<Fd>>)
    ensures (exists s :: ReachableBy(s, Using(arrays)) && Busy(s) && Stuck(s)) <==> exists c :: Cycle(arrays, c)
  {
    if s :| ReachableBy(s, Using(arrays)) && Busy(s) && Stuck(s) {
      var d := StuckIsDeadlocked(s, arrays);
      UsingPasses(s, arrays);
      var c := DeadlockHasCycle(s, arrays, d);
    }
    if c: seq<Hold> :| Cycle(arrays, c) {
      var s := CycleGetsStuck(arrays, c);
    }
  }

  /** The first descriptor's queue occurs again in the array. */
  predicate FirstRepeats(fds: seq<Fd>)
  {
    fds != [] && fds[0].Watch? && exists i :: 0 < i < |fds| && fds[i].Watch? && fds[i].q == fds[0].q
  }

  /** Any number of calls with one array never block each other for good if and only if its first queue does not occur again. */
  lemma OneArrayNeverStuckIff(fds: seq<Fd>)
    requires Acceptable(fds)
    ensures (forall s | ReachableBy(s, Using(iset{fds})) && Busy(s) :: !Stuck(s)) <==> !FirstRepeats(fds)
  {
    var arrays := iset{fds};
    StuckIffCycle(arrays);
    if c: seq<Hold> :| Cycle(arrays, c) {
      var last := c[|c| - 1];
      assert last.Crosses() && last.fds in arrays && c[0].Crosses() && c[0].fds in arrays;
      assert fds[last.i].q == fds[0].q;
    }
    if FirstRepeats(fds) {
      var i :| 0 < i < |fds| && fds[i].Watch? && fds[i].q == fds[0].q;
      assert Cycle(arrays, [Hold(fds, i)]);
    }
  }

  /** Two descriptors on one queue are enough for a deadlock. */
  lemma TwoDescriptorsDeadlock() returns (s: State)
    ensures ReachableBy(s, Using(iset{[Watch(0, {Readable}), Watch(0, {Readable})]})) && Busy(s) && Stuck(s)
  {
    var fds := [Watch(0, {Readable}), Watch(0, {Readable})];
    assert fds[0].Watch? && fds[1].Watch? && fds[1].q == fds[0].q;
    OneArrayNeverStuckIff(fds);
    s :| ReachableBy(s, Using(iset{fds})) && Busy(s) && Stuck(s);
  }
}
