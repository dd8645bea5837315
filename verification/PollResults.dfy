/** What a poll call counts, when it sleeps and what it returns. */
module PollResults {
  import opened QueueCore
  import opened Poll
  import opened PollTheorems
  import opened PollRuns
  import opened PollDescriptors

  /** An event that descriptor fd asks for is set. */
  ghost predicate Ready(s: State, fd: Fd)
  {
    fd.Watch? && fd.q in s.queues && exists e :: e in fd.events && e in s.queues[fd.q].event
  }

  lemma CountedIsReady(s: State, fd: Fd)
    requires fd.Watch? ==> fd.q in s.queues
    ensures Counted(s, fd) == if Ready(s, fd) then 1 else 0
  {
    if Ready(s, fd) {
      var e :| e in fd.events && e in s.queues[fd.q].event;
      assert e in fd.events * s.queues[fd.q].event;
    } else if fd.Watch? {
      assert forall e :: e !in fd.events * s.queues[fd.q].event;
    }
  }

  // ----- Every run: the counts against what was set when each descriptor was looked at

  ghost predicate CanRun(s: State, steps: seq<Step>)
    decreases |steps|
  {
    steps == [] || (Enabled(s, steps[0]) && CanRun(Apply(s, steps[0]), steps[1..]))
  }

  /** The step is call p's look at descriptor i, in its first or its second count. */
  predicate LooksAt(s: State, step: Step, p: Pid, again: bool, i: nat)
  {
    p in s.pollers && step == (if again then Recount(p) else Count(p)) &&
    i < |s.pollers[p].fds| &&
    (if again then s.pollers[p].pc.Recounting? && s.pollers[p].pc.k == i
     else s.pollers[p].pc.Counting? && s.pollers[p].pc.k == i)
  }

  /** How often the run looks at descriptor i in that count. */
  ghost function Looks(s: State, steps: seq<Step>, p: Pid, again: bool, i: nat): nat
    requires CanRun(s, steps)
    decreases |steps|
  {
    if steps == [] then 0
    else (if LooksAt(s, steps[0], p, again, i) then 1 else 0) + Looks(Apply(s, steps[0]), steps[1..], p, again, i)
  }

  /** The step looks at some descriptor in that count and finds it ready. */
  ghost predicate Hits(s: State, step: Step, p: Pid, again: bool)
  {
    exists i: nat :: LooksAt(s, step, p, again, i) && Ready(s, s.pollers[p].fds[i])
  }

  /** How many looks of that count find a descriptor ready. */
  ghost function Found(s: State, steps: seq<Step>, p: Pid, again: bool): nat
    requires CanRun(s, steps)
    decreases |steps|
  {
    if steps == [] then 0
    else (if Hits(s, steps[0], p, again) then 1 else 0) + Found(Apply(s, steps[0]), steps[1..], p, again)
  }

  /** How far the call has come in its first and second count; a call that found something has no second. */
  function Progress(r: Poller, again: bool, first: nat): nat
  {
    match r.pc
    case Adding(_) => 0
    case Counting(k, _) => if again then 0 else k
    case Sleeping => if again then 0 else |r.fds|
    case Woken => if again then 0 else |r.fds|
    case Recounting(k, _) => if again then k else |r.fds|
    case _ => if again && first > 0 then 0 else |r.fds|
  }

  /** The counts so far, `first` and `second`, are what the call carries, and it slept only after finding nothing. */
  predicate Tallied(r: Poller, first: nat, second: nat)
  {
    match r.pc
    case Adding(_) => first == 0 && second == 0
    case Counting(_, n) => n == first && second == 0
    case Sleeping => first == 0 && second == 0
    case Woken => first == 0 && second == 0
    case Recounting(_, n) => first == 0 && n == second
    case Removing(_, n) => if first > 0 then n == first && second == 0 else n == second
    case Freed(n) => if first > 0 then n == first && second == 0 else n == second
  }

  lemma OneLook(s: State, step: Step, p: Pid)
    requires WellFormed(s) && Enabled(s, step) && p in s.pollers
    ensures var again := s.pollers[p].pc.Recounting?;
            && Hits(s, step, p, !again) == false
            && (Hits(s, step, p, false) ==> step == Count(p))
            && (Hits(s, step, p, again) <==>
                (step == Count(p) || step == Recount(p)) && Ready(s, s.pollers[p].fds[s.pollers[p].pc.k]))
  {
    assert At(s, p);
    if step == Count(p) || step == Recount(p) {
      assert LooksAt(s, step, p, s.pollers[p].pc.Recounting?, s.pollers[p].pc.k);
    }
  }

  lemma StepTallies(s: State, step: Step, p: Pid, first: nat, second: nat)
    requires WellFormed(s) && Enabled(s, step) && p in s.pollers && Tallied(s.pollers[p], first, second)
    ensures p in Apply(s, step).pollers
    ensures Tallied(Apply(s, step).pollers[p], first + (if Hits(s, step, p, false) then 1 else 0),
                    second + (if Hits(s, step, p, true) then 1 else 0))
  {
    OneLook(s, step, p);
    if step == Count(p) || step == Recount(p) {
      assert At(s, p);
      CountedIsReady(s, s.pollers[p].fds[s.pollers[p].pc.k]);
    }
  }

  lemma StepLooks(s: State, step: Step, p: Pid, again: bool, i: nat, first: nat, second: nat)
    requires WellFormed(s) && Enabled(s, step) && p in s.pollers && Tallied(s.pollers[p], first, second) && i < |s.pollers[p].fds|
    ensures p in Apply(s, step).pollers && Apply(s, step).pollers[p].fds == s.pollers[p].fds
    ensures var hit := if Hits(s, step, p, false) then 1 else 0;
            (if i < Progress(Apply(s, step).pollers[p], again, first + hit) then 1 else 0) ==
            (if i < Progress(s.pollers[p], again, first) then 1 else 0) + (if LooksAt(s, step, p, again, i) then 1 else 0)
  {
    OneLook(s, step, p);
    if OfCall(step, p) {
      OwnLooks(s, step, p, again, i, first, second);
    } else {
      CallWaits(s, step, p);
    }
  }

  lemma OwnLooks(s: State, step: Step, p: Pid, again: bool, i: nat, first: nat, second: nat)
    requires WellFormed(s) && Enabled(s, step) && p in s.pollers && Tallied(s.pollers[p], first, second) && i < |s.pollers[p].fds|
    requires OfCall(step, p) && (Hits(s, step, p, false) ==> step == Count(p))
    ensures p in Apply(s, step).pollers && Apply(s, step).pollers[p].fds == s.pollers[p].fds
    ensures var hit := if Hits(s, step, p, false) then 1 else 0;
            (if i < Progress(Apply(s, step).pollers[p], again, first + hit) then 1 else 0) ==
            (if i < Progress(s.pollers[p], again, first) then 1 else 0) + (if LooksAt(s, step, p, again, i) then 1 else 0)
  {
    assert At(s, p);
  }

  /** A step of call p itself. */
  predicate OfCall(step: Step, p: Pid) { !OnQueue(step) && step.p == p }

  /** The steps of others leave a call alone, but for the signal that wakes it. */
  lemma CallWaits(s: State, step: Step, p: Pid)
    requires Enabled(s, step) && p in s.pollers && !OfCall(step, p)
    ensures p in Apply(s, step).pollers
    ensures var r, r' := s.pollers[p], Apply(s, step).pollers[p]; r' == r || (r.pc == Sleeping && r' == r.(pc := Woken))
  {
  }

  lemma {:induction false} RunTallies(s: State, steps: seq<Step>, t: State, p: Pid, first: nat, second: nat)
    requires Inv(s) && Runs(s, steps, t) && CanRun(s, steps) && p in s.pollers && Tallied(s.pollers[p], first, second)
    ensures p in t.pollers && Tallied(t.pollers[p], first + Found(s, steps, p, false), second + Found(s, steps, p, true))
    decreases |steps|
  {
    if steps != [] {
      var s' := Apply(s, steps[0]);
      StepKeepsInv(s, steps[0]);
      StepTallies(s, steps[0], p, first, second);
      RunTallies(s', steps[1..], t, p, first + (if Hits(s, steps[0], p, false) then 1 else 0),
                 second + (if Hits(s, steps[0], p, true) then 1 else 0));
    }
  }

  lemma {:induction false} RunLooks(s: State, steps: seq<Step>, t: State, p: Pid, again: bool, i: nat, first: nat, second: nat)
    requires Inv(s) && Runs(s, steps, t) && CanRun(s, steps) && p in s.pollers && Tallied(s.pollers[p], first, second)
    requires i < |s.pollers[p].fds|
    ensures p in t.pollers && t.pollers[p].fds == s.pollers[p].fds
    ensures (if i < Progress(t.pollers[p], again, first + Found(s, steps, p, false)) then 1 else 0) ==
            (if i < Progress(s.pollers[p], again, first) then 1 else 0) + Looks(s, steps, p, again, i)
    decreases |steps|
  {
    if steps != [] {
      var s' := Apply(s, steps[0]);
      StepKeepsInv(s, steps[0]);
      StepTallies(s, steps[0], p, first, second);
      StepLooks(s, steps[0], p, again, i, first, second);
      var a, b := if Hits(s, steps[0], p, false) then 1 else 0, if Hits(s, steps[0], p, true) then 1 else 0;
      RunLooks(s', steps[1..], t, p, again, i, first + a, second + b);
    }
  }

  lemma {:induction false} RunsCanRun(s: State, steps: seq<Step>, t: State)
    requires Runs(s, steps, t)
    ensures CanRun(s, steps)
    decreases |steps|
  {
    if steps != [] {
      RunsCanRun(Apply(s, steps[0]), steps[1..], t);
    }
  }

  /** A call begins with nothing counted. */
  lemma Begins(s: State, step: Step, p: Pid)
    requires Enabled(s, step) && p !in s.pollers
    ensures !Hits(s, step, p, false) && !Hits(s, step, p, true) && forall again, i: nat :: !LooksAt(s, step, p, again, i)
    ensures p in Apply(s, step).pollers ==> Apply(s, step).pollers[p].pc == Adding(0)
  {
  }

  lemma {:induction false} CallTallies(s: State, steps: seq<Step>, t: State, p: Pid)
    requires Inv(s) && Runs(s, steps, t) && CanRun(s, steps) && p !in s.pollers && p in t.pollers
    ensures Tallied(t.pollers[p], Found(s, steps, p, false), Found(s, steps, p, true))
    decreases |steps|
  {
    var s' := Apply(s, steps[0]);
    StepKeepsInv(s, steps[0]);
    Begins(s, steps[0], p);
    if p in s'.pollers {
      RunTallies(s', steps[1..], t, p, 0, 0);
    } else {
      CallTallies(s', steps[1..], t, p);
    }
  }

  lemma {:induction false} CallLooks(s: State, steps: seq<Step>, t: State, p: Pid, again: bool, i: nat)
    requires Inv(s) && Runs(s, steps, t) && CanRun(s, steps) && p !in s.pollers && p in t.pollers && i < |t.pollers[p].fds|
    ensures Looks(s, steps, p, again, i) == if i < Progress(t.pollers[p], again, Found(s, steps, p, false)) then 1 else 0
    decreases |steps|
  {
    var s' := Apply(s, steps[0]);
    StepKeepsInv(s, steps[0]);
    Begins(s, steps[0], p);
    if p in s'.pollers {
      FdsKept(s', steps[1..], t, p);
      RunLooks(s', steps[1..], t, p, again, i, 0, 0);
    } else {
      CallLooks(s', steps[1..], t, p, again, i);
    }
  }

  lemma {:induction false} FdsKept(s: State, steps: seq<Step>, t: State, p: Pid)
    requires Runs(s, steps, t) && p in s.pollers
    ensures p in t.pollers && t.pollers[p].fds == s.pollers[p].fds
    decreases |steps|
  {
    if steps != [] {
      FdsKept(Apply(s, steps[0]), steps[1..], t, p);
    }
  }

  /**
   In every run, the first count looks once at each descriptor, and the call then sleeps if and only if
   no look found an event set that the descriptor asks for.
   */
  lemma SleepsIffNothingFound(s: State, steps: seq<Step>, t: State, p: Pid)
    requires Init(s) && Runs(s, steps, t) && Enabled(t, EndCount(p))
    ensures CanRun(s, steps)
    ensures forall i: nat | i < |t.pollers[p].fds| :: Looks(s, steps, p, false, i) == 1
    ensures Apply(t, EndCount(p)).pollers[p].pc == Sleeping <==> Found(s, steps, p, false) == 0
  {
    RunsCanRun(s, steps, t);
    CallTallies(s, steps, t, p);
    forall i: nat | i < |t.pollers[p].fds|
      ensures Looks(s, steps, p, false, i) == 1
    {
      CallLooks(s, steps, t, p, false, i);
    }
  }

  /**
   In every run, a call returns how many descriptors its first count found ready, and if there were
   none, how many its second count did; it makes the second count exactly in that case.
   */
  lemma PollReturns(s: State, steps: seq<Step>, t: State, p: Pid)
    requires Init(s) && Runs(s, steps, t) && p in t.pollers && t.pollers[p].pc.Freed?
    ensures CanRun(s, steps)
    ensures var first, second := Found(s, steps, p, false), Found(s, steps, p, true);
            && t.pollers[p].pc.found == (if first > 0 then first else second)
            && forall i: nat | i < |t.pollers[p].fds| ::
                 Looks(s, steps, p, false, i) == 1 && Looks(s, steps, p, true, i) == if first > 0 then 0 else 1
  {
    RunsCanRun(s, steps, t);
    CallTallies(s, steps, t, p);
    forall i: nat | i < |t.pollers[p].fds|
      ensures Looks(s, steps, p, false, i) == 1
      ensures Looks(s, steps, p, true, i) == if Found(s, steps, p, false) > 0 then 0 else 1
    {
      CallLooks(s, steps, t, p, false, i);
      CallLooks(s, steps, t, p, true, i);
    }
  }

  // ----- A call on its own

  /** The steps of thread 7's call up to the end of its first count. */
  ghost function FirstCount(fds: seq<Fd>): iset<Step>
  {
    iset{Start(7, fds, {}), Add(7), BeginCount(7), Count(7), EndCount(7)}
  }

  /** Queues just created with the given events. */
  function FreshWith(ev: map<Qid, set<Event>>): State
  {
    State(map q | q in ev :: Queue(ev[q], [], Unlocked, {}), map[])
  }

  /** How many of the first k descriptors ask for an event that is set. */
  ghost function ReadyAmong(s: State, fds: seq<Fd>, k: nat): nat
    requires k <= |fds|
  {
    if k == 0 then 0 else ReadyAmong(s, fds, k - 1) + if Ready(s, fds[k - 1]) then 1 else 0
  }

  lemma {:induction false} NoneReady(s: State, fds: seq<Fd>, k: nat)
    requires k <= |fds|
    ensures ReadyAmong(s, fds, k) == 0 <==> forall i: nat | i < k :: !Ready(s, fds[i])
  {
    if k > 0 {
      NoneReady(s, fds, k - 1);
    }
  }

  lemma {:induction false} SameReady(s: State, s': State, fds: seq<Fd>, k: nat)
    requires k <= |fds| && forall i: nat | i < |fds| :: Ready(s, fds[i]) <==> Ready(s', fds[i])
    ensures ReadyAmong(s, fds, k) == ReadyAmong(s', fds, k)
  {
    if k > 0 {
      SameReady(s, s', fds, k - 1);
    }
  }

  /** The events are those of o, and the call carries what it has counted. */
  ghost predicate OnItsOwn(o: State, s: State, fds: seq<Fd>)
  {
    && SameButLists(o, s) && AllUnlocked(s)
    && (forall p | p in s.pollers :: p == 7)
    && (7 in s.pollers ==>
          var r := s.pollers[7];
          r.fds == fds && r.InRange() && Known(s, fds) &&
          match r.pc
          case Adding(_) => true
          case Counting(k, n) => n == ReadyAmong(o, fds, k)
          case Sleeping => ReadyAmong(o, fds, |fds|) == 0
          case Removing(k, n) => k == 0 && n == ReadyAmong(o, fds, |fds|) > 0
          case _ => false)
  }

  lemma EventsDecide(o: State, s: State, fd: Fd)
    requires SameButLists(o, s)
    ensures Ready(o, fd) <==> Ready(s, fd)
  {
  }

  lemma OwnAdd(o: State, s: State, fds: seq<Fd>)
    requires OnItsOwn(o, s, fds) && Enabled(s, Add(7))
    ensures OnItsOwn(o, Apply(s, Add(7)), fds)
  {
  }

  lemma OwnCount(o: State, s: State, fds: seq<Fd>)
    requires OnItsOwn(o, s, fds) && Enabled(s, Count(7))
    ensures OnItsOwn(o, Apply(s, Count(7)), fds)
  {
    var k := s.pollers[7].pc.k;
    CountedIsReady(s, fds[k]);
    EventsDecide(o, s, fds[k]);
  }

  lemma OwnStep(o: State, s: State, fds: seq<Fd>, step: Step)
    requires OnItsOwn(o, s, fds) && Enabled(s, step) && step in FirstCount(fds)
    ensures OnItsOwn(o, Apply(s, step), fds)
  {
    match step
    case Add(_) => OwnAdd(o, s, fds);
    case Count(_) => OwnCount(o, s, fds);
    case _ =>
  }

  lemma {:induction false} OwnRun(o: State, s: State, fds: seq<Fd>, steps: seq<Step>, t: State)
    requires OnItsOwn(o, s, fds) && Runs(s, steps, t) && All(steps, FirstCount(fds))
    ensures OnItsOwn(o, t, fds)
    decreases |steps|
  {
    if steps != [] {
      assert steps[0] in FirstCount(fds);
      OwnStep(o, s, fds, steps[0]);
      assert All(steps[1..], FirstCount(fds));
      OwnRun(o, Apply(s, steps[0]), fds, steps[1..], t);
    }
  }

  lemma OwnReachable(c: Course, fds: seq<Fd>, ev: map<Qid, set<Event>>, s: State)
    requires c == Course(FreshWith(ev), FirstCount(fds)) && On(s, c)
    ensures OnItsOwn(c.origin, s, fds)
  {
    var steps :| Runs(c.origin, steps, s) && All(steps, c.allowed);
    OwnRun(c.origin, c.origin, fds, steps, s);
  }

  lemma OwnMove(s: State, c: Course, fds: seq<Fd>, step: Step) returns (s': State)
    requires On(s, c) && c.allowed == FirstCount(fds) && step in c.allowed && !step.Start? && Enabled(s, step)
    ensures On(s', c) && s' == Apply(s, step)
  {
    s' := Go(s, c, step);
  }

  lemma {:induction false} CountsOn(s: State, c: Course, fds: seq<Fd>, ev: map<Qid, set<Event>>, k: nat) returns (s': State)
    requires c == Course(FreshWith(ev), FirstCount(fds)) && On(s, c) && k <= |fds|
    requires 7 in s.pollers && s.pollers[7].fds == fds && s.pollers[7].pc.Counting? && s.pollers[7].pc.k == k
    ensures On(s', c) && 7 in s'.pollers && s'.pollers[7].fds == fds && s'.pollers[7].pc.Counting? && s'.pollers[7].pc.k == |fds|
    decreases |fds| - k
  {
    if k == |fds| {
      s' := s;
    } else {
      OwnReachable(c, fds, ev, s);
      s' := OwnMove(s, c, fds, Count(7));
      s' := CountsOn(s', c, fds, ev, k + 1);
    }
  }

  /** The call can come to the end of its first count. */
  lemma EndsFirstCount(c: Course, fds: seq<Fd>, ev: map<Qid, set<Event>>) returns (s: State)
    requires c == Course(FreshWith(ev), FirstCount(fds)) && Acceptable(fds) && ev.Keys == QueuesOf(fds)
    ensures On(s, c) && 7 in s.pollers && (s.pollers[7].pc.Sleeping? || s.pollers[7].pc.Removing?)
  {
    s := c.origin;
    AtOrigin(c);
    assert Known(s, fds);
    s := Register(s, c, 7, fds, |fds|);
    OwnReachable(c, fds, ev, s);
    s := OwnMove(s, c, fds, BeginCount(7));
    s := CountsOn(s, c, fds, ev, 0);
    OwnReachable(c, fds, ev, s);
    s := OwnMove(s, c, fds, EndCount(7));
  }

  lemma FirstCountState(c: Course, fds: seq<Fd>, ev: map<Qid, set<Event>>, s: State)
    requires c == Course(FreshWith(ev), FirstCount(fds)) && On(s, c) && 7 in s.pollers
    ensures s.pollers[7].pc == Sleeping ==> ReadyAmong(c.origin, fds, |fds|) == 0
    ensures s.pollers[7].pc.Removing? ==>
              ReadyAmong(c.origin, fds, |fds|) > 0 && s.pollers[7].pc == Removing(0, ReadyAmong(c.origin, fds, |fds|))
  {
    OwnReachable(c, fds, ev, s);
  }

  /**
   For every array and all events of its queues: run alone, a call ends its first count asleep if no
   descriptor asks for an event that is set, and goes on with their number if some do, and never otherwise.
   */
  lemma FirstCountDecides(c: Course, fds: seq<Fd>, ev: map<Qid, set<Event>>)
    requires c == Course(FreshWith(ev), FirstCount(fds)) && Acceptable(fds) && ev.Keys == QueuesOf(fds)
    ensures (exists s :: On(s, c) && 7 in s.pollers && s.pollers[7].pc == Sleeping)
            <==> forall i: nat | i < |fds| :: !Ready(c.origin, fds[i])
    ensures (exists s :: On(s, c) && 7 in s.pollers && s.pollers[7].pc == Removing(0, ReadyAmong(c.origin, fds, |fds|)))
            <==> exists i: nat :: i < |fds| && Ready(c.origin, fds[i])
  {
    NoneReady(c.origin, fds, |fds|);
    var t := EndsFirstCount(c, fds, ev);
    FirstCountState(c, fds, ev, t);
    forall s | On(s, c) && 7 in s.pollers
      ensures s.pollers[7].pc == Sleeping ==> ReadyAmong(c.origin, fds, |fds|) == 0
      ensures s.pollers[7].pc.Removing? ==> ReadyAmong(c.origin, fds, |fds|) > 0
    {
      FirstCountState(c, fds, ev, s);
    }
  }

  // ----- A call can return 0

  lemma WakesUnasked(s: State, c: Course, fds: seq<Fd>) returns (s': State)
    requires Alone(s, c, fds, Sleeping) && Silent(s) && |fds| == 1
    ensures Alone(s', c, fds, Recounting(0, 0)) && Silent(s')
  {
    assert Known(s, fds) && At(s, 7);
    s' := Moves(s, c, fds, Sleeping, Spurious(7), Woken);
    s' := Moves(s', c, fds, Woken, Rewake(7), Recounting(0, 0));
  }

  lemma RecountsNone(s: State, c: Course, fds: seq<Fd>) returns (s': State)
    requires Alone(s, c, fds, Recounting(0, 0)) && Silent(s) && |fds| == 1
    ensures Alone(s', c, fds, Removing(0, 0)) && Silent(s')
  {
    assert Known(s, fds) && At(s, 7);
    s' := Moves(s, c, fds, Recounting(0, 0), Recount(7), Recounting(1, 0));
    s' := Moves(s', c, fds, Recounting(1, 0), EndRecount(7), Removing(0, 0));
  }

  lemma Leaves(s: State, c: Course, fds: seq<Fd>) returns (s': State)
    requires Alone(s, c, fds, Removing(0, 0)) && Silent(s) && |fds| == 1
    ensures On(s', c) && 7 in s'.pollers && s'.pollers[7].pc == Freed(0)
  {
    assert Known(s, fds) && At(s, 7);
    s' := Go(s, c, Remove(7));
    s' := Go(s', c, Free(7));
  }

  /** A call woken unasked returns 0, though poll is documented to wait for an event. */
  lemma ReturnsNothing() returns (s: State)
    ensures Reachable(s) && 7 in s.pollers && s.pollers[7].pc == Freed(0)
  {
    var fds := [Watch(0, {Readable})];
    assert fds[0].Watch?;
    var c := Course(Fresh(QueuesOf(fds), {}), NoCloses());
    s := FallsAsleep(c, fds);
    s := WakesUnasked(s, c, fds);
    s := RecountsNone(s, c, fds);
    s := Leaves(s, c, fds);
    assert Init(c.origin);
  }

  // ----- The order of signals

  /** Nodes of one call stand in the order of its descriptors. */
  predicate InOrder(list: seq<Node>)
  {
    forall a, b :: 0 <= a < b < |list| && list[a].p == list[b].p ==> list[a].i < list[b].i
  }

  lemma {:induction false} WithoutInOrder(list: seq<Node>, n: Node)
    requires InOrder(list)
    ensures InOrder(Without(list, n)) && forall m | m in Without(list, n) :: m in list
  {
    if list != [] && list[0] != n {
      var rest := list[1..];
      assert forall j :: 0 <= j < |rest| ==> rest[j] == list[j + 1];
      WithoutInOrder(rest, n);
      var w := Without(rest, n);
      assert Without(list, n) == [list[0]] + w;
      forall b | 0 <= b < |w| && w[b].p == list[0].p
        ensures list[0].i < w[b].i
      {
        assert w[b] in rest;
        var j :| 0 <= j < |rest| && rest[j] == w[b];
        assert list[j + 1] == w[b];
      }
    } else if list != [] {
      assert forall j :: 0 <= j < |list[1..]| ==> list[1..][j] == list[j + 1];
    }
  }

  ghost predicate AllInOrder(s: State) { forall q | q in s.queues :: InOrder(s.queues[q].list) }

  lemma AddInOrder(s: State, p: Pid, q: Qid, k: nat)
    requires Inv(s) && q in s.queues && InOrder(s.queues[q].list) && p in s.pollers && s.pollers[p].pc == Adding(k)
    ensures InOrder(s.queues[q].list + [Node(p, k)])
  {
    var list := s.queues[q].list;
    forall a | 0 <= a < |list| && list[a].p == p
      ensures list[a].i < k
    {
      assert list[a] in list;
      assert Belongs(s, q, list[a]);
    }
  }

  lemma StepInOrder(s: State, step: Step)
    requires Inv(s) && AllInOrder(s) && Enabled(s, step)
    ensures AllInOrder(Apply(s, step))
  {
    match step
    case Add(p) =>
      var r := s.pollers[p];
      if r.fds[r.pc.k].Watch? {
        AddInOrder(s, p, r.fds[r.pc.k].q, r.pc.k);
      }
    case Remove(p) =>
      var r := s.pollers[p];
      if r.fds[r.pc.k].Watch? {
        WithoutInOrder(s.queues[r.fds[r.pc.k].q].list, Node(p, r.pc.k));
      }
    case _ => ListsKept(s, step);
  }

  lemma ListsKept(s: State, step: Step)
    requires Enabled(s, step) && !step.Add? && !step.Remove?
    ensures Apply(s, step).queues.Keys == s.queues.Keys
    ensures forall q | q in s.queues :: Apply(s, step).queues[q].list == s.queues[q].list
  {
  }

  lemma {:induction false} RunInOrder(s: State, steps: seq<Step>, t: State)
    requires Inv(s) && AllInOrder(s) && Runs(s, steps, t)
    ensures AllInOrder(t)
    decreases |steps|
  {
    if steps != [] {
      StepInOrder(s, steps[0]);
      StepKeepsInv(s, steps[0]);
      RunInOrder(Apply(s, steps[0]), steps[1..], t);
    }
  }

  /** In every run a walk comes to the nodes of a call in the order of its descriptors. */
  lemma NodesInOrder(s: State)
    requires Reachable(s)
    ensures AllInOrder(s)
  {
    var s0, steps :| Init(s0) && Runs(s0, steps, s);
    RunInOrder(s0, steps, s);
  }

  /** In every run a signal for a call comes only while the call sleeps, has woken up or removes its nodes: never while it registers or counts. */
  lemma SignalsBetweenCounts(s: State, q: Qid)
    requires Reachable(s) && Enabled(s, Signal(q)) && Target(s, q).i == 0
    ensures Target(s, q).p in s.pollers
    ensures var pc := s.pollers[Target(s, q).p].pc; pc.Sleeping? || pc.Woken? || (pc.Removing? && pc.k == 0)
  {
    ReachableInv(s);
    var n := Target(s, q);
    assert n in s.queues[q].list;
    assert Belongs(s, q, n);
  }
}
