/**
 msg_queue_poll against helper_wakeup, at the grain of the queue mutexes and the poll mutexes.
 A poll call registers one node per descriptor, counts ready descriptors without any queue mutex,
 sleeps on the condition variable of its node 0, and removes its nodes. A reader or writer holds
 the queue mutex while it updates the events in two writes and walks the node list, locking each
 node's poll mutex to signal it.

 The source initialises the mutex and the condition variable of node 0 only; those of later nodes
 hold whatever the allocated memory held. A poll call's `wild` says which of those uninitialised
 mutexes never let a walker in; the others are taken to lock and signal without effect.
 */
module Poll {
  import opened QueueCore

  type Qid = nat
  type Pid = nat

  /** A descriptor of a poll call; MSG_QUEUE_NULL entries are skipped. */
  datatype Fd = Null | Watch(q: Qid, events: set<Event>)

  datatype Node = Node(p: Pid, i: nat)

  datatype Pc =
    | Adding(k: nat)                   // registering descriptor k, poll mutex held
    | Counting(k: nat, found: nat)     // helper_count at descriptor k, poll mutex held
    | Sleeping                         // in cond_wait on node 0
    | Woken                            // signalled or spuriously awake, without the poll mutex
    | Recounting(k: nat, found: nat)   // second helper_count, poll mutex held
    | Removing(k: nat, found: nat)     // removing the node of descriptor k
    | Freed(found: nat)                // node array freed; the count is returned

  datatype Poller = Poller(fds: seq<Fd>, wild: set<nat>, pc: Pc) {
    /** The call holds the poll mutex of its node 0. */
    predicate HoldsPollMutex() { pc.Adding? || pc.Counting? || pc.Recounting? }

    /** The loop counters stay within the descriptor array. */
    predicate InRange()
    {
      match pc
      case Adding(k) => k <= |fds|
      case Counting(k, _) => k <= |fds|
      case Recounting(k, _) => k <= |fds|
      case Removing(k, _) => k <= |fds|
      case _ => true
    }

    /** The node of descriptor i is on its queue's list. */
    predicate Linked(i: nat)
    {
      i < |fds| && fds[i].Watch? &&
      match pc
      case Adding(k) => i < k
      case Removing(k, _) => k <= i
      case Freed(_) => false
      case _ => true
    }
  }

  /**
   What the reader or writer that holds the queue mutex is doing: about to raise its events after
   it has cleared some, or walking the list from `pos` on.
   */
  datatype Walk = Unlocked | Updating(raised: set<Event>) | Walking(pos: nat)

  datatype Queue = Queue(event: set<Event>, list: seq<Node>, walk: Walk, silent: set<Event>)

  /** `silent` is history: events raised by msg_queue_close since the last walk began. */
  datatype State = State(queues: map<Qid, Queue>, pollers: map<Pid, Poller>)

  datatype Step =
    | Start(p: Pid, fds: seq<Fd>, wild: set<nat>)
    | Add(p: Pid)
    | BeginCount(p: Pid)
    | Count(p: Pid)
    | EndCount(p: Pid)
    | Spurious(p: Pid)
    | Rewake(p: Pid)
    | Recount(p: Pid)
    | EndRecount(p: Pid)
    | Remove(p: Pid)
    | Free(p: Pid)
    | Update(q: Qid, cleared: set<Event>, raised: set<Event>)
    | Raise(q: Qid)
    | Pass(q: Qid)
    | Signal(q: Qid)
    | Finish(q: Qid)
    | CloseRaises(q: Qid, raised: set<Event>)

  predicate Known(s: State, fds: seq<Fd>)
  {
    forall i :: 0 <= i < |fds| && fds[i].Watch? ==> fds[i].q in s.queues
  }

  /** What the argument checks of msg_queue_poll let through: a live descriptor, and each asks for some event. */
  predicate Acceptable(fds: seq<Fd>)
  {
    && (exists i :: 0 <= i < |fds| && fds[i].Watch?)
    && (forall i :: 0 <= i < |fds| && fds[i].Watch? ==> fds[i].events != {})
  }

  predicate At(s: State, p: Pid) { p in s.pollers && Known(s, s.pollers[p].fds) }

  /** The node the walk of q has reached. */
  predicate HasTarget(s: State, q: Qid)
  {
    q in s.queues && s.queues[q].walk.Walking? && s.queues[q].walk.pos < |s.queues[q].list| &&
    var n := s.queues[q].list[s.queues[q].walk.pos];
    n.p in s.pollers && n.i < |s.pollers[n.p].fds| && s.pollers[n.p].fds[n.i].Watch?
  }

  function Target(s: State, q: Qid): Node
    requires HasTarget(s, q)
  {
    s.queues[q].list[s.queues[q].walk.pos]
  }

  /** The test of helper_wakeup at the current node. */
  predicate Matches(s: State, q: Qid)
    requires HasTarget(s, q)
  {
    var n := Target(s, q);
    s.pollers[n.p].fds[n.i].events * s.queues[q].event != {}
  }

  /** Each node has its own poll mutex; the poll call only ever initialises and locks that of node 0. */
  predicate PollMutexFree(s: State, n: Node)
    requires n.p in s.pollers
  {
    if n.i == 0 then !s.pollers[n.p].HoldsPollMutex() else n.i !in s.pollers[n.p].wild
  }

  /** The event updates that a walk follows: a read that took a message, a write, a read at end of file. */
  predicate ByReadOrWrite(event: set<Event>, cleared: set<Event>, raised: set<Event>)
  {
    || (raised == {Writable} && cleared <= {Readable})
    || (raised == {Readable} && cleared <= {Writable})
    || (raised == {NoWriters} && cleared == {} && NoWriters in event)
  }

  /** What msg_queue_close raises, for the sides that are gone. */
  predicate ByClose(raised: set<Event>)
  {
    || raised == {} || raised == {Writable, NoReaders} || raised == {Readable, NoWriters}
    || raised == {Writable, NoReaders, Readable, NoWriters}
  }

  predicate Enabled(s: State, step: Step)
  {
    match step
    case Start(p, fds, _) => p !in s.pollers && Known(s, fds) && Acceptable(fds)
    case Add(p) =>
      At(s, p) && var r := s.pollers[p];
      r.pc.Adding? && r.pc.k < |r.fds| &&
      (r.fds[r.pc.k].Watch? ==> s.queues[r.fds[r.pc.k].q].walk.Unlocked?)
    case BeginCount(p) => At(s, p) && s.pollers[p].pc == Adding(|s.pollers[p].fds|)
    case Count(p) =>
      At(s, p) && s.pollers[p].pc.Counting? && s.pollers[p].pc.k < |s.pollers[p].fds|
    case EndCount(p) =>
      At(s, p) && s.pollers[p].pc.Counting? && s.pollers[p].pc.k == |s.pollers[p].fds|
    case Spurious(p) => At(s, p) && s.pollers[p].pc.Sleeping?
    case Rewake(p) => At(s, p) && s.pollers[p].pc.Woken?
    case Recount(p) =>
      At(s, p) && s.pollers[p].pc.Recounting? && s.pollers[p].pc.k < |s.pollers[p].fds|
    case EndRecount(p) =>
      At(s, p) && s.pollers[p].pc.Recounting? && s.pollers[p].pc.k == |s.pollers[p].fds|
    case Remove(p) =>
      At(s, p) && var r := s.pollers[p];
      r.pc.Removing? && r.pc.k < |r.fds| &&
      (r.fds[r.pc.k].Watch? ==> s.queues[r.fds[r.pc.k].q].walk.Unlocked?)
    case Free(p) => At(s, p) && s.pollers[p].pc.Removing? && s.pollers[p].pc.k == |s.pollers[p].fds|
    case Update(q, cleared, raised) =>
      q in s.queues && s.queues[q].walk.Unlocked? && ByReadOrWrite(s.queues[q].event, cleared, raised)
    case Raise(q) => q in s.queues && s.queues[q].walk.Updating?
    case Pass(q) => HasTarget(s, q) && !Matches(s, q)
    case Signal(q) => HasTarget(s, q) && Matches(s, q) && PollMutexFree(s, Target(s, q))
    case Finish(q) => q in s.queues && s.queues[q].walk == Walking(|s.queues[q].list|)
    case CloseRaises(q, raised) => q in s.queues && s.queues[q].walk.Unlocked? && ByClose(raised)
  }

  function Without(list: seq<Node>, n: Node): seq<Node>
  {
    if list == [] then [] else if list[0] == n then list[1..] else [list[0]] + Without(list[1..], n)
  }

  function SetPc(s: State, p: Pid, pc: Pc): State
    requires p in s.pollers
  {
    s.(pollers := s.pollers[p := s.pollers[p].(pc := pc)])
  }

  function SetQueue(s: State, q: Qid, x: Queue): State
  {
    s.(queues := s.queues[q := x])
  }

  function Advance(s: State, q: Qid): State
    requires HasTarget(s, q)
  {
    SetQueue(s, q, s.queues[q].(walk := Walking(s.queues[q].walk.pos + 1)))
  }

  /** What helper_count adds for a descriptor. */
  function Counted(s: State, fd: Fd): nat
    requires fd.Watch? ==> fd.q in s.queues
  {
    if fd.Watch? && fd.events * s.queues[fd.q].event != {} then 1 else 0
  }

  function Apply(s: State, step: Step): State
    requires Enabled(s, step)
  {
    match step
    case Start(p, fds, wild) => s.(pollers := s.pollers[p := Poller(fds, wild, Adding(0))])
    case Add(p) =>
      var r := s.pollers[p];
      var t := SetPc(s, p, Adding(r.pc.k + 1));
      (match r.fds[r.pc.k]
       case Null => t
       case Watch(q, _) => SetQueue(t, q, t.queues[q].(list := t.queues[q].list + [Node(p, r.pc.k)])))
    case BeginCount(p) => SetPc(s, p, Counting(0, 0))
    case Count(p) =>
      var pc := s.pollers[p].pc;
      SetPc(s, p, Counting(pc.k + 1, pc.found + Counted(s, s.pollers[p].fds[pc.k])))
    case EndCount(p) =>
      var n := s.pollers[p].pc.found;
      SetPc(s, p, if n == 0 then Sleeping else Removing(0, n))
    case Spurious(p) => SetPc(s, p, Woken)
    case Rewake(p) => SetPc(s, p, Recounting(0, 0))
    case Recount(p) =>
      var pc := s.pollers[p].pc;
      SetPc(s, p, Recounting(pc.k + 1, pc.found + Counted(s, s.pollers[p].fds[pc.k])))
    case EndRecount(p) => SetPc(s, p, Removing(0, s.pollers[p].pc.found))
    case Remove(p) =>
      var r := s.pollers[p];
      var t := SetPc(s, p, Removing(r.pc.k + 1, r.pc.found));
      (match r.fds[r.pc.k]
       case Null => t
       case Watch(q, _) => SetQueue(t, q, t.queues[q].(list := Without(t.queues[q].list, Node(p, r.pc.k)))))
    case Free(p) => SetPc(s, p, Freed(s.pollers[p].pc.found))
    case Update(q, cleared, raised) =>
      var x := s.queues[q];
      SetQueue(s, q, x.(event := x.event - cleared, walk := Updating(raised)))
    case Raise(q) =>
      var x := s.queues[q];
      SetQueue(s, q, x.(event := x.event + x.walk.raised, walk := Walking(0), silent := {}))
    case Pass(q) => Advance(s, q)
    case Signal(q) =>
      var n := Target(s, q);
      var t := Advance(s, q);
      if n.i == 0 && s.pollers[n.p].pc.Sleeping? then SetPc(t, n.p, Woken) else t
    case Finish(q) => SetQueue(s, q, s.queues[q].(walk := Unlocked))
    case CloseRaises(q, raised) =>
      var x := s.queues[q];
      SetQueue(s, q, x.(event := x.event + raised, silent := x.silent + (raised - x.event)))
  }

  ghost predicate Init(s: State)
  {
    && s.pollers == map[]
    && forall q | q in s.queues :: s.queues[q].list == [] && s.queues[q].walk.Unlocked? && s.queues[q].silent == {}
  }

  // ----- Invariants

  ghost predicate NoRepeats(list: seq<Node>)
  {
    forall i, j :: 0 <= i < j < |list| ==> list[i] != list[j]
  }

  /** Node n belongs on the list of q: its poll call is alive and has registered it there. */
  ghost predicate Belongs(s: State, q: Qid, n: Node)
  {
    n.p in s.pollers && s.pollers[n.p].Linked(n.i) && s.pollers[n.p].fds[n.i].q == q
  }

  /** Every list holds exactly the nodes that belong there, once each. */
  ghost predicate ListsExact(s: State)
  {
    && (forall q | q in s.queues :: NoRepeats(s.queues[q].list))
    && (forall q, n | q in s.queues :: n in s.queues[q].list <==> Belongs(s, q, n))
  }

  ghost predicate WellFormed(s: State)
  {
    && (forall p | p in s.pollers :: At(s, p) && s.pollers[p].InRange())
    && (forall q | q in s.queues :: s.queues[q].walk.Walking? ==> s.queues[q].walk.pos <= |s.queues[q].list|)
  }

  /** The walk of q has still to reach node n. */
  ghost predicate Pending(s: State, q: Qid, n: Node)
    requires q in s.queues
  {
    var x := s.queues[q];
    x.walk.Walking? && x.walk.pos <= |x.list| && n in x.list[x.walk.pos..]
  }

  /** Poller p has found descriptor 0 not ready and is asleep or on its way to sleep. */
  predicate Committed(r: Poller)
  {
    r.pc.Sleeping? || (r.pc.Counting? && r.pc.k > 0 && r.pc.found == 0)
  }

  /** A committed poller whose first descriptor has an event is about to be signalled. */
  ghost predicate Heard(s: State, p: Pid)
    requires p in s.pollers && Known(s, s.pollers[p].fds)
  {
    var r := s.pollers[p];
    Committed(r) && r.fds != [] && r.fds[0].Watch? &&
    r.fds[0].events * (s.queues[r.fds[0].q].event - s.queues[r.fds[0].q].silent) != {} ==>
      Pending(s, r.fds[0].q, Node(p, 0))
  }

  ghost predicate Inv(s: State)
  {
    WellFormed(s) && ListsExact(s) && forall p | p in s.pollers :: Heard(s, p)
  }

  // ----- Every step keeps them

  lemma {:induction false} WithoutExact(list: seq<Node>, n: Node)
    requires NoRepeats(list)
    ensures NoRepeats(Without(list, n))
    ensures forall m :: m in Without(list, n) <==> m in list && m != n
  {
    if list != [] {
      var rest := list[1..];
      assert list == [list[0]] + rest;
      assert forall j :: 0 <= j < |rest| ==> rest[j] == list[j + 1];
      WithoutExact(rest, n);
      forall m
        ensures m in Without(list, n) <==> m in list && m != n
      {
        assert m in list <==> m == list[0] || m in rest;
        assert list[0] !in rest;
      }
      var w := Without(rest, n);
      if list[0] != n {
        assert list[0] !in w && Without(list, n) == [list[0]] + w;
        assert forall j :: 0 <= j < |w| ==> w[j] != list[0];
      }
    }
  }

  /** A step that only moves poller p, without registering or removing a node. */
  lemma MoveKeeps(s: State, p: Pid, pc: Pc)
    requires Inv(s) && p in s.pollers
    requires forall i :: s.pollers[p].Linked(i) <==> s.pollers[p].(pc := pc).Linked(i)
    requires s.pollers[p].(pc := pc).InRange() && Heard(SetPc(s, p, pc), p)
    ensures Inv(SetPc(s, p, pc))
  {
  }

  lemma PollerStepKeeps(s: State, step: Step)
    requires Inv(s) && Enabled(s, step)
    requires step.BeginCount? || step.Count? || step.EndCount? || step.Spurious? || step.Rewake? || step.Recount? || step.EndRecount? || step.Free?
    ensures Inv(Apply(s, step))
  {
    var p := step.p;
    assert Heard(s, p);
    MoveKeeps(s, p, Apply(s, step).pollers[p].pc);
  }

  lemma StartKeeps(s: State, p: Pid, fds: seq<Fd>, wild: set<nat>)
    requires Inv(s) && Enabled(s, Start(p, fds, wild))
    ensures Inv(Apply(s, Start(p, fds, wild)))
  {
  }

  /** Registering or removing the node of one descriptor while its queue is unlocked. */
  lemma ListKeeps(s: State, p: Pid, q: Qid, i: nat, pc: Pc, list: seq<Node>)
    requires Inv(s) && p in s.pollers && q in s.queues && s.queues[q].walk.Unlocked?
    requires i < |s.pollers[p].fds| && s.pollers[p].fds[i].Watch? && s.pollers[p].fds[i].q == q
    requires var r := s.pollers[p].(pc := pc);
             && !Committed(r) && r.InRange()
             && (forall j | j != i :: s.pollers[p].Linked(j) <==> r.Linked(j))
             && NoRepeats(list)
             && forall n :: n in list <==> if n == Node(p, i) then r.Linked(i) else n in s.queues[q].list
    ensures var t := SetPc(s, p, pc); Inv(SetQueue(t, q, t.queues[q].(list := list)))
  {
  }

  lemma AddKeeps(s: State, p: Pid)
    requires Inv(s) && Enabled(s, Add(p))
    ensures Inv(Apply(s, Add(p)))
  {
    var r := s.pollers[p];
    match r.fds[r.pc.k]
    case Null => MoveKeeps(s, p, Adding(r.pc.k + 1));
    case Watch(q, _) =>
      var n := Node(p, r.pc.k);
      assert !Belongs(s, q, n);
      ListKeeps(s, p, q, r.pc.k, Adding(r.pc.k + 1), s.queues[q].list + [n]);
  }

  lemma RemoveKeeps(s: State, p: Pid)
    requires Inv(s) && Enabled(s, Remove(p))
    ensures Inv(Apply(s, Remove(p)))
  {
    var r := s.pollers[p];
    match r.fds[r.pc.k]
    case Null => MoveKeeps(s, p, Removing(r.pc.k + 1, r.pc.found));
    case Watch(q, _) =>
      var list, t := Without(s.queues[q].list, Node(p, r.pc.k)), SetPc(s, p, Removing(r.pc.k + 1, r.pc.found));
      WithoutExact(s.queues[q].list, Node(p, r.pc.k));
      ListKeeps(s, p, q, r.pc.k, Removing(r.pc.k + 1, r.pc.found), list);
      assert Apply(s, Remove(p)) == SetQueue(t, q, t.queues[q].(list := list));
  }

  /** A step on one queue that leaves its list and the pollers alone. */
  lemma QueueKeeps(s: State, q: Qid, x: Queue)
    requires Inv(s) && q in s.queues && x.list == s.queues[q].list
    requires x.walk.Walking? ==> x.walk.pos <= |x.list|
    requires forall p | p in s.pollers && s.pollers[p].fds != [] && s.pollers[p].fds[0].Watch? && s.pollers[p].fds[0].q == q ::
               Heard(SetQueue(s, q, x), p)
    ensures Inv(SetQueue(s, q, x))
  {
  }

  lemma UpdateKeeps(s: State, q: Qid, cleared: set<Event>, raised: set<Event>)
    requires Inv(s) && Enabled(s, Update(q, cleared, raised))
    ensures Inv(Apply(s, Update(q, cleared, raised)))
  {
  }

  lemma RaiseKeeps(s: State, q: Qid)
    requires Inv(s) && Enabled(s, Raise(q))
    ensures Inv(Apply(s, Raise(q)))
  {
  }

  lemma CloseKeeps(s: State, q: Qid, raised: set<Event>)
    requires Inv(s) && Enabled(s, CloseRaises(q, raised))
    ensures Inv(Apply(s, CloseRaises(q, raised)))
  {
  }

  /** Moving the walk past a node costs nothing to the pollers that node does not concern. */
  lemma PastNode(list: seq<Node>, pos: nat, n: Node)
    requires pos < |list| && n in list[pos..] && n != list[pos]
    ensures n in list[pos + 1..]
  {
  }

  lemma PassKeeps(s: State, q: Qid)
    requires Inv(s) && Enabled(s, Pass(q))
    ensures Inv(Apply(s, Pass(q)))
  {
  }

  lemma SignalKeeps(s: State, q: Qid)
    requires Inv(s) && Enabled(s, Signal(q))
    ensures Inv(Apply(s, Signal(q)))
  {
    var n, x := Target(s, q), s.queues[q];
    assert n in x.list && Belongs(s, q, n);
    var t := if n.i == 0 && s.pollers[n.p].pc.Sleeping? then SetPc(s, n.p, Woken) else s;
    if t != s {
      MoveKeeps(s, n.p, Woken);
    }
    var s' := SetQueue(t, q, x.(walk := Walking(x.walk.pos + 1)));
    forall p | p in t.pollers && t.pollers[p].fds != [] && t.pollers[p].fds[0].Watch? && t.pollers[p].fds[0].q == q
      ensures Heard(s', p)
    {
      assert At(t, p) && Heard(t, p);
      if Pending(t, q, Node(p, 0)) && Node(p, 0) != n {
        PastNode(x.list, x.walk.pos, Node(p, 0));
      }
    }
    QueueKeeps(t, q, s'.queues[q]);
    assert Apply(s, Signal(q)) == s';
  }

  lemma FinishKeeps(s: State, q: Qid)
    requires Inv(s) && Enabled(s, Finish(q))
    ensures Inv(Apply(s, Finish(q)))
  {
  }

  /** Steps of readers, writers and closers. */
  predicate OnQueue(step: Step)
  {
    step.Update? || step.Raise? || step.Pass? || step.Signal? || step.Finish? || step.CloseRaises?
  }

  lemma SectionStepKeeps(s: State, step: Step)
    requires Inv(s) && Enabled(s, step) && OnQueue(step)
    ensures Inv(Apply(s, step))
  {
    match step
    case Update(q, cleared, raised) => UpdateKeeps(s, q, cleared, raised);
    case Raise(q) => RaiseKeeps(s, q);
    case Pass(q) => PassKeeps(s, q);
    case Signal(q) => SignalKeeps(s, q);
    case Finish(q) => FinishKeeps(s, q);
    case CloseRaises(q, raised) => CloseKeeps(s, q, raised);
  }

  lemma ListStepKeeps(s: State, step: Step)
    requires Inv(s) && Enabled(s, step) && (step.Start? || step.Add? || step.Remove?)
    ensures Inv(Apply(s, step))
  {
    match step
    case Start(p, fds, wild) => StartKeeps(s, p, fds, wild);
    case Add(p) => AddKeeps(s, p);
    case Remove(p) => RemoveKeeps(s, p);
  }

  lemma StepKeepsInv(s: State, step: Step)
    requires Inv(s) && Enabled(s, step)
    ensures Inv(Apply(s, step))
  {
    if OnQueue(step) {
      SectionStepKeeps(s, step);
    } else if step.Start? || step.Add? || step.Remove? {
      ListStepKeeps(s, step);
    } else {
      PollerStepKeeps(s, step);
    }
  }
}
