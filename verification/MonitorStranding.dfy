/** Exactly which message sizes let a writer whose message fits sleep on with nobody woken. */
module MonitorStranding {
  import opened Framing
  import opened Handles
  import opened QueueCore
  import opened WaitSets
  import opened Monitor
  import opened MonitorTheorems
  import opened MonitorProgress

  /** A queue's capacity and the frame sizes its writers use. */
  datatype Usage = Usage(capacity: nat, costs: set<nat>) {
    /** A frame that msg_queue_write does not refuse for its length. */
    predicate Passes(k: nat) { k in costs && WORD < k < capacity && k < TWO64 }

    /** The smallest and the largest of those frames. */
    predicate Extremes(lo: nat, hi: nat)
    {
      Passes(lo) && Passes(hi) && forall k | k in costs && Passes(k) :: lo <= k <= hi
    }
  }

  predicate CostsIn(steps: seq<Step>, costs: set<nat>)
  {
    forall i :: 0 <= i < |steps| && steps[i].WriteEnter? ==> Cost(steps[i].wc.msg) in costs
  }

  ghost predicate ReachableIn(s: State, u: Usage)
  {
    exists s0, steps :: Init(s0) && s0.mq.capacity == u.capacity && Runs(s0, steps, s) && CostsIn(steps, u.costs)
  }

  /** Some sleeping writer's message fits, and no writer is woken. */
  predicate Stranded(s: State)
  {
    s.Alive() && s.waits.wokenW == {} && exists c | c in s.waits.sleepW :: Cost(c.msg) <= s.mq.Free()
  }

  // ----- Never, when as many of the largest frames fit as of the smallest

  lemma SomeoneWoken(free: nat, lo: nat, w: nat)
    requires 0 < lo <= free && free / lo <= w
    ensures w > 0
  {
  }

  lemma EqualCountsNeverStrand(u: Usage, lo: nat, hi: nat, s: State)
    requires u.Extremes(lo, hi) && u.capacity / lo == u.capacity / hi && ReachableIn(s, u)
    ensures !Stranded(s)
  {
    var s0, steps :| Init(s0) && s0.mq.capacity == u.capacity && Runs(s0, steps, s) && CostsIn(steps, u.costs);
    assert CostsWithin(steps, u.capacity, lo, hi);
    if s.Alive() && s.waits.sleepW != {} {
      WriterProgress(s0, steps, s, lo, hi);
      forall c | c in s.waits.sleepW && Cost(c.msg) <= s.mq.Free()
        ensures s.waits.wokenW != {}
      {
        SomeoneWoken(s.mq.Free(), lo, |s.waits.wokenW|);
      }
    }
  }

  // ----- Otherwise a run strands a writer

  lemma ExtendIn(s: State, u: Usage, step: Step) returns (s': State)
    requires ReachableIn(s, u) && Enabled(s, step) && (step.WriteEnter? ==> Cost(step.wc.msg) in u.costs)
    ensures ReachableIn(s', u) && s' == Apply(s, step)
  {
    var s0, steps :| Init(s0) && s0.mq.capacity == u.capacity && Runs(s0, steps, s) && CostsIn(steps, u.costs);
    RunsThen(s0, steps, s, step);
    assert CostsIn(steps + [step], u.costs);
    s' := Apply(s, step);
  }

  const Both := Flags(true, true, false)

  /** A state with one read-write handle open, `n` bytes queued and only writers blocked. */
  ghost predicate Simple(s: State, u: Usage, n: nat, sleepW: set<WriteCall>, wokenW: set<WriteCall>)
  {
    && ReachableIn(s, u) && s.mq.capacity == u.capacity && |s.mq.bytes| == n
    && s.handles == multiset{Both} && !s.mq.counts.noReaders && !s.mq.counts.noWriters
    && s.waits == Waits({}, {}, sleepW, wokenW)
  }

  /** A message whose frame takes k bytes. */
  function Sized(k: nat): (m: Message)
    requires k > WORD
    ensures Cost(m) == k && m != []
  {
    seq(k - WORD, _ => 0)
  }

  /** Thread t's blocking write of such a message. */
  function Writer(t: Tid, k: nat): WriteCall
    requires k > WORD
  {
    WriteCall(t, Both, Sized(k))
  }

  lemma Begin(u: Usage) returns (s: State)
    requires u.capacity > WORD
    ensures Simple(s, u, 0, {}, {}) && s.accepted == s.delivered == []
  {
    s := Initial(u.capacity, {}, Both);
    assert Init(s) && Runs(s, [], s) && CostsIn([], u.costs);
  }

  lemma Store(s: State, u: Usage, n: nat, k: nat) returns (s': State)
    requires Simple(s, u, n, {}, {}) && u.Passes(k) && n + k <= u.capacity
    ensures Simple(s', u, n + k, {}, {}) && s'.accepted == s.accepted + [Sized(k)] && s'.delivered == s.delivered
  {
    var c := Writer(1, k);
    AcceptStep(s, c);
    s' := ExtendIn(s, u, WriteEnter(c, {}));
  }

  lemma {:induction false} StoreMany(s: State, u: Usage, n: nat, k: nat, j: nat) returns (s': State)
    requires Simple(s, u, n, {}, {}) && u.Passes(k) && n + j * k <= u.capacity
    ensures Simple(s', u, n + j * k, {}, {}) && s.accepted <= s'.accepted && s'.delivered == s.delivered
    decreases j
  {
    if j == 0 {
      s' := s;
    } else {
      OneMore(j - 1, k);
      s' := StoreMany(s, u, n, k, j - 1);
      s' := Store(s', u, n + (j - 1) * k, k);
    }
  }

  lemma Park(s: State, u: Usage, n: nat, c: WriteCall, sleepW: set<WriteCall>) returns (s': State)
    requires Simple(s, u, n, sleepW, {}) && c.msg != [] && u.Passes(Cost(c.msg)) && u.capacity < n + Cost(c.msg)
    requires c.flags == Both && forall d | d in sleepW :: d.t != c.t
    ensures Simple(s', u, n, sleepW + {c}, {}) && s'.accepted == s.accepted && s'.delivered == s.delivered
  {
    s' := ExtendIn(s, u, WriteEnter(c, {}));
  }

  lemma TakenWaits(sleepW: set<WriteCall>, c: WriteCall)
    requires c in sleepW
    ensures var w := Waits({}, {}, sleepW, {});
            Signals(sleepW, {c}) && w.WakeWriters({c}) == Waits({}, {}, sleepW - {c}, {c})
  {
  }

  /** Thread 1 reads the oldest message, and its signal wakes c. */
  lemma Take(s: State, u: Usage, n: nat, k: nat, sleepW: set<WriteCall>, c: WriteCall) returns (s': State)
    requires Simple(s, u, n, sleepW, {}) && s.delivered < s.accepted && Cost(s.accepted[|s.delivered|]) == k
    requires c in sleepW && forall d | d in sleepW :: d.t != 1
    ensures k <= n && Simple(s', u, n - k, sleepW - {c}, {c})
  {
    var rc := ReadCall(1, Both, k);
    OldestFrame(s);
    TakenWaits(sleepW, c);
    TakeStep(s, rc, {c});
    s' := ExtendIn(s, u, ReadEnter(rc, {c}));
    ReadChanges(s.mq, Both);
  }

  /** What a read of a message leaves alone, and how much it removes. */
  lemma ReadChanges(mq: Mq, f: Flags)
    requires Framed(mq) && mq.bytes != []
    ensures var q := AfterRead(mq, f); q.capacity == mq.capacity && q.counts == mq.counts && q.bytes == AfterHead(mq.bytes)
  {
  }

  /** The woken writer stores its message. */
  lemma Proceed(s: State, u: Usage, n: nat, sleepW: set<WriteCall>, c: WriteCall) returns (s': State)
    requires Simple(s, u, n, sleepW, {c}) && c.flags == Both && n + Cost(c.msg) <= u.capacity
    ensures Simple(s', u, n + Cost(c.msg), sleepW, {})
  {
    s' := ExtendIn(s, u, WriteResume(c, {}));
    assert s'.waits == Waits({} - {}, {} + {}, sleepW, {c} - {c});
  }

  /** The woken writer finds too little room and sleeps again. */
  lemma Repark(s: State, u: Usage, n: nat, sleepW: set<WriteCall>, c: WriteCall) returns (s': State)
    requires Simple(s, u, n, sleepW, {c}) && u.capacity < n + Cost(c.msg)
    ensures Simple(s', u, n, sleepW + {c}, {})
  {
    s' := ExtendIn(s, u, WriteResume(c, {}));
  }

  /** n bytes are queued, the oldest frame takes k, and no one is blocked. */
  ghost predicate Filled(s: State, u: Usage, n: nat, k: nat)
  {
    Simple(s, u, n, {}, {}) && s.delivered == [] && s.accepted != [] && Cost(s.accepted[0]) == k
  }

  /** Threads 2 and 3 find no room for their frames; then thread 1 reads, and its signal wakes thread 2. */
  lemma ParkTwoWakeOne(s: State, u: Usage, n: nat, k: nat, a: nat, b: nat) returns (s': State)
    requires Filled(s, u, n, k) && u.Passes(a) && u.Passes(b) && u.capacity < n + a && u.capacity < n + b
    ensures k <= n && Simple(s', u, n - k, {Writer(3, b)}, {Writer(2, a)})
  {
    var x, y := Writer(2, a), Writer(3, b);
    s' := Park(s, u, n, x, {});
    s' := Park(s', u, n, y, {} + {x});
    assert {} + {x} + {y} == {x, y} && {x, y} - {x} == {y};
    s' := Take(s', u, n, k, {x, y}, x);
  }

  /** One signal for two frames' worth of room: the second small writer sleeps on. */
  lemma SecondWriterStranded(s: State, u: Usage, n: nat, lo: nat, hi: nat) returns (s': State)
    requires Filled(s, u, n, hi) && u.Passes(lo) && 2 * lo <= hi && n <= u.capacity < n + lo
    ensures ReachableIn(s', u) && Stranded(s')
  {
    s' := ParkTwoWakeOne(s, u, n, hi, lo, lo);
    s' := Proceed(s', u, n - hi, {Writer(3, lo)}, Writer(2, lo));
    assert Writer(3, lo) in s'.waits.sleepW;
  }

  /** The signal goes to the writer whose frame still does not fit. */
  lemma SmallWriterStranded(s: State, u: Usage, n: nat, lo: nat, hi: nat) returns (s': State)
    requires Filled(s, u, n, lo) && u.Passes(lo) && u.Passes(hi) && lo < hi < 2 * lo
    requires n <= u.capacity < n + (hi - lo)
    ensures ReachableIn(s', u) && Stranded(s')
  {
    s' := ParkTwoWakeOne(s, u, n, lo, hi, lo);
    s' := Repark(s', u, n - lo, {Writer(3, lo)}, Writer(2, hi));
    assert Writer(3, lo) in s'.waits.sleepW;
  }

  /** A first frame, then others of two sizes. */
  lemma Fill(u: Usage, first: nat, i: nat, lo: nat, j: nat, hi: nat, n: nat) returns (s: State)
    requires u.Passes(first) && u.Passes(lo) && u.Passes(hi) && n == first + i * lo + j * hi <= u.capacity
    ensures Filled(s, u, n, first)
  {
    Multiples(i, lo);
    Multiples(j, hi);
    s := Begin(u);
    s := Store(s, u, 0, first);
    assert s.accepted[0] == Sized(first);
    s := StoreMany(s, u, first, lo, i);
    s := StoreMany(s, u, first + i * lo, hi, j);
  }

  lemma Multiples(i: nat, k: nat)
    ensures 0 <= i * k
  {
  }

  lemma HowMany(room: nat, k: nat) returns (j: nat, n: nat)
    requires k > 0
    ensures n == j * k && n <= room < n + k
  {
    j, n := room / k, room / k * k;
    QuotientBounds(room, k);
    OneMore(j, k);
  }

  lemma LargeFrameStrands(u: Usage, lo: nat, hi: nat) returns (s: State)
    requires u.Passes(lo) && u.Passes(hi) && 2 * lo <= hi
    ensures ReachableIn(s, u) && Stranded(s)
  {
    var j, n := HowMany(u.capacity - hi, lo);
    s := Fill(u, hi, j, lo, 0, lo, hi + n);
    s := SecondWriterStranded(s, u, hi + n, lo, hi);
  }

  /** If not as many of the larger frames fit, the number of smaller ones that fit is too many of the larger. */
  lemma MoreSmallFit(capacity: nat, lo: nat, hi: nat, n: nat, m: nat)
    requires 0 < lo < hi && n * lo <= capacity < (n + 1) * lo && m * hi <= capacity < (m + 1) * hi && n != m
    ensures m < n && capacity < n * hi
  {
    MulMonotone(m, m, lo, hi);
    MultipleOrder(m, n + 1, lo);
    MulMonotone(m + 1, n, hi, hi);
  }

  lemma MulMonotone(a: nat, b: nat, j: nat, k: nat)
    requires a <= b && j <= k
    ensures a * j <= b * k
  {
    assert b * k == a * j + a * (k - j) + (b - a) * k;
  }

  lemma Mix(n: nat, b: nat, lo: nat, hi: nat)
    requires b <= n && lo <= hi
    ensures (n - b) * lo + b * hi == n * lo + b * (hi - lo)
  {
  }

  /** Of n frames, b must be large so that less than the difference of the two sizes stays free. */
  lemma FillingMix(capacity: nat, lo: nat, hi: nat, n: nat) returns (b: nat)
    requires lo < hi && n * lo <= capacity < n * hi
    ensures b < n && 0 <= capacity - ((n - b) * lo + b * hi) < hi - lo
  {
    var d := hi - lo;
    b := (capacity - n * lo) / d;
    QuotientBounds(capacity - n * lo, d);
    OneMore(b, d);
    Mix(n, n, lo, hi);
    MultipleOrder(b, n, d);
    Mix(n, b, lo, hi);
  }

  lemma SimilarFramesStrand(u: Usage, lo: nat, hi: nat) returns (s: State)
    requires u.Passes(lo) && u.Passes(hi) && lo < hi < 2 * lo && u.capacity / lo != u.capacity / hi
    ensures ReachableIn(s, u) && Stranded(s)
  {
    var n := u.capacity / lo;
    QuotientBounds(u.capacity, lo);
    QuotientBounds(u.capacity, hi);
    MoreSmallFit(u.capacity, lo, hi, n, u.capacity / hi);
    var b := FillingMix(u.capacity, lo, hi, n);
    var x := (n - b) * lo + b * hi;
    OneMore(n - b - 1, lo);
    s := Fill(u, lo, n - b - 1, lo, b, hi, x);
    s := SmallWriterStranded(s, u, x, lo, hi);
  }

  /**
   A caller who knows the frame sizes in use can tell: no run strands a writer if and only if as
   many of the largest frames fit an empty ring as of the smallest.
   */
  lemma NeverStrandedIff(u: Usage, lo: nat, hi: nat)
    requires u.Extremes(lo, hi)
    ensures (forall s | ReachableIn(s, u) :: !Stranded(s)) <==> u.capacity / lo == u.capacity / hi
  {
    if u.capacity / lo == u.capacity / hi {
      forall s | ReachableIn(s, u)
        ensures !Stranded(s)
      {
        EqualCountsNeverStrand(u, lo, hi, s);
      }
    } else if 2 * lo <= hi {
      var s := LargeFrameStrands(u, lo, hi);
    } else {
      var s := SimilarFramesStrand(u, lo, hi);
    }
  }

  /** If no frame in use passes the checks, no writer ever sleeps. */
  lemma NothingPassesNobodySleeps(u: Usage, s: State)
    requires (forall k | k in u.costs :: !u.Passes(k)) && ReachableIn(s, u)
    ensures s.waits.sleepW == {} && s.waits.wokenW == {}
  {
    var s0, steps :| Init(s0) && s0.mq.capacity == u.capacity && Runs(s0, steps, s) && CostsIn(steps, u.costs);
    assert CostsWithin(steps, u.capacity, 1, 0);
    RunIsStocked(s0, steps, s, 1, 0, 0);
  }

  /** A queue of 40 bytes whose writers use frames of 9 and 28 bytes strands one of them. */
  lemma MixedLengthsStrandWriter() returns (s: State)
    ensures ReachableIn(s, Usage(40, {9, 28})) && Stranded(s)
  {
    s := LargeFrameStrands(Usage(40, {9, 28}), 9, 28);
  }
}
