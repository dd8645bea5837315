/** When a sleeping writer is sure to be woken for the space it waits for. */
module MonitorProgress {
  import opened Framing
  import opened Handles
  import opened QueueCore
  import opened WaitSets
  import opened Monitor
  import opened MonitorTheorems

  /** Every write of the run that the length and capacity checks let through costs between lo and hi bytes. */
  predicate CostsWithin(steps: seq<Step>, capacity: nat, lo: nat, hi: nat)
  {
    forall i :: 0 <= i < |steps| && steps[i].WriteEnter? && Fits(capacity, steps[i].wc.msg) ==>
                  lo <= Cost(steps[i].wc.msg) <= hi
  }

  predicate Within(m: Message, lo: nat, hi: nat) { lo <= Cost(m) <= hi }

  /** The messages around cost between lo and hi, and while a writer sleeps queued messages and woken writers make n. */
  ghost predicate Stocked(s: State, lo: nat, hi: nat, n: nat)
  {
    && (forall m | m in s.accepted :: Within(m, lo, hi))
    && (forall c | c in s.waits.sleepW :: Within(c.msg, lo, hi))
    && (forall c | c in s.waits.wokenW :: Within(c.msg, lo, hi))
    && (s.Alive() && s.waits.sleepW != {} ==> n <= |s.Queued()| + |s.waits.wokenW|)
  }

  lemma OneMore(n: int, k: nat)
    ensures (n + 1) * k == n * k + k
  {
  }

  lemma {:induction false} FramesBound(ms: seq<Message>, lo: nat, hi: nat)
    requires forall m | m in ms :: Within(m, lo, hi)
    ensures |ms| * lo <= |Frames(ms)| <= |ms| * hi
  {
    if ms != [] {
      var n := |ms| - 1;
      FramesBound(ms[1..], lo, hi);
      OneMore(n, lo);
      OneMore(n, hi);
      assert |Frames(ms)| == Cost(ms[0]) + |Frames(ms[1..])| && Within(ms[0], lo, hi);
    }
  }

  lemma QueuedBound(s: State, lo: nat, hi: nat)
    requires Fifo(s) && forall m | m in s.accepted :: Within(m, lo, hi)
    ensures |s.Queued()| * lo <= |s.mq.bytes| <= |s.Queued()| * hi
  {
    FramesBound(s.Queued(), lo, hi);
  }

  lemma MultipleOrder(a: int, b: int, k: nat)
    requires a * k < b * k
    ensures a < b
  {
  }

  /** A queue in which a frame of at most hi bytes does not fit holds n messages. */
  lemma FullMeansStocked(s: State, lo: nat, hi: nat, n: nat)
    requires Fifo(s) && (forall m | m in s.accepted :: Within(m, lo, hi))
    requires n * hi <= s.mq.capacity && s.mq.Free() < hi
    ensures n <= |s.Queued()|
  {
    QueuedBound(s, lo, hi);
    var q := |s.Queued()|;
    OneMore(q, hi);
    MultipleOrder(n, q + 1, hi);
  }

  lemma ReadKeepsStock(s: State, c: ReadCall, wake: set<WriteCall>, lo: nat, hi: nat, n: nat)
    requires Fifo(s) && s.waits.sleepW !! s.waits.wokenW && ReadEnabled(s, c, wake) && Stocked(s, lo, hi, n)
    ensures Stocked(ApplyRead(s, c, wake), lo, hi, n)
  {
    ReadKeepsFifo(s, c, wake);
    if ReadResultOf(s.mq, c.flags).Got? {
      assert |s.waits.wokenW + wake| == |s.waits.wokenW| + |wake|;
    }
  }

  /** `w` is how many writers were woken before this one, if it is a woken one, went on. */
  lemma WriteKeepsStock(s: State, c: WriteCall, r: WriteResult, wake: set<ReadCall>, lo: nat, hi: nat, n: nat, w: nat)
    requires Fifo(s) && Stocked(s, lo, hi, 0) && Fits(s.mq.capacity, c.msg) && Within(c.msg, lo, hi)
    requires n * hi <= s.mq.capacity && w <= |s.waits.wokenW| + 1
    requires s.waits.sleepW != {} ==> n <= |s.Queued()| + w
    requires if r.Accepted? then s.mq.Free() >= Cost(c.msg) else r.WriteWait? && s.mq.Free() < Cost(c.msg)
    ensures Stocked(ApplyWrite(s, c, r, wake), lo, hi, n)
  {
    WriteKeepsFifo(s, c, r, wake);
    if r.WriteWait? {
      FullMeansStocked(s, lo, hi, n);
    }
  }

  lemma ResumeKeepsStock(s: State, c: WriteCall, wake: set<ReadCall>, lo: nat, hi: nat, n: nat)
    requires Sound(s) && Enabled(s, WriteResume(c, wake)) && Stocked(s, lo, hi, n) && n * hi <= s.mq.capacity
    ensures Stocked(Apply(s, WriteResume(c, wake)), lo, hi, n)
  {
    var s0 := s.(waits := s.waits.(wokenW := s.waits.wokenW - {c}));
    assert s0.Queued() == s.Queued();
    WriteKeepsStock(s0, c, ResumedWriteResult(s.mq, c.flags, c.msg), wake, lo, hi, n, |s.waits.wokenW|);
  }

  lemma EnterKeepsStock(s: State, c: WriteCall, wake: set<ReadCall>, lo: nat, hi: nat, n: nat)
    requires Sound(s) && Enabled(s, WriteEnter(c, wake)) && Stocked(s, lo, hi, n) && n * hi <= s.mq.capacity
    requires Fits(s.mq.capacity, c.msg) ==> Within(c.msg, lo, hi)
    ensures Stocked(Apply(s, WriteEnter(c, wake)), lo, hi, n)
  {
    var r := WriteResultOf(s.mq, c.flags, c.msg);
    if r.Accepted? || r.WriteWait? {
      WriteKeepsStock(s, c, r, wake, lo, hi, n, |s.waits.wokenW|);
    }
  }

  lemma CloseKeepsStock(s: State, f: Flags, lo: nat, hi: nat, n: nat)
    requires Enabled(s, CloseHandle(f)) && Stocked(s, lo, hi, n)
    requires Release(s.mq.counts, f).refs == 0 <==> !ApplyClose(s, f).Alive()
    ensures Stocked(ApplyClose(s, f), lo, hi, n)
  {
  }

  lemma StepKeepsStock(s: State, step: Step, lo: nat, hi: nat, n: nat)
    requires Sound(s) && Enabled(s, step) && Stocked(s, lo, hi, n) && n * hi <= s.mq.capacity
    requires step.WriteEnter? && Fits(s.mq.capacity, step.wc.msg) ==> Within(step.wc.msg, lo, hi)
    requires step.CloseHandle? ==> (Release(s.mq.counts, step.flags).refs == 0 <==> !Apply(s, step).Alive())
    ensures Stocked(Apply(s, step), lo, hi, n)
  {
    match step
    case ReadEnter(c, wake) => ReadKeepsStock(s, c, wake, lo, hi, n);
    case ReadResume(c, wake) =>
      ReadKeepsStock(s.(waits := s.waits.(wokenR := s.waits.wokenR - {c})), c, wake, lo, hi, n);
    case WriteEnter(c, wake) => EnterKeepsStock(s, c, wake, lo, hi, n);
    case WriteResume(c, wake) => ResumeKeepsStock(s, c, wake, lo, hi, n);
    case CloseHandle(f) => CloseKeepsStock(s, f, lo, hi, n);
    case Spurious(r, w) => assert |s.waits.wokenW + w| == |s.waits.wokenW| + |w|;
    case OpenHandle(f) =>
  }

  lemma CapacityKept(s: State, step: Step)
    requires Enabled(s, step)
    ensures Apply(s, step).mq.capacity == s.mq.capacity
  {
  }

  lemma {:induction false} RunKeepsStock(s: State, steps: seq<Step>, s': State, lo: nat, hi: nat, n: nat)
    requires Inv(s) && Stocked(s, lo, hi, n) && Runs(s, steps, s')
    requires CostsWithin(steps, s.mq.capacity, lo, hi) && n * hi <= s.mq.capacity
    ensures Inv(s') && Stocked(s', lo, hi, n) && s'.mq.capacity == s.mq.capacity
    decreases |steps|
  {
    if steps != [] {
      assert steps[0].WriteEnter? && Fits(s.mq.capacity, steps[0].wc.msg) ==> Within(steps[0].wc.msg, lo, hi);
      if steps[0].CloseHandle? {
        CloseAssertions(s.mq.counts, s.handles, s.everReader, s.everWriter, steps[0].flags);
      }
      StepKeepsStock(s, steps[0], lo, hi, n);
      StepKeepsInv(s, steps[0]);
      CapacityKept(s, steps[0]);
      assert CostsWithin(steps[1..], s.mq.capacity, lo, hi);
      RunKeepsStock(Apply(s, steps[0]), steps[1..], s', lo, hi, n);
    }
  }

  lemma QuotientBounds(a: nat, k: nat)
    requires k > 0
    ensures a / k * k <= a < (a / k + 1) * k
  {
  }

  /** With n queued or woken, of at least lo bytes each, no more small frames fit than writers are woken. */
  lemma SlotsCovered(capacity: nat, lo: nat, n: nat, q: nat, w: nat, free: nat)
    requires 0 < lo && capacity < (n + 1) * lo && n <= q + w && q * lo + free <= capacity
    ensures free / lo <= w
  {
    var x := free / lo;
    QuotientBounds(free, lo);
    assert (q + x) * lo == q * lo + x * lo;
    MultipleOrder(q + x, n + 1, lo);
  }

  lemma SameCount(capacity: nat, lo: nat, hi: nat) returns (n: nat)
    requires 0 < lo <= hi && capacity / lo == capacity / hi
    ensures n * hi <= capacity < (n + 1) * lo
  {
    n := capacity / hi;
    QuotientBounds(capacity, lo);
    QuotientBounds(capacity, hi);
  }

  lemma StockCovers(s: State, lo: nat, hi: nat, n: nat)
    requires Fifo(s) && Stocked(s, lo, hi, n) && s.Alive() && s.waits.sleepW != {}
    requires 0 < lo && s.mq.capacity < (n + 1) * lo
    ensures s.mq.Free() / lo <= |s.waits.wokenW|
  {
    QueuedBound(s, lo, hi);
    SlotsCovered(s.mq.capacity, lo, n, |s.Queued()|, |s.waits.wokenW|, s.mq.Free());
  }

  lemma RunIsStocked(s0: State, steps: seq<Step>, s: State, lo: nat, hi: nat, n: nat)
    requires Init(s0) && Runs(s0, steps, s) && CostsWithin(steps, s0.mq.capacity, lo, hi) && n * hi <= s0.mq.capacity
    ensures Fifo(s) && Stocked(s, lo, hi, n) && s.mq.capacity == s0.mq.capacity
  {
    InitHoldsInv(s0);
    RunKeepsStock(s0, steps, s, lo, hi, n);
  }

  /**
   If as many of the largest frames fit an empty ring as of the smallest, then whenever a writer
   sleeps there are at least as many woken writers as frames, even of the smallest size, that fit.
   */
  lemma WriterProgress(s0: State, steps: seq<Step>, s: State, lo: nat, hi: nat)
    requires Init(s0) && Runs(s0, steps, s) && CostsWithin(steps, s0.mq.capacity, lo, hi)
    requires 0 < lo <= hi && s0.mq.capacity / lo == s0.mq.capacity / hi
    requires s.Alive() && s.waits.sleepW != {}
    ensures s.mq.Free() >= 0 && s.mq.Free() / lo <= |s.waits.wokenW|
    ensures forall c | c in s.waits.sleepW :: lo <= Cost(c.msg)
  {
    var n := SameCount(s0.mq.capacity, lo, hi);
    RunIsStocked(s0, steps, s, lo, hi, n);
    StockCovers(s, lo, hi, n);
  }

  /** All messages written have length `len`. */
  predicate Uniform(steps: seq<Step>, len: nat)
  {
    forall i :: 0 <= i < |steps| && steps[i].WriteEnter? ==> |steps[i].wc.msg| == len
  }

  /** In particular with messages of one length, whatever the capacity. */
  lemma UniformProgress(s0: State, steps: seq<Step>, s: State, len: nat)
    requires Init(s0) && Runs(s0, steps, s) && Uniform(steps, len)
    requires s.Alive() && s.waits.sleepW != {}
    ensures s.mq.Free() / (WORD + len) <= |s.waits.wokenW|
  {
    WriterProgress(s0, steps, s, WORD + len, WORD + len);
  }
}
