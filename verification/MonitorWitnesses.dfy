/** Reachable states in which a documented property of the queue fails: the conditions of the theorems are not idle. */
module MonitorWitnesses {
  import opened Framing
  import opened Handles
  import opened QueueCore
  import opened WaitSets
  import opened Monitor
  import opened MonitorTheorems
  import opened MonitorEvents

  const ReadOnly := Flags(true, false, false)
  const WriteOnly := Flags(false, true, false)

  lemma Fresh(capacity: nat, f: Flags) returns (s: State)
    requires capacity > WORD
    ensures Reachable(s) && s == Initial(capacity, {}, f)
  {
    s := Initial(capacity, {}, f);
    assert Init(s) && Runs(s, [], s);
  }

  /** A write that finds room and no sleeper stores its message. */
  lemma Stores(s: State, c: WriteCall) returns (s': State)
    requires Reachable(s) && s.waits == NoWaits && c.flags in s.handles && c.flags.writer
    requires Fits(s.mq.capacity, c.msg) && !s.mq.counts.noReaders && Cost(c.msg) <= s.mq.Free()
    ensures Reachable(s') && s'.waits == NoWaits && s'.handles == s.handles
    ensures s'.mq == AfterAccept(s.mq, c.flags, c.msg)
    ensures s'.accepted == s.accepted + [c.msg] && s'.delivered == s.delivered
  {
    AcceptStep(s, c);
    s' := Extend(s, WriteEnter(c, {}));
  }

  /** A read of the oldest message, with a buffer that holds it, that wakes `wake`. */
  lemma Reads(s: State, t: Tid, f: Flags, wake: set<WriteCall>) returns (s': State)
    requires Reachable(s) && s.delivered < s.accepted && f in s.handles && f.reader && s.waits.Idle(t)
    requires Signals(s.waits.sleepW, wake)
    ensures Reachable(s') && s'.handles == s.handles && s'.waits == s.waits.WakeWriters(wake)
    ensures s'.accepted == s.accepted && s'.delivered == s.delivered + [s.accepted[|s.delivered|]]
    ensures s'.mq.capacity == s.mq.capacity && s'.mq.counts == s.mq.counts && Writable in s'.mq.event
    ensures |s'.mq.bytes| == |s.mq.bytes| - Cost(s.accepted[|s.delivered|])
  {
    var c := ReadCall(t, f, |s.accepted[|s.delivered|]|);
    OldestFrame(s);
    TakeStep(s, c, wake);
    s' := Extend(s, ReadEnter(c, wake));
  }

  lemma Opens(s: State, f: Flags) returns (s': State)
    requires Reachable(s) && s.Alive()
    ensures Reachable(s') && s' == ApplyOpen(s, f)
  {
    s' := Extend(s, OpenHandle(f));
  }

  /** The last writer handle is closed while a reader handle stays open. */
  lemma WriterCloses(s: State) returns (s': State)
    requires Reachable(s) && s.handles == multiset{ReadOnly, WriteOnly} && s.mq.counts == Counts(2, 1, 1, false, false)
    requires s.waits.sleepR == {}
    ensures Reachable(s') && s'.handles == multiset{ReadOnly} && s'.mq.counts == Counts(1, 1, 0, false, true)
    ensures s'.waits == s.waits && s'.mq.bytes == s.mq.bytes && s'.accepted == s.accepted && s'.delivered == s.delivered
  {
    assert multiset{ReadOnly, WriteOnly} - multiset{WriteOnly} == multiset{ReadOnly};
    assert s.waits.WakeReaders({}) == s.waits;
    s' := Extend(s, CloseHandle(WriteOnly));
  }

  /** One handle of each kind. */
  lemma BothSides() returns (s: State)
    ensures Reachable(s) && s.handles == multiset{ReadOnly, WriteOnly} && s.mq == Mq(20, [], Counts(2, 1, 1, false, false), {})
    ensures s.waits == NoWaits && s.accepted == [] && s.delivered == []
  {
    s := Fresh(20, ReadOnly);
    s := Opens(s, WriteOnly);
    assert s.handles == multiset{ReadOnly, WriteOnly};
  }

  /** A write that finds too little room sleeps. */
  lemma Blocks(s: State, c: WriteCall) returns (s': State)
    requires Reachable(s) && s.waits == NoWaits && c.flags in s.handles && c.flags.writer
    requires Fits(s.mq.capacity, c.msg) && !s.mq.counts.noReaders && s.mq.Free() < Cost(c.msg)
    ensures Reachable(s') && s' == s.(waits := Waits({}, {}, {c}, {}))
  {
    s' := Extend(s, WriteEnter(c, {}));
    assert NoWaits.sleepW + {c} == {c};
  }

  /** A full queue with a blocked writer. */
  lemma BlockedWriter(m: Message) returns (s: State)
    requires Cost(m) == 16
    ensures Reachable(s) && s.handles == multiset{ReadOnly, WriteOnly} && s.mq.counts == Counts(2, 1, 1, false, false)
    ensures s.waits == Waits({}, {}, {WriteCall(2, WriteOnly, m)}, {})
    ensures |s.mq.bytes| == 16 && s.accepted == [m] && s.delivered == []
  {
    s := BothSides();
    assert [] + [m] == [m] && |[] + Frame(m)| == 16;
    s := Stores(s, WriteCall(1, WriteOnly, m));
    s := Blocks(s, WriteCall(2, WriteOnly, m));
  }

  /** End of file with a writer woken from before its handle was closed: by `EofPersistsIff` the end of file can end. */
  lemma EofWithWokenWriter() returns (s: State)
    ensures Reachable(s) && s.Alive() && AtEof(s) && s.waits.wokenW != {}
  {
    var m: Message := [0, 0, 0, 0, 0, 0, 0, 0];
    s := BlockedWriter(m);
    s := WriterCloses(s);
    s := Reads(s, 1, ReadOnly, s.waits.sleepW);
    assert WriteCall(2, WriteOnly, m) in s.waits.wokenW;
  }

  /** A message is queued and READABLE is not set, after one non-blocking write. */
  lemma ReadableMissed() returns (s: State)
    ensures Reachable(s) && s.Alive() && s.Queued() != [] && Readable !in s.mq.event
  {
    var f := Flags(true, true, true);
    s := Fresh(20, f);
    s := Stores(s, WriteCall(1, f, [0]));
  }

  /** A new queue has room for a message and WRITABLE is not set. */
  lemma WritableMissed() returns (s: State)
    ensures Reachable(s) && s.Alive() && DocumentedWritable(s) && Writable !in s.mq.event
  {
    s := Fresh(20, Flags(true, true, false));
  }

  lemma WentIn(f: Flags, m: Message) returns (s: State)
    requires f == Flags(true, true, false) && Cost(m) == 9
    ensures Reachable(s) && s.handles == multiset{f} && s.waits == NoWaits && s.mq.capacity == 20 && |s.mq.bytes| == 9
    ensures s.accepted == [m] && s.delivered == [] && !s.mq.counts.noReaders
  {
    s := Fresh(20, f);
    assert [] + [m] == [m] && |[] + Frame(m)| == 9;
    s := Stores(s, WriteCall(1, f, m));
  }

  /** A message went in and out again: the ring is empty and WRITABLE set. */
  lemma WentThrough(f: Flags, m: Message) returns (s: State)
    requires f == Flags(true, true, false) && Cost(m) == 9
    ensures Reachable(s) && s.handles == multiset{f} && s.waits == NoWaits && s.mq.capacity == 20 && |s.mq.bytes| == 0
    ensures Writable in s.mq.event && !s.mq.counts.noReaders
  {
    s := WentIn(f, m);
    assert s.delivered < s.accepted;
    s := Reads(s, 1, f, {});
    assert s.waits == NoWaits.WakeWriters({}) == NoWaits;
  }

  /** After a read, a ring with four bytes free keeps WRITABLE set. */
  lemma WritableOverstated() returns (s: State)
    ensures Reachable(s) && s.Alive() && !DocumentedWritable(s) && Writable in s.mq.event
  {
    var f := Flags(true, true, false);
    s := WentThrough(f, [0]);
    s := Stores(s, WriteCall(1, f, [0, 0, 0, 0, 0, 0, 0, 0]));
  }
}
