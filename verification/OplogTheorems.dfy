/** What the oplog machine promises over every run from an installed oplog. */
module OplogTheorems {
  import opened Optional
  import opened Oplog
  import opened OplogInvariant
  import opened ResumeToken

  // ---------------------------------------------------------------- installation

  /** A server whose schema has just been installed: a fresh oplog, or one left by a version that
      kept no deletion record.  Of the latter we are told what its pruner promised: it removed the
      oldest events and always kept the newest. */
  ghost predicate Installed(s: State, legacy: bool) {
    var d := s.db;
    && s.pruner == Idle && s.cursors == map[] && s.gets == map[] && s.opens == map[]
    && d.lock == Free && d.deleted == {}
    && TablesInv(d.log, d.rows, d.nextSeq)
    && d.clock == LastStamp(d.log, Stamp(0, 0))
    && (!legacy ==> d.log == [] && d.rows == [])
    && (forall e :: e in d.log ==> e in d.rows || e.sn < d.rows[0].sn)
    && SeedHistory(legacy, d.rows, d.clock) == Some(d.history)
  }

  /** The legacy boundary names a committed event: the oldest one that was stored at installation. */
  ghost predicate BaselineInv(d: Db) {
    var h := d.history;
    && (h.legacy <==> 0 < h.baselineSeq)
    && (h.legacy ==> exists e :: e in d.log && e.sn == h.baselineSeq + 1 && e.ts == h.baseline)
  }

  lemma InstalledInv(s: State, legacy: bool)
    requires Installed(s, legacy)
    ensures Inv(s) && BaselineInv(s.db)
  {
    var d := s.db;
    assert d.rows != [] ==> d.rows[0] in d.rows && d.rows[0] in d.log;
    if d.log != [] { assert d.log[0] in d.log; }
    forall e | e in d.rows
      ensures d.history.baselineSeq < e.sn
    {
      assert d.rows[0].sn <= e.sn;
    }
  }

  lemma BaselineStays(d: Db, d': Db)
    requires BaselineInv(d) && Advances(d, d')
    ensures BaselineInv(d')
  {
    var h := d.history;
    if h.legacy {
      var e :| e in d.log && e.sn == h.baselineSeq + 1 && e.ts == h.baseline;
      assert e in d'.log;
    }
  }

  // ---------------------------------------------------------------- time

  ghost predicate StampsIncrease(s: seq<Event>) {
    forall i, j :: 0 <= i < j < |s| ==> Before(s[i].ts, s[j].ts)
  }

  ghost predicate TimeInv(d: Db) {
    && StampsIncrease(d.log) && d.clock.t <= d.reading
    && (d.lock.Writer? ==>
          && StampsIncrease(d.lock.pending) && d.lock.clock.t <= d.reading
          && (forall e :: e in d.lock.pending ==> Before(d.clock, e.ts))
          && (d.lock.pending != [] ==> AtMost(d.lock.pending[0].ts, Tick(d.clock, d.reading))))
  }

  lemma StampsBounded(s: seq<Event>)
    requires StampsIncrease(s)
    ensures forall e :: e in s ==> AtMost(e.ts, LastStamp(s, Stamp(0, 0)))
  {
  }

  lemma StampsAppended(s: seq<Event>, more: seq<Event>, clock: Stamp)
    requires StampsIncrease(s) && StampsIncrease(more)
    requires forall e :: e in s ==> AtMost(e.ts, clock)
    requires forall e :: e in more ==> Before(clock, e.ts)
    ensures StampsIncrease(s + more)
  {
    var t := s + more;
    forall i, j | 0 <= i < j < |t|
      ensures Before(t[i].ts, t[j].ts)
    {
      if i < |s| { assert t[i] in s; }
      if |s| <= j { assert t[j] in more; }
    }
  }

  lemma AppendTime(d: Db, w: nat, now: nat, op: Op, ns: string, o: string, o2: Option<string>)
    requires LockInv(d.lock, d.clock, d.log, d.nextSeq) && TimeInv(d) && d.reading <= now
    ensures TimeInv(AppendEvent(d, w, now, op, ns, o, o2))
  {
    var d' := AppendEvent(d, w, now, op, ns, o, o2);
    if d' != d {
      var pending := if d.lock.Writer? then d.lock.pending else [];
      var clock := OperationTime(d, w);
      AppendShape(d, w, now, op, ns, o, o2);
      var e := d'.lock.pending[|pending|];
      assert e.ts == Tick(clock, now) && clock == LastStamp(pending, d.clock);
      hide AppendEvent, OperationTime, StampsIncrease, Sorted, LastStamp, Tick;
      AppendedStamps(pending, e, clock, d.clock, d.reading, now);
    }
  }

  lemma TickGrows(clock: Stamp, reading: nat, now: nat)
    requires clock.t <= reading <= now
    ensures Before(clock, Tick(clock, reading)) && AtMost(Tick(clock, reading), Tick(clock, now))
    ensures Tick(clock, now).t == now
  {
  }

  lemma AppendedStamps(pending: seq<Event>, e: Event, clock: Stamp, committed: Stamp, reading: nat, now: nat)
    requires StampsIncrease(pending) && clock == LastStamp(pending, committed) && e.ts == Tick(clock, now)
    requires committed.t <= reading <= now && clock.t <= reading
    requires forall p :: p in pending ==> Before(committed, p.ts)
    requires pending != [] ==> AtMost(pending[0].ts, Tick(committed, reading))
    ensures StampsIncrease(pending + [e]) && e.ts.t == now
    ensures forall p :: p in pending + [e] ==> Before(committed, p.ts)
    ensures AtMost((pending + [e])[0].ts, Tick(committed, now))
  {
    TickGrows(clock, reading, now);
    TickGrows(committed, reading, now);
    StampsBounded(pending);
    assert pending != [] ==> pending[|pending| - 1] in pending;
    StampsAppended(pending, [e], clock);
    hide StampsIncrease, Tick;
  }

  predicate WriterStep(step: Step) {
    step.Append? || step.RollbackTo? || step.Commit? || step.Rollback?
  }

  /** Everyone but the writers leaves the log, the clock and a writer's transaction alone. */
  lemma OthersOnlyRead(s: State, step: Step)
    requires Inv(s) && !WriterStep(step)
    ensures var d, d' := s.db, Next(s, step).db;
            && d'.log == d.log && d'.clock == d.clock && d'.reading == d.reading && d'.nextSeq == d.nextSeq
            && (d'.lock == d.lock || (!d.lock.Writer? && !d'.lock.Writer?))
  {
    assert s.pruner.Marked? || s.pruner.Locked? ==> s.db.lock.Pruning?;
    hide Inv, OpenStep, GetStep, PruneStep;
    OnlyReads(s, step);
    PruneLeaves(s.db, s.pruner, step);
    assert Next(s, step).db == s.db || Next(s, step).db == PruneStep(s.db, s.pruner, step).0;
    hide Next;
  }

  lemma PruneLeaves(d: Db, p: Pruner, step: Step)
    requires p.Marked? || p.Locked? ==> d.lock.Pruning?
    ensures var d' := PruneStep(d, p, step).0;
            && d'.log == d.log && d'.clock == d.clock && d'.reading == d.reading && d'.nextSeq == d.nextSeq
            && (d'.lock == d.lock || (!d.lock.Writer? && !d'.lock.Writer?))
  {
    hide Scan, PlanWith, MaxSeq, MaxStamp, Victims, Doomed;
  }

  lemma WriterTime(d: Db, step: Step)
    requires LockInv(d.lock, d.clock, d.log, d.nextSeq) && TimeInv(d)
    requires step.RollbackTo? || step.Commit? || step.Rollback?
    ensures TimeInv(match step
                    case RollbackTo(w, keep) => UndoTo(d, w, keep)
                    case Commit(w) => CommitWriter(d, w)
                    case Rollback(w) => RollbackWriter(d, w))
  {
    if d.lock.Writer? {
      StampsBounded(d.log);
      StampsAppended(d.log, d.lock.pending, d.clock);
    }
    hide Sorted;
  }

  lemma NextTime(s: State, step: Step)
    requires Inv(s) && TimeInv(s.db) && (step.Append? ==> s.db.reading <= step.now)
    ensures TimeInv(Next(s, step).db)
  {
    assert LockInv(s.db.lock, s.db.clock, s.db.log, s.db.nextSeq);
    hide Inv, LockInv, StampsIncrease;
    if WriterStep(step) {
      hide TimeInv;
      if step.Append? {
        AppendTime(s.db, step.w, step.now, step.op, step.ns, step.o, step.o2);
      } else {
        WriterTime(s.db, step);
      }
    } else {
      OthersOnlyRead(s, step);
      hide Next;
    }
  }

  lemma {:induction false} RunTime(s: State, steps: seq<Step>)
    requires Inv(s) && TimeInv(s.db) && Timely(s, steps)
    ensures TimeInv(Run(s, steps).db)
    decreases |steps|
  {
    if steps != [] {
      hide Inv, TimeInv, Next;
      NextKeeps(s, steps[0]);
      NextTime(s, steps[0]);
      RunTime(Next(s, steps[0]), steps[1..]);
    }
  }

  // ---------------------------------------------------------------- counting within a second

  /** The stamp after another: the next of its second, or the first of a different one. */
  predicate Follows(a: Stamp, b: Stamp) {
    b.i == (if b.t == a.t then a.i + 1 else 1) && b.t <= MAX_UINT32 && b.i <= MAX_UINT32
  }

  function Previous(first: Stamp, s: seq<Event>, k: nat): Stamp
    requires k < |s|
  {
    if k == 0 then first else s[k - 1].ts
  }

  ghost predicate Chain(first: Stamp, s: seq<Event>) {
    forall k :: 0 <= k < |s| ==> Follows(Previous(first, s, k), s[k].ts)
  }

  /** The events committed since a moment, and those pending, are stamped one after another. */
  ghost predicate CountInv(d: Db, from: nat) {
    && from <= |d.log| && Chain(LastStamp(d.log[..from], Stamp(0, 0)), d.log[from..])
    && (d.lock.Writer? ==> Chain(d.clock, d.lock.pending))
  }

  lemma ChainMore(first: Stamp, s: seq<Event>, more: seq<Event>)
    requires Chain(first, s) && Chain(LastStamp(s, first), more)
    ensures Chain(first, s + more)
  {
    hide Follows;
    var all := s + more;
    forall k | 0 <= k < |all|
      ensures Follows(Previous(first, all, k), all[k].ts)
    {
      if k < |s| {
        assert Follows(Previous(first, s, k), s[k].ts);
      } else {
        assert Follows(Previous(LastStamp(s, first), more, k - |s|), more[k - |s|].ts);
      }
    }
  }

  lemma ChainLess(first: Stamp, s: seq<Event>, keep: nat)
    requires Chain(first, s) && keep <= |s|
    ensures Chain(first, s[..keep])
  {
    hide Follows;
    forall k | 0 <= k < keep
      ensures Follows(Previous(first, s[..keep], k), s[..keep][k].ts)
    {
      assert Follows(Previous(first, s, k), s[k].ts);
    }
  }

  lemma AppendCounts(d: Db, w: nat, now: nat, op: Op, ns: string, o: string, o2: Option<string>, from: nat)
    requires LockInv(d.lock, d.clock, d.log, d.nextSeq) && CountInv(d, from)
    ensures CountInv(AppendEvent(d, w, now, op, ns, o, o2), from)
  {
    var d' := AppendEvent(d, w, now, op, ns, o, o2);
    hide Chain;
    if d' != d {
      var pending := if d.lock.Writer? then d.lock.pending else [];
      var e := d'.lock.pending[|pending|];
      assert OperationTime(d, w) == LastStamp(pending, d.clock);
      assert Follows(OperationTime(d, w), e.ts);
      ChainOne(OperationTime(d, w), e);
      if pending == [] { NoChain(d.clock); }
      ChainMore(d.clock, pending, [e]);
    }
  }

  lemma ChainOne(first: Stamp, e: Event)
    requires Follows(first, e.ts)
    ensures Chain(first, [e])
  {
  }

  lemma NoChain(first: Stamp)
    ensures Chain(first, [])
  {
  }

  lemma CommitCounts(d: Db, w: nat, from: nat)
    requires LockInv(d.lock, d.clock, d.log, d.nextSeq) && CountInv(d, from)
    ensures CountInv(CommitWriter(d, w), from)
  {
    hide Chain;
    var d' := CommitWriter(d, w);
    if d.lock.Writer? && d.lock.w == w {
      var first := LastStamp(d.log[..from], Stamp(0, 0));
      assert LastStamp(d.log[from..], first) == d.clock;
      ChainMore(first, d.log[from..], d.lock.pending);
      assert d'.log[..from] == d.log[..from] && d'.log[from..] == d.log[from..] + d.lock.pending;
    }
  }

  lemma UndoCounts(d: Db, w: nat, keep: nat, from: nat)
    requires CountInv(d, from)
    ensures CountInv(UndoTo(d, w, keep), from)
  {
    hide Chain, LastStamp;
    if d.lock.Writer? && d.lock.w == w && keep <= |d.lock.pending| { ChainLess(d.clock, d.lock.pending, keep); }
  }

  lemma NextCounts(s: State, step: Step, from: nat)
    requires Inv(s) && CountInv(s.db, from)
    ensures CountInv(Next(s, step).db, from)
  {
    assert LockInv(s.db.lock, s.db.clock, s.db.log, s.db.nextSeq);
    hide Inv, LockInv, Chain, LastStamp;
    if step.Append? {
      AppendCounts(s.db, step.w, step.now, step.op, step.ns, step.o, step.o2, from);
      hide AppendEvent;
    } else if step.RollbackTo? {
      UndoCounts(s.db, step.w, step.keep, from);
      hide UndoTo;
    } else if step.Commit? {
      CommitCounts(s.db, step.w, from);
      hide CommitWriter;
    } else if !step.Rollback? {
      OthersOnlyRead(s, step);
      hide Next;
    }
  }

  lemma {:induction false} RunCounts(s: State, steps: seq<Step>, from: nat)
    requires Inv(s) && CountInv(s.db, from)
    ensures CountInv(Run(s, steps).db, from)
    decreases |steps|
  {
    if steps != [] {
      hide Inv, CountInv, Next;
      NextKeeps(s, steps[0]);
      NextCounts(s, steps[0], from);
      RunCounts(Next(s, steps[0]), steps[1..], from);
    }
  }

  /** Whatever is rolled back in between, committed events are stamped 1, 2, 3, … within a second,
      from 1 again whenever the second differs from the last event's, and within 32 bits. */
  lemma StampsCount(s: State, steps: seq<Step>, k: nat)
    requires Inv(s) && s.db.lock.Free? && |s.db.log| <= k < |Run(s, steps).db.log|
    ensures var log := Run(s, steps).db.log;
            Follows(if k == 0 then Stamp(0, 0) else log[k - 1].ts, log[k].ts)
  {
    hide Inv, Run, CountInv;
    CountStarts(s);
    RunCounts(s, steps, |s.db.log|);
    CountedAt(Run(s, steps).db, |s.db.log|, k);
  }

  lemma CountStarts(s: State)
    requires s.db.lock.Free?
    ensures CountInv(s.db, |s.db.log|)
  {
    assert s.db.log[|s.db.log|..] == [];
    hide LastStamp;
    NoChain(LastStamp(s.db.log[..|s.db.log|], Stamp(0, 0)));
  }

  lemma CountedAt(d: Db, from: nat, k: nat)
    requires CountInv(d, from) && from <= k < |d.log|
    ensures Follows(if k == 0 then Stamp(0, 0) else d.log[k - 1].ts, d.log[k].ts)
  {
    hide Follows;
    var tail, first := d.log[from..], LastStamp(d.log[..from], Stamp(0, 0));
    assert Follows(Previous(first, tail, k - from), tail[k - from].ts);
    assert tail[k - from] == d.log[k] && (k > from ==> tail[k - from - 1] == d.log[k - 1]);
    assert from > 0 ==> d.log[..from][from - 1] == d.log[from - 1];
  }

  /** A write that is undone leaves no trace but the sequence number it drew, and the lock it took. */
  lemma UndoneWrite(s: State, w: nat, now: nat, op: Op, ns: string, o: string, o2: Option<string>)
    requires Inv(s) && !s.db.lock.Pruning? && (s.db.lock.Writer? ==> s.db.lock.w == w)
    requires Next(s, Append(w, now, op, ns, o, o2)) != s
    ensures var pending := if s.db.lock.Writer? then s.db.lock.pending else [];
            Next(Next(s, Append(w, now, op, ns, o, o2)), RollbackTo(w, |pending|)) ==
              s.(db := s.db.(nextSeq := s.db.nextSeq + 1, reading := now,
                             lock := if s.db.lock.Writer? then s.db.lock else Writer(w, s.db.clock, [])))
  {
    assert LockInv(s.db.lock, s.db.clock, s.db.log, s.db.nextSeq);
    hide Inv;
    UndoneAppend(s.db, w, now, op, ns, o, o2);
    hide LockInv, AppendEvent, UndoTo;
  }

  lemma UndoneAppend(d: Db, w: nat, now: nat, op: Op, ns: string, o: string, o2: Option<string>)
    requires LockInv(d.lock, d.clock, d.log, d.nextSeq) && !d.lock.Pruning? && (d.lock.Writer? ==> d.lock.w == w)
    requires AppendEvent(d, w, now, op, ns, o, o2) != d
    ensures var pending := if d.lock.Writer? then d.lock.pending else [];
            UndoTo(AppendEvent(d, w, now, op, ns, o, o2), w, |pending|) ==
              d.(nextSeq := d.nextSeq + 1, reading := now,
                 lock := if d.lock.Writer? then d.lock else Writer(w, d.clock, []))
  {
    hide Tick, OperationTime, MaxSeq, Sorted;
    var pending := if d.lock.Writer? then d.lock.pending else [];
    var after := AppendEvent(d, w, now, op, ns, o, o2).lock.pending;
    assert after[..|pending|] == pending;
    assert |pending| > 0 ==> after[|pending| - 1] == pending[|pending| - 1];
  }

  /** The time any other session reads is the newest committed stamp. */
  lemma OthersReadCommitted(s: State, w: nat)
    requires Inv(s) && !(s.db.lock.Writer? && s.db.lock.w == w)
    ensures OperationTime(s.db, w) == LastStamp(s.db.log, Stamp(0, 0))
  {
    assert LockInv(s.db.lock, s.db.clock, s.db.log, s.db.nextSeq);
    hide Inv, LastStamp;
  }

  /** What the theorems about times start from. */
  ghost predicate Sound(s: State) {
    Inv(s) && TimeInv(s.db) && BaselineInv(s.db)
  }

  /** Every timely run from an installed oplog whose stamps are in order provides it. */
  lemma SoundRuns(s0: State, legacy: bool, steps: seq<Step>)
    requires Installed(s0, legacy) && Timely(s0, steps)
    requires StampsIncrease(s0.db.log) && s0.db.clock.t <= s0.db.reading
    ensures Sound(Run(s0, steps))
  {
    InstalledInv(s0, legacy);
    assert TimeInv(s0.db);
    hide Installed, Inv, TimeInv, BaselineInv, Timely, Run;
    RunKeeps(s0, steps);
    RunTime(s0, steps);
    BaselineStays(s0.db, Run(s0, steps).db);
  }

  // ---------------------------------------------------------------- exactly-once delivery

  /** A getMore ends in one of two ways: ChangeStreamHistoryLost, which moves and delivers nothing,
      or a reply whose batch is exactly the range the cursor moves over, within the batch size. */
  lemma GetMoreOutcome(s: State, id: nat, expired: bool)
    requires Inv(s) && id in s.cursors && id in s.gets && s.gets[id].Read?
    ensures var g := s.gets[id]; var s' := Next(s, GetCheck(id, expired));
            if HistoryLost(s.db, g.after) then s' == s.(gets := s.gets - {id})
            else if g.batch == [] && !expired then s'.cursors == s.cursors && id in s'.gets && s'.gets[id].Sampling?
            else
              && id !in s'.gets && id in s'.cursors && g.after <= s'.cursors[id].after
              && s'.cursors[id].delivered ==
                   s.cursors[id].delivered + Between(s.db.log, g.ns, g.after, s'.cursors[id].after)
              && (forall other :: other in s.cursors && other != id ==>
                    other in s'.cursors && s'.cursors[other] == s.cursors[other])
  {
    hide Inv, DbInv, Between, NextAfter;
    var g := s.gets[id];
    RequestOf(s, id);
    assert GetInv(s.db.log, Floor(s.db), g);
  }

  lemma DeliveredReply(s: State, id: nat, expired: bool)
    requires id in s.cursors && id in s.gets && s.gets[id].Read?
    requires !HistoryLost(s.db, s.gets[id].after) && (s.gets[id].batch != [] || expired)
    ensures var g, s' := s.gets[id], Next(s, GetCheck(id, expired));
            && s'.db == s.db && id in s'.cursors
            && s'.cursors[id] == s.cursors[id].(after := NextAfter(g),
                                                delivered := s.cursors[id].delivered + g.batch)
  {
  }

  lemma CursorHolds(s: State, id: nat)
    requires Inv(s) && id in s.cursors
    ensures var c := s.cursors[id];
            && c.delivered == Between(s.db.log, c.ns, c.origin, c.after)
            && (forall e :: e in c.delivered <==> e in s.db.log && e.ns == c.ns && c.origin < e.sn <= c.after)
            && (forall i, j :: 0 <= i < j < |c.delivered| ==> c.delivered[i].sn < c.delivered[j].sn)
  {
    var c := s.cursors[id];
    assert Sorted(s.db.log) && TailInv(s.db.log, c);
    hide Inv;
    BetweenMembers(s.db.log, c.ns, c.origin, c.after);
  }

  /** Over every interleaving, what a change-stream cursor has delivered is, in order, exactly the
      committed events of its namespace after its origin and up to its position. */
  lemma ExactDelivery(s0: State, legacy: bool, steps: seq<Step>, id: nat)
    requires Installed(s0, legacy)
    requires id in Run(s0, steps).cursors
    ensures var s := Run(s0, steps); var c := s.cursors[id];
            && c.delivered == Between(s.db.log, c.ns, c.origin, c.after)
            && (forall e :: e in c.delivered <==> e in s.db.log && e.ns == c.ns && c.origin < e.sn <= c.after)
            && (forall i, j :: 0 <= i < j < |c.delivered| ==> c.delivered[i].sn < c.delivered[j].sn)
  {
    InstalledInv(s0, legacy);
    RunKeeps(s0, steps);
    CursorHolds(Run(s0, steps), id);
  }

  /** A reply with room left has caught up with everything committed before its head was sampled. */
  lemma ShortReplyCatchesUp(s: State, id: nat, expired: bool, e: Event)
    requires Inv(s) && id in s.cursors && id in s.gets && s.gets[id].Read?
    requires !HistoryLost(s.db, s.gets[id].after) && (s.gets[id].batch != [] || expired)
    requires |s.gets[id].batch| < s.gets[id].wanted
    requires e in s.db.log && e.ns == s.cursors[id].ns && s.cursors[id].origin < e.sn <= s.gets[id].head
    ensures var s' := Next(s, GetCheck(id, expired)); id in s'.cursors && e in s'.cursors[id].delivered
    ensures s.gets[id].head <= Next(s, GetCheck(id, expired)).cursors[id].after
  {
    assert s.gets[id].head <= NextAfter(s.gets[id]);
    hide Inv, HistoryLost, Next;
    NextKeeps(s, GetCheck(id, expired));
    DeliveredReply(s, id, expired);
    CursorHolds(Next(s, GetCheck(id, expired)), id);
  }

  /** What a cursor has still to deliver of the events committed so far. */
  function Owed(s: State, id: nat): seq<Event>
    requires id in s.cursors
  {
    Between(s.db.log, s.cursors[id].ns, s.cursors[id].after, MaxSeq(s.db.log))
  }

  /** One getMore from begin to reply, with its time up and nobody in between. */
  function Poll(s: State, id: nat, batchSize: int): State {
    Next(Next(Next(Next(s, GetBegin(id, batchSize)), GetHead(id)), GetSelect(id)), GetCheck(id, true))
  }

  function Polls(s: State, id: nat, batchSize: int, n: nat): State
    decreases n
  {
    if n == 0 then s else Polls(Poll(s, id, batchSize), id, batchSize, n - 1)
  }

  /** A cursor with no request under way, all of whose events are still stored. */
  ghost predicate Polling(s: State, id: nat) {
    id in s.cursors && id !in s.gets && !HistoryLost(s.db, s.cursors[id].after)
  }

  lemma FollowingIsOwed(d: Db, ns: string, after: nat)
    requires DbInv(d) && Floor(d) <= after
    ensures Following(d.rows, ns, after) == Between(d.log, ns, after, MaxSeq(d.log))
  {
    MissingBelowFloor(d);
    MaxSeqBounds(d.log);
    BetweenMembers(d.log, ns, after, MaxSeq(d.log));
    hide Between, MaxSeq, Floor, LockInv, WatermarkInv, AccountedInv;
    ScanIs(d.rows, (e: Event) => e.ns == ns && after < e.sn, Between(d.log, ns, after, MaxSeq(d.log)));
  }

  lemma SampledPoll(s: State, id: nat, batchSize: int)
    requires id in s.cursors && id !in s.gets
    ensures var c := s.cursors[id];
            Next(Next(s, GetBegin(id, batchSize)), GetHead(id)) ==
              s.(gets := s.gets[id := Sampled(c.ns, c.after, Wanted(batchSize), MaxSeq(s.db.rows))])
  {
    hide Wanted, MaxSeq;
    var c := s.cursors[id];
    var begun := s.gets[id := Sampling(c.ns, c.after, Wanted(batchSize))];
    assert begun[id := Sampled(c.ns, c.after, Wanted(batchSize), MaxSeq(s.db.rows))] ==
           s.gets[id := Sampled(c.ns, c.after, Wanted(batchSize), MaxSeq(s.db.rows))];
  }

  lemma ReadPoll(s: State, id: nat, g: Get)
    requires g.Sampled?
    ensures var batch := Take(Following(s.db.rows, g.ns, g.after), g.wanted);
            Next(s.(gets := s.gets[id := g]), GetSelect(id)) ==
              s.(gets := s.gets[id := Read(g.ns, g.after, g.wanted, g.head, batch)])
  {
    hide Take, Following;
    var read := Read(g.ns, g.after, g.wanted, g.head, Take(Following(s.db.rows, g.ns, g.after), g.wanted));
    assert s.gets[id := g][id := read] == s.gets[id := read];
  }

  lemma PollIs(s: State, id: nat, batchSize: int)
    requires Polling(s, id)
    ensures var c := s.cursors[id];
            var g := Read(c.ns, c.after, Wanted(batchSize), MaxSeq(s.db.rows),
                          Take(Following(s.db.rows, c.ns, c.after), Wanted(batchSize)));
            && Poll(s, id, batchSize).db == s.db && id !in Poll(s, id, batchSize).gets
            && id in Poll(s, id, batchSize).cursors
            && Poll(s, id, batchSize).cursors[id] == c.(after := NextAfter(g), delivered := c.delivered + g.batch)
  {
    hide Following, Take, MaxSeq, HistoryLost, Wanted;
    var c := s.cursors[id];
    var g := Sampled(c.ns, c.after, Wanted(batchSize), MaxSeq(s.db.rows));
    SampledPoll(s, id, batchSize);
    ReadPoll(s, id, g);
    var read := Read(g.ns, g.after, g.wanted, g.head, Take(Following(s.db.rows, g.ns, g.after), g.wanted));
    var s3 := s.(gets := s.gets[id := read]);
    assert s3 == Next(Next(Next(s, GetBegin(id, batchSize)), GetHead(id)), GetSelect(id));
    assert Poll(s, id, batchSize) == Next(s3, GetCheck(id, true));
    DeliveredReply(s3, id, true);
    assert id !in Next(s3, GetCheck(id, true)).gets;
    hide Next, NextAfter;
  }

  /** From one state to the other nothing was committed and the cursor was handed these events. */
  ghost predicate HandedOver(s: State, s': State, id: nat, events: seq<Event>) {
    && Polling(s, id) && Polling(s', id) && s'.db == s.db && s'.cursors[id].ns == s.cursors[id].ns
    && s'.cursors[id].delivered == s.cursors[id].delivered + events
  }

  /** A getMore delivers the next events owed, as many as it asks for or all of them; it moves the
      cursor if there are any, and leaves a stream it could read readable. */
  lemma PollDelivers(s: State, id: nat, batchSize: int)
    requires Inv(s) && Polling(s, id)
    ensures var s' := Poll(s, id, batchSize); var batch := Take(Owed(s, id), Wanted(batchSize));
            && Inv(s') && HandedOver(s, s', id, batch)
            && Owed(s, id) == batch + Owed(s', id)
            && (Owed(s, id) != [] ==> s.cursors[id].after < s'.cursors[id].after)
  {
    var c, d, s', head := s.cursors[id], s.db, Poll(s, id, batchSize), MaxSeq(s.db.log);
    PollKeeps(s, id, batchSize);
    PollIs(s, id, batchSize);
    assert DbInv(d) && Sorted(d.log) && TailInv(d.log, s'.cursors[id]) && TailInv(d.log, c);
    hide Inv, Between, Poll, DbInv, Sorted, Wanted, MaxSeq;
    FollowingIsOwed(d, c.ns, c.after);
    MissingBelowFloor(d);
    hide Following;
    var batch := Take(Owed(s, id), Wanted(batchSize));
    BetweenMembers(d.log, c.ns, c.after, head);
    assert batch != [] ==> batch[|batch| - 1] in Owed(s, id);
    assert c.after <= s'.cursors[id].after;
    OwedAfter(d.log, c.ns, c.after, s'.cursors[id].after, Owed(s, id), batch, Owed(s', id), c.origin, c.delivered);
  }

  lemma OwedAfter(log: seq<Event>, ns: string, after: nat, after': nat, owed: seq<Event>, batch: seq<Event>,
                  owed': seq<Event>, origin: nat, delivered: seq<Event>)
    requires Sorted(log) && origin <= after <= after' && owed == Between(log, ns, after, MaxSeq(log))
    requires owed' == Between(log, ns, after', MaxSeq(log)) && (after' == after || after' <= MaxSeq(log))
    requires delivered == Between(log, ns, origin, after) && delivered + batch == Between(log, ns, origin, after')
    ensures owed == batch + owed'
  {
    BetweenJoin(log, ns, origin, after, after');
    assert (delivered + batch)[|delivered|..] == batch;
    assert (delivered + Between(log, ns, after, after'))[|delivered|..] == Between(log, ns, after, after');
    if after' <= MaxSeq(log) {
      BetweenJoin(log, ns, after, after', MaxSeq(log));
    } else {
      EmptyRange(log, ns, after);
      BetweenIs(log, ns, after, MaxSeq(log), []);
    }
  }

  lemma PollKeeps(s: State, id: nat, batchSize: int)
    requires Inv(s)
    ensures Inv(Poll(s, id, batchSize))
  {
    hide Inv, Next;
    var s1 := Next(s, GetBegin(id, batchSize));
    var s2 := Next(s1, GetHead(id));
    NextKeeps(s, GetBegin(id, batchSize));
    NextKeeps(s1, GetHead(id));
    NextKeeps(s2, GetSelect(id));
    NextKeeps(Next(s2, GetSelect(id)), GetCheck(id, true));
  }

  /** Progress: with nothing further committed, n getMores in a row deliver the first n batches of
      what is owed, in order, so enough of them deliver all of it. */
  lemma {:induction false} PollsDeliver(s: State, id: nat, batchSize: int, n: nat)
    requires Inv(s) && Polling(s, id)
    ensures HandedOver(s, Polls(s, id, batchSize, n), id, Take(Owed(s, id), Times(n, Wanted(batchSize))))
    decreases n
  {
    hide Inv, Poll, Owed, Wanted, Take, Between;
    if n > 0 {
      var s1, w := Poll(s, id, batchSize), Wanted(batchSize);
      PollDelivers(s, id, batchSize);
      assert Polling(s1, id);
      hide Polling;
      PollsDeliver(s1, id, batchSize, n - 1);
      TakeTimes(Owed(s, id), w, Owed(s1, id), n);
      hide Times;
      HandedOn(s, s1, Polls(s, id, batchSize, n), id, Take(Owed(s, id), w), Take(Owed(s1, id), Times(n - 1, w)));
    } else {
      hide Polling;
      assert s.cursors[id].delivered + [] == s.cursors[id].delivered;
      TakeNone(Owed(s, id));
    }
  }

  lemma HandedOn(a: State, b: State, c: State, id: nat, first: seq<Event>, rest: seq<Event>)
    requires HandedOver(a, b, id, first) && HandedOver(b, c, id, rest)
    ensures HandedOver(a, c, id, first + rest)
  {
    hide HistoryLost;
    var delivered := a.cursors[id].delivered;
    assert (delivered + first) + rest == delivered + (first + rest);
  }

  function Times(n: nat, w: nat): nat {
    n * w
  }

  lemma TakeNone(s: seq<Event>)
    ensures Take(s, 0) == []
  {
  }

  lemma TakeTimes(s: seq<Event>, w: nat, rest: seq<Event>, n: nat)
    requires s == Take(s, w) + rest && 0 < n
    ensures Take(s, w) + Take(rest, Times(n - 1, w)) == Take(s, Times(n, w))
  {
    assert Times(n, w) == w + Times(n - 1, w);
    TakeMore(s, w, rest, Times(n - 1, w));
  }

  lemma TakeMore(s: seq<Event>, w: nat, rest: seq<Event>, more: nat)
    requires s == Take(s, w) + rest
    ensures Take(s, w) + Take(rest, more) == Take(s, w + more)
  {
  }

  /** Refusal is exact: it needs an event after the resume point that was deleted, a resume point
      before the legacy boundary, or a positive token for an oplog that was never written; and when
      it does not happen, every event after the resume point is still stored. */
  lemma HistoryLostExactly(d: Db, after: nat)
    requires DbInv(d)
    ensures HistoryLost(d, after) <==>
              || (exists e :: e in d.deleted && after < e.sn)
              || after < d.history.baselineSeq
              || (0 < after && d.log == [])
    ensures !HistoryLost(d, after) ==> forall e :: e in d.log && after < e.sn ==> e in d.rows
  {
    MissingBelowFloor(d);
    if d.deleted != {} {
      var e :| e in d.deleted && e.sn == d.history.prunedSeq;
    }
  }

  // ---------------------------------------------------------------- the deletion record

  ghost predicate DeletionRecord(d: Db) {
    var h := d.history;
    && (forall e :: e in d.log && e !in d.rows ==>
          (e in d.deleted && e.sn <= h.prunedSeq && AtMost(e.ts, h.pruned)) || e.sn <= h.baselineSeq)
    && (d.deleted != {} ==> exists e :: e in d.deleted && e.sn == h.prunedSeq)
    && (d.deleted != {} ==> exists e :: e in d.deleted && e.ts == h.pruned)
    && (d.deleted == {} ==> h.prunedSeq == 0 && h.pruned == Stamp(0, 0))
    && (forall e :: e in d.deleted ==> e in d.log && e !in d.rows)
    && (d.log != [] ==> d.rows != [] && d.rows[|d.rows| - 1] == d.log[|d.log| - 1])
  }

  /** In every reachable state the record accounts for every missing event, both watermarks are
      maxima over the events actually deleted, and the newest event is stored. */
  lemma DeletionRecordExact(s0: State, legacy: bool, steps: seq<Step>)
    requires Installed(s0, legacy)
    ensures DeletionRecord(Run(s0, steps).db)
  {
    InstalledInv(s0, legacy);
    RunKeeps(s0, steps);
    hide Run, Installed, Advances, PrunerInv, TailsInv, GetsInv, RegistryInv, DeletionRecord;
    RecordHolds(Run(s0, steps).db);
  }

  lemma RecordHolds(d: Db)
    requires DbInv(d)
    ensures DeletionRecord(d)
  {
    hide Sorted, LockInv;
  }

  /** Only a committed pruning transaction deletes rows or moves a watermark: rolled-back writers,
      failed passes and consumers leave both alone. */
  lemma OnlyPruneCommitDeletes(s: State, step: Step)
    requires Inv(s) && !(step.PruneCommit? && s.pruner.Marked?)
    ensures var d, d' := s.db, Next(s, step).db;
            Grew(d, d') && d'.history == d.history && d'.deleted == d.deleted
  {
    hide Inv, Victims, MaxSeq, MaxStamp, Doomed, PlanWith, GetStep, OpenStep, Advanced, Tick, OperationTime;
    OnlyReads(s, step);
  }

  /** The log has grown, the table with it, and nothing has been removed. */
  ghost predicate Grew(d: Db, d': Db) {
    d.log <= d'.log && d'.rows == d.rows + d'.log[|d.log|..]
  }

  lemma GrewFurther(d: Db, d': Db, d'': Db)
    requires Grew(d, d') && Grew(d', d'')
    ensures Grew(d, d'')
  {
    assert d''.log[|d.log|..] == d'.log[|d.log|..] + d''.log[|d'.log|..];
  }

  // ---------------------------------------------------------------- one order

  /** A sampled head is final: nothing at or below it can be committed later, and heads never fall. */
  lemma HeadIsFinal(s: State, steps: seq<Step>)
    requires Inv(s)
    ensures var head := MaxSeq(s.db.rows); var d' := Run(s, steps).db;
            && head <= MaxSeq(d'.rows)
            && (forall e :: e in d'.log && e.sn <= head ==> e in s.db.log)
            && s.db.log <= d'.log && Sorted(d'.log)
  {
    RunKeeps(s, steps);
    MissingBelowFloor(s.db);
    MissingBelowFloor(Run(s, steps).db);
    LogGrows(s.db.log, Run(s, steps).db.log);
  }

  /** With non-decreasing readings the stamps increase along the log, whatever was rolled back. */
  lemma StampsFollowSequence(s0: State, legacy: bool, steps: seq<Step>)
    requires Installed(s0, legacy) && Timely(s0, steps)
    requires StampsIncrease(s0.db.log) && s0.db.clock.t <= s0.db.reading
    ensures StampsIncrease(Run(s0, steps).db.log)
  {
    InstalledInv(s0, legacy);
    RunTime(s0, steps);
  }

  // Without the hypothesis the order holds exactly when the seconds of the log never fall.

  /** The seconds along a log never fall.  An event's second is the reading its append used. */
  ghost predicate SecondsRise(s: seq<Event>) {
    forall i, j :: 0 <= i < j < |s| ==> s[i].ts.t <= s[j].ts.t
  }

  /** Neighbours whose seconds do not fall are strictly in order. */
  ghost predicate NeighboursTick(s: seq<Event>) {
    forall i :: 0 <= i < |s| - 1 && s[i].ts.t <= s[i + 1].ts.t ==> Before(s[i].ts, s[i + 1].ts)
  }

  function Pending(d: Db): seq<Event> {
    if d.lock.Writer? then d.lock.pending else []
  }

  lemma AppendTicks(d: Db, w: nat, now: nat, op: Op, ns: string, o: string, o2: Option<string>)
    requires LockInv(d.lock, d.clock, d.log, d.nextSeq) && NeighboursTick(d.log + Pending(d))
    ensures var d' := AppendEvent(d, w, now, op, ns, o, o2);
            && NeighboursTick(d'.log + Pending(d'))
            && (d' != d ==> Pending(d')[|Pending(d)|].ts.t == now)
  {
    var d' := AppendEvent(d, w, now, op, ns, o, o2);
    if d' != d {
      AppendShape(d, w, now, op, ns, o, o2);
      var all, e := d.log + Pending(d), d'.lock.pending[|Pending(d)|];
      assert e.ts == Tick(LastStamp(all, Stamp(0, 0)), now);
      assert d'.log + Pending(d') == all + [e];
      hide AppendEvent, LockInv, OperationTime, NeighboursTick, Tick;
      TickAfter(all, e, now);
    }
  }

  lemma TickAfter(s: seq<Event>, e: Event, now: nat)
    requires NeighboursTick(s) && e.ts == Tick(LastStamp(s, Stamp(0, 0)), now)
    ensures NeighboursTick(s + [e]) && e.ts.t == now
  {
    var r := s + [e];
    forall i | 0 <= i < |r| - 1 && r[i].ts.t <= r[i + 1].ts.t ensures Before(r[i].ts, r[i + 1].ts) {
      if i + 1 < |s| { assert s[i].ts.t <= s[i + 1].ts.t; }
    }
  }

  lemma PrefixTicks(s: seq<Event>, k: nat)
    requires NeighboursTick(s) && k <= |s|
    ensures NeighboursTick(s[..k])
  {
  }

  lemma WriterTicks(d: Db, step: Step)
    requires NeighboursTick(d.log + Pending(d))
    requires step.RollbackTo? || step.Commit? || step.Rollback?
    ensures var d' := match step
                      case RollbackTo(w, keep) => UndoTo(d, w, keep)
                      case Commit(w) => CommitWriter(d, w)
                      case Rollback(w) => RollbackWriter(d, w);
            NeighboursTick(d'.log + Pending(d'))
  {
    var all := d.log + Pending(d);
    hide NeighboursTick;
    assert all[..|d.log|] == d.log == d.log + [];
    PrefixTicks(all, |d.log|);
    if step.RollbackTo? && step.keep <= |Pending(d)| {
      assert all[..|d.log| + step.keep] == d.log + Pending(d)[..step.keep];
      PrefixTicks(all, |d.log| + step.keep);
    }
    assert step.Commit? ==> all + [] == all;
  }

  lemma NextTicks(s: State, step: Step)
    requires Inv(s) && NeighboursTick(s.db.log + Pending(s.db))
    ensures var d' := Next(s, step).db; NeighboursTick(d'.log + Pending(d'))
  {
    assert LockInv(s.db.lock, s.db.clock, s.db.log, s.db.nextSeq);
    hide Inv, LockInv, NeighboursTick;
    if WriterStep(step) {
      if step.Append? {
        AppendTicks(s.db, step.w, step.now, step.op, step.ns, step.o, step.o2);
      } else {
        WriterTicks(s.db, step);
      }
    } else {
      OthersOnlyRead(s, step);
      hide Next;
    }
  }

  lemma {:induction false} RunTicks(s: State, steps: seq<Step>)
    requires Inv(s) && NeighboursTick(s.db.log + Pending(s.db))
    ensures var d' := Run(s, steps).db; NeighboursTick(d'.log + Pending(d'))
    decreases |steps|
  {
    if steps != [] {
      hide Inv, NeighboursTick, Next;
      NextKeeps(s, steps[0]);
      NextTicks(s, steps[0]);
      RunTicks(Next(s, steps[0]), steps[1..]);
    }
  }

  lemma {:induction false} TicksInOrder(s: seq<Event>)
    requires NeighboursTick(s) && SecondsRise(s)
    ensures StampsIncrease(s)
  {
    if |s| > 1 {
      var front, last := s[..|s| - 1], s[|s| - 1];
      TicksInOrder(front);
      assert s[|s| - 2].ts.t <= s[|s| - 2 + 1].ts.t;
      assert Before(s[|s| - 2].ts, last.ts);
      forall i | 0 <= i < |s| - 1 ensures Before(s[i].ts, last.ts) {
        assert i < |s| - 2 ==> Before(front[i].ts, front[|s| - 2].ts);
      }
      assert forall i, j :: 0 <= i < j < |s| - 1 ==> Before(front[i].ts, front[j].ts);
    }
  }

  /** Over every run, whatever the readings, the interleaving and the rollbacks: stamps follow
      sequence numbers exactly when no committed event has a smaller second than an earlier one. */
  lemma StampsFollowSequenceIff(s0: State, legacy: bool, steps: seq<Step>)
    requires Installed(s0, legacy) && StampsIncrease(s0.db.log)
    ensures StampsIncrease(Run(s0, steps).db.log) <==> SecondsRise(Run(s0, steps).db.log)
  {
    InstalledInv(s0, legacy);
    assert s0.db.log + Pending(s0.db) == s0.db.log;
    RunTicks(s0, steps);
    var d := Run(s0, steps).db;
    hide Installed, Inv, Run;
    PrefixTicks(d.log + Pending(d), |d.log|);
    assert (d.log + Pending(d))[..|d.log|] == d.log;
    if SecondsRise(d.log) { TicksInOrder(d.log); }
  }

  /** A server nobody has written to yet. */
  function FreshServer(): State {
    State(Db([], Stamp(0, 0), 1, Free, History(0, Stamp(0, 0), false, 0, Stamp(0, 0)), [], {}, 0),
          Idle, map[], map[], map[], 1)
  }

  /** The second writer's statement has fixed its second while waiting for the first writer's lock,
      which a later statement got. */
  function TwoWriters(ns: string, o: string): seq<Step> {
    [Append(1, 7, Insert, ns, o, None), Commit(1), Append(2, 6, Insert, ns, o, None), Commit(2)]
  }

  lemma OneWrite(s: State, w: nat, now: nat, ns: string, o: string)
    requires s.db.lock.Free? && s.db.nextSeq <= MAX_UINT64 && now <= MAX_UINT32 && s.db.clock.t != now
    ensures var d' := Next(Next(s, Append(w, now, Insert, ns, o, None)), Commit(w)).db;
            && d'.log == s.db.log + [Event(s.db.nextSeq, Stamp(now, 1), Insert, ns, o, None)]
            && d'.lock.Free? && d'.nextSeq == s.db.nextSeq + 1 && d'.clock == Stamp(now, 1)
  {
  }

  /** A run where the order fails although no clock is set back. */
  lemma WaitingWriterBreaksOrder(ns: string, o: string)
    ensures Installed(FreshServer(), false) && FreshServer().db.clock.t <= FreshServer().db.reading
    ensures !StampsIncrease(Run(FreshServer(), TwoWriters(ns, o)).db.log)
  {
    var s0, steps := FreshServer(), TwoWriters(ns, o);
    OneWrite(s0, 1, 7, ns, o);
    OneWrite(Next(Next(s0, steps[0]), steps[1]), 2, 6, ns, o);
    hide Next;
    RunFour(s0, steps[0], steps[1], steps[2], steps[3]);
    var log := Run(s0, steps).db.log;
    assert log[0].ts == Stamp(7, 1) && log[1].ts == Stamp(6, 1);
  }

  lemma RunFour(s: State, a: Step, b: Step, c: Step, d: Step)
    ensures Run(s, [a, b, c, d]) == Next(Next(Next(Next(s, a), b), c), d)
  {
    hide Next;
    var steps := [a, b, c, d];
    assert steps[1..] == [b, c, d] && [b, c, d][1..] == [c, d] && [c, d][1..] == [d] && [d][1..] == [];
    assert Run(s, steps) == Run(Next(s, a), [b, c, d]) == Run(Next(Next(s, a), b), [c, d]);
    assert Run(Next(Next(Next(s, a), b), c), [d]) == Run(Next(Next(Next(Next(s, a), b), c), d), []);
  }

  // ---------------------------------------------------------------- starting at a time

  /** A resolved origin splits everything ever committed at the requested time, with nothing of the
      later part missing; refusal is exactly a deleted event at or after the time, or a time before
      the legacy boundary. */
  lemma ResolvedTimeExact(d: Db, ts: Stamp)
    requires DbInv(d) && StampsIncrease(d.log) && BaselineInv(d)
    ensures ResolveTime(d, ts).None? <==>
              || (exists e :: e in d.deleted && AtMost(ts, e.ts))
              || (d.history.legacy && Before(ts, d.history.baseline))
    ensures ResolveTime(d, ts).Some? ==>
              forall e :: e in d.log ==>
                (AtMost(ts, e.ts) <==> ResolveTime(d, ts).value < e.sn) &&
                (AtMost(ts, e.ts) ==> e in d.rows)
  {
    var h := d.history;
    if d.deleted != {} {
      var top :| top in d.deleted && top.ts == h.pruned;
    }
    if ResolveTime(d, ts).Some? {
      forall e | e in d.log
        ensures AtMost(ts, e.ts) <==> ResolveTime(d, ts).value < e.sn
        ensures AtMost(ts, e.ts) ==> e in d.rows
      {
        SplitAtTime(d, ts, e);
      }
    }
  }

  lemma SameOrder(log: seq<Event>, a: Event, b: Event)
    requires Sorted(log) && StampsIncrease(log) && a in log && b in log
    ensures a.sn < b.sn <==> Before(a.ts, b.ts)
  {
    var i :| 0 <= i < |log| && log[i] == a;
    var j :| 0 <= j < |log| && log[j] == b;
  }

  lemma SplitAtTime(d: Db, ts: Stamp, e: Event)
    requires DbInv(d) && StampsIncrease(d.log) && BaselineInv(d)
    requires ResolveTime(d, ts).Some? && e in d.log
    ensures AtMost(ts, e.ts) <==> ResolveTime(d, ts).value < e.sn
    ensures AtMost(ts, e.ts) ==> e in d.rows
  {
    if AtMost(ts, e.ts) { BelowLater(d, ts, e); }
    MissingBelowFloor(d);
    assert Sorted(d.log) && Sorted(d.rows) && StampsIncrease(d.log) && 0 < e.sn && forall x :: x in d.rows ==> x in d.log;
    hide DbInv, BaselineInv, Sorted, StampsIncrease;
    LastEarlier(d.log, d.rows, ts, e);
  }

  /** An accepted time is above the deleted events and the legacy boundary, so what is at or after it
      comes after both watermarks. */
  lemma BelowLater(d: Db, ts: Stamp, e: Event)
    requires DbInv(d) && StampsIncrease(d.log) && BaselineInv(d)
    requires ResolveTime(d, ts).Some? && e in d.log && AtMost(ts, e.ts)
    ensures Floor(d) < e.sn
  {
    var h := d.history;
    if h.prunedSeq != 0 {
      var top :| top in d.deleted && top.sn == h.prunedSeq;
      assert Before(top.ts, ts);
      SameOrder(d.log, top, e);
    }
    if h.legacy {
      var oldest :| oldest in d.log && oldest.sn == h.baselineSeq + 1 && oldest.ts == h.baseline;
      assert AtMost(oldest.ts, ts);
      SameOrder(d.log, e, oldest);
    }
    hide Sorted, StampsIncrease, LockInv, LastStamp, TablesInv;
  }

  /** The newest stored row before a time splits the stored rows at that time. */
  lemma LastEarlier(log: seq<Event>, rows: seq<Event>, ts: Stamp, e: Event)
    requires Sorted(log) && Sorted(rows) && StampsIncrease(log) && e in log && 0 < e.sn
    requires forall x :: x in rows ==> x in log
    ensures var before := MaxSeq(Scan(rows, (x: Event) => Before(x.ts, ts)));
            (e in rows && Before(e.ts, ts) ==> e.sn <= before) && (AtMost(ts, e.ts) ==> before < e.sn)
  {
    var earlier := Scan(rows, (x: Event) => Before(x.ts, ts));
    ScanMembers(rows, (x: Event) => Before(x.ts, ts));
    ScanSorted(rows, (x: Event) => Before(x.ts, ts));
    MaxSeqBounds(earlier);
    assert earlier == [] ==> MaxSeq(earlier) == 0;
    hide Sorted, StampsIncrease, Scan, MaxSeq;
    if e in rows && Before(e.ts, ts) { assert e in earlier; }
    if earlier != [] && AtMost(ts, e.ts) {
      var last :| last in earlier && last.sn == MaxSeq(earlier);
      SameOrder(log, last, e);
    }
  }

  /** The earliest stamp an event not yet committed can still get. */
  function EarliestLater(d: Db): Stamp {
    if d.lock.Writer? && d.lock.pending != [] then d.lock.pending[0].ts
    else Tick(d.clock, d.reading)
  }

  /** An origin resolved for a time that is not ahead of the next stamp stays right for ever … */
  lemma ResolvedTimeStays(s: State, steps: seq<Step>, ts: Stamp, e: Event)
    requires Sound(s) && Timely(s, steps)
    requires ResolveTime(s.db, ts).Some? && AtMost(ts, EarliestLater(s.db))
    requires e in Run(s, steps).db.log
    ensures AtMost(ts, e.ts) <==> ResolveTime(s.db, ts).value < e.sn
  {
    hide Inv, DbInv, TimeInv, BaselineInv, Timely, Run, ResolveTime, EarliestLater, Advances, MaxSeq;
    RunNews(s, steps, e);
    SoundDb(s);
    TimedLog(s.db);
    hide StampsIncrease;
    ResolvedTimeExact(s.db, ts);
    OriginBelowHead(s.db, ts);
  }

  lemma TimedLog(d: Db)
    requires TimeInv(d)
    ensures StampsIncrease(d.log)
  {
  }

  lemma SoundDb(s: State)
    requires Sound(s)
    ensures DbInv(s.db)
  {
    hide DbInv, PrunerInv, RegistryInv, TailsInv, GetsInv, TimeInv, BaselineInv;
  }

  /** An event of a later log was there before or is newer in both senses. */
  lemma RunNews(s: State, steps: seq<Step>, e: Event)
    requires Inv(s) && TimeInv(s.db) && Timely(s, steps) && e in Run(s, steps).db.log
    ensures e in s.db.log || (MaxSeq(s.db.log) < e.sn && AtMost(EarliestLater(s.db), e.ts))
  {
    hide Inv, TimeInv, Timely, Run, EarliestLater, MaxSeq, AtMost;
    RunKeeps(s, steps);
    RunEarliest(s, steps);
  }

  lemma OriginBelowHead(d: Db, ts: Stamp)
    requires DbInv(d) && BaselineInv(d) && ResolveTime(d, ts).Some?
    ensures ResolveTime(d, ts).value <= MaxSeq(d.log)
  {
    var h := d.history;
    var earlier := Scan(d.rows, (x: Event) => Before(x.ts, ts));
    ScanMembers(d.rows, (x: Event) => Before(x.ts, ts));
    MaxSeqBounds(d.log);
    if earlier != [] { assert earlier[|earlier| - 1] in d.log; }
  }

  lemma AppendEarliest(d: Db, w: nat, now: nat, op: Op, ns: string, o: string, o2: Option<string>)
    requires LockInv(d.lock, d.clock, d.log, d.nextSeq) && TimeInv(d) && d.reading <= now
    ensures AtMost(EarliestLater(d), EarliestLater(AppendEvent(d, w, now, op, ns, o, o2)))
  {
    if d.lock.Writer? && d.lock.pending != [] { StampsFromFirst(d.lock.pending); }
    hide StampsIncrease, Sorted;
  }

  lemma UndoEarliest(d: Db, w: nat, keep: nat)
    requires LockInv(d.lock, d.clock, d.log, d.nextSeq) && TimeInv(d)
    ensures AtMost(EarliestLater(d), EarliestLater(UndoTo(d, w, keep)))
    ensures AtMost(EarliestLater(d), EarliestLater(RollbackWriter(d, w)))
  {
    if d.lock.Writer? && d.lock.pending != [] { StampsFromFirst(d.lock.pending); }
    hide StampsIncrease, Sorted;
  }

  lemma CommitEarliest(d: Db, w: nat)
    requires LockInv(d.lock, d.clock, d.log, d.nextSeq) && TimeInv(d)
    ensures AtMost(EarliestLater(d), EarliestLater(CommitWriter(d, w)))
    ensures forall e :: e in CommitWriter(d, w).log ==> e in d.log || AtMost(EarliestLater(d), e.ts)
  {
    if d.lock.Writer? && d.lock.pending != [] { StampsFromFirst(d.lock.pending); }
    hide StampsIncrease, Sorted;
  }

  lemma WriterEarliest(d: Db, step: Step)
    requires LockInv(d.lock, d.clock, d.log, d.nextSeq) && TimeInv(d)
    requires step.Append? || step.RollbackTo? || step.Commit? || step.Rollback?
    requires step.Append? ==> d.reading <= step.now
    ensures var d' := match step
                      case Append(w, now, op, ns, o, o2) => AppendEvent(d, w, now, op, ns, o, o2)
                      case RollbackTo(w, keep) => UndoTo(d, w, keep)
                      case Commit(w) => CommitWriter(d, w)
                      case Rollback(w) => RollbackWriter(d, w);
            && AtMost(EarliestLater(d), EarliestLater(d'))
            && (forall e :: e in d'.log ==> e in d.log || AtMost(EarliestLater(d), e.ts))
  {
    hide LockInv, TimeInv, EarliestLater, AtMost;
    if step.Append? {
      AppendEarliest(d, step.w, step.now, step.op, step.ns, step.o, step.o2);
    } else if step.RollbackTo? {
      UndoEarliest(d, step.w, step.keep);
    } else if step.Commit? {
      CommitEarliest(d, step.w);
    } else {
      UndoEarliest(d, step.w, 0);
    }
  }

  lemma NextEarliest(s: State, step: Step)
    requires Inv(s) && TimeInv(s.db) && (step.Append? ==> s.db.reading <= step.now)
    ensures AtMost(EarliestLater(s.db), EarliestLater(Next(s, step).db))
    ensures forall e :: e in Next(s, step).db.log ==> e in s.db.log || AtMost(EarliestLater(s.db), e.ts)
  {
    assert LockInv(s.db.lock, s.db.clock, s.db.log, s.db.nextSeq);
    hide Inv, TimeInv, LockInv;
    if WriterStep(step) {
      WriterEarliest(s.db, step);
    } else {
      OthersOnlyRead(s, step);
      hide Next;
    }
  }

  lemma StampsFromFirst(s: seq<Event>)
    requires StampsIncrease(s) && s != []
    ensures forall e :: e in s ==> AtMost(s[0].ts, e.ts)
    ensures AtMost(s[0].ts, LastStamp(s, Stamp(0, 0)))
  {
  }

  lemma {:induction false} RunEarliest(s: State, steps: seq<Step>)
    requires Inv(s) && TimeInv(s.db) && Timely(s, steps)
    ensures AtMost(EarliestLater(s.db), EarliestLater(Run(s, steps).db))
    ensures forall e :: e in Run(s, steps).db.log ==> e in s.db.log || AtMost(EarliestLater(s.db), e.ts)
    decreases |steps|
  {
    hide Inv, TimeInv, Next, EarliestLater, AtMost;
    if steps != [] {
      var s' := Next(s, steps[0]);
      FirstStep(s, steps);
      hide Timely, Run;
      NextKeeps(s, steps[0]);
      NextTime(s, steps[0]);
      NextEarliest(s, steps[0]);
      RunEarliest(s', steps[1..]);
      var a, b := EarliestLater(s.db), EarliestLater(s'.db);
      AtMostChain(a, b, EarliestLater(Run(s, steps).db));
      forall e | e in Run(s, steps).db.log ensures e in s.db.log || AtMost(a, e.ts) {
        AtMostChain(a, b, e.ts);
      }
    } else {
      assert AtMost(EarliestLater(s.db), EarliestLater(s.db)) by { AtMostSelf(EarliestLater(s.db)); }
    }
  }

  lemma FirstStep(s: State, steps: seq<Step>)
    requires steps != [] && Timely(s, steps)
    ensures steps[0].Append? ==> s.db.reading <= steps[0].now
    ensures Timely(Next(s, steps[0]), steps[1..]) && Run(s, steps) == Run(Next(s, steps[0]), steps[1..])
  {
    hide Next;
  }

  lemma AtMostSelf(a: Stamp)
    ensures AtMost(a, a)
  {
  }

  lemma AtMostChain(a: Stamp, b: Stamp, c: Stamp)
    ensures AtMost(a, b) && AtMost(b, c) ==> AtMost(a, c)
  {
  }

  /** Some event can still be committed: one is pending, or the clock and the sequence have room. */
  predicate RoomForMore(d: Db) {
    || (d.lock.Writer? && d.lock.pending != [])
    || (d.nextSeq <= MAX_UINT64 && d.reading <= MAX_UINT32 && Tick(d.clock, d.reading).i <= MAX_UINT32)
  }

  lemma RunOne(s: State, step: Step)
    ensures Run(s, [step]) == Next(s, step)
    ensures Timely(s, [step]) <==> (step.Append? ==> s.db.reading <= step.now)
  {
    assert [step][1..] == [] && Run(Next(s, step), []) == Next(s, step) && Timely(Next(s, step), []);
  }

  lemma RunMore(s: State, step: Step, steps: seq<Step>)
    ensures Run(s, [step] + steps) == Run(Next(s, step), steps)
    ensures Timely(s, [step] + steps) <==> (step.Append? ==> s.db.reading <= step.now) && Timely(Next(s, step), steps)
  {
    assert ([step] + steps)[1..] == steps;
  }

  lemma AbortFrees(s: State)
    ensures Next(s, PruneAbort).db == s.db.(lock := if s.db.lock.Pruning? then Free else s.db.lock)
  {
  }

  lemma FirstAppend(d: Db, w: nat)
    requires d.lock.Free? || (d.lock.Writer? && d.lock.w == w && d.lock.pending == [] && d.lock.clock == d.clock)
    requires RoomForMore(d)
    ensures var d' := AppendEvent(d, w, d.reading, Insert, [], [], None);
            && d'.lock.Writer? && d'.lock.w == w && d'.log == d.log
            && d'.lock.pending == [Event(d.nextSeq, Tick(d.clock, d.reading), Insert, [], [], None)]
  {
  }

  lemma FreshAppend(s: State, w: nat)
    requires Inv(s) && RoomForMore(s.db)
    requires if s.db.lock.Writer? then s.db.lock.w == w && s.db.lock.pending == [] else true
    ensures var s2 := Next(Next(s, PruneAbort), Append(w, s.db.reading, Insert, [], [], None));
            && s2.db.lock.Writer? && s2.db.lock.w == w && s2.db.log == s.db.log
            && s2.db.lock.pending == [Event(s.db.nextSeq, Tick(s.db.clock, s.db.reading), Insert, [], [], None)]
    ensures Next(s, PruneAbort).db.reading == s.db.reading
  {
    assert LockInv(s.db.lock, s.db.clock, s.db.log, s.db.nextSeq);
    hide Inv, Sorted, MaxSeq, PruneStep, AppendEvent, Tick;
    AbortFrees(s);
    FirstAppend(Next(s, PruneAbort).db, w);
  }

  lemma CommitPublishes(s: State, w: nat, e: Event)
    requires s.db.lock.Writer? && s.db.lock.w == w && e in s.db.lock.pending
    ensures e in Next(s, Commit(w)).db.log
  {
  }

  /** One more event, committed at the earliest moment still possible. */
  lemma EarliestCommit(s: State) returns (steps: seq<Step>, e: Event)
    requires Inv(s) && RoomForMore(s.db)
    ensures Timely(s, steps) && e in Run(s, steps).db.log && e.ts == EarliestLater(s.db)
    ensures MaxSeq(s.db.log) < e.sn
  {
    var d := s.db;
    NewestBelowNext(d);
    assert d.lock.Writer? ==> forall p :: p in d.lock.pending ==> MaxSeq(d.log) < p.sn;
    hide Inv, LogAdvances, Victims, Timely, Run, Next, MaxSeq, RoomForMore;
    if d.lock.Writer? && d.lock.pending != [] {
      e := d.lock.pending[0];
      steps := [Commit(d.lock.w)];
      RunOne(s, Commit(d.lock.w));
      CommitPublishes(s, d.lock.w, e);
    } else {
      var w := if d.lock.Writer? then d.lock.w else 0;
      var append := Append(w, d.reading, Insert, [], [], None);
      e := Event(d.nextSeq, Tick(d.clock, d.reading), Insert, [], [], None);
      FreshAppend(s, w);
      var s1 := Next(s, PruneAbort);
      var s2 := Next(s1, append);
      RunOne(s2, Commit(w));
      RunMore(s1, append, [Commit(w)]);
      RunMore(s, PruneAbort, [append] + [Commit(w)]);
      steps := [PruneAbort] + ([append] + [Commit(w)]);
      CommitPublishes(s2, w, e);
    }
  }

  /** … and one resolved for a later time does not: a stream opened for a moment the clock has not
      reached delivers the events committed before that moment too. */
  lemma ResolvedTimeBreaks(s: State, ts: Stamp) returns (steps: seq<Step>, e: Event)
    requires Inv(s) && BaselineInv(s.db) && RoomForMore(s.db)
    requires ResolveTime(s.db, ts).Some? && Before(EarliestLater(s.db), ts)
    ensures Timely(s, steps) && e in Run(s, steps).db.log
    ensures !AtMost(ts, e.ts) && ResolveTime(s.db, ts).value < e.sn
  {
    OriginBelowHead(s.db, ts);
    hide Inv, RoomForMore, BaselineInv, ResolveTime;
    steps, e := EarliestCommit(s);
  }

  lemma NewestBelowNext(d: Db)
    requires DbInv(d)
    ensures MaxSeq(d.log) < d.nextSeq
  {
  }

  /** The exact condition, in terms of the writer at work and the last reading … */
  lemma ResolvedTimeStaysIff(s: State, ts: Stamp)
    requires Sound(s) && RoomForMore(s.db) && ResolveTime(s.db, ts).Some?
    ensures (forall steps: seq<Step>, e: Event :: Timely(s, steps) && e in Run(s, steps).db.log ==>
               (AtMost(ts, e.ts) <==> ResolveTime(s.db, ts).value < e.sn))
            <==> AtMost(ts, EarliestLater(s.db))
  {
    if AtMost(ts, EarliestLater(s.db)) {
      forall steps: seq<Step>, e: Event | Timely(s, steps) && e in Run(s, steps).db.log
        ensures AtMost(ts, e.ts) <==> ResolveTime(s.db, ts).value < e.sn
      {
        ResolvedTimeStays(s, steps, ts, e);
      }
    } else {
      var steps, e := ResolvedTimeBreaks(s, ts);
    }
  }

  /** What a client can see of a database: the stored rows, the clock row and the history row. */
  predicate LooksLike(d: Db, d': Db) {
    d'.rows == d.rows && d'.clock == d.clock && d'.history == d.history
  }

  /** The origin splits every event committed by then or later at the requested time. */
  ghost predicate SplitsForEver(s: State, ts: Stamp, origin: nat) {
    forall steps: seq<Step>, e: Event :: Timely(s, steps) && e in Run(s, steps).db.log ==>
      (AtMost(ts, e.ts) <==> origin < e.sn)
  }

  lemma EarliestAfterClock(d: Db)
    requires TimeInv(d)
    ensures AtMost(Stamp(d.clock.t, d.clock.i + 1), EarliestLater(d))
  {
    hide StampsIncrease;
    if d.lock.Writer? && d.lock.pending != [] { assert d.lock.pending[0] in d.lock.pending; }
  }

  /** The same tables with no session at work and a clock that has not moved on. */
  function Quiescent(s: State): State {
    var d := s.db;
    State(d.(lock := Free, reading := d.clock.t, nextSeq := MaxSeq(d.log) + 1), Idle, map[], map[], map[], s.nextId)
  }

  lemma QuiescentHolds(s: State)
    requires Inv(s) && TimeInv(s.db) && BaselineInv(s.db) && MaxSeq(s.db.rows) < MAX_UINT64
    ensures Inv(Quiescent(s)) && TimeInv(Quiescent(s).db) && BaselineInv(Quiescent(s).db)
    ensures MaxSeq(s.db.log) < MAX_UINT64
  {
    MissingBelowFloor(s.db);
    MaxSeqBounds(s.db.log);
    hide Sorted, StampsIncrease, AccountedInv, WatermarkInv, MaxSeq;
  }

  /** … and the one a client can check before it opens the stream: the clock row read with the stored
      rows decides it.  Up to the clock's next stamp the split is right for ever, whatever other
      sessions are doing; of a later time it can be wrong. */
  lemma ResolvedTimeSafeIff(s: State, ts: Stamp)
    requires Sound(s) && ResolveTime(s.db, ts).Some?
    requires MaxSeq(s.db.rows) < MAX_UINT64 && s.db.clock.t <= MAX_UINT32 && s.db.clock.i < MAX_UINT32
    ensures (forall other: State | Sound(other) && LooksLike(s.db, other.db) ::
               SplitsForEver(other, ts, ResolveTime(s.db, ts).value))
            <==> AtMost(ts, Stamp(s.db.clock.t, s.db.clock.i + 1))
  {
    hide Sound, SplitsForEver;
    if AtMost(ts, Stamp(s.db.clock.t, s.db.clock.i + 1)) {
      hide AtMost;
      forall other: State | Sound(other) && LooksLike(s.db, other.db)
        ensures SplitsForEver(other, ts, ResolveTime(s.db, ts).value)
      {
        SameResolved(s.db, other.db, ts);
        SafeUpToClock(other, ts);
      }
    } else {
      UnsafeBeyondClock(s, ts);
    }
  }

  lemma SafeUpToClock(s: State, ts: Stamp)
    requires Sound(s) && ResolveTime(s.db, ts).Some? && AtMost(ts, Stamp(s.db.clock.t, s.db.clock.i + 1))
    ensures SplitsForEver(s, ts, ResolveTime(s.db, ts).value)
  {
    EarliestAfterClock(s.db);
    hide Inv, TimeInv, BaselineInv, Run, Timely, EarliestLater, ResolveTime;
    assert AtMost(ts, EarliestLater(s.db));
    hide AtMost;
    forall steps: seq<Step>, e: Event | Timely(s, steps) && e in Run(s, steps).db.log
      ensures AtMost(ts, e.ts) <==> ResolveTime(s.db, ts).value < e.sn
    {
      ResolvedTimeStays(s, steps, ts, e);
    }
  }

  lemma UnsafeBeyondClock(s: State, ts: Stamp)
    requires Sound(s) && ResolveTime(s.db, ts).Some? && !AtMost(ts, Stamp(s.db.clock.t, s.db.clock.i + 1))
    requires MaxSeq(s.db.rows) < MAX_UINT64 && s.db.clock.t <= MAX_UINT32 && s.db.clock.i < MAX_UINT32
    ensures var other := Quiescent(s);
            Sound(other) && LooksLike(s.db, other.db) && !SplitsForEver(other, ts, ResolveTime(s.db, ts).value)
  {
    var other := Quiescent(s);
    QuiescentHolds(s);
    hide Inv, TimeInv, BaselineInv, Run, Timely, ResolveTime, MaxSeq;
    SameResolved(s.db, other.db, ts);
    var steps, e := ResolvedTimeBreaks(other, ts);
  }

  lemma SameResolved(d: Db, d': Db, ts: Stamp)
    requires LooksLike(d, d')
    ensures ResolveTime(d', ts) == ResolveTime(d, ts)
  {
  }

  // ---------------------------------------------------------------- stamps and fences

  /** The stamp a write reports, read in its own transaction before the commit, is that of its last
      event, and it is ahead of everything committed earlier. */
  lemma WriteStamp(s: State, w: nat)
    requires Inv(s) && TimeInv(s.db)
    requires s.db.lock.Writer? && s.db.lock.w == w && s.db.lock.pending != []
    ensures var log' := Next(s, Commit(w)).db.log;
            && log' == s.db.log + s.db.lock.pending
            && OperationTime(s.db, w) == log'[|log'| - 1].ts == s.db.lock.pending[|s.db.lock.pending| - 1].ts
            && (forall e :: e in s.db.log ==> Before(e.ts, OperationTime(s.db, w)))
  {
    var last := s.db.lock.pending[|s.db.lock.pending| - 1];
    assert last in s.db.lock.pending;
    StampsBounded(s.db.log);
  }

  /** Stamps follow commit order: a write committed later reports a later stamp. */
  lemma StampsFollowCommits(s: State, w: nat, steps: seq<Step>, w': nat)
    requires Inv(s) && TimeInv(s.db)
    requires s.db.lock.Writer? && s.db.lock.w == w && s.db.lock.pending != []
    requires Timely(Next(s, Commit(w)), steps)
    requires var d' := Run(Next(s, Commit(w)), steps).db;
             d'.lock.Writer? && d'.lock.w == w' && d'.lock.pending != []
    ensures Before(OperationTime(s.db, w), OperationTime(Run(Next(s, Commit(w)), steps).db, w'))
  {
    hide Inv, TimeInv, Next, Run, Timely, OperationTime, Before, Advances;
    var s1 := Next(s, Commit(w));
    var s2 := Run(s1, steps);
    WriteStamp(s, w);
    NextKeeps(s, Commit(w));
    NextTime(s, Commit(w));
    LaterRun(s1, steps);
    WriteStamp(s2, w');
    assert s1.db.log[|s1.db.log| - 1] in s2.db.log;
  }

  lemma LaterRun(s: State, steps: seq<Step>)
    requires Inv(s) && TimeInv(s.db) && Timely(s, steps)
    ensures var s' := Run(s, steps); Inv(s') && TimeInv(s'.db) && s.db.log <= s'.db.log
  {
    hide Inv, TimeInv, Timely, Run;
    RunKeeps(s, steps);
    RunTime(s, steps);
  }

  /** A stream started, at any later moment, at the stamp a write reported has that write's last
      event ahead of it and still stored, unless it is refused. */
  lemma FenceIsAhead(s: State, w: nat, steps: seq<Step>)
    requires Sound(s)
    requires s.db.lock.Writer? && s.db.lock.w == w && s.db.lock.pending != []
    requires Timely(Next(s, Commit(w)), steps)
    ensures var mine := s.db.lock.pending[|s.db.lock.pending| - 1];
            var d' := Run(Next(s, Commit(w)), steps).db;
            && mine in d'.log
            && (ResolveTime(d', OperationTime(s.db, w)).Some? ==>
                  ResolveTime(d', OperationTime(s.db, w)).value < mine.sn && mine in d'.rows)
  {
    hide Sound, Next, Run, Timely, OperationTime, ResolveTime, DbInv, TimeInv, BaselineInv;
    var s1 := Next(s, Commit(w));
    var s2 := Run(s1, steps);
    var mine := s.db.lock.pending[|s.db.lock.pending| - 1];
    FenceCommits(s, w);
    SoundLater(s1, steps);
    SoundDb(s2);
    assert mine in s2.db.log;
    assert TimeInv(s2.db) && BaselineInv(s2.db) by { SoundParts(s2); }
    TimedLog(s2.db);
    hide StampsIncrease;
    ResolvedTimeExact(s2.db, mine.ts);
  }

  lemma SoundParts(s: State)
    requires Sound(s)
    ensures Inv(s) && TimeInv(s.db) && BaselineInv(s.db)
  {
    hide Inv, TimeInv, BaselineInv;
  }

  /** The commit itself. */
  lemma FenceCommits(s: State, w: nat)
    requires Sound(s)
    requires s.db.lock.Writer? && s.db.lock.w == w && s.db.lock.pending != []
    ensures var mine, s' := s.db.lock.pending[|s.db.lock.pending| - 1], Next(s, Commit(w));
            Sound(s') && mine in s'.db.log && OperationTime(s.db, w) == mine.ts
  {
    hide Inv, TimeInv, BaselineInv, Next, OperationTime, Before, Advances;
    WriteStamp(s, w);
    NextKeeps(s, Commit(w));
    NextTime(s, Commit(w));
    BaselineStays(s.db, Next(s, Commit(w)).db);
    var log := Next(s, Commit(w)).db.log;
    assert log[|log| - 1] in log;
  }

  lemma SoundLater(s: State, steps: seq<Step>)
    requires Sound(s) && Timely(s, steps)
    ensures Sound(Run(s, steps)) && s.db.log <= Run(s, steps).db.log
  {
    hide Inv, TimeInv, BaselineInv, Run, Timely;
    LaterRun(s, steps);
    RunKeeps(s, steps);
    BaselineStays(s.db, Run(s, steps).db);
  }

  // ---------------------------------------------------------------- cutting inside a batch

  lemma PrefixRange(log: seq<Event>, ns: string, lo: nat, hi: nat, k: nat)
    requires Sorted(log) && k < |Between(log, ns, lo, hi)|
    ensures Between(log, ns, lo, Between(log, ns, lo, hi)[k].sn) == Between(log, ns, lo, hi)[..k + 1]
  {
    var all := Between(log, ns, lo, hi);
    BetweenMembers(log, ns, lo, hi);
    assert all[k] in all;
    forall e
      ensures e in all[..k + 1] <==> e in all && e.sn <= all[k].sn
    {
      PrefixMembers(all, k, e);
    }
    hide Between;
    BetweenIs(log, ns, lo, all[k].sn, all[..k + 1]);
  }

  lemma PrefixMembers(s: seq<Event>, k: nat, e: Event)
    requires Sorted(s) && k < |s|
    ensures e in s[..k + 1] <==> e in s && e.sn <= s[k].sn
  {
    if e in s {
      var j :| 0 <= j < |s| && s[j] == e;
      assert j <= k ==> s[..k + 1][j] == e;
    }
  }
}
