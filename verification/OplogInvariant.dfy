/** What every step of the oplog machine keeps. */
module OplogInvariant {
  import opened Optional
  import opened Oplog

  // ---------------------------------------------------------------- ordered tables

  ghost predicate Sorted(s: seq<Event>) {
    forall i, j :: 0 <= i < j < |s| ==> s[i].sn < s[j].sn
  }

  lemma {:induction false} ScanMembers(s: seq<Event>, p: Event -> bool)
    ensures forall e :: e in Scan(s, p) <==> e in s && p(e)
    ensures |Scan(s, p)| <= |s|
  {
    if s != [] {
      var init, last := s[..|s| - 1], s[|s| - 1];
      ScanMembers(init, p);
      assert s == init + [last];
    }
  }

  lemma {:induction false} ScanSorted(s: seq<Event>, p: Event -> bool)
    requires Sorted(s)
    ensures Sorted(Scan(s, p))
  {
    if s != [] {
      ScanSorted(s[..|s| - 1], p);
      ScanMembers(s[..|s| - 1], p);
      var r := Scan(s[..|s| - 1], p);
      forall i | 0 <= i < |r|
        ensures r[i].sn < s[|s| - 1].sn
      {
        assert r[i] in r;
      }
    }
  }

  lemma FrontMembers(s: seq<Event>, e: Event)
    requires Sorted(s) && s != []
    ensures e in s[..|s| - 1] <==> e in s && e != s[|s| - 1]
    ensures e in s ==> e.sn <= s[|s| - 1].sn
    ensures e in s && e != s[|s| - 1] ==> e.sn < s[|s| - 1].sn
  {
    if e in s {
      var k :| 0 <= k < |s| && s[k] == e;
      assert k < |s| - 1 ==> s[..|s| - 1][k] == e;
    }
  }

  /** Two ordered tables with the same rows are the same sequence. */
  lemma {:induction false} SameRows(a: seq<Event>, b: seq<Event>)
    requires Sorted(a) && Sorted(b)
    requires forall e :: e in a <==> e in b
    ensures a == b
  {
    assert b != [] ==> b[0] in b;
    if a != [] {
      assert a[0] in b;
      var a', b', last := a[..|a| - 1], b[..|b| - 1], a[|a| - 1];
      assert Sorted(a') && Sorted(b');
      hide Sorted;
      FrontMembers(a, b[|b| - 1]);
      FrontMembers(b, last);
      assert b[|b| - 1] in b && last in a;
      forall e ensures e in a' <==> e in b' {
        FrontMembers(a, e);
        FrontMembers(b, e);
      }
      SameRows(a', b');
      assert a == a' + [last] && b == b' + [last];
    }
  }

  /** Any ordered sequence with the members a query asks for is the query's result. */
  lemma ScanIs(s: seq<Event>, p: Event -> bool, r: seq<Event>)
    requires Sorted(s) && Sorted(r)
    requires forall e :: e in r <==> e in s && p(e)
    ensures Scan(s, p) == r
  {
    ScanMembers(s, p);
    ScanSorted(s, p);
    SameRows(Scan(s, p), r);
  }

  lemma MaxSeqBounds(s: seq<Event>)
    requires Sorted(s)
    ensures forall e :: e in s ==> e.sn <= MaxSeq(s)
    ensures s != [] ==> exists e :: e in s && e.sn == MaxSeq(s)
  {
    if s != [] {
      assert s[|s| - 1] in s;
    }
  }

  lemma {:induction false} MaxStampBounds(s: seq<Event>)
    requires s != []
    ensures forall e :: e in s ==> AtMost(e.ts, MaxStamp(s))
    ensures exists e :: e in s && e.ts == MaxStamp(s)
  {
    if |s| > 1 {
      MaxStampBounds(s[..|s| - 1]);
      assert s == s[..|s| - 1] + [s[|s| - 1]];
      var e :| e in s[..|s| - 1] && e.ts == MaxStamp(s[..|s| - 1]);
      assert e in s;
    }
    assert s[|s| - 1] in s;
  }

  lemma Appended(s: seq<Event>, more: seq<Event>)
    requires Sorted(s) && Sorted(more)
    requires forall e :: e in more ==> MaxSeq(s) < e.sn
    ensures Sorted(s + more)
    ensures MaxSeq(s) <= MaxSeq(s + more)
  {
    MaxSeqBounds(s);
    var t := s + more;
    forall i, j | 0 <= i < j < |t|
      ensures t[i].sn < t[j].sn
    {
      if i < |s| { assert t[i] in s; }
      if |s| <= j { assert t[j] in more; }
    }
  }

  // ---------------------------------------------------------------- the durable state

  /** The committed log and the stored rows: ordered, sharing their newest event. */
  ghost predicate TablesInv(log: seq<Event>, rows: seq<Event>, nextSeq: nat) {
    && Sorted(log) && Sorted(rows)
    && (forall e :: e in log ==> 0 < e.sn < nextSeq)
    && (forall e :: e in rows ==> e in log)
    && (log != [] ==> rows != [] && rows[|rows| - 1] == log[|log| - 1])
    && 0 < nextSeq <= MAX_UINT64 + 1
  }

  /** Every committed event is stored, was deleted by the pruner, or is covered by the legacy
      baseline; and these exclude each other. */
  ghost predicate AccountedInv(log: seq<Event>, rows: seq<Event>, deleted: set<Event>, baseline: nat) {
    && (forall e :: e in rows ==> baseline < e.sn && e !in deleted)
    && (forall e :: e in deleted ==> e in log)
    && (forall e :: e in log ==> e in rows || e in deleted || e.sn <= baseline)
    && (log == [] ==> baseline == 0)
  }

  /** The deletion record is exact: both watermarks are maxima over the events actually deleted. */
  ghost predicate WatermarkInv(h: History, deleted: set<Event>) {
    && (h.prunedSeq == 0 <==> deleted == {})
    && (forall e :: e in deleted ==> 0 < e.sn <= h.prunedSeq && AtMost(e.ts, h.pruned))
    && (deleted != {} ==> exists e :: e in deleted && e.sn == h.prunedSeq)
    && (deleted != {} ==> exists e :: e in deleted && e.ts == h.pruned)
    && (deleted == {} ==> h.pruned == Stamp(0, 0))
  }

  function LastStamp(s: seq<Event>, otherwise: Stamp): Stamp {
    if s == [] then otherwise else s[|s| - 1].ts
  }

  /** The lock holder's pending rows lie above everything committed; its clock is its last stamp. */
  ghost predicate LockInv(lock: Lock, clock: Stamp, log: seq<Event>, nextSeq: nat) {
    && clock == LastStamp(log, Stamp(0, 0))
    && (lock.Writer? ==>
          && Sorted(lock.pending)
          && (forall e :: e in lock.pending ==> MaxSeq(log) < e.sn < nextSeq)
          && lock.clock == LastStamp(lock.pending, clock))
  }

  ghost predicate DbInv(d: Db) {
    && TablesInv(d.log, d.rows, d.nextSeq)
    && AccountedInv(d.log, d.rows, d.deleted, d.history.baselineSeq)
    && WatermarkInv(d.history, d.deleted)
    && LockInv(d.lock, d.clock, d.log, d.nextSeq)
  }

  /** What any step may do to the durable state, seen by everyone else: append committed events
      above everything committed so far, and move the deletion record forward. */
  ghost predicate LogAdvances(log: seq<Event>, log': seq<Event>) {
    && log <= log'
    && (forall e :: e in log' ==> e in log || MaxSeq(log) < e.sn)
  }

  ghost predicate Advances(d: Db, d': Db) {
    && LogAdvances(d.log, d'.log)
    && d.history.prunedSeq <= d'.history.prunedSeq
    && d.history.(prunedSeq := 0, pruned := Stamp(0, 0)) == d'.history.(prunedSeq := 0, pruned := Stamp(0, 0))
    && d.deleted <= d'.deleted
  }

  function Floor(d: Db): nat {
    Max(d.history.prunedSeq, d.history.baselineSeq)
  }

  lemma MissingBelowFloor(d: Db)
    requires DbInv(d)
    ensures forall e :: e in d.log && e !in d.rows ==> e.sn <= Floor(d)
    ensures MaxSeq(d.rows) == MaxSeq(d.log)
    ensures d.rows == [] <==> d.log == []
  {
    assert d.rows != [] ==> d.rows[0] in d.rows;
  }

  lemma AppendKeeps(d: Db, w: nat, now: nat, op: Op, ns: string, o: string, o2: Option<string>)
    requires DbInv(d)
    ensures DbInv(AppendEvent(d, w, now, op, ns, o, o2))
    ensures Advances(d, AppendEvent(d, w, now, op, ns, o, o2))
  {
    var d' := AppendEvent(d, w, now, op, ns, o, o2);
    var pending := if d.lock.Writer? then d.lock.pending else [];
    AppendShape(d, w, now, op, ns, o, o2);
    hide AppendEvent;
    if d' != d {
      var e := d'.lock.pending[|pending|];
      AppendTables(d.log, d.rows, d.nextSeq);
      assert Sorted(pending) && forall p :: p in pending ==> MaxSeq(d.log) < p.sn < d.nextSeq;
      hide TablesInv, AccountedInv, WatermarkInv, Sorted, MaxSeq;
      AppendLock(d'.lock, pending, d.clock, d.log, d.nextSeq, e);
      hide LockInv;
    } else {
      hide DbInv;
    }
  }

  /** What a successful append changes: one more event pending, stamped with the session's clock. */
  lemma AppendShape(d: Db, w: nat, now: nat, op: Op, ns: string, o: string, o2: Option<string>)
    ensures var d' := AppendEvent(d, w, now, op, ns, o, o2);
            var pending := if d.lock.Writer? then d.lock.pending else [];
            d' != d ==>
              && d.nextSeq <= MAX_UINT64 && d'.lock.Writer? && d'.lock.pending[..|pending|] == pending
              && |d'.lock.pending| == |pending| + 1 && d'.lock.pending == pending + [d'.lock.pending[|pending|]]
              && d'.lock.pending[|pending|].sn == d.nextSeq && d'.lock.pending[|pending|].ts == d'.lock.clock
              && d' == d.(nextSeq := d.nextSeq + 1, reading := now, lock := d'.lock)
  {
    hide Tick, OperationTime;
  }

  lemma AppendTables(log: seq<Event>, rows: seq<Event>, nextSeq: nat)
    requires TablesInv(log, rows, nextSeq) && nextSeq <= MAX_UINT64
    ensures TablesInv(log, rows, nextSeq + 1)
    ensures MaxSeq(log) < nextSeq
  {
  }

  lemma AppendLock(lock: Lock, pending: seq<Event>, clock: Stamp, log: seq<Event>, nextSeq: nat, e: Event)
    requires Sorted(pending) && e.sn == nextSeq && MaxSeq(log) < nextSeq && clock == LastStamp(log, Stamp(0, 0))
    requires forall p :: p in pending ==> MaxSeq(log) < p.sn < nextSeq
    requires lock.Writer? && lock.pending == pending + [e] && lock.clock == e.ts
    ensures LockInv(lock, clock, log, nextSeq + 1)
  {
    MaxSeqBounds(pending);
    Appended(pending, [e]);
    hide Sorted, MaxSeq;
  }

  lemma UndoKeeps(d: Db, w: nat, keep: nat)
    requires DbInv(d)
    ensures DbInv(UndoTo(d, w, keep)) && Advances(d, UndoTo(d, w, keep))
  {
    hide TablesInv, AccountedInv, WatermarkInv;
    if d.lock.Writer? && keep <= |d.lock.pending| { UndoneLock(d.lock.pending, keep); }
    hide Sorted;
  }

  lemma UndoneLock(pending: seq<Event>, keep: nat)
    requires Sorted(pending) && keep <= |pending|
    ensures Sorted(pending[..keep]) && forall e :: e in pending[..keep] ==> e in pending
  {
  }

  lemma CommitKeeps(d: Db, w: nat)
    requires DbInv(d)
    ensures DbInv(CommitWriter(d, w)) && Advances(d, CommitWriter(d, w))
  {
    var d' := CommitWriter(d, w);
    if d' != d {
      var pending := d.lock.pending;
      if pending == [] {
        assert d' == d.(lock := Free, clock := d.lock.clock);
        hide TablesInv, AccountedInv, WatermarkInv;
      } else {
        CommittedTables(d.log, d.rows, d.nextSeq, pending);
        MissingBelowFloor(d);
        CommittedAccounts(d.log, d.rows, d.deleted, d.history.baselineSeq, pending);
        hide TablesInv, AccountedInv, WatermarkInv, LogAdvances, Sorted;
      }
    }
  }

  lemma CommittedTables(log: seq<Event>, rows: seq<Event>, nextSeq: nat, pending: seq<Event>)
    requires TablesInv(log, rows, nextSeq) && Sorted(pending) && pending != []
    requires forall e :: e in pending ==> MaxSeq(log) < e.sn < nextSeq
    ensures TablesInv(log + pending, rows + pending, nextSeq)
    ensures LogAdvances(log, log + pending)
  {
    assert rows != [] ==> rows[0] in rows;
    Appended(log, pending);
    Appended(rows, pending);
    hide Sorted;
  }

  lemma CommittedAccounts(log: seq<Event>, rows: seq<Event>, deleted: set<Event>, baseline: nat,
                          pending: seq<Event>)
    requires AccountedInv(log, rows, deleted, baseline)
    requires Sorted(log) && MaxSeq(rows) == MaxSeq(log) && (log == [] <==> rows == [])
    requires forall e :: e in pending ==> MaxSeq(log) < e.sn
    ensures AccountedInv(log + pending, rows + pending, deleted, baseline)
  {
    MaxSeqBounds(log);
    assert rows != [] ==> rows[|rows| - 1] in rows;
  }

  // ---------------------------------------------------------------- the pruner

  /** The sampled head is still stored, and exactly |log| - mark rows have been added above it. */
  ghost predicate HeadInv(log: seq<Event>, rows: seq<Event>, head: nat, mark: nat) {
    && mark <= |log| && |log| - mark < |rows|
    && rows[|rows| - 1 - (|log| - mark)].sn == head
  }

  /** The cut is the limit-th newest row of the moment it was sampled. */
  ghost predicate CutInv(log: seq<Event>, rows: seq<Event>, plan: Plan) {
    && plan.mark <= plan.cutMark <= |log|
    && (plan.cut.Some? ==>
          && 0 < plan.limit <= |rows| - (|log| - plan.cutMark)
          && rows[|rows| - plan.limit - (|log| - plan.cutMark)].sn == plan.cut.value)
    && (plan.cut.None? && 0 < plan.limit ==> |rows| - (|log| - plan.cutMark) < plan.limit)
  }

  ghost predicate PlanInv(log: seq<Event>, rows: seq<Event>, plan: Plan) {
    HeadInv(log, rows, plan.head, plan.mark) && CutInv(log, rows, plan)
  }

  /** newest is the last row the frozen WHERE selects. */
  ghost predicate NewestInv(rows: seq<Event>, plan: Plan, newest: nat) {
    && (exists e :: e in rows && Doomed(plan, e) && e.sn == newest)
    && (forall e :: e in rows && Doomed(plan, e) ==> e.sn <= newest)
  }

  ghost predicate StampInv(rows: seq<Event>, plan: Plan, stamp: Stamp) {
    && (exists e :: e in rows && Doomed(plan, e) && e.ts == stamp)
    && (forall e :: e in rows && Doomed(plan, e) ==> AtMost(e.ts, stamp))
  }

  ghost predicate PrunerInv(log: seq<Event>, rows: seq<Event>, history: History, pruning: bool, p: Pruner) {
    && pruning == (p.Locked? || p.Verified? || p.Deleting? || p.Marked?)
    && match p
       case Idle => true
       case SampledHead(_, _, head, mark) => HeadInv(log, rows, head, mark)
       case SampledAge(_, head, _, mark) => HeadInv(log, rows, head, mark)
       case Planned(plan) => PlanInv(log, rows, plan)
       case FoundNewest(plan, newest) => PlanInv(log, rows, plan) && NewestInv(rows, plan, newest)
       case FoundStamp(plan, newest, stamp) =>
         PlanInv(log, rows, plan) && NewestInv(rows, plan, newest) && StampInv(rows, plan, stamp)
       case Locked(plan, newest, stamp) =>
         PlanInv(log, rows, plan) && NewestInv(rows, plan, newest) && StampInv(rows, plan, stamp)
       case Verified(plan, newest, stamp) =>
         PlanInv(log, rows, plan) && NewestInv(rows, plan, newest) && StampInv(rows, plan, stamp)
       case Deleting(plan, newest, stamp, removed) =>
         && PlanInv(log, rows, plan) && NewestInv(rows, plan, newest) && StampInv(rows, plan, stamp)
         && removed == Victims(rows, plan) && removed != []
       case Marked(plan, removed, h) =>
         && PlanInv(log, rows, plan) && removed == Victims(rows, plan) && removed != []
         && h == Advanced(history, MaxSeq(removed), MaxStamp(removed))
  }

  lemma VictimsOf(rows: seq<Event>, plan: Plan)
    requires Sorted(rows)
    ensures forall e :: e in Victims(rows, plan) <==> e in rows && Doomed(plan, e)
    ensures Sorted(Victims(rows, plan))
  {
    ScanMembers(rows, (e: Event) => Doomed(plan, e));
    ScanSorted(rows, (e: Event) => Doomed(plan, e));
  }

  lemma NoNewVictims(rows: seq<Event>, plan: Plan, pending: seq<Event>)
    requires Sorted(rows) && plan.head <= MaxSeq(rows)
    requires forall e :: e in pending ==> MaxSeq(rows) < e.sn
    ensures forall e :: e in rows + pending && Doomed(plan, e) ==> e in rows
    ensures forall newest :: NewestInv(rows, plan, newest) ==> NewestInv(rows + pending, plan, newest)
    ensures forall stamp :: StampInv(rows, plan, stamp) ==> StampInv(rows + pending, plan, stamp)
  {
    forall newest | NewestInv(rows, plan, newest)
      ensures NewestInv(rows + pending, plan, newest)
    {
      var e :| e in rows && Doomed(plan, e) && e.sn == newest;
      assert e in rows + pending;
    }
    forall stamp | StampInv(rows, plan, stamp)
      ensures StampInv(rows + pending, plan, stamp)
    {
      var e :| e in rows && Doomed(plan, e) && e.ts == stamp;
      assert e in rows + pending;
    }
  }

  lemma HeadBounded(log: seq<Event>, rows: seq<Event>, head: nat, mark: nat)
    requires HeadInv(log, rows, head, mark) && Sorted(rows)
    ensures head <= MaxSeq(rows)
  {
  }

  /** Later commits do not change what a pass has planned. */
  lemma PlanSurvivesCommit(log: seq<Event>, rows: seq<Event>, history: History, p: Pruner, pending: seq<Event>)
    requires PrunerInv(log, rows, history, false, p) && Sorted(rows)
    requires forall e :: e in pending ==> MaxSeq(rows) < e.sn
    ensures PrunerInv(log + pending, rows + pending, history, false, p)
  {
    hide NewestInv, StampInv, Sorted, MaxSeq, Victims;
    if p.FoundNewest? || p.FoundStamp? {
      assert PlanInv(log, rows, p.plan);
      HeadBounded(log, rows, p.plan.head, p.plan.mark);
      NoNewVictims(rows, p.plan, pending);
    }
    if p.SampledHead? || p.SampledAge? { HeadSurvives(log, rows, p.head, p.mark, pending); }
    if p.Planned? || p.FoundNewest? || p.FoundStamp? { PlanSurvives(log, rows, p.plan, pending); }
    hide HeadInv, PlanInv;
  }

  lemma HeadSurvives(log: seq<Event>, rows: seq<Event>, head: nat, mark: nat, pending: seq<Event>)
    requires HeadInv(log, rows, head, mark)
    ensures HeadInv(log + pending, rows + pending, head, mark)
  {
  }

  lemma PlanSurvives(log: seq<Event>, rows: seq<Event>, plan: Plan, pending: seq<Event>)
    requires PlanInv(log, rows, plan)
    ensures PlanInv(log + pending, rows + pending, plan)
  {
    HeadSurvives(log, rows, plan.head, plan.mark, pending);
    hide HeadInv;
  }

  lemma PruneMarkExact(rows: seq<Event>, plan: Plan, newest: nat, stamp: Stamp)
    requires Sorted(rows) && NewestInv(rows, plan, newest) && StampInv(rows, plan, stamp)
    ensures Victims(rows, plan) != []
    ensures MaxSeq(Victims(rows, plan)) == newest && MaxStamp(Victims(rows, plan)) == stamp
    ensures Scan(rows, (e: Event) => e.sn <= newest && Doomed(plan, e)) == Victims(rows, plan)
  {
    var v := Victims(rows, plan);
    VictimsOf(rows, plan);
    MaxSeqBounds(v);
    var e :| e in rows && Doomed(plan, e) && e.sn == newest;
    assert e in v;
    MaxStampBounds(v);
    ScanIs(rows, (e: Event) => e.sn <= newest && Doomed(plan, e), v);
  }

  /** While the pass is planning it only reads. */
  lemma PlanningKeeps(d: Db, p: Pruner, step: Step)
    requires TablesInv(d.log, d.rows, d.nextSeq) && !d.lock.Pruning?
    requires PrunerInv(d.log, d.rows, d.history, false, p) && !step.PruneLock?
    ensures var (d', p') := PruneStep(d, p, step);
            d' == d && PrunerInv(d.log, d.rows, d.history, false, p')
  {
    assert Sorted(d.rows);
    hide TablesInv, Sorted, HeadInv, CutInv, NewestInv, StampInv, Victims;
    if step.PruneAbort? {
    } else if p.Planned? || p.FoundNewest? {
      SelectKeeps(d, p, step);
    } else {
      SampleKeeps(d, p, step);
    }
    hide PruneStep, PrunerInv;
  }

  lemma SelectKeeps(d: Db, p: Pruner, step: Step)
    requires Sorted(d.rows) && (p.Planned? || p.FoundNewest?) && !step.PruneAbort?
    requires PrunerInv(d.log, d.rows, d.history, false, p)
    ensures var (d', p') := PruneStep(d, p, step);
            d' == d && PrunerInv(d.log, d.rows, d.history, false, p')
  {
    SelectedIs(d.rows, p.plan);
    hide Sorted, PlanInv, NewestInv, StampInv, Victims, Doomed, MaxSeq, MaxStamp;
  }

  lemma SelectedIs(rows: seq<Event>, plan: Plan)
    requires Sorted(rows)
    ensures Victims(rows, plan) != [] ==>
              NewestInv(rows, plan, MaxSeq(Victims(rows, plan))) && StampInv(rows, plan, MaxStamp(Victims(rows, plan)))
  {
    VictimsOf(rows, plan);
    if Victims(rows, plan) != [] {
      MaxSeqBounds(Victims(rows, plan));
      MaxStampBounds(Victims(rows, plan));
    }
    hide Victims, MaxSeq, MaxStamp, Sorted;
  }

  lemma SampleKeeps(d: Db, p: Pruner, step: Step)
    requires !p.Planned? && !p.FoundNewest? && !step.PruneAbort? && !step.PruneLock?
    requires PrunerInv(d.log, d.rows, d.history, false, p)
    ensures var (d', p') := PruneStep(d, p, step);
            d' == d && PrunerInv(d.log, d.rows, d.history, false, p')
  {
    hide NewestInv, StampInv, Victims, Doomed;
  }

  /** The transaction up to its end: verify, delete and mark touch only its own view. */
  lemma LockedKeeps(d: Db, p: Pruner, step: Step)
    requires DbInv(d) && PrunerInv(d.log, d.rows, d.history, true, p) && d.lock.Pruning?
    requires !step.PruneCommit?
    ensures var (d', p') := PruneStep(d, p, step);
            && (d' == d || d' == d.(lock := Free))
            && PrunerInv(d.log, d.rows, d.history, d'.lock.Pruning?, p')
  {
    assert Sorted(d.rows);
    hide DbInv, HeadInv, CutInv, NewestInv, StampInv, Victims, Sorted, Advanced;
    if step.PruneAbort? {
      AbortKeeps(d, p);
    } else if p.Verified? {
      DeleteKeeps(d, p, step);
    } else if p.Deleting? {
      MarkKeeps(d, p, step);
    } else {
      VerifyKeeps(d, p, step);
    }
    hide PruneStep, PrunerInv;
  }

  lemma AbortKeeps(d: Db, p: Pruner)
    ensures PruneStep(d, p, PruneAbort) == (if d.lock.Pruning? then d.(lock := Free) else d, Idle)
    ensures PrunerInv(d.log, d.rows, d.history, false, Idle)
  {
  }

  lemma VerifyKeeps(d: Db, p: Pruner, step: Step)
    requires PrunerInv(d.log, d.rows, d.history, true, p) && d.lock.Pruning?
    requires (p.Locked? || p.Marked?) && !step.PruneCommit? && !step.PruneAbort?
    ensures var (d', p') := PruneStep(d, p, step);
            && (d' == d || d' == d.(lock := Free))
            && PrunerInv(d.log, d.rows, d.history, d'.lock.Pruning?, p')
  {
    hide PlanInv, NewestInv, StampInv, Victims, Doomed, Advanced, MaxStamp, MaxSeq;
  }

  lemma DeleteKeeps(d: Db, p: Pruner, step: Step)
    requires PrunerInv(d.log, d.rows, d.history, true, p) && p.Verified? && Sorted(d.rows) && !step.PruneAbort?
    ensures var (d', p') := PruneStep(d, p, step);
            d' == d && PrunerInv(d.log, d.rows, d.history, true, p')
  {
    PruneMarkExact(d.rows, p.plan, p.newest, p.stamp);
    hide PlanInv, NewestInv, StampInv, Victims, Scan, Doomed, Sorted, MaxStamp, MaxSeq;
  }

  lemma MarkKeeps(d: Db, p: Pruner, step: Step)
    requires PrunerInv(d.log, d.rows, d.history, true, p) && p.Deleting? && Sorted(d.rows) && !step.PruneAbort?
    ensures var (d', p') := PruneStep(d, p, step);
            d' == d && PrunerInv(d.log, d.rows, d.history, true, p')
  {
    PruneMarkExact(d.rows, p.plan, p.newest, p.stamp);
    hide PlanInv, NewestInv, StampInv, Victims, Scan, Doomed, Sorted, MaxStamp, MaxSeq, Advanced;
  }

  lemma PruneStepKeeps(d: Db, p: Pruner, step: Step)
    requires DbInv(d) && PrunerInv(d.log, d.rows, d.history, d.lock.Pruning?, p)
    ensures var (d', p') := PruneStep(d, p, step);
            DbInv(d') && PrunerInv(d'.log, d'.rows, d'.history, d'.lock.Pruning?, p') && Advances(d, d')
  {
    hide TablesInv, AccountedInv, WatermarkInv, HeadInv, CutInv, NewestInv, StampInv;
    if p.Marked? && step.PruneCommit? {
      PruneCommitKeeps(d, p.plan, p.removed);
    } else if d.lock.Pruning? {
      if !step.PruneCommit? { LockedKeeps(d, p, step); }
    } else if step.PruneLock? {
    } else {
      PlanningKeeps(d, p, step);
    }
  }

  lemma PruneCommitKeeps(d: Db, plan: Plan, removed: seq<Event>)
    requires DbInv(d) && HeadInv(d.log, d.rows, plan.head, plan.mark)
    requires removed == Victims(d.rows, plan) && removed != []
    ensures DbInv(PublishPrune(d, removed, Advanced(d.history, MaxSeq(removed), MaxStamp(removed))))
  {
    VictimsOf(d.rows, plan);
    HeadBounded(d.log, d.rows, plan.head, plan.mark);
    assert forall e :: e in removed ==> e in d.rows && e.sn < MaxSeq(d.rows);
    DeletedTables(d.log, d.rows, d.nextSeq, removed);
    DeletedAccounts(d.log, d.rows, d.deleted, d.history.baselineSeq, removed);
    MarkedHistory(d.history, d.deleted, removed);
  }

  lemma DeletedTables(log: seq<Event>, rows: seq<Event>, nextSeq: nat, removed: seq<Event>)
    requires TablesInv(log, rows, nextSeq)
    requires forall e :: e in removed ==> e in rows && e.sn < MaxSeq(rows)
    ensures TablesInv(log, Scan(rows, (e: Event) => e !in removed), nextSeq)
  {
    var rows' := Scan(rows, (e: Event) => e !in removed);
    ScanMembers(rows, (e: Event) => e !in removed);
    ScanSorted(rows, (e: Event) => e !in removed);
    if log != [] {
      var last := rows[|rows| - 1];
      assert last in rows && last !in removed;
      MaxSeqBounds(rows);
      MaxSeqBounds(rows');
      assert last in rows' && rows'[|rows'| - 1] in rows';
    }
  }

  lemma DeletedAccounts(log: seq<Event>, rows: seq<Event>, deleted: set<Event>, baseline: nat,
                        removed: seq<Event>)
    requires AccountedInv(log, rows, deleted, baseline)
    requires forall e :: e in rows ==> e in log
    requires forall e :: e in removed ==> e in rows
    ensures AccountedInv(log, Scan(rows, (e: Event) => e !in removed), deleted + (set e | e in removed), baseline)
  {
    ScanMembers(rows, (e: Event) => e !in removed);
  }

  lemma MarkedHistory(h: History, deleted: set<Event>, removed: seq<Event>)
    requires WatermarkInv(h, deleted) && Sorted(removed) && removed != []
    requires forall e :: e in removed ==> 0 < e.sn
    ensures WatermarkInv(Advanced(h, MaxSeq(removed), MaxStamp(removed)), deleted + (set e | e in removed))
  {
    MaxSeqBounds(removed);
    MaxStampBounds(removed);
    hide Sorted;
    MarkedSeq(h, deleted, removed, MaxSeq(removed), MaxStamp(removed));
    MarkedStamp(h, deleted, removed, MaxSeq(removed), MaxStamp(removed));
    assert removed[0] in deleted + (set e | e in removed);
    hide MaxSeq, MaxStamp, Advanced;
  }

  lemma MarkedSeq(h: History, deleted: set<Event>, removed: seq<Event>, newest: nat, stamp: Stamp)
    requires WatermarkInv(h, deleted)
    requires (forall e :: e in removed ==> 0 < e.sn <= newest) && exists e :: e in removed && e.sn == newest
    ensures var deleted', h' := deleted + (set e | e in removed), Advanced(h, newest, stamp);
            (forall e :: e in deleted' ==> 0 < e.sn <= h'.prunedSeq) && 0 < h'.prunedSeq &&
            exists e :: e in deleted' && e.sn == h'.prunedSeq
  {
    var deleted' := deleted + (set e | e in removed);
    var top :| top in removed && top.sn == newest;
    assert top in deleted';
    if deleted != {} {
      var top0 :| top0 in deleted && top0.sn == h.prunedSeq;
      assert top0 in deleted';
    }
  }

  lemma MarkedStamp(h: History, deleted: set<Event>, removed: seq<Event>, newest: nat, stamp: Stamp)
    requires WatermarkInv(h, deleted)
    requires (forall e :: e in removed ==> AtMost(e.ts, stamp)) && exists e :: e in removed && e.ts == stamp
    ensures var deleted', h' := deleted + (set e | e in removed), Advanced(h, newest, stamp);
            (forall e :: e in deleted' ==> AtMost(e.ts, h'.pruned)) && exists e :: e in deleted' && e.ts == h'.pruned
  {
    var deleted', h' := deleted + (set e | e in removed), Advanced(h, newest, stamp);
    assert h'.pruned == (if Before(h.pruned, stamp) then stamp else h.pruned);
    hide Advanced;
    var late :| late in removed && late.ts == stamp;
    assert late in deleted';
    if deleted != {} {
      var late0 :| late0 in deleted && late0.ts == h.pruned;
      assert late0 in deleted';
    }
  }

  // ---------------------------------------------------------------- consumers

  /** What a cursor has delivered is exactly its namespace between its origin and its position. */
  ghost predicate TailInv(log: seq<Event>, tail: Tail) {
    && tail.origin <= tail.after
    && (tail.after == tail.origin || tail.after <= MaxSeq(log))
    && tail.delivered == Between(log, tail.ns, tail.origin, tail.after)
  }

  /** A batch in memory is right unless pruning has passed the position it was read from. */
  ghost predicate BatchInv(log: seq<Event>, floor: nat, g: Get)
    requires g.Read?
  {
    && g.after <= NextAfter(g)
    && (NextAfter(g) == g.after || NextAfter(g) <= MaxSeq(log))
    && (floor <= g.after ==> g.batch == Between(log, g.ns, g.after, NextAfter(g)))
  }

  ghost predicate GetInv(log: seq<Event>, floor: nat, g: Get) {
    && 0 < g.wanted
    && (g.Sampled? ==> g.head <= MaxSeq(log))
    && (g.Read? ==> |g.batch| <= g.wanted && BatchInv(log, floor, g))
  }

  ghost predicate RegistryInv(s: State) {
    && (forall id :: id in s.cursors ==> id < s.nextId)
    && (forall id :: id in s.gets ==> id < s.nextId)
    && (forall id :: id in s.cursors && id in s.gets ==>
          s.gets[id].ns == s.cursors[id].ns && s.gets[id].after == s.cursors[id].after)
  }

  ghost predicate TailsInv(log: seq<Event>, cursors: map<nat, Tail>) {
    forall id :: id in cursors ==> TailInv(log, cursors[id])
  }

  ghost predicate GetsInv(log: seq<Event>, floor: nat, gets: map<nat, Get>) {
    forall id :: id in gets ==> GetInv(log, floor, gets[id])
  }

  ghost predicate Inv(s: State) {
    && DbInv(s.db)
    && PrunerInv(s.db.log, s.db.rows, s.db.history, s.db.lock.Pruning?, s.pruner)
    && RegistryInv(s)
    && TailsInv(s.db.log, s.cursors)
    && GetsInv(s.db.log, Floor(s.db), s.gets)
  }

  lemma BetweenMembers(log: seq<Event>, ns: string, lo: nat, hi: nat)
    requires Sorted(log)
    ensures Sorted(Between(log, ns, lo, hi))
    ensures forall e :: e in Between(log, ns, lo, hi) <==> e in log && e.ns == ns && lo < e.sn <= hi
  {
    ScanMembers(log, (e: Event) => e.ns == ns && lo < e.sn <= hi);
    ScanSorted(log, (e: Event) => e.ns == ns && lo < e.sn <= hi);
  }

  lemma BetweenIs(log: seq<Event>, ns: string, lo: nat, hi: nat, r: seq<Event>)
    requires Sorted(log) && Sorted(r)
    requires forall e :: e in r <==> e in log && e.ns == ns && lo < e.sn <= hi
    ensures Between(log, ns, lo, hi) == r
  {
    ScanIs(log, (e: Event) => e.ns == ns && lo < e.sn <= hi, r);
  }

  /** Nothing is ever inserted into a range that has been passed. */
  lemma BetweenStable(log: seq<Event>, log': seq<Event>, ns: string, lo: nat, hi: nat)
    requires Sorted(log) && Sorted(log') && LogAdvances(log, log')
    requires hi <= lo || hi <= MaxSeq(log)
    ensures Between(log', ns, lo, hi) == Between(log, ns, lo, hi)
  {
    BetweenMembers(log, ns, lo, hi);
    forall e | e in log
      ensures e in log'
    {
    }
    BetweenIs(log', ns, lo, hi, Between(log, ns, lo, hi));
  }

  /** Consecutive ranges concatenate: no event is repeated or skipped at a cut. */
  lemma BetweenJoin(log: seq<Event>, ns: string, lo: nat, mid: nat, hi: nat)
    requires Sorted(log) && lo <= mid <= hi
    ensures Between(log, ns, lo, mid) + Between(log, ns, mid, hi) == Between(log, ns, lo, hi)
  {
    var a, b := Between(log, ns, lo, mid), Between(log, ns, mid, hi);
    BetweenMembers(log, ns, lo, mid);
    BetweenMembers(log, ns, mid, hi);
    var r := a + b;
    forall i, j | 0 <= i < j < |r|
      ensures r[i].sn < r[j].sn
    {
      if i < |a| { assert a[i] in a; }
      if |a| <= j { assert b[j - |a|] in b; }
    }
    BetweenIs(log, ns, lo, hi, r);
  }

  lemma LogGrows(log: seq<Event>, log': seq<Event>)
    requires Sorted(log') && LogAdvances(log, log')
    ensures MaxSeq(log) <= MaxSeq(log')
  {
    if log != [] && |log'| > |log| {
      assert log'[|log| - 1] == log[|log| - 1];
    }
  }

  lemma ConsumersSurvive(d: Db, d': Db, cursors: map<nat, Tail>, gets: map<nat, Get>)
    requires DbInv(d) && DbInv(d') && Advances(d, d')
    requires TailsInv(d.log, cursors) && GetsInv(d.log, Floor(d), gets)
    ensures TailsInv(d'.log, cursors) && GetsInv(d'.log, Floor(d'), gets)
  {
    assert Sorted(d.log) && Sorted(d'.log);
    hide DbInv;
    LogGrows(d.log, d'.log);
    forall id | id in cursors
      ensures TailInv(d'.log, cursors[id])
    {
      var tail := cursors[id];
      BetweenStable(d.log, d'.log, tail.ns, tail.origin, tail.after);
    }
    forall id | id in gets
      ensures GetInv(d'.log, Floor(d'), gets[id])
    {
      var g := gets[id];
      if g.Read? { BetweenStable(d.log, d'.log, g.ns, g.after, NextAfter(g)); }
    }
  }

  /** LIMIT takes a prefix: a full page ends at its last row, a short page is everything. */
  lemma PageMembers(rows: seq<Event>, ns: string, after: nat, wanted: nat, e: Event)
    requires Sorted(rows) && 0 < wanted
    ensures var batch := Take(Following(rows, ns, after), wanted);
            && Sorted(batch)
            && (batch != [] ==> batch[|batch| - 1] in rows && after < batch[|batch| - 1].sn)
            && (e in batch <==> e in rows && e.ns == ns && after < e.sn &&
                                (|batch| >= wanted ==> e.sn <= batch[|batch| - 1].sn))
            && (e in batch ==> e.sn <= batch[|batch| - 1].sn)
  {
    var all := Following(rows, ns, after);
    var batch := Take(all, wanted);
    ScanMembers(rows, (e: Event) => e.ns == ns && after < e.sn);
    ScanSorted(rows, (e: Event) => e.ns == ns && after < e.sn);
    if batch != [] { assert batch[|batch| - 1] in all; }
    if e in all {
      var k :| 0 <= k < |all| && all[k] == e;
      assert k < |batch| ==> batch[k] == e;
    }
  }

  /** A page's rows are exactly those of the range it moves the cursor over. */
  lemma PageRange(rows: seq<Event>, g: Get, e: Event)
    requires g.Read? && Sorted(rows) && 0 < g.wanted
    requires g.batch == Take(Following(rows, g.ns, g.after), g.wanted)
    ensures e in g.batch <==> e in rows && e.ns == g.ns && g.after < e.sn <= NextAfter(g)
    ensures g.after <= NextAfter(g)
    ensures NextAfter(g) == g.after || NextAfter(g) == g.head || NextAfter(g) <= MaxSeq(rows)
    ensures Sorted(g.batch)
  {
    PageMembers(rows, g.ns, g.after, g.wanted, e);
    MaxSeqBounds(rows);
    hide Take, Following, MaxSeq, Sorted;
  }

  /** Reading a page above the deletion floor: the head sampled earlier may bound a short page,
      because nothing at or below a sampled head can appear afterwards. */
  lemma SelectedPage(d: Db, g: Get)
    requires DbInv(d) && g.Read? && 0 < g.wanted && g.head <= MaxSeq(d.log)
    requires g.batch == Take(Following(d.rows, g.ns, g.after), g.wanted)
    ensures BatchInv(d.log, Floor(d), g) && |g.batch| <= g.wanted
  {
    MissingBelowFloor(d);
    assert Sorted(d.rows) && Sorted(d.log) && forall e :: e in d.rows ==> e in d.log;
    hide Take, Following, Between, NextAfter, WatermarkInv, LockInv, AccountedInv, TablesInv, Sorted, MaxSeq, Floor;
    forall e: Event
      ensures e in g.batch <==> e in d.rows && e.ns == g.ns && g.after < e.sn <= NextAfter(g)
    {
      PageRange(d.rows, g, e);
    }
    PageRange(d.rows, g, Event(0, Stamp(0, 0), Insert, [], [], None));
    if Floor(d) <= g.after {
      BetweenIs(d.log, g.ns, g.after, NextAfter(g), g.batch);
    }
  }

  lemma DeliveredTail(log: seq<Event>, floor: nat, tail: Tail, g: Get)
    requires Sorted(log) && TailInv(log, tail) && g.Read? && BatchInv(log, floor, g)
    requires g.ns == tail.ns && g.after == tail.after && floor <= g.after
    ensures TailInv(log, tail.(after := NextAfter(g), delivered := tail.delivered + g.batch))
  {
    BetweenJoin(log, g.ns, tail.origin, g.after, NextAfter(g));
  }

  /** A request moves on to a new stage, or ends. */
  lemma PutGet(s: State, id: nat, g: Get)
    requires Inv(s) && GetInv(s.db.log, Floor(s.db), g) && id < s.nextId
    requires id in s.cursors ==> g.ns == s.cursors[id].ns && g.after == s.cursors[id].after
    ensures Inv(s.(gets := s.gets[id := g]))
  {
    hide DbInv, PrunerInv, TailsInv, GetInv, Floor;
  }

  lemma DropGet(s: State, id: nat)
    requires Inv(s)
    ensures Inv(s.(gets := s.gets - {id}))
  {
    hide DbInv, PrunerInv, TailsInv, GetInv, Floor;
  }

  lemma RequestOf(s: State, id: nat)
    requires Inv(s) && id in s.gets
    ensures GetInv(s.db.log, Floor(s.db), s.gets[id]) && id < s.nextId && DbInv(s.db)
    ensures id in s.cursors ==> s.gets[id].ns == s.cursors[id].ns && s.gets[id].after == s.cursors[id].after
  {
    hide DbInv, PrunerInv, TailsInv, GetInv, Floor;
  }

  lemma ReadPageKeeps(s: State, id: nat)
    requires Inv(s) && id in s.gets && s.gets[id].Sampled?
    ensures Inv(GetStep(s, id, GetSelect(id)))
  {
    hide Inv, DbInv, BatchInv, MaxSeq, Take, Following, Floor;
    var g := s.gets[id];
    var g' := Read(g.ns, g.after, g.wanted, g.head, Take(Following(s.db.rows, g.ns, g.after), g.wanted));
    RequestOf(s, id);
    SelectedPage(s.db, g');
    PutGet(s, id, g');
  }

  lemma DeliverKeeps(s: State, id: nat)
    requires Inv(s) && id in s.gets && s.gets[id].Read? && Floor(s.db) <= s.gets[id].after
    ensures Inv(Deliver(s, id, s.gets[id]))
  {
    var g := s.gets[id];
    assert Sorted(s.db.log) && BatchInv(s.db.log, Floor(s.db), g);
    hide DbInv, BatchInv, PrunerInv, NextAfter, Floor;
    if id in s.cursors {
      DeliveredTail(s.db.log, Floor(s.db), s.cursors[id], g);
    }
    hide TailInv, GetInv;
  }

  /** The remaining getMore steps: begin, sample the head, refuse, or go round again. */
  lemma GetOtherKeeps(s: State, id: nat, step: Step)
    requires Inv(s)
    requires !step.GetSelect?
    requires step.GetCheck? && id in s.gets && s.gets[id].Read? ==>
               HistoryLost(s.db, s.gets[id].after) || (s.gets[id].batch == [] && !step.expired)
    ensures Inv(GetStep(s, id, step))
  {
    if step.GetBegin? && id in s.cursors && id !in s.gets {
      BeginKeeps(s, id, step.batchSize);
    }
    hide Inv, DbInv, BatchInv, HistoryLost, NextAfter, Floor, MaxSeq;
    if !step.GetBegin? && id in s.gets {
      var g := s.gets[id];
      RequestOf(s, id);
      if step.GetHead? && g.Sampling? {
        MissingBelowFloor(s.db);
        PutGet(s, id, Sampled(g.ns, g.after, g.wanted, MaxSeq(s.db.rows)));
      } else if step.GetCheck? && g.Read? {
        DropGet(s, id);
        PutGet(s, id, Sampling(g.ns, g.after, g.wanted));
      }
    }
  }

  lemma BeginKeeps(s: State, id: nat, batchSize: int)
    requires Inv(s) && id in s.cursors
    ensures Inv(s.(gets := s.gets[id := Sampling(s.cursors[id].ns, s.cursors[id].after, Wanted(batchSize))]))
  {
    assert RegistryInv(s);
    hide Inv;
    PutGet(s, id, Sampling(s.cursors[id].ns, s.cursors[id].after, Wanted(batchSize)));
  }

  lemma GetStepKeeps(s: State, id: nat, step: Step)
    requires Inv(s)
    ensures Inv(GetStep(s, id, step))
  {
    hide DbInv, PrunerInv, TailsInv, GetsInv, RegistryInv, Deliver;
    if step.GetSelect? {
      if id in s.gets && s.gets[id].Sampled? { ReadPageKeeps(s, id); }
    } else if step.GetCheck? && id in s.gets && s.gets[id].Read? && !HistoryLost(s.db, s.gets[id].after)
              && (s.gets[id].batch != [] || step.expired) {
      DeliverKeeps(s, id);
    } else {
      GetOtherKeeps(s, id, step);
    }
  }

  lemma EmptyRange(log: seq<Event>, ns: string, at: nat)
    requires Sorted(log)
    ensures Between(log, ns, at, at) == []
  {
    BetweenIs(log, ns, at, at, []);
  }

  lemma OpenStepKeeps(s: State, step: Step)
    requires Inv(s) && (step.OpenResolve? || step.OpenCheck?)
    ensures Inv(OpenStep(s, step))
  {
    assert Sorted(s.db.log);
    hide DbInv, PrunerInv, Sorted, TailsInv, GetsInv, RegistryInv, HistoryLost, Resolve, Floor, Between;
    var s' := OpenStep(s, step);
    if step.OpenCheck? && step.req in s.opens && !HistoryLost(s.db, s.opens[step.req].after) {
      var o := s.opens[step.req];
      RegisterKeeps(s, s', Tail(o.ns, o.after, o.after, []));
    } else {
      RegistryOf(s, s');
    }
  }

  /** A cursor registered under a new number, with nothing delivered yet. */
  lemma RegisterKeeps(s: State, s': State, tail: Tail)
    requires RegistryInv(s) && TailsInv(s.db.log, s.cursors) && Sorted(s.db.log)
    requires tail.delivered == [] && tail.origin == tail.after
    requires s'.cursors == s.cursors[s.nextId := tail] && s'.gets == s.gets && s'.nextId == s.nextId + 1
    ensures RegistryInv(s') && TailsInv(s.db.log, s'.cursors)
  {
    EmptyRange(s.db.log, tail.ns, tail.after);
    assert TailInv(s.db.log, tail);
    hide TailInv, Sorted;
  }

  lemma KillKeeps(s: State, id: nat)
    requires Inv(s)
    ensures Inv(s.(cursors := s.cursors - {id}))
  {
    hide DbInv, PrunerInv, GetsInv, TailInv, Floor;
  }

  // ---------------------------------------------------------------- every step, every run

  lemma AdvancesSelf(d: Db)
    ensures Advances(d, d)
  {
  }

  lemma CommitStepKeeps(s: State, w: nat)
    requires Inv(s)
    ensures var d' := CommitWriter(s.db, w);
            && DbInv(d') && Advances(s.db, d')
            && PrunerInv(d'.log, d'.rows, d'.history, d'.lock.Pruning?, s.pruner)
  {
    CommitKeeps(s.db, w);
    if CommitWriter(s.db, w) != s.db {
      MissingBelowFloor(s.db);
      PlanSurvivesCommit(s.db.log, s.db.rows, s.db.history, s.pruner, s.db.lock.pending);
    }
    hide AccountedInv, WatermarkInv, Advances, PrunerInv;
  }

  lemma RollbackKeeps(d: Db, w: nat)
    requires DbInv(d)
    ensures DbInv(RollbackWriter(d, w)) && Advances(d, RollbackWriter(d, w))
  {
  }

  lemma DbStepKeeps(s: State, step: Step)
    requires Inv(s)
    requires step.Append? || step.RollbackTo? || step.Commit? || step.Rollback?
    ensures Inv(Next(s, step)) && Advances(s.db, Next(s, step).db)
  {
    hide DbInv, PrunerInv, TailsInv, GetsInv, RegistryInv, Advances;
    var d' := Next(s, step).db;
    match step {
      case Append(w, now, op, ns, o, o2) => AppendKeeps(s.db, w, now, op, ns, o, o2);
      case RollbackTo(w, keep) => UndoKeeps(s.db, w, keep);
      case Rollback(w) => RollbackKeeps(s.db, w);
      case Commit(w) => CommitStepKeeps(s, w);
    }
    ConsumersSurvive(s.db, d', s.cursors, s.gets);
    assert RegistryInv(Next(s, step)) by { RegistryOf(s, Next(s, step)); }
  }

  lemma RegistryOf(s: State, s': State)
    requires RegistryInv(s) && s'.cursors == s.cursors && s'.gets == s.gets && s'.nextId == s.nextId
    ensures RegistryInv(s')
  {
  }

  /** Opening a stream, reading from one and closing one leave the database alone. */
  lemma OnlyReads(s: State, step: Step)
    ensures step.OpenResolve? || step.OpenCheck? ==> OpenStep(s, step).db == s.db && OpenStep(s, step).pruner == s.pruner
    ensures forall id :: GetStep(s, id, step).db == s.db && GetStep(s, id, step).pruner == s.pruner
  {
  }

  /** Every step of every session keeps the invariant and only advances the durable state. */
  lemma NextKeeps(s: State, step: Step)
    requires Inv(s)
    ensures Inv(Next(s, step)) && Advances(s.db, Next(s, step).db)
  {
    hide DbInv, PrunerInv, Advances, TailsInv, GetsInv, RegistryInv, GetStep, OpenStep, PruneStep, Floor;
    AdvancesSelf(s.db);
    OnlyReads(s, step);
    match step
    case Append(_, _, _, _, _, _) => DbStepKeeps(s, step);
    case RollbackTo(_, _) => DbStepKeeps(s, step);
    case Commit(_) => DbStepKeeps(s, step);
    case Rollback(_) => DbStepKeeps(s, step);
    case OpenResolve(_, _, _) => OpenStepKeeps(s, step);
    case OpenCheck(_) => OpenStepKeeps(s, step);
    case GetBegin(id, _) => GetStepKeeps(s, id, step);
    case GetHead(id) => GetStepKeeps(s, id, step);
    case GetSelect(id) => GetStepKeeps(s, id, step);
    case GetCheck(id, _) => GetStepKeeps(s, id, step);
    case Kill(id) => KillKeeps(s, id);
    case _ =>
      PruneStepKeeps(s.db, s.pruner, step);
      ConsumersSurvive(s.db, Next(s, step).db, s.cursors, s.gets);
      RegistryOf(s, Next(s, step));
  }

  lemma AdvancesTransitive(a: Db, b: Db, c: Db)
    requires Sorted(c.log) && Sorted(b.log) && Advances(a, b) && Advances(b, c)
    ensures Advances(a, c)
  {
    LogGrows(a.log, b.log);
  }

  lemma {:induction false} RunKeeps(s: State, steps: seq<Step>)
    requires Inv(s)
    ensures Inv(Run(s, steps)) && Advances(s.db, Run(s, steps).db)
    decreases |steps|
  {
    if steps != [] {
      NextKeeps(s, steps[0]);
      RunKeeps(Next(s, steps[0]), steps[1..]);
      AdvancesTransitive(s.db, Next(s, steps[0]).db, Run(s, steps).db);
    }
  }
}
