/** What a pruning pass takes away and what it leaves, by row count and by age, whatever the other
    sessions do meanwhile. */
module OplogRetention {
  import opened Optional
  import opened Oplog
  import opened OplogInvariant
  import opened OplogTheorems

  // ---------------------------------------------------------------- the limits

  /** Past the age limit at the second a pass read; 0 switches the limit off. */
  predicate Expired(e: Event, maxAge: nat, now: nat) {
    0 < maxAge && e.ts.t + maxAge < now
  }

  /** Below the newest k rows; 0 switches the limit off. */
  predicate BelowNewest(e: Event, k: nat, rows: seq<Event>) {
    0 < k <= |rows| && e.sn < rows[|rows| - k].sn
  }

  predicate Aged(e: Event, cutoff: Option<nat>) {
    cutoff.Some? && e.ts.t < cutoff.value
  }

  /** A cutoff tells exactly the events past the age limit. */
  ghost predicate AgedBy(cutoff: Option<nat>, maxAge: nat, now: nat) {
    forall e: Event :: Aged(e, cutoff) <==> Expired(e, maxAge, now)
  }

  /** Nothing is gone but rows below the head that are past the cutoff or below the newest k. */
  ghost predicate Picked(rows: seq<Event>, rows': seq<Event>, head: nat, cutoff: Option<nat>, k: nat) {
    && (forall e :: e in rows' ==> e in rows)
    && (forall e :: e in rows && e !in rows' ==> e.sn < head && (Aged(e, cutoff) || BelowNewest(e, k, rows)))
  }

  /** No row below the head is past the cutoff, and at most k rows are left besides the extra ones. */
  ghost predicate Enforced(rows': seq<Event>, head: nat, cutoff: Option<nat>, k: nat, extra: int) {
    (forall e :: e in rows' && e.sn < head ==> !Aged(e, cutoff)) && (0 < k ==> |rows'| <= k + extra)
  }

  /** Picked and Enforced, by the limits themselves. */
  ghost predicate OnlyOverLimits(rows: seq<Event>, rows': seq<Event>, head: nat, maxRows: nat, maxAge: nat, now: nat) {
    && (forall e :: e in rows' ==> e in rows)
    && (forall e :: e in rows && e !in rows' ==>
          e.sn < head && (Expired(e, maxAge, now) || BelowNewest(e, maxRows, rows)))
  }

  ghost predicate LimitsHold(rows': seq<Event>, head: nat, maxRows: nat, maxAge: nat, now: nat, extra: int) {
    && (forall e :: e in rows' && e.sn < head ==> !Expired(e, maxAge, now))
    && (0 < maxRows ==> |rows'| <= maxRows + extra)
  }

  lemma PickedByLimits(rows: seq<Event>, rows': seq<Event>, head: nat, cutoff: Option<nat>,
                       maxRows: nat, maxAge: nat, now: nat, extra: int)
    requires AgedBy(cutoff, maxAge, now)
    ensures Picked(rows, rows', head, cutoff, maxRows) ==> OnlyOverLimits(rows, rows', head, maxRows, maxAge, now)
    ensures Enforced(rows', head, cutoff, maxRows, extra) ==> LimitsHold(rows', head, maxRows, maxAge, now, extra)
  {
    hide Aged, Expired, BelowNewest;
  }

  predicate HasPlan(p: Pruner) {
    p.Planned? || p.FoundNewest? || p.FoundStamp? || p.Locked? || p.Verified? || p.Deleting? || p.Marked?
  }

  /** What the invariant says of the tables and of a pass under way. */
  lemma PassHolds(s: State)
    requires Inv(s)
    ensures var d, p := s.db, s.pruner;
            && Sorted(d.rows) && Sorted(d.log)
            && (p.SampledAge? ==> HeadInv(d.log, d.rows, p.head, p.mark))
            && (HasPlan(p) ==> PlanInv(d.log, d.rows, p.plan))
            && (p.Deleting? || p.Marked? ==> p.removed == Victims(d.rows, p.plan) && p.removed != [])
            && (p.Locked? ==> NewestInv(d.rows, p.plan, p.newest))
  {
    hide Sorted, HeadInv, PlanInv, NewestInv, StampInv, Victims;
    hide AccountedInv, WatermarkInv, LockInv, RegistryInv, TailsInv, GetsInv;
  }

  /** At least `limit` rows are left, all if there were fewer, and at most `limit` plus the extra ones;
      they are the newest. */
  ghost predicate LimitKept(rows: seq<Event>, rows': seq<Event>, limit: nat, extra: int) {
    && |rows'| <= limit + extra && (limit <= |rows'| || rows' == rows)
    && |rows'| <= |rows| && rows' == rows[|rows| - |rows'|..]
  }

  lemma AllKept(rows: seq<Event>, limit: nat, extra: int)
    requires |rows| <= limit + extra
    ensures LimitKept(rows, rows, limit, extra)
  {
    assert rows[0..] == rows;
  }

  /** The row a plan's two bounds come down to, and how many rows lie from it on. */
  lemma BoundaryRow(log: seq<Event>, rows: seq<Event>, plan: Plan) returns (first: nat)
    requires PlanInv(log, rows, plan) && Sorted(rows) && plan.cut.Some? && 0 < plan.limit
    ensures first < |rows| && rows[first].sn == if plan.head < plan.cut.value then plan.head else plan.cut.value
    ensures plan.limit <= |rows| - first <= plan.limit + (|log| - plan.mark)
  {
    var head := |rows| - 1 - (|log| - plan.mark);
    var cut := |rows| - plan.limit - (|log| - plan.cutMark);
    assert head < cut ==> rows[head].sn < rows[cut].sn;
    assert cut < head ==> rows[cut].sn < rows[head].sn;
    hide Sorted;
    first := if head < cut then head else cut;
  }

  lemma RemainingRows(log: seq<Event>, rows: seq<Event>, plan: Plan, removed: seq<Event>)
    requires PlanInv(log, rows, plan) && Sorted(rows)
    requires removed == Victims(rows, plan) && removed != [] && plan.cutoff.None? && 0 < plan.limit
    ensures LimitKept(rows, Scan(rows, (e: Event) => e !in removed), plan.limit, |log| - plan.mark)
  {
    hide PlanInv, Victims, Sorted, Scan;
    VictimsOf(rows, plan);
    assert plan.cut.Some? by { assert removed[0] in removed; }
    var first := BoundaryRow(log, rows, plan);
    assert forall e :: e in removed <==> e in rows && e.sn < rows[first].sn;
    hide Doomed;
    KeptSuffix(rows, removed, first);
  }

  /** Removing everything below a row's sequence number leaves the rows from that row on. */
  lemma KeptSuffix(rows: seq<Event>, removed: seq<Event>, first: nat)
    requires Sorted(rows) && first < |rows|
    requires forall e :: e in removed <==> e in rows && e.sn < rows[first].sn
    ensures Scan(rows, (e: Event) => e !in removed) == rows[first..]
  {
    forall e ensures e in rows[first..] <==> e in rows && e !in removed {
      if e in rows {
        var k :| 0 <= k < |rows| && rows[k] == e;
        assert first <= k ==> rows[first..][k - first] == e;
      }
    }
    ScanIs(rows, (e: Event) => e !in removed, rows[first..]);
  }

  /** A row below the sampled cut is below the newest rows of any later moment. */
  lemma CutIsBelow(log: seq<Event>, rows: seq<Event>, plan: Plan, e: Event)
    requires PlanInv(log, rows, plan) && Sorted(rows) && Doomed(plan, e)
    ensures e.sn < plan.head && (Aged(e, plan.cutoff) || BelowNewest(e, plan.limit, rows))
  {
    if plan.cut.Some? && e.sn < plan.cut.value {
      var cut := |rows| - plan.limit - (|log| - plan.cutMark);
      assert cut < |rows| - plan.limit ==> rows[cut].sn < rows[|rows| - plan.limit].sn;
    }
  }

  lemma {:induction false} ScanTail(s: seq<Event>, p: Event -> bool, first: nat)
    requires first <= |s| && forall i :: 0 <= i < first ==> !p(s[i])
    ensures |Scan(s, p)| <= |s| - first
  {
    if first < |s| {
      assert s[..|s| - 1][..first] == s[..first];
      ScanTail(s[..|s| - 1], p, first);
    } else if s != [] {
      ScanTail(s[..|s| - 1], p, first - 1);
    }
  }

  lemma NothingOver(log: seq<Event>, rows: seq<Event>, plan: Plan)
    requires PlanInv(log, rows, plan) && Sorted(rows) && Victims(rows, plan) == []
    ensures Enforced(rows, plan.head, plan.cutoff, plan.limit, |log| - plan.mark)
  {
    VictimsOf(rows, plan);
    ScanIs(rows, (e: Event) => e !in [], rows);
    DeletionEnforces(log, rows, plan, []);
  }

  /** Deleting what a plan selects enforces both its limits at once. */
  lemma DeletionEnforces(log: seq<Event>, rows: seq<Event>, plan: Plan, removed: seq<Event>)
    requires PlanInv(log, rows, plan) && Sorted(rows) && removed == Victims(rows, plan)
    ensures var rows' := Scan(rows, (e: Event) => e !in removed);
            && Picked(rows, rows', plan.head, plan.cutoff, plan.limit)
            && Enforced(rows', plan.head, plan.cutoff, plan.limit, |log| - plan.mark)
  {
    hide Victims, Scan, Aged, BelowNewest;
    var rows' := Scan(rows, (e: Event) => e !in removed);
    VictimsOf(rows, plan);
    ScanMembers(rows, (e: Event) => e !in removed);
    assert Picked(rows, rows', plan.head, plan.cutoff, plan.limit) by {
      hide PlanInv, Sorted;
      forall e | e in rows && e !in rows'
        ensures e.sn < plan.head && (Aged(e, plan.cutoff) || BelowNewest(e, plan.limit, rows))
      {
        CutIsBelow(log, rows, plan, e);
      }
    }
    if 0 < plan.limit { DeletionLeaves(log, rows, plan, removed); }
    hide PlanInv, Sorted;
    forall e | e in rows' && e.sn < plan.head
      ensures !Aged(e, plan.cutoff)
    {
      AgedIsDoomed(plan, e);
    }
  }

  lemma AgedIsDoomed(plan: Plan, e: Event)
    ensures e.sn < plan.head && Aged(e, plan.cutoff) ==> Doomed(plan, e)
  {
  }

  lemma DeletionLeaves(log: seq<Event>, rows: seq<Event>, plan: Plan, removed: seq<Event>)
    requires PlanInv(log, rows, plan) && Sorted(rows) && 0 < plan.limit
    requires forall e :: e in removed <==> e in rows && Doomed(plan, e)
    ensures |Scan(rows, (e: Event) => e !in removed)| <= plan.limit + (|log| - plan.mark)
  {
    ScanMembers(rows, (e: Event) => e !in removed);
    hide Scan;
    if plan.cut.Some? {
      var first := BoundaryRow(log, rows, plan);
      forall i | 0 <= i < first
        ensures rows[i] in removed
      {
        assert rows[i] in rows && rows[i].sn < rows[first].sn;
      }
      ScanTail(rows, (e: Event) => e !in removed, first);
    }
  }

  lemma PassEnds(d: Db, p: Pruner, step: Step)
    requires !step.PruneAbort? && PruneStep(d, p, step).1.Idle? && (p.SampledAge? || p.Planned? || p.Marked?)
    ensures p.SampledAge? ==> PruneStep(d, p, step).0 == d && (0 < p.maxRows ==> |d.rows| < p.maxRows)
    ensures p.Planned? ==> PruneStep(d, p, step).0 == d && Victims(d.rows, p.plan) == []
    ensures p.Marked? ==> PruneStep(d, p, step).0.rows == Scan(d.rows, (e: Event) => e !in p.removed)
  {
    hide Scan, Victims, MaxSeq, MaxStamp, Doomed;
  }

  /** A pass with the age limit off that runs to its end leaves the newest rows and only those: at
      least `limit` of them (all, if fewer are stored) and at most `limit` plus the events committed
      since it sampled its head.  It can end with no cut, with nothing to delete, or by committing. */
  lemma RowLimitPass(s: State, step: Step)
    requires Inv(s) && !step.PruneAbort? && PruneStep(s.db, s.pruner, step).1.Idle?
    requires match s.pruner
             case SampledAge(maxRows, _, cutoff, _) => cutoff.None? && 0 < maxRows
             case Planned(plan) => plan.cutoff.None? && 0 < plan.limit
             case Marked(plan, _, _) => plan.cutoff.None? && 0 < plan.limit
             case _ => false
    ensures var p, rows' := s.pruner, PruneStep(s.db, s.pruner, step).0.rows;
            if p.SampledAge? then LimitKept(s.db.rows, rows', p.maxRows, |s.db.log| - p.mark)
            else LimitKept(s.db.rows, rows', p.plan.limit, |s.db.log| - p.plan.mark)
  {
    PassEnds(s.db, s.pruner, step);
    hide Inv, Sorted, Victims, PruneStep, PlanInv, Scan, NewestInv, LimitKept;
    PassHolds(s);
    match s.pruner {
      case SampledAge(maxRows, head, _, mark) => AllKept(s.db.rows, maxRows, |s.db.log| - mark);
      case Planned(plan) =>
        hide HeadInv;
        NothingOver(s.db.log, s.db.rows, plan);
        AllKept(s.db.rows, plan.limit, |s.db.log| - plan.mark);
      case Marked(plan, removed, _) =>
        hide HeadInv;
        RemainingRows(s.db.log, s.db.rows, plan, removed);
    }
  }

  // A pass with both limits, from its head sample to its commit.

  /** A pass under way works for these limits, below this head. */
  ghost predicate WorksFor(p: Pruner, maxRows: nat, maxAge: nat, now: nat, head: nat, mark: nat) {
    && (p.SampledAge? ==>
          p.maxRows == maxRows && p.head == head && p.mark == mark && AgedBy(p.cutoff, maxAge, now))
    && (HasPlan(p) ==>
          p.plan.limit == maxRows && p.plan.head == head && p.plan.mark == mark && AgedBy(p.plan.cutoff, maxAge, now))
    && (p.SampledAge? || HasPlan(p))
  }

  lemma WorksOn(s: State, step: Step, maxRows: nat, maxAge: nat, now: nat, head: nat, mark: nat)
    requires WorksFor(s.pruner, maxRows, maxAge, now, head, mark) && !Next(s, step).pruner.Idle?
    ensures WorksFor(Next(s, step).pruner, maxRows, maxAge, now, head, mark)
  {
    hide AgedBy, Victims, GetStep, OpenStep, AppendEvent, UndoTo, CommitWriter, RollbackWriter, PublishPrune;
    OnlyReads(s, step);
  }

  /** The pass is not over in any state of the run. */
  ghost predicate Underway(s: State, steps: seq<Step>)
    decreases |steps|
  {
    !s.pruner.Idle? && (steps == [] || Underway(Next(s, steps[0]), steps[1..]))
  }

  lemma {:induction false} WorksThrough(s: State, steps: seq<Step>, maxRows: nat, maxAge: nat, now: nat,
                                        head: nat, mark: nat)
    requires Inv(s) && WorksFor(s.pruner, maxRows, maxAge, now, head, mark) && Underway(s, steps)
    ensures Inv(Run(s, steps)) && WorksFor(Run(s, steps).pruner, maxRows, maxAge, now, head, mark)
    decreases |steps|
  {
    hide Inv, WorksFor, Next;
    if steps != [] {
      NextKeeps(s, steps[0]);
      assert Underway(Next(s, steps[0]), steps[1..]);
      assert !Next(s, steps[0]).pruner.Idle?;
      WorksOn(s, steps[0], maxRows, maxAge, now, head, mark);
      WorksThrough(Next(s, steps[0]), steps[1..], maxRows, maxAge, now, head, mark);
    }
  }

  lemma CutoffIs(s: State, now: nat)
    requires s.pruner.SampledHead?
    ensures var p := s.pruner;
            Next(s, PruneAge(now)).db == s.db
            && WorksFor(Next(s, PruneAge(now)).pruner, p.maxRows, p.maxAge, now, p.head, p.mark)
  {
  }

  /** What a pass does, with both limits at once, and whatever everyone else does meanwhile: from
      the moment it has sampled its head to its commit, only rows below that head go, each past the
      age limit at the second it read or below the newest maxRows rows; afterwards no row below the
      head is past the age limit, and at most maxRows are left besides those committed since. */
  lemma AgeLimitPass(s: State, now: nat, steps: seq<Step>)
    requires Inv(s) && s.pruner.SampledHead?
    requires Underway(Next(s, PruneAge(now)), steps) && Run(Next(s, PruneAge(now)), steps).pruner.Marked?
    ensures var p, s1 := s.pruner, Run(Next(s, PruneAge(now)), steps);
            var rows' := Next(s1, PruneCommit).db.rows;
            && OnlyOverLimits(s1.db.rows, rows', p.head, p.maxRows, p.maxAge, now)
            && LimitsHold(rows', p.head, p.maxRows, p.maxAge, now, |s1.db.log| - p.mark)
  {
    hide Inv, Underway, Next, Run, LimitsHold, OnlyOverLimits, WorksFor;
    var p := s.pruner;
    NextKeeps(s, PruneAge(now));
    CutoffIs(s, now);
    WorksThrough(Next(s, PruneAge(now)), steps, p.maxRows, p.maxAge, now, p.head, p.mark);
    WorkDone(Run(Next(s, PruneAge(now)), steps), p.maxRows, p.maxAge, now, p.head, p.mark);
  }

  lemma WorkDone(s: State, maxRows: nat, maxAge: nat, now: nat, head: nat, mark: nat)
    requires Inv(s) && s.pruner.Marked? && WorksFor(s.pruner, maxRows, maxAge, now, head, mark)
    ensures var rows' := Next(s, PruneCommit).db.rows;
            && OnlyOverLimits(s.db.rows, rows', head, maxRows, maxAge, now)
            && LimitsHold(rows', head, maxRows, maxAge, now, |s.db.log| - mark)
  {
    hide Inv, Next, Picked, Enforced, LimitsHold, OnlyOverLimits, AgedBy;
    CommitEnforces(s);
    PickedByLimits(s.db.rows, Next(s, PruneCommit).db.rows, head, s.pruner.plan.cutoff,
                   maxRows, maxAge, now, |s.db.log| - mark);
  }

  lemma CommitEnforces(s: State)
    requires Inv(s) && s.pruner.Marked?
    ensures var plan, rows' := s.pruner.plan, Next(s, PruneCommit).db.rows;
            && Picked(s.db.rows, rows', plan.head, plan.cutoff, plan.limit)
            && Enforced(rows', plan.head, plan.cutoff, plan.limit, |s.db.log| - plan.mark)
  {
    hide Inv, Victims, PlanInv, HeadInv, Sorted, Scan, Picked, Enforced, NewestInv;
    PassHolds(s);
    DeletionEnforces(s.db.log, s.db.rows, s.pruner.plan, s.pruner.removed);
  }

  /** Once a pass has found rows to delete, nothing the other sessions do can make it give up: the
      boundary it planned is always verified, and what it deletes is never empty. */
  lemma PlannedBoundaryHolds(s: State, step: Step)
    requires Inv(s) && !step.PruneAbort?
    requires s.pruner.FoundNewest? || s.pruner.FoundStamp? || s.pruner.Locked? || s.pruner.Verified? || s.pruner.Deleting?
    ensures !PruneStep(s.db, s.pruner, step).1.Idle?
    ensures PruneStep(s.db, s.pruner, step).1.Marked? ==> PruneStep(s.db, s.pruner, step).1.removed != []
  {
    hide Inv, PlanInv, Sorted, Victims, Doomed, Scan, MaxSeq, MaxStamp, Advanced;
    PassHolds(s);
    if s.pruner.FoundNewest? || s.pruner.Locked? { BoundaryHolds(s); }
  }

  lemma BoundaryHolds(s: State)
    requires Inv(s)
    ensures s.pruner.FoundNewest? ==> Victims(s.db.rows, s.pruner.plan) != []
    ensures s.pruner.Locked? ==>
              exists e :: e in s.db.rows && e.sn == s.pruner.newest && Doomed(s.pruner.plan, e)
  {
    assert s.pruner.FoundNewest? ==> NewestInv(s.db.rows, s.pruner.plan, s.pruner.newest);
    hide Inv, PlanInv, Sorted, Victims;
    PassHolds(s);
    if s.pruner.FoundNewest? { VictimsOf(s.db.rows, s.pruner.plan); }
  }

  /** The pass under way in s is still under way after every one of the steps. */
  ghost predicate SamePass(s: State, steps: seq<Step>)
    decreases |steps|
  {
    HasPlan(s.pruner) && (steps == [] || SamePass(Next(s, steps[0]), steps[1..]))
  }

  lemma SameVictims(log: seq<Event>, rows: seq<Event>, rows': seq<Event>, plan: Plan)
    requires HeadInv(log, rows, plan.head, plan.mark) && Sorted(rows) && Sorted(rows') && rows <= rows'
    ensures Victims(rows', plan) == Victims(rows, plan)
  {
    HeadBounded(log, rows, plan.head, plan.mark);
    VictimsOf(rows, plan);
    forall e | e in rows' && Doomed(plan, e)
      ensures e in rows
    {
      var k :| 0 <= k < |rows'| && rows'[k] == e;
      assert rows'[|rows| - 1] == rows[|rows| - 1];
    }
    forall e | e in rows
      ensures e in rows'
    {
    }
    hide Sorted, HeadInv;
    ScanIs(rows', (e: Event) => Doomed(plan, e), Victims(rows, plan));
  }

  lemma PlanCarries(s: State, step: Step)
    requires HasPlan(s.pruner) && HasPlan(Next(s, step).pruner)
    ensures Next(s, step).pruner.plan == s.pruner.plan && !(step.PruneCommit? && s.pruner.Marked?)
  {
    hide Victims, GetStep, OpenStep, AppendEvent, UndoTo, CommitWriter, RollbackWriter, PublishPrune;
    OnlyReads(s, step);
  }

  lemma NextKeepsPlan(s: State, step: Step)
    requires Inv(s) && HasPlan(s.pruner) && HasPlan(Next(s, step).pruner)
    ensures Next(s, step).pruner.plan == s.pruner.plan
    ensures Victims(Next(s, step).db.rows, s.pruner.plan) == Victims(s.db.rows, s.pruner.plan)
  {
    hide Inv, Next, PruneStep, Victims, Doomed, HeadInv, Sorted;
    var d, d', plan := s.db, Next(s, step).db, s.pruner.plan;
    PlanCarries(s, step);
    OnlyPruneCommitDeletes(s, step);
    NextKeeps(s, step);
    PassHolds(s);
    PassHolds(Next(s, step));
    assert HeadInv(d.log, d.rows, plan.head, plan.mark);
    SameVictims(d.log, d.rows, d'.rows, plan);
  }

  /** However many commits land in between, the set deleted under the lock is the set planned. */
  lemma {:induction false} DeletesWhatWasPlanned(s: State, steps: seq<Step>)
    requires Inv(s) && SamePass(s, steps) && Run(s, steps).pruner.Marked?
    ensures Run(s, steps).pruner.removed == Victims(s.db.rows, s.pruner.plan)
    decreases |steps|
  {
    if steps != [] {
      var s' := Next(s, steps[0]);
      NextKeeps(s, steps[0]);
      assert HasPlan(s'.pruner);
      NextKeepsPlan(s, steps[0]);
      DeletesWhatWasPlanned(s', steps[1..]);
    }
  }
}
