/** The server's own procedures, statement by statement as they are written, each proved to be a
    path of the step machine.  Between any two statements `Interfere` lets the other sessions take
    any steps at all; a schedule `env` says which, and everything holds for every schedule. */
module OplogServer {
  import opened Optional
  import opened Oplog
  import opened OplogInvariant
  import opened OplogTheorems
  import opened OplogRetention
  import opened OplogStreams
  import opened ChangeEvents
  import opened ResumeToken

  // ---------------------------------------------------------------- schedules

  /** Steps of sessions other than the pruner, which g_prune_mutex keeps to one pass at a time. */
  predicate NotPruning(step: Step) {
    !(step.PruneHead? || step.PruneAge? || step.PruneCut? || step.PruneNewest? || step.PruneStamp?
      || step.PruneLock? || step.PruneVerify? || step.PruneDelete? || step.PruneMark?
      || step.PruneCommit? || step.PruneAbort?)
  }

  /** Steps of sessions other than the getMore on cursor id. */
  predicate NotReading(id: nat, step: Step) {
    !(step.GetBegin? && step.id == id) && !(step.GetHead? && step.id == id)
    && !(step.GetSelect? && step.id == id) && !(step.GetCheck? && step.id == id)
  }

  /** Steps that do not end the transaction of writer w. */
  predicate NotWriting(w: nat, step: Step) {
    !(step.Append? && step.w == w) && !(step.RollbackTo? && step.w == w)
    && !(step.Commit? && step.w == w) && !(step.Rollback? && step.w == w)
  }

  lemma {:induction false} OthersKeepPruner(s: State, steps: seq<Step>)
    requires forall step :: step in steps ==> NotPruning(step)
    ensures Run(s, steps).pruner == s.pruner
    decreases |steps|
  {
    if steps != [] {
      assert steps[0] in steps;
      assert Next(s, steps[0]).pruner == s.pruner by {
        hide GetStep, OpenStep, AppendEvent, UndoTo, CommitWriter, RollbackWriter, PruneStep;
        var step := steps[0];
        OnlyReads(s, step);
      }
      OthersKeepPruner(Next(s, steps[0]), steps[1..]);
    }
  }

  lemma {:induction false} OthersKeepGet(s: State, id: nat, steps: seq<Step>)
    requires forall step :: step in steps ==> NotReading(id, step)
    requires id in s.gets
    ensures id in Run(s, steps).gets && Run(s, steps).gets[id] == s.gets[id]
    decreases |steps|
  {
    if steps != [] {
      assert steps[0] in steps;
      var s' := Next(s, steps[0]);
      assert id in s'.gets && s'.gets[id] == s.gets[id] by {
        hide AppendEvent, UndoTo, CommitWriter, RollbackWriter, PruneStep, NextAfter, HistoryLost, Following, Resolve;
      }
      OthersKeepGet(s', id, steps[1..]);
    }
  }

  lemma {:induction false} OthersKeepCursor(s: State, id: nat, steps: seq<Step>)
    requires forall step :: step in steps ==> NotReading(id, step)
    requires id < s.nextId
    ensures id in Run(s, steps).cursors ==> id in s.cursors && Run(s, steps).cursors[id] == s.cursors[id]
    ensures s.nextId <= Run(s, steps).nextId
    decreases |steps|
  {
    if steps != [] {
      assert steps[0] in steps;
      var s' := Next(s, steps[0]);
      assert s.nextId <= s'.nextId && (id in s'.cursors ==> id in s.cursors && s'.cursors[id] == s.cursors[id]) by {
        hide AppendEvent, UndoTo, CommitWriter, RollbackWriter, PruneStep, NextAfter, HistoryLost, Following, Resolve;
      }
      OthersKeepCursor(s', id, steps[1..]);
    }
  }

  lemma {:induction false} OthersKeepWriter(s: State, w: nat, steps: seq<Step>)
    requires forall step :: step in steps ==> NotWriting(w, step)
    requires Inv(s) && s.db.lock.Writer? && s.db.lock.w == w
    ensures Run(s, steps).db.lock == s.db.lock && Run(s, steps).db.nextSeq == s.db.nextSeq
    ensures Run(s, steps).db.log == s.db.log && Run(s, steps).db.clock == s.db.clock
    decreases |steps|
  {
    if steps != [] {
      assert steps[0] in steps;
      WriterKeepsLock(s, w, steps[0]);
      NextKeeps(s, steps[0]);
      hide Inv, Next;
      OthersKeepWriter(Next(s, steps[0]), w, steps[1..]);
    }
  }

  lemma WriterKeepsLock(s: State, w: nat, step: Step)
    requires NotWriting(w, step) && s.db.lock.Writer? && s.db.lock.w == w && Inv(s)
    ensures var d, d' := s.db, Next(s, step).db;
            d'.lock == d.lock && d'.nextSeq == d.nextSeq && d'.log == d.log && d'.clock == d.clock
  {
    if !WriterStep(step) {
      OthersOnlyRead(s, step);
      hide Next;
    }
    hide Inv;
  }

  lemma {:induction false} NeverTaken(s: State, w: nat, steps: seq<Step>)
    requires forall step :: step in steps ==> NotWriting(w, step)
    requires Inv(s) && !(s.db.lock.Writer? && s.db.lock.w == w)
    ensures var lock := Run(s, steps).db.lock; !(lock.Writer? && lock.w == w)
    decreases |steps|
  {
    if steps != [] {
      assert steps[0] in steps;
      StepTakesNot(s, w, steps[0]);
      NextKeeps(s, steps[0]);
      hide Inv, Next;
      NeverTaken(Next(s, steps[0]), w, steps[1..]);
    }
  }

  lemma PendingStamp(s: State)
    requires Inv(s) && s.db.lock.Writer? && s.db.lock.pending != []
    ensures s.db.lock.clock == s.db.lock.pending[|s.db.lock.pending| - 1].ts
  {
    hide TablesInv, AccountedInv, WatermarkInv, PrunerInv, RegistryInv, TailsInv, GetsInv, Sorted;
  }

  lemma StepTakesNot(s: State, w: nat, step: Step)
    requires NotWriting(w, step) && Inv(s) && !(s.db.lock.Writer? && s.db.lock.w == w)
    ensures var lock := Next(s, step).db.lock; !(lock.Writer? && lock.w == w)
  {
    if !WriterStep(step) {
      OthersOnlyRead(s, step);
      hide Next;
    }
    hide Inv;
  }

  lemma {:induction false} OthersKeepRows(s: State, steps: seq<Step>)
    requires Inv(s)
    requires forall step :: step in steps ==> NotPruning(step)
    ensures Grew(s.db, Run(s, steps).db)
    decreases |steps|
  {
    if steps == [] {
      assert s.db.rows == s.db.rows + s.db.log[|s.db.log|..];
    } else {
      assert steps[0] in steps;
      OnlyPruneCommitDeletes(s, steps[0]);
      NextKeeps(s, steps[0]);
      hide Inv, Next, Grew;
      OthersKeepRows(Next(s, steps[0]), steps[1..]);
      GrewFurther(s.db, Next(s, steps[0]).db, Run(s, steps).db);
    }
  }

  lemma {:induction false} ScanSplit(s: seq<Event>, p: Event -> bool, q: Event -> bool)
    requires forall e :: e in s ==> (q(e) <==> !p(e))
    ensures |Scan(s, p)| + |Scan(s, q)| == |s|
  {
    if s != [] {
      var init, last := s[..|s| - 1], s[|s| - 1];
      assert last in s && forall e :: e in init ==> e in s;
      ScanSplit(init, p, q);
    }
  }

  lemma PrunedCount(s: State)
    requires Inv(s) && s.pruner.Marked?
    ensures |Scan(s.db.rows, (e: Event) => e !in s.pruner.removed)| + |s.pruner.removed| == |s.db.rows|
  {
    var removed, plan := s.pruner.removed, s.pruner.plan;
    assert removed == Victims(s.db.rows, plan) && Sorted(s.db.rows);
    hide Inv, Sorted;
    VictimsOf(s.db.rows, plan);
    ScanSplit(s.db.rows, (e: Event) => Doomed(plan, e), (e: Event) => e !in removed);
  }

  /** What a marked pass leaves when it commits. */
  lemma MarkedPass(s: State)
    requires Inv(s) && s.pruner.Marked?
    ensures var rows', plan := Next(s, PruneCommit).db.rows, s.pruner.plan;
            && |rows'| + |s.pruner.removed| == |s.db.rows|
            && Picked(s.db.rows, rows', plan.head, plan.cutoff, plan.limit)
            && Enforced(rows', plan.head, plan.cutoff, plan.limit, |s.db.log| - plan.mark)
  {
    hide Inv, Scan, Victims, Picked, Enforced;
    PrunedCount(s);
    CommitStep(s);
    CommitEnforces(s);
  }

  lemma HeadZero(s: State)
    requires Inv(s)
    ensures MaxSeq(s.db.rows) == 0 ==> s.db.rows == []
  {
    MaxSeqBounds(s.db.rows);
  }

  // ---------------------------------------------------------------- single steps

  lemma CheckGetStep(s: State, id: nat, expired: bool)
    requires id in s.gets && s.gets[id].Read?
    ensures var g := s.gets[id];
            Next(s, GetCheck(id, expired)) ==
              if HistoryLost(s.db, g.after) then s.(gets := s.gets - {id})
              else if g.batch == [] && !expired then s.(gets := s.gets[id := Sampling(g.ns, g.after, g.wanted)])
              else Deliver(s, id, g)
  {
    hide HistoryLost, Deliver;
  }

  lemma LostWhen(d: Db, after: nat, floor: nat)
    requires floor == if d.history.prunedSeq < d.history.baselineSeq then d.history.baselineSeq else d.history.prunedSeq
    ensures HistoryLost(d, after) <==> !(after >= floor && (after == 0 || |d.rows| > 0))
  {
  }

  lemma MovesTo(g: Get, last: nat)
    requires g.Read? && last == if g.batch == [] then g.after else g.batch[|g.batch| - 1].sn
    ensures NextAfter(g) == if |g.batch| >= g.wanted then last else if g.head < last then last else g.head
  {
  }

  lemma CutStep(s: State)
    requires s.pruner.SampledAge?
    ensures var d, p := s.db, s.pruner;
            var cut := if 0 < p.maxRows <= |d.rows| then Some(d.rows[|d.rows| - p.maxRows].sn) else None;
            Next(s, PruneCut) ==
              s.(pruner := if p.cutoff.None? && cut.None? then Idle
                           else Planned(Plan(p.head, p.cutoff, cut, p.maxRows, p.mark, |d.log|)))
  {
  }

  lemma SameTable(d: Db)
    ensures Grew(d, d)
  {
    assert d.rows + d.log[|d.log|..] == d.rows;
  }

  lemma MarkBelow(s: State)
    requires Inv(s) && s.pruner.SampledAge?
    ensures s.pruner.mark <= |s.db.log|
  {
    hide Inv;
    PassHolds(s);
  }

  lemma VerifyStep(s: State)
    requires Inv(s) && s.pruner.Locked?
    ensures var p := s.pruner;
            Next(s, PruneVerify) == s.(pruner := Verified(p.plan, p.newest, p.stamp))
  {
    hide Inv, Doomed;
    BoundaryHolds(s);
  }

  lemma StampStep(s: State)
    requires Inv(s) && s.pruner.FoundNewest?
    ensures var victims := Victims(s.db.rows, s.pruner.plan);
            && victims != []
            && Next(s, PruneStamp) == s.(pruner := FoundStamp(s.pruner.plan, s.pruner.newest, MaxStamp(victims)))
  {
    hide Inv, Victims, MaxStamp;
    BoundaryHolds(s);
  }

  lemma CommitStep(s: State)
    requires s.pruner.Marked?
    ensures Next(s, PruneCommit) ==
              s.(db := PublishPrune(s.db, s.pruner.removed, s.pruner.history), pruner := Idle)
  {
    hide Scan;
  }

  // ---------------------------------------------------------------- the server

  /** One write of a transaction body; now is the seconds reading of its statement. */
  datatype Write = Write(now: nat, op: Op, ns: string, o: string, o2: Option<string>)

  datatype Reply = Lost | Batch(documents: seq<ChangeEvent>, token: string)

  predicate Matches(e: Event, w: Write) {
    e.op == w.op && e.ns == w.ns && e.o == w.o && e.o2 == w.o2
  }

  /** A plan with nothing to delete: the rows are already within its limits. */
  lemma NothingDoomed(s: State)
    requires Inv(s) && s.pruner.Planned? && Victims(s.db.rows, s.pruner.plan) == []
    ensures var plan := s.pruner.plan;
            Enforced(s.db.rows, plan.head, plan.cutoff, plan.limit, |s.db.log| - plan.mark)
  {
    assert PlanInv(s.db.log, s.db.rows, s.pruner.plan) && Sorted(s.db.rows);
    hide Inv, PlanInv, Sorted;
    NothingOver(s.db.log, s.db.rows, s.pruner.plan);
  }

  /** The first rows of a namespace past a position, in order and at most as many as wanted. */
  ghost predicate FirstPage(rows: seq<Event>, ns: string, after: nat, wanted: nat, page: seq<Event>) {
    && Sorted(page) && |page| <= wanted
    && (forall e :: e in page ==> e in rows && e.ns == ns && after < e.sn)
    && (forall e, f :: e in rows && e.ns == ns && after < e.sn && e !in page && f in page ==> f.sn < e.sn)
    && (|page| < wanted ==> forall e :: e in rows && e.ns == ns && after < e.sn ==> e in page)
  }

  lemma FirstPageIs(rows: seq<Event>, ns: string, after: nat, wanted: nat)
    requires Sorted(rows)
    ensures FirstPage(rows, ns, after, wanted, Take(Following(rows, ns, after), wanted))
  {
    FollowingIs(rows, ns, after);
    TakeIs(Following(rows, ns, after), wanted);
    hide Following, Take, Sorted;
  }

  lemma TakeIs(s: seq<Event>, n: nat)
    requires Sorted(s)
    ensures var page := Take(s, n);
            && Sorted(page) && |page| <= n && (|page| < n ==> page == s)
            && (forall e :: e in page ==> e in s)
            && (forall e, f :: e in s && e !in page && f in page ==> f.sn < e.sn)
  {
    if n < |s| {
      forall e, f | e in s && e !in s[..n] && f in s[..n]
        ensures f.sn < e.sn
      {
        var j :| 0 <= j < |s| && s[j] == e;
        assert n <= j;
      }
    }
  }

  lemma FollowingIs(rows: seq<Event>, ns: string, after: nat)
    requires Sorted(rows)
    ensures Sorted(Following(rows, ns, after))
    ensures forall e :: e in Following(rows, ns, after) <==> e in rows && e.ns == ns && after < e.sn
  {
    ScanMembers(rows, (e: Event) => e.ns == ns && after < e.sn);
    ScanSorted(rows, (e: Event) => e.ns == ns && after < e.sn);
  }

  lemma PageWithin(rows: seq<Event>, ns: string, after: nat, wanted: nat)
    requires Sorted(rows)
    ensures forall e :: e in Take(Following(rows, ns, after), wanted) ==> e in rows
  {
    FollowingIs(rows, ns, after);
  }

  lemma SafeTables(s: State)
    requires Inv(s)
    ensures TablesInv(s.db.log, s.db.rows, s.db.nextSeq) && Sorted(s.db.rows)
  {
  }

  lemma RowsNumbered(log: seq<Event>, rows: seq<Event>, nextSeq: nat)
    requires TablesInv(log, rows, nextSeq)
    ensures forall e :: e in rows ==> e.sn < TOKEN_LIMIT
  {
  }

  /** A client's view after a reply. */
  lemma Mirrored(log: seq<Event>, g: Get, documents: seq<ChangeEvent>, keyOf: string -> string)
    requires g.Read? && Sorted(log) && g.after <= NextAfter(g) && TellsAll(documents, g.batch, keyOf)
    requires g.batch == Between(log, g.ns, g.after, NextAfter(g))
    ensures forall view :: Replay(view, documents) == Writes(view, g.batch, keyOf)
    ensures Replay(Contents(log, g.ns, g.after, keyOf), documents) == Contents(log, g.ns, NextAfter(g), keyOf)
  {
    hide NextAfter, TellsAll, Between, Contents, Sorted, Replay, Writes;
    forall view
      ensures Replay(view, documents) == Writes(view, g.batch, keyOf)
    {
      ReplayIsWrites(view, documents, g.batch, keyOf);
    }
    MirrorMoves(log, g.ns, g.after, NextAfter(g), documents, keyOf);
  }

  /** The append procedure can run: nobody else holds the lock, and stamp and number are in range. */
  predicate CanAppend(d: Db, w: nat, now: nat) {
    var clock := Tick(OperationTime(d, w), now);
    && !d.lock.Pruning? && (d.lock.Writer? ==> d.lock.w == w)
    && clock.t <= MAX_UINT32 && clock.i <= MAX_UINT32 && d.nextSeq <= MAX_UINT64
  }

  /** The lock is free, and every write of the body will find stamp and number in range. */
  predicate GetsThrough(d: Db, body: seq<Write>) {
    && d.lock.Free? && d.nextSeq + |body| <= MAX_UINT64 + 1 && d.clock.i + |body| <= MAX_UINT32
    && forall k :: 0 <= k < |body| ==> body[k].now <= MAX_UINT32
  }

  lemma TickIs(clock: Stamp, now: nat)
    ensures Tick(clock, now) == Stamp(now, if clock.t == now then clock.i + 1 else 1)
  {
  }

  /** The transaction with one more row, stamped with the clock it has moved on. */
  lemma AppendStep(s: State, w: nat, write: Write)
    ensures var d := s.db; var clock := Tick(OperationTime(d, w), write.now);
            var row := Event(d.nextSeq, clock, write.op, write.ns, write.o, write.o2);
            Next(s, Append(w, write.now, write.op, write.ns, write.o, write.o2)) ==
              if CanAppend(d, w, write.now) then
                s.(db := d.(nextSeq := d.nextSeq + 1, reading := write.now,
                            lock := Writer(w, clock, (if d.lock.Writer? then d.lock.pending else []) + [row])))
              else s
  {
    hide Tick, OperationTime;
  }

  class Server {
    var db: Db
    var pruner: Pruner
    var cursors: map<nat, Tail>
    var gets: map<nat, Get>
    var opens: map<nat, Opening>
    var nextId: nat

    /** Where this server started and every step taken since, by anyone. */
    ghost var origin: State
    ghost var steps: seq<Step>

    function State(): State
      reads this
    {
      Oplog.State.State(db, pruner, cursors, gets, opens, nextId)
    }

    /** The server's state is a run of the machine from an installed oplog. */
    ghost predicate Valid()
      reads this
    {
      (Installed(origin, false) || Installed(origin, true)) && State() == Run(origin, steps)
    }

    lemma Safe()
      requires Valid()
      ensures Inv(State())
    {
      InstalledInv(origin, Installed(origin, true));
      RunKeeps(origin, steps);
    }

    lemma Based()
      requires Valid()
      ensures BaselineInv(db)
    {
      hide Inv, BaselineInv, Run;
      InstalledInv(origin, Installed(origin, true));
      RunKeeps(origin, steps);
      BaselineStays(origin.db, db);
    }

    lemma LastPendingStamp()
      requires Valid() && db.lock.Writer? && db.lock.pending != []
      ensures db.lock.clock == db.lock.pending[|db.lock.pending| - 1].ts
    {
      hide Valid, Inv;
      Safe();
      PendingStamp(State());
    }

    /** install_oplog_schema on an oplog with these contents. */
    constructor Install(legacy: bool, rows: seq<Event>, clock: Stamp, nextSeq: nat, log: seq<Event>)
      requires TablesInv(log, rows, nextSeq) && clock == LastStamp(log, Stamp(0, 0))
      requires !legacy ==> log == []
      requires forall e :: e in log ==> e in rows || e.sn < rows[0].sn
      ensures Valid() && steps == [] && Installed(origin, legacy)
      ensures db.rows == rows && db.log == log
    {
      var oldest := if rows == [] then 0 else rows[0].sn;
      var history := History(0, Stamp(0, 0), legacy && oldest > 1,
                             if oldest > 0 then oldest - 1 else 0,
                             if rows == [] then Stamp(0, 0) else rows[0].ts);
      db := Db(rows, clock, nextSeq, Free, history, log, {}, clock.t);
      pruner, cursors, gets, opens, nextId := Idle, map[], map[], map[], 1;
      new;
      assert rows != [] ==> rows[0] in rows && rows[0] in log;
      steps := [];
      origin := State();
    }

    /** Record that the server has just taken a step. */
    ghost method Took(before: State, step: Step)
      requires Installed(origin, false) || Installed(origin, true)
      requires before == Run(origin, steps) && State() == Next(before, step)
      modifies this`steps
      ensures Valid() && steps == old(steps) + [step]
    {
      RunAppend(origin, steps, [step]);
      RunOne(before, step);
      steps := steps + [step];
    }

    /** Everything the other sessions do between two statements of this one. */
    method Interfere(env: seq<Step>)
      requires Valid()
      modifies this
      ensures Valid() && origin == old(origin) && steps == old(steps) + env
      ensures State() == Run(old(State()), env)
    {
      hide Installed, Run;
      var s := Run(State(), env);
      RunAppend(origin, steps, env);
      db, pruner, cursors, gets, opens, nextId := s.db, s.pruner, s.cursors, s.gets, s.opens, s.nextId;
      steps := steps + env;
    }

    // -------------------------------------------------------------- writers

    /** CALL oplog_append, as the collection's triggers do; false when it could not run. */
    method OplogAppend(w: nat, write: Write) returns (ok: bool)
      requires Valid()
      modifies this
      ensures Valid() && origin == old(origin)
      ensures steps == old(steps) + [Append(w, write.now, write.op, write.ns, write.o, write.o2)]
      ensures State() == Next(old(State()), Append(w, write.now, write.op, write.ns, write.o, write.o2))
      ensures ok <==> CanAppend(old(db), w, write.now)
      ensures !ok ==> State() == old(State())
      ensures db.log == old(db.log) && db.clock == old(db.clock)
      ensures ok ==> db.nextSeq == old(db.nextSeq) + 1 && db.lock.Writer?
                     && db.lock.clock == Tick(OperationTime(old(db), w), write.now)
      ensures ok ==>
        && db.lock.Writer? && db.lock.w == w && |db.lock.pending| > 0
        && db.lock.pending[..|db.lock.pending| - 1] ==
             (if old(db.lock).Writer? then old(db.lock).pending else [])
        && Matches(db.lock.pending[|db.lock.pending| - 1], write)
        && db.lock.pending[|db.lock.pending| - 1].sn == old(db).nextSeq
        && db.lock.pending[|db.lock.pending| - 1].ts == db.lock.clock
        && (old(db.lock).Writer? ==> old(db.lock).w == w)
    {
      hide Installed, Run, Next, OperationTime, Tick;
      AppendStep(State(), w, write);
      ghost var clock := Tick(OperationTime(db, w), write.now);
      var t, i := OperationTime(db, w).t, OperationTime(db, w).i;
      assert clock == Stamp(write.now, if t == write.now then i + 1 else 1) by {
        TickIs(OperationTime(db, w), write.now);
      }
      i := if t == write.now then i + 1 else 1;
      t := write.now;
      ok := !(db.lock.Pruning? || (db.lock.Writer? && db.lock.w != w))
            && t <= MAX_UINT32 && i <= MAX_UINT32 && db.nextSeq <= MAX_UINT64;
      if ok {
        var pending := if db.lock.Writer? then db.lock.pending else [];
        var row := Event(db.nextSeq, Stamp(t, i), write.op, write.ns, write.o, write.o2);
        db := db.(nextSeq := db.nextSeq + 1, reading := write.now, lock := Writer(w, Stamp(t, i), pending + [row]));
      }
      Took(old(State()), Append(w, write.now, write.op, write.ns, write.o, write.o2));
    }

    method CommitTransaction(w: nat)
      requires Valid()
      modifies this
      ensures Valid() && origin == old(origin) && steps == old(steps) + [Commit(w)]
      ensures State() == Next(old(State()), Commit(w)) && db == CommitWriter(old(db), w)
    {
      hide Installed, Run;
      if db.lock.Writer? && db.lock.w == w {
        db := db.(rows := db.rows + db.lock.pending, log := db.log + db.lock.pending,
                  clock := db.lock.clock, lock := Free);
      }
      Took(old(State()), Commit(w));
    }

    method RollbackTransaction(w: nat)
      requires Valid()
      modifies this
      ensures Valid() && origin == old(origin) && steps == old(steps) + [Rollback(w)]
      ensures State() == Next(old(State()), Rollback(w)) && db == RollbackWriter(old(db), w)
    {
      hide Installed, Run;
      if db.lock.Writer? && db.lock.w == w { db := db.(lock := Free); }
      Took(old(State()), Rollback(w));
    }

    /** One write of a transaction's body, and what the others do after it. */
    method WriteOne(w: nat, write: Write, env: seq<Step>) returns (ok: bool)
      requires Valid() && forall step :: step in env ==> NotWriting(w, step)
      modifies this
      ensures Valid() && origin == old(origin) && old(steps) <= steps
      ensures ok <==> CanAppend(old(db), w, write.now)
      ensures !ok ==> State() == old(State())
      ensures db.log == old(db.log) && db.clock == old(db.clock)
      ensures ok ==> db.lock.Writer? && db.lock.w == w && db.nextSeq == old(db.nextSeq) + 1
                     && db.lock.clock == Tick(OperationTime(old(db), w), write.now)
      ensures ok ==>
        && |db.lock.pending| > 0 && Matches(db.lock.pending[|db.lock.pending| - 1], write)
        && db.lock.pending[..|db.lock.pending| - 1] ==
             (if old(db.lock).Writer? then old(db.lock).pending else [])
    {
      hide Valid, Run, Next, Inv, Matches, CanAppend, Tick, OperationTime;
      ok := OplogAppend(w, write);
      if ok {
        Safe();
        OthersKeepWriter(State(), w, env);
        Interfere(env);
      }
    }

    /** The writes of a transaction's body, until one throws. */
    method WriteAll(w: nat, body: seq<Write>, env: seq<seq<Step>>) returns (ok: bool)
      requires Valid() && !(db.lock.Writer? && db.lock.w == w) && |env| == |body|
      requires forall k, step :: 0 <= k < |env| && step in env[k] ==> NotWriting(w, step)
      modifies this
      ensures Valid() && origin == old(origin) && old(steps) <= steps && db.log == old(db.log)
      ensures GetsThrough(old(db), body) ==> ok
      ensures body == [] ==> ok && db == old(db)
      ensures ok && body != [] ==>
        && db.lock.Writer? && db.lock.w == w && |db.lock.pending| == |body|
        && (forall k :: 0 <= k < |body| ==> Matches(db.lock.pending[k], body[k]))
    {
      hide Valid, Matches;
      for k := 0 to |body|
        invariant Valid() && origin == old(origin) && old(steps) <= steps
        invariant if k == 0 then db == old(db)
                  else db.lock.Writer? && db.lock.w == w && |db.lock.pending| == k
        invariant db.log == old(db.log) && db.nextSeq == old(db.nextSeq) + k
        invariant OperationTime(db, w).i <= old(db.clock.i) + k
        invariant forall j :: 0 <= j < k ==> Matches(db.lock.pending[j], body[j])
      {
        ghost var before := db.lock;
        ok := WriteOne(w, body[k], env[k]);
        if !ok { return; }
        assert k > 0 ==> db.lock.pending[..k] == before.pending;
      }
      ok := true;
    }

    method CurrentOperationTime(w: nat) returns (stamp: Stamp)
      ensures stamp == OperationTime(db, w)
    {
      stamp := if db.lock.Writer? && db.lock.w == w then db.lock.clock else db.clock;
    }

    /** The stamp, read before the commit, and the commit. */
    method FinishTransaction(w: nat, fails: bool) returns (stamp: Option<Stamp>)
      requires Valid()
      modifies this
      ensures Valid() && origin == old(origin) && old(steps) <= steps && (fails <==> stamp.None?)
      ensures !(db.lock.Writer? && db.lock.w == w)
      ensures var mine := old(db.lock).Writer? && old(db.lock).w == w;
              && db.log == old(db.log) + (if mine && !fails then old(db.lock).pending else [])
              && (mine && !fails && old(db.lock).pending != [] ==> stamp.value == db.log[|db.log| - 1].ts)
    {
      hide Valid, Run, Next;
      var now := CurrentOperationTime(w);
      if fails {
        RollbackTransaction(w);
        return None;
      }
      if db.lock.Writer? && db.lock.pending != [] { LastPendingStamp(); }
      CommitTransaction(w);
      stamp := Some(now);
    }

    /** run_atomically: the body's writes, then the stamp, then the commit.  The first write waits for
        the clock row's lock while the others do what `waiting` says; if it is still held then, the wait
        has timed out and the write throws.  So does a write that cannot be stamped, and the body itself
        when `fails`.  A committed body's events come right after those committed before it got the
        lock, in order, and the stamp is the last's; a body that throws leaves nothing.  One that finds
        the lock free, with room for its stamps, does commit. */
    method RunAtomically(w: nat, body: seq<Write>, fails: bool, waiting: seq<Step>, env: seq<seq<Step>>)
      returns (stamp: Option<Stamp>)
      requires Valid() && !(db.lock.Writer? && db.lock.w == w) && |env| == |body|
      requires forall step :: step in waiting ==> NotWriting(w, step)
      requires forall k, step :: 0 <= k < |env| && step in env[k] ==> NotWriting(w, step)
      modifies this
      ensures Valid() && origin == old(origin) && old(steps) <= steps
      ensures !(db.lock.Writer? && db.lock.w == w)
      ensures stamp.None? ==> db.log == Run(old(State()), waiting).db.log
      ensures stamp.Some? ==> |body| <= |db.log| && db.log[..|db.log| - |body|] == Run(old(State()), waiting).db.log
      ensures stamp.Some? && body != [] ==>
        && stamp.value == db.log[|db.log| - 1].ts
        && (forall k :: 0 <= k < |body| ==> Matches(db.log[|db.log| - |body| + k], body[k]))
      ensures fails ==> stamp.None?
      ensures !fails && GetsThrough(Run(old(State()), waiting).db, body) ==> stamp.Some?
    {
      hide Valid, Run, Next, Inv, Matches, GetsThrough, NotWriting;
      Safe();
      NeverTaken(State(), w, waiting);
      Interfere(waiting);
      var written := WriteAll(w, body, env);
      if !written {
        RollbackTransaction(w);
        return None;
      }
      stamp := FinishTransaction(w, fails);
    }

    // -------------------------------------------------------------- the pruner

    /** A pass that ends here has enforced the plan's limits. */
    ghost predicate Done(head: nat, cutoff: Option<nat>, k: nat, mark: nat)
      reads this
    {
      Enforced(db.rows, head, cutoff, k, |db.log| - mark)
    }

    /** Of the rows of an earlier moment and everything committed since, only what the plan's limits
        pick is gone. */
    ghost predicate Spared(before: Db, head: nat, cutoff: Option<nat>, k: nat)
      reads this
    {
      before.log <= db.log && Picked(before.rows + db.log[|before.log|..], db.rows, head, cutoff, k)
    }

    lemma SparedSince(before: Db, between: Db, plan: Plan)
      requires Grew(before, between) && Spared(between, plan.head, plan.cutoff, plan.limit)
      ensures Spared(before, plan.head, plan.cutoff, plan.limit)
    {
      hide Picked;
      assert db.log[|before.log|..] == between.log[|before.log|..] + db.log[|between.log|..];
      assert before.rows + db.log[|before.log|..] == between.rows + db.log[|between.log|..];
    }

    lemma NothingLost(before: Db, head: nat, cutoff: Option<nat>, k: nat)
      requires Grew(before, db)
      ensures Spared(before, head, cutoff, k)
    {
    }

    method SampleHead(maxRows: nat, maxAge: nat) returns (head: nat)
      requires Valid() && pruner.Idle? && (maxRows != 0 || maxAge != 0)
      modifies this
      ensures Valid() && origin == old(origin) && old(steps) <= steps && db == old(db)
      ensures head == MaxSeq(db.rows)
      ensures if head == 0 then pruner.Idle? && db.rows == []
              else pruner == SampledHead(maxRows, maxAge, head, |db.log|)
    {
      hide Installed, Run;
      Safe();
      HeadZero(State());
      hide Inv;
      head := MaxSeq(db.rows);
      if head != 0 { pruner := SampledHead(maxRows, maxAge, head, |db.log|); }
      Took(old(State()), PruneHead(maxRows, maxAge));
    }

    method SampleCutoff(now: nat) returns (cutoff: Option<nat>)
      requires Valid() && pruner.SampledHead?
      modifies this
      ensures Valid() && origin == old(origin) && old(steps) <= steps && db == old(db)
      ensures pruner == SampledAge(old(pruner).maxRows, old(pruner).head, cutoff, old(pruner).mark)
      ensures AgedBy(cutoff, old(pruner).maxAge, now)
    {
      hide Installed, Run;
      var maxAge := pruner.maxAge;
      cutoff := None;
      if maxAge > 0 {
        var seconds := now;
        if seconds > maxAge { cutoff := Some(seconds - maxAge); }
      }
      pruner := SampledAge(pruner.maxRows, pruner.head, cutoff, pruner.mark);
      Took(old(State()), PruneAge(now));
    }

    method SampleCut() returns (plan: Option<Plan>)
      requires Valid() && pruner.SampledAge?
      modifies this
      ensures Valid() && origin == old(origin) && old(steps) <= steps && db == old(db)
      ensures plan.None? ==> pruner.Idle?
      ensures plan.None? ==> Done(old(pruner).head, old(pruner).cutoff, old(pruner).maxRows, old(pruner).mark)
      ensures plan.Some? ==>
        && pruner == Planned(plan.value)
        && plan.value.(cut := None, cutMark := 0) ==
             Plan(old(pruner).head, old(pruner).cutoff, None, old(pruner).maxRows, old(pruner).mark, 0)
    {
      hide Installed, Run, Next, Inv;
      Safe();
      CutStep(State());
      var p := pruner;
      var cut := None;
      if p.maxRows > 0 && p.maxRows - 1 < |db.rows| {
        cut := Some(db.rows[|db.rows| - 1 - (p.maxRows - 1)].sn);
      }
      if p.cutoff.None? && cut.None? {
        MarkBelow(State());
        plan := None;
        pruner := Idle;
      } else {
        plan := Some(Plan(p.head, p.cutoff, cut, p.maxRows, p.mark, |db.log|));
        pruner := Planned(plan.value);
      }
      Took(old(State()), PruneCut);
    }

    method SelectNewest() returns (newest: Option<nat>)
      requires Valid() && pruner.Planned?
      modifies this
      ensures Valid() && origin == old(origin) && old(steps) <= steps && db == old(db)
      ensures newest.None? ==> pruner.Idle?
      ensures newest.None? ==>
        Done(old(pruner).plan.head, old(pruner).plan.cutoff, old(pruner).plan.limit, old(pruner).plan.mark)
      ensures newest.Some? ==> pruner == FoundNewest(old(pruner).plan, newest.value)
    {
      hide Installed, Run, Victims, Enforced;
      var plan := pruner.plan;
      var victims := Victims(db.rows, plan);
      if victims == [] {
        Safe();
        hide Inv;
        NothingDoomed(State());
        newest := None;
        pruner := Idle;
      } else {
        newest := Some(victims[|victims| - 1].sn);
        pruner := FoundNewest(plan, newest.value);
      }
      Took(old(State()), PruneNewest);
    }

    method SelectStamp() returns (stamp: Stamp)
      requires Valid() && pruner.FoundNewest?
      modifies this
      ensures Valid() && origin == old(origin) && old(steps) <= steps && db == old(db)
      ensures pruner == FoundStamp(old(pruner).plan, old(pruner).newest, stamp)
    {
      hide Installed, Run, Victims;
      Safe();
      StampStep(State());
      hide Inv, Next;
      var victims := Victims(db.rows, pruner.plan);
      stamp := MaxStamp(victims);
      pruner := FoundStamp(pruner.plan, pruner.newest, stamp);
      Took(old(State()), PruneStamp);
    }

    ghost predicate Undisturbed(env: seq<seq<Step>>) {
      forall k :: 0 <= k < |env| ==> env[k] == []
    }

    /** Interference by sessions that are not the pruner: its locals stay, and the table grows with
        the log. */
    method Yield(env: seq<Step>)
      requires Valid()
      requires forall step :: step in env ==> NotPruning(step)
      modifies this
      ensures Valid() && origin == old(origin) && old(steps) <= steps
      ensures pruner == old(pruner)
      ensures Grew(old(db), db)
      ensures State() == Run(old(State()), env)
      ensures env == [] ==> db == old(db)
    {
      Safe();
      OthersKeepPruner(State(), env);
      OthersKeepRows(State(), env);
      Interfere(env);
    }

    /** Interference after statements that removed nothing either. */
    method YieldOn(ghost before: Db, env: seq<Step>)
      requires Valid() && Grew(before, db)
      requires forall step :: step in env ==> NotPruning(step)
      modifies this
      ensures Valid() && origin == old(origin) && old(steps) <= steps
      ensures pruner == old(pruner) && Grew(before, db)
      ensures env == [] ==> db == old(db)
    {
      hide Valid, Run, Grew;
      Yield(env);
      GrewFurther(before, old(db), db);
    }

    /** The samples that freeze the WHERE clause. */
    method FreezePlan(maxRows: nat, maxAge: nat, now: nat, env: seq<seq<Step>>) returns (plan: Option<Plan>)
      requires Valid() && pruner.Idle? && |env| == 3 && (maxRows != 0 || maxAge != 0)
      requires forall k, step :: 0 <= k < |env| && step in env[k] ==> NotPruning(step)
      modifies this
      ensures Valid() && origin == old(origin) && old(steps) <= steps
      ensures Grew(old(db), db)
      ensures Undisturbed(env) ==> db == old(db)
      ensures plan.None? ==> pruner.Idle?
      ensures plan.None? ==>
        LimitsHold(db.rows, MaxSeq(old(db.rows)), maxRows, maxAge, now, |db.log| - |old(db.log)|)
      ensures plan.Some? ==>
        && pruner == Planned(plan.value) && plan.value.mark == |old(db.log)| && plan.value.limit == maxRows
        && plan.value.head == MaxSeq(old(db.rows)) && AgedBy(plan.value.cutoff, maxAge, now)
    {
      hide Valid, Run, NotPruning, Grew, AgedBy, Enforced, Picked, MaxSeq;
      SameTable(db);
      var head := SampleHead(maxRows, maxAge);
      if head == 0 { return None; }
      Yield(env[0]);
      var cutoff := SampleCutoff(now);
      YieldOn(old(db), env[1]);
      plan := SampleCut();
      if plan.None? {
        hide LimitsHold;
        PickedByLimits(db.rows, db.rows, head, cutoff, maxRows, maxAge, now, |db.log| - |old(db.log)|);
        return None;
      }
      YieldOn(old(db), env[2]);
    }

    /** The last row and the latest stamp it selects. */
    method FindBoundary(env: seq<seq<Step>>) returns (found: Option<(nat, Stamp)>)
      requires Valid() && pruner.Planned? && |env| == 2
      requires forall k, step :: 0 <= k < |env| && step in env[k] ==> NotPruning(step)
      modifies this
      ensures Valid() && origin == old(origin) && old(steps) <= steps
      ensures Grew(old(db), db)
      ensures Undisturbed(env) ==> db == old(db)
      ensures found.None? ==> pruner.Idle?
      ensures found.None? ==>
        Done(old(pruner).plan.head, old(pruner).plan.cutoff, old(pruner).plan.limit, old(pruner).plan.mark)
      ensures found.Some? ==>
        pruner.FoundStamp? && found.value == (pruner.newest, pruner.stamp) && pruner.plan == old(pruner).plan
    {
      hide Valid, Run, NotPruning, Grew, Done;
      SameTable(db);
      var newest := SelectNewest();
      if newest.None? { return None; }
      Yield(env[0]);
      var stamp := SelectStamp();
      YieldOn(old(db), env[1]);
      return Some((newest.value, stamp));
    }

    /** prune_oplog up to its transaction: sample the head, the age cutoff and the cut, freeze the
        WHERE clause, and find the last row and the latest stamp it selects.  Some leaves the pass
        ready for its transaction; None means there is nothing to do. */
    method PlanPrune(maxRows: nat, maxAge: nat, now: nat, env: seq<seq<Step>>)
      returns (found: Option<(nat, Stamp)>)
      requires Valid() && pruner.Idle? && |env| == 5
      requires forall k, step :: 0 <= k < |env| && step in env[k] ==> NotPruning(step)
      modifies this
      ensures Valid() && origin == old(origin) && old(steps) <= steps
      ensures Grew(old(db), db)
      ensures Undisturbed(env) ==> db == old(db)
      ensures found.None? ==> pruner.Idle?
      ensures found.None? ==>
        LimitsHold(db.rows, MaxSeq(old(db.rows)), maxRows, maxAge, now, |db.log| - |old(db.log)|)
      ensures found.Some? ==>
        && pruner.FoundStamp? && found.value == (pruner.newest, pruner.stamp)
        && pruner.plan.mark == |old(db.log)| && pruner.plan.limit == maxRows
        && pruner.plan.head == MaxSeq(old(db.rows)) && AgedBy(pruner.plan.cutoff, maxAge, now)
    {
      hide Valid, Run, NotPruning, Grew, AgedBy, Enforced, Picked, MaxSeq;
      if maxRows == 0 && maxAge == 0 {
        SameTable(db);
        return None;
      }
      hide LimitsHold;
      var plan := FreezePlan(maxRows, maxAge, now, env[..3]);
      if plan.None? { return None; }
      ghost var planned := db;
      found := FindBoundary(env[3..]);
      GrewFurther(old(db), planned, db);
      PickedByLimits(db.rows, db.rows, plan.value.head, plan.value.cutoff, maxRows, maxAge, now,
                     |db.log| - |old(db.log)|);
    }

    /** START TRANSACTION; SELECT … FOR UPDATE.  False when a writer's lock outlasts the wait. */
    method LockClock() returns (locked: bool)
      requires Valid() && pruner.FoundStamp?
      modifies this
      ensures Valid() && origin == old(origin) && old(steps) <= steps
      ensures db.rows == old(db.rows) && db.log == old(db.log)
      ensures locked <==> old(db).lock.Free?
      ensures pruner == if locked then Locked(old(pruner).plan, old(pruner).newest, old(pruner).stamp)
                        else old(pruner)
    {
      hide Installed, Run;
      locked := db.lock.Free?;
      if locked {
        db := db.(lock := Pruning);
        pruner := Locked(pruner.plan, pruner.newest, pruner.stamp);
      }
      Took(old(State()), PruneLock);
    }

    /** The planned boundary row is still there and still selected: nobody else deletes. */
    method VerifyBoundary()
      requires Valid() && pruner.Locked?
      modifies this
      ensures Valid() && origin == old(origin) && old(steps) <= steps && db == old(db)
      ensures pruner == Verified(old(pruner).plan, old(pruner).newest, old(pruner).stamp)
    {
      hide Installed, Run;
      Safe();
      VerifyStep(State());
      hide Inv, Next;
      pruner := Verified(pruner.plan, pruner.newest, pruner.stamp);
      Took(old(State()), PruneVerify);
    }

    /** DELETE … WHERE seq <= newest AND (…), not yet committed. */
    method DeleteRows() returns (removed: nat)
      requires Valid() && pruner.Verified?
      modifies this
      ensures Valid() && origin == old(origin) && old(steps) <= steps && db == old(db)
      ensures pruner.Deleting? && pruner.plan == old(pruner).plan && removed == |pruner.removed|
    {
      hide Installed, Run, Scan;
      var plan, newest := pruner.plan, pruner.newest;
      var rows := Scan(db.rows, (e: Event) => e.sn <= newest && Doomed(plan, e));
      removed := |rows|;
      pruner := Deleting(plan, newest, pruner.stamp, rows);
      Took(old(State()), PruneDelete);
    }

    /** The watermark update, when anything was removed; its assignments run left to right. */
    method MarkHistory()
      requires Valid() && pruner.Deleting?
      modifies this
      ensures Valid() && origin == old(origin) && old(steps) <= steps && db == old(db)
      ensures pruner.Marked? && pruner.plan == old(pruner).plan && pruner.removed == old(pruner).removed
    {
      hide Installed, Run, Scan;
      var h := db.history;
      var newest, t, i := pruner.newest, pruner.stamp.t, pruner.stamp.i;
      if |pruner.removed| > 0 {
        if newest > h.prunedSeq { h := h.(prunedSeq := newest); }
        if h.pruned.t < t {
          h := h.(pruned := Stamp(h.pruned.t, i));
        } else if h.pruned.t == t && h.pruned.i < i {
          h := h.(pruned := Stamp(h.pruned.t, i));
        }
        if h.pruned.t < t { h := h.(pruned := Stamp(t, h.pruned.i)); }
      }
      pruner := Marked(pruner.plan, pruner.removed, h);
      Took(old(State()), PruneMark);
    }

    /** COMMIT: the deletion and both watermarks become visible together. */
    method CommitPrune()
      requires Valid() && pruner.Marked?
      modifies this
      ensures Valid() && origin == old(origin) && old(steps) <= steps && pruner.Idle?
      ensures db.log == old(db.log) && |db.rows| + |old(pruner).removed| == |old(db.rows)|
      ensures var plan := old(pruner).plan;
              && Picked(old(db).rows, db.rows, plan.head, plan.cutoff, plan.limit)
              && Done(plan.head, plan.cutoff, plan.limit, plan.mark)
    {
      hide Installed, Run, Next, PruneStep, Scan, Victims, Inv, Picked, Enforced;
      Safe();
      MarkedPass(State());
      CommitStep(State());
      var removed := pruner.removed;
      db := db.(rows := Scan(db.rows, (e: Event) => e !in removed), history := pruner.history,
                lock := Free, deleted := db.deleted + (set e | e in removed));
      pruner := Idle;
      Took(old(State()), PruneCommit);
    }

    /** ROLLBACK after an error: nothing was deleted and no watermark moved. */
    method AbortPrune()
      requires Valid()
      modifies this
      ensures Valid() && origin == old(origin) && old(steps) <= steps && pruner.Idle?
      ensures db == old(db).(lock := db.lock)
    {
      hide Installed, Run;
      if db.lock.Pruning? { db := db.(lock := Free); }
      pruner := Idle;
      Took(old(State()), PruneAbort);
    }

    /** The same, for a transaction that has removed nothing others can see. */
    method GiveUp(ghost before: Db)
      requires Valid() && Grew(before, db)
      modifies this
      ensures Valid() && origin == old(origin) && old(steps) <= steps && pruner.Idle?
      ensures db.log == old(db.log) && db.rows == old(db.rows)
      ensures forall head, cutoff, k :: Spared(before, head, cutoff, k)
    {
      hide Valid, Run, Picked, Spared;
      AbortPrune();
      forall head, cutoff, k
        ensures Spared(before, head, cutoff, k)
      {
        NothingLost(before, head, cutoff, k);
      }
    }

    /** The statements of the pruning transaction that write, and its commit. */
    method DeleteAndMark(failAt: nat, env: seq<seq<Step>>) returns (removed: Option<nat>)
      requires Valid() && pruner.Verified? && |env| == 2
      requires forall k, step :: 0 <= k < |env| && step in env[k] ==> NotPruning(step)
      modifies this
      ensures Valid() && origin == old(origin) && old(steps) <= steps && pruner.Idle?
      ensures |old(db.rows)| + (|db.log| - |old(db.log)|) == |db.rows| + removed.GetOr(0)
      ensures var plan := old(pruner).plan;
              && Spared(old(db), plan.head, plan.cutoff, plan.limit)
              && (removed.None? ==> 3 <= failAt <= 4)
              && (removed.Some? ==> Done(plan.head, plan.cutoff, plan.limit, plan.mark))
    {
      hide Valid, Run, NotPruning, Picked, Enforced;
      ghost var plan := pruner.plan;
      SameTable(db);
      var count := DeleteRows();
      if failAt == 3 { GiveUp(old(db)); return None; }
      YieldOn(old(db), env[0]);
      MarkHistory();
      if failAt == 4 { GiveUp(old(db)); return None; }
      YieldOn(old(db), env[1]);
      CommitPrune();
      return Some(count);
    }

    /** The transaction of prune_oplog; `failAt` names the statement that throws, if one does. */
    method PruneTransaction(failAt: nat, env: seq<seq<Step>>) returns (removed: Option<nat>)
      requires Valid() && pruner.FoundStamp? && |env| == 4
      requires forall k, step :: 0 <= k < |env| && step in env[k] ==> NotPruning(step)
      modifies this
      ensures Valid() && origin == old(origin) && old(steps) <= steps && pruner.Idle?
      ensures |old(db.rows)| + (|db.log| - |old(db.log)|) == |db.rows| + removed.GetOr(0)
      ensures var plan := old(pruner).plan;
              && Spared(old(db), plan.head, plan.cutoff, plan.limit)
              && (removed.None? ==> 1 <= failAt <= 4 || !old(db).lock.Free?)
              && (removed.Some? ==> Done(plan.head, plan.cutoff, plan.limit, plan.mark))
    {
      hide Valid, Run, NotPruning, Picked, Enforced;
      SameTable(db);
      var locked := LockClock();
      if !locked || failAt == 1 { GiveUp(old(db)); return None; }
      YieldOn(old(db), env[0]);
      VerifyBoundary();
      if failAt == 2 { GiveUp(old(db)); return None; }
      YieldOn(old(db), env[1]);
      ghost var locking := db;
      removed := DeleteAndMark(failAt, env[2..]);
      SparedSince(old(db), locking, old(pruner).plan);
    }

    /** prune_oplog, under any interleaving with everyone else.  Whatever it removes is accounted for
        by its result.  Of the rows it found and those committed since, only such are gone as lie below
        the head it found and are past the age limit or below the newest maxRows; and when it runs to
        its end, no row below that head is past the age limit, and at most maxRows are left besides
        those committed since it began.  A pass that nobody gets between before its transaction, and
        that meets a free lock and no error, does run to its end. */
    method PruneOplog(maxRows: nat, maxAge: nat, now: nat, failAt: nat,
                      planning: seq<seq<Step>>, locked: seq<seq<Step>>) returns (removed: Option<nat>)
      requires Valid() && pruner.Idle? && |planning| == 5 && |locked| == 4
      requires forall k, step :: 0 <= k < |planning| && step in planning[k] ==> NotPruning(step)
      requires forall k, step :: 0 <= k < |locked| && step in locked[k] ==> NotPruning(step)
      modifies this
      ensures Valid() && origin == old(origin) && old(steps) <= steps && pruner.Idle?
      ensures |old(db.rows)| + (|db.log| - |old(db.log)|) == |db.rows| + removed.GetOr(0)
      ensures old(db.log) <= db.log
      ensures OnlyOverLimits(old(db.rows) + db.log[|old(db.log)|..], db.rows, MaxSeq(old(db.rows)), maxRows, maxAge, now)
      ensures Undisturbed(planning) && old(db).lock.Free? && !(1 <= failAt <= 4) ==> removed.Some?
      ensures removed.Some? ==>
        LimitsHold(db.rows, MaxSeq(old(db.rows)), maxRows, maxAge, now, |db.log| - |old(db.log)|)
    {
      hide Valid, Run, Picked, Enforced, LimitsHold, MaxSeq, AgedBy;
      ghost var head := MaxSeq(db.rows);
      var found := PlanPrune(maxRows, maxAge, now, planning);
      if found.None? { return Some(0); }
      hide OnlyOverLimits;
      ghost var planned, plan := db, pruner.plan;
      removed := PruneTransaction(failAt, locked);
      SparedSince(old(db), planned, plan);
      PickedByLimits(old(db.rows) + db.log[|old(db.log)|..], db.rows, head, plan.cutoff, maxRows, maxAge, now,
                     |db.log| - |old(db.log)|);
    }

    // -------------------------------------------------------------- consumers

    /** tail_state: the request works on its own copy of the tail. */
    method TailState(id: nat, batchSize: int) returns (wanted: nat)
      requires Valid() && id in cursors && id !in gets
      modifies this
      ensures Valid() && origin == old(origin) && old(steps) <= steps
      ensures cursors == old(cursors) && nextId == old(nextId)
      ensures db == old(db) && wanted == if batchSize < 1 then 1 else batchSize
      ensures id in gets && gets[id] == Sampling(cursors[id].ns, cursors[id].after, wanted)
    {
      hide Installed, Run;
      wanted := if batchSize > 1 then batchSize else 1;
      gets := gets[id := Sampling(cursors[id].ns, cursors[id].after, wanted)];
      Took(old(State()), GetBegin(id, batchSize));
    }

    method OplogHead(id: nat) returns (head: nat)
      requires Valid() && id in gets && gets[id].Sampling?
      modifies this
      ensures Valid() && origin == old(origin) && old(steps) <= steps
      ensures cursors == old(cursors) && nextId == old(nextId)
      ensures id in gets && gets[id] == Sampled(old(gets)[id].ns, old(gets)[id].after, old(gets)[id].wanted, head)
      ensures db == old(db) && head == MaxSeq(db.rows)
    {
      hide Installed, Run;
      head := MaxSeq(db.rows);
      gets := gets[id := Sampled(gets[id].ns, gets[id].after, gets[id].wanted, head)];
      Took(old(State()), GetHead(id));
    }

    /** read_changestream's SELECT and its loop over the result: the first rows of the namespace past
        the position, documents that tell of them, and the last row's sequence number, or the position
        itself when there was none. */
    method ReadChangestream(id: nat, keyOf: string -> string) returns (documents: seq<ChangeEvent>, last: nat)
      requires Valid() && id in gets && gets[id].Sampled?
      modifies this
      ensures Valid() && origin == old(origin) && old(steps) <= steps
      ensures cursors == old(cursors) && nextId == old(nextId)
      ensures id in gets && gets[id].Read? && TellsAll(documents, gets[id].batch, keyOf) && db == old(db)
      ensures FirstPage(db.rows, gets[id].ns, gets[id].after, gets[id].wanted, gets[id].batch)
      ensures gets[id] == Read(old(gets)[id].ns, old(gets)[id].after, old(gets)[id].wanted, old(gets)[id].head,
                               gets[id].batch)
      ensures last == if gets[id].batch == [] then gets[id].after
                      else gets[id].batch[|gets[id].batch| - 1].sn
    {
      hide Installed, Run, Take, Following, FirstPage, TellsAll;
      var g := gets[id];
      var result := Take(Following(db.rows, g.ns, g.after), g.wanted);
      PageIs(id, result);
      documents, last := RenderRows(result, g.after, keyOf);
      gets := gets[id := Read(g.ns, g.after, g.wanted, g.head, result)];
      Took(old(State()), GetSelect(id));
    }

    lemma PageIs(id: nat, result: seq<Event>)
      requires Valid() && id in gets && gets[id].Sampled?
      requires var g := gets[id]; result == Take(Following(db.rows, g.ns, g.after), g.wanted)
      ensures FirstPage(db.rows, gets[id].ns, gets[id].after, gets[id].wanted, result)
      ensures forall e :: e in result ==> e.sn < TOKEN_LIMIT
    {
      hide Valid, Following, Take, FirstPage, TablesInv;
      Safe();
      var g := gets[id];
      SafeTables(State());
      RowsNumbered(db.log, db.rows, db.nextSeq);
      FirstPageIs(db.rows, g.ns, g.after, g.wanted);
      assert forall e :: e in result ==> e in db.rows by { PageWithin(db.rows, g.ns, g.after, g.wanted); }
    }

    /** read_changestream's loop: each row becomes a document, and moves the position. */
    static method RenderRows(result: seq<Event>, after: nat, keyOf: string -> string)
      returns (documents: seq<ChangeEvent>, last: nat)
      requires forall e :: e in result ==> e.sn < TOKEN_LIMIT
      ensures TellsAll(documents, result, keyOf)
      ensures last == if result == [] then after else result[|result| - 1].sn
    {
      documents, last := [], after;
      hide Tells, Render;
      for k := 0 to |result|
        invariant TellsAll(documents, result[..k], keyOf)
        invariant last == if k == 0 then after else result[k - 1].sn
      {
        last := result[k].sn;
        RenderedEvent(result[k], keyOf);
        documents := documents + [Render(result[k], keyOf)];
      }
      assert result[..|result|] == result;
    }

    /** A batch that passes the history check is the range its cursor will move over. */
    lemma BatchIsRange(id: nat)
      requires Valid() && id in gets && gets[id].Read? && !HistoryLost(db, gets[id].after)
      ensures var g := gets[id];
              && |g.batch| <= g.wanted && g.batch == Between(db.log, g.ns, g.after, NextAfter(g))
              && g.after <= NextAfter(g) && Sorted(db.log) && (|g.batch| < g.wanted ==> g.head <= NextAfter(g))
    {
      Safe();
      assert GetInv(db.log, Floor(db), gets[id]);
      var g := gets[id];
      assert g.batch != [] ==> g.batch[|g.batch| - 1] in g.batch;
    }

    /** require_change_stream_history and what follows it: refuse, go round again, or advance the
        cursor and reply. */
    method CheckAndAdvance(id: nat, expired: bool) returns (lost: bool, done: bool, nextAfter: nat)
      requires Valid() && id in gets && gets[id].Read? && id < nextId
      modifies this
      ensures Valid() && origin == old(origin) && old(steps) <= steps && nextId == old(nextId)
      ensures db == old(db) && lost == HistoryLost(db, old(gets)[id].after)
      ensures lost ==> cursors == old(cursors) && id !in gets
      ensures !lost && !done ==> cursors == old(cursors) && id in gets
      ensures !lost && !done ==> old(gets)[id].batch == [] && !expired
      ensures !lost && !done ==>
                gets[id] == Sampling(old(gets)[id].ns, old(gets)[id].after, old(gets)[id].wanted)
      ensures !lost && done ==> id !in gets && nextAfter == NextAfter(old(gets)[id])
      ensures !lost && done ==>
        cursors == if id in old(cursors)
                   then old(cursors)[id := old(cursors)[id].(after := nextAfter,
                          delivered := old(cursors)[id].delivered + old(gets)[id].batch)]
                   else old(cursors)
    {
      hide Installed, Run, Next, MaxSeq, HistoryLost, NextAfter;
      ghost var before := State();
      CheckGetStep(before, id, expired);
      var g := gets[id];
      var floor := if db.history.prunedSeq < db.history.baselineSeq then db.history.baselineSeq
                   else db.history.prunedSeq;
      LostWhen(db, g.after, floor);
      lost := !(g.after >= floor && (g.after == 0 || |db.rows| > 0));
      done := g.batch != [] || expired;
      var last := if g.batch == [] then g.after else g.batch[|g.batch| - 1].sn;
      MovesTo(g, last);
      nextAfter := if |g.batch| >= g.wanted then last else if g.head < last then last else g.head;
      if lost {
        gets := gets - {id};
      } else if done {
        gets := gets - {id};
        if id in cursors {
          cursors := cursors[id := cursors[id].(after := nextAfter, delivered := cursors[id].delivered + g.batch)];
        }
      } else {
        gets := gets[id := Sampling(g.ns, g.after, g.wanted)];
      }
      Took(old(State()), GetCheck(id, expired));
    }

    /** tail_batch on a change-stream cursor, under any interleaving: each round of `env` is what the
        others do after the head sample, after the read, and while parked; the last round is the one
        that finds the deadline passed.  A reply tells of exactly the committed events of the range it
        moves the cursor over, and carries the token of where it ends, so a client that held the
        collection as of the old position and applies the reply holds it as of the new one; with room
        left in it, that is at least the head the call found.  It refuses exactly when the history after
        its position is lost by the time it ends, and a refusal moves nothing. */
    method TailBatch(id: nat, batchSize: int, keyOf: string -> string, env: seq<(seq<Step>, seq<Step>, seq<Step>)>)
      returns (reply: Reply, position: nat)
      requires Valid() && id in cursors && id !in gets && id < nextId && |env| > 0
      requires forall r, step :: 0 <= r < |env| && step in env[r].0 + env[r].1 + env[r].2 ==> NotReading(id, step)
      modifies this
      ensures Valid() && origin == old(origin) && old(steps) <= steps && id !in gets
      ensures reply.Lost? <==> HistoryLost(db, old(cursors)[id].after)
      ensures reply.Lost? && id in cursors ==> cursors[id] == old(cursors)[id]
      ensures reply.Batch? ==>
        var tail := old(cursors)[id];
        var sent := Between(db.log, tail.ns, tail.after, position);
        && TellsAll(reply.documents, sent, keyOf) && |sent| <= (if batchSize < 1 then 1 else batchSize)
        && reply.token == EncodeToken(position) && tail.after <= position
        && (|sent| < (if batchSize < 1 then 1 else batchSize) ==> MaxSeq(old(db).rows) <= position)
        && (forall view :: Replay(view, reply.documents) == Writes(view, sent, keyOf))
        && Replay(Contents(db.log, tail.ns, tail.after, keyOf), reply.documents) ==
             Contents(db.log, tail.ns, position, keyOf)
        && (id in cursors ==> cursors[id] == tail.(after := position, delivered := tail.delivered + sent))
    {
      hide Valid, Run, Between, Next, TellsAll, NextAfter, EncodeToken, HistoryLost, NotReading, Wanted;
      hide Replay, Writes, Contents, FirstPage, Sorted;
      hide MaxSeq;
      var tail := cursors[id];
      var wanted := TailState(id, batchSize);
      var round := 0;
      position := tail.after;
      while true
        invariant 0 <= round < |env| && id < nextId
        invariant Valid() && origin == old(origin) && old(steps) <= steps
        invariant id in cursors ==> cursors[id] == tail
        invariant id in gets && gets[id] == Sampling(tail.ns, tail.after, wanted)
        invariant MaxSeq(old(db).rows) <= MaxSeq(db.rows)
        decreases |env| - round
      {
        var head := OplogHead(id);
        Pause(id, env[round].0);
        var documents, last := ReadChangestream(id, keyOf);
        Pause(id, env[round].1);
        ghost var g := gets[id];
        if !HistoryLost(db, g.after) {
          BatchIsRange(id);
          Mirrored(db.log, g, documents, keyOf);
        }
        var lost, done, nextAfter := CheckAndAdvance(id, round + 1 == |env|);
        if lost { return Lost, tail.after; }
        if done { return Batch(documents, EncodeToken(nextAfter)), nextAfter; }
        Pause(id, env[round].2);
        round := round + 1;
      }
    }

    /** Interference by sessions other than the getMore on cursor id: its locals stay, and so does
        the cursor, unless it is killed. */
    method Pause(id: nat, env: seq<Step>)
      requires Valid() && id in gets && id < nextId
      requires forall step :: step in env ==> NotReading(id, step)
      modifies this
      ensures Valid() && origin == old(origin) && old(steps) <= steps && id < nextId
      ensures id in gets && gets[id] == old(gets)[id]
      ensures id in cursors ==> id in old(cursors) && cursors[id] == old(cursors)[id]
      ensures MaxSeq(old(db).rows) <= MaxSeq(db.rows)
    {
      hide Valid, Run, MaxSeq, Inv;
      Safe();
      HeadIsFinal(State(), env);
      OthersKeepGet(State(), id, env);
      OthersKeepCursor(State(), id, env);
      Interfere(env);
    }

    method ResolveOrigin(req: nat, ns: string, start: Start) returns (after: Option<nat>)
      requires Valid()
      modifies this
      ensures Valid() && origin == old(origin) && old(steps) <= steps
      ensures after == Resolve(old(db), start)
      ensures after.Some? ==> req in opens && opens[req] == Opening(ns, after.value)
    {
      hide Installed, Run, Resolve;
      after := Resolve(db, start);
      if after.Some? { opens := opens[req := Opening(ns, after.value)]; }
      Took(old(State()), OpenResolve(req, ns, start));
    }

    method CheckAndOpen(req: nat) returns (id: Option<nat>)
      requires Valid() && req in opens
      modifies this
      ensures Valid() && origin == old(origin) && old(steps) <= steps && db == old(db)
      ensures id.None? <==> HistoryLost(db, old(opens)[req].after)
      ensures id.Some? ==> id.value in cursors && id.value == old(nextId) < nextId
      ensures id.Some? ==>
        cursors[id.value] == Tail(old(opens)[req].ns, old(opens)[req].after, old(opens)[req].after, [])
    {
      hide Installed, Run, HistoryLost;
      var o := opens[req];
      opens := opens - {req};
      if HistoryLost(db, o.after) {
        id := None;
      } else {
        id := Some(nextId);
        cursors := cursors[nextId := Tail(o.ns, o.after, o.after, [])];
        nextId := nextId + 1;
      }
      Took(old(State()), OpenCheck(req));
    }

    /** open_change_stream after parsing: resolve the origin, let anything happen, check that its
        history is still there, and register the cursor.  None is ChangeStreamHistoryLost. */
    method OpenChangeStream(req: nat, ns: string, start: Start, env: seq<Step>)
      returns (id: Option<nat>, token: string)
      requires Valid()
      requires forall step :: step in env ==> NotOpening(req, step)
      modifies this
      ensures Valid() && origin == old(origin) && old(steps) <= steps
      ensures start.AfterToken? ==> (id.None? <==> HistoryLost(db, start.sn))
      ensures start.AtHead? ==> (id.None? <==> HistoryLost(db, MaxSeq(old(db).log)))
      ensures id.None? ==>
        StartLost(start, old(db)) || exists origin :: StartsAt(start, old(db), origin) && HistoryLost(db, origin)
      ensures id.Some? ==>
        && id.value in cursors && StartsAt(start, old(db), cursors[id.value].origin)
        && cursors[id.value] == Tail(ns, cursors[id.value].origin, cursors[id.value].origin, [])
        && token == EncodeToken(cursors[id.value].origin) && !HistoryLost(db, cursors[id.value].origin)
    {
      hide Valid, Run, HistoryLost, EncodeToken, StartsAt, StartLost, ResolveTime, MaxSeq, Inv, BaselineInv;
      Safe();
      Based();
      ResolvedStart(State(), start);
      HeadOf(State());
      var after := ResolveOrigin(req, ns, start);
      if after.None? { return None, ""; }
      OthersKeepOpening(State(), req, env);
      Interfere(env);
      id := CheckAndOpen(req);
      token := if id.None? then "" else EncodeToken(after.value);
    }
  }
}
