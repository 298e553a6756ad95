/** The oplog, its pruner and the change-stream cursors as one step machine.

Every step is one SQL statement (or one commit, rollback or registry update) of some session,
so a run is an arbitrary interleaving of writers, the pruner and consumers, and two statements
of one operation may have any other steps between them.  A step whose guard fails (a session
waiting for the clock row's lock, an out-of-range clock, an unknown cursor) changes nothing.

The fields `log`, `deleted` and `reading` of `Db`, `mark` and `cutMark` of `Plan`, and `origin`
and `delivered` of `Tail` are bookkeeping: no branch reads them. */
module Optional {
  datatype Option<+T> = None | Some(value: T) {
    function GetOr(default: T): T {
      match this
      case Some(v) => v
      case None => default
    }
  }
}

module Oplog {
  import opened Optional

  const MAX_UINT32: nat := 0xFFFF_FFFF
  const MAX_UINT64: nat := 0xFFFF_FFFF_FFFF_FFFF

  // ---------------------------------------------------------------- data

  /** (ts_t, ts_i): a second and a counter within it, ordered lexicographically. */
  datatype Stamp = Stamp(t: nat, i: nat)

  predicate Before(a: Stamp, b: Stamp) {
    a.t < b.t || (a.t == b.t && a.i < b.i)
  }

  predicate AtMost(a: Stamp, b: Stamp) {
    a == b || Before(a, b)
  }

  datatype Op = Insert | Update | Delete

  /** One row of chimera_meta.oplog. */
  datatype Event = Event(sn: nat, ts: Stamp, op: Op, ns: string, o: string, o2: Option<string>)

  /** The single row of chimera_meta.oplog_history. */
  datatype History = History(prunedSeq: nat, pruned: Stamp,
                             legacy: bool, baselineSeq: nat, baseline: Stamp)

  /** Who holds the clock row's lock.  A writer's transaction carries its own version of the
      clock row and the rows it has inserted but not committed. */
  datatype Lock = Free | Writer(w: nat, clock: Stamp, pending: seq<Event>) | Pruning

  /** Committed tables, in primary-key order, plus the lock and the bookkeeping: every event ever
      committed, the events the pruner has deleted, the last seconds reading an append used. */
  datatype Db = Db(rows: seq<Event>, clock: Stamp, nextSeq: nat, lock: Lock, history: History,
                   log: seq<Event>, deleted: set<Event>, reading: nat)

  /** The WHERE clause a pruning pass freezes.  `limit` is its row limit (0 when off); `mark` and
      `cutMark` are the numbers of committed events at the head sample and at the cut sample. */
  datatype Plan = Plan(head: nat, cutoff: Option<nat>, cut: Option<nat>,
                       limit: nat, mark: nat, cutMark: nat)

  /** The pruner's program counter together with its locals. */
  datatype Pruner =
    | Idle
    | SampledHead(maxRows: nat, maxAge: nat, head: nat, mark: nat)
    | SampledAge(maxRows: nat, head: nat, cutoff: Option<nat>, mark: nat)
    | Planned(plan: Plan)
    | FoundNewest(plan: Plan, newest: nat)
    | FoundStamp(plan: Plan, newest: nat, stamp: Stamp)
    | Locked(plan: Plan, newest: nat, stamp: Stamp)
    | Verified(plan: Plan, newest: nat, stamp: Stamp)
    | Deleting(plan: Plan, newest: nat, stamp: Stamp, removed: seq<Event>)
    | Marked(plan: Plan, removed: seq<Event>, history: History)

  /** A registered tailing cursor: its namespace and the position it has read up to. */
  datatype Tail = Tail(ns: string, after: nat, origin: nat, delivered: seq<Event>)

  /** A getMore in flight, with the copy of the tail it started from. */
  datatype Get =
    | Sampling(ns: string, after: nat, wanted: nat)
    | Sampled(ns: string, after: nat, wanted: nat, head: nat)
    | Read(ns: string, after: nat, wanted: nat, head: nat, batch: seq<Event>)

  datatype Start = AtHead | AfterToken(sn: nat) | AtTime(ts: Stamp)

  /** An aggregate that has resolved where its stream starts but not yet opened the cursor. */
  datatype Opening = Opening(ns: string, after: nat)

  datatype State = State(db: Db, pruner: Pruner, cursors: map<nat, Tail>, gets: map<nat, Get>,
                         opens: map<nat, Opening>, nextId: nat)

  datatype Step =
    | Append(w: nat, now: nat, op: Op, ns: string, o: string, o2: Option<string>)
    | RollbackTo(w: nat, keep: nat)
    | Commit(w: nat)
    | Rollback(w: nat)
    | PruneHead(maxRows: nat, maxAge: nat)
    | PruneAge(now: nat)
    | PruneCut
    | PruneNewest
    | PruneStamp
    | PruneLock
    | PruneVerify
    | PruneDelete
    | PruneMark
    | PruneCommit
    | PruneAbort
    | OpenResolve(req: nat, ns: string, start: Start)
    | OpenCheck(req: nat)
    | GetBegin(id: nat, batchSize: int)
    | GetHead(id: nat)
    | GetSelect(id: nat)
    | GetCheck(id: nat, expired: bool)
    | Kill(id: nat)

  // ---------------------------------------------------------------- queries

  /** SELECT … WHERE p, in primary-key order. */
  function Scan(s: seq<Event>, p: Event -> bool): (r: seq<Event>)
  {
    if s == [] then []
    else
      var e := s[|s| - 1];
      Scan(s[..|s| - 1], p) + if p(e) then [e] else []
  }

  /** COALESCE(MAX(seq), 0) over rows in primary-key order. */
  function MaxSeq(s: seq<Event>): nat {
    if s == [] then 0 else s[|s| - 1].sn
  }

  /** The first row of ORDER BY ts_t DESC, ts_i DESC. */
  function MaxStamp(s: seq<Event>): Stamp
    requires s != []
  {
    var e := s[|s| - 1];
    if |s| == 1 then e.ts
    else
      var m := MaxStamp(s[..|s| - 1]);
      if Before(m, e.ts) then e.ts else m
  }

  function Max(a: nat, b: nat): nat {
    if a < b then b else a
  }

  /** The committed events of a namespace with lo < seq <= hi, in seq order: what a change stream
      that has moved from lo to hi owes its client. */
  function Between(log: seq<Event>, ns: string, lo: nat, hi: nat): seq<Event> {
    Scan(log, (e: Event) => e.ns == ns && lo < e.sn <= hi)
  }

  /** The rows of a namespace after a position, as the change-stream SELECT sees them before LIMIT. */
  function Following(rows: seq<Event>, ns: string, after: nat): seq<Event> {
    Scan(rows, (e: Event) => e.ns == ns && after < e.sn)
  }

  predicate Doomed(plan: Plan, e: Event) {
    && e.sn < plan.head
    && ((plan.cutoff.Some? && e.ts.t < plan.cutoff.value) ||
        (plan.cut.Some? && e.sn < plan.cut.value))
  }

  function Victims(rows: seq<Event>, plan: Plan): seq<Event> {
    Scan(rows, (e: Event) => Doomed(plan, e))
  }

  /** require_change_stream_history: true when the resume point is refused. */
  predicate HistoryLost(d: Db, after: nat) {
    !(after >= Max(d.history.prunedSeq, d.history.baselineSeq) && (after == 0 || d.rows != []))
  }

  /** resolve_change_stream_start for an operation time: None is ChangeStreamHistoryLost. */
  function ResolveTime(d: Db, ts: Stamp): Option<nat> {
    var before := MaxSeq(Scan(d.rows, (e: Event) => Before(e.ts, ts)));
    var h := d.history;
    var deleted := h.prunedSeq != 0 && (ts.t < h.pruned.t || (ts.t == h.pruned.t && ts.i <= h.pruned.i));
    var unknown := h.legacy && (ts.t < h.baseline.t || (ts.t == h.baseline.t && ts.i < h.baseline.i));
    if deleted || unknown then None
    else Some(Max(Max(before, h.prunedSeq), h.baselineSeq))
  }

  function Resolve(d: Db, start: Start): Option<nat> {
    match start
    case AtHead => Some(MaxSeq(d.rows))
    case AfterToken(sn) => Some(sn)
    case AtTime(ts) => ResolveTime(d, ts)
  }

  /** current_operation_time read by session w: its own uncommitted clock row if it holds the lock. */
  function OperationTime(d: Db, w: nat): Stamp {
    if d.lock.Writer? && d.lock.w == w then d.lock.clock else d.clock
  }

  /** Where a cursor moves after a batch. */
  function NextAfter(g: Get): nat
    requires g.Read?
  {
    var last := if g.batch == [] then g.after else g.batch[|g.batch| - 1].sn;
    if |g.batch| >= g.wanted then last else Max(g.head, last)
  }

  // ---------------------------------------------------------------- writer statements

  function Tick(clock: Stamp, now: nat): Stamp {
    if clock.t == now then Stamp(now, clock.i + 1) else Stamp(now, 1)
  }

  /** oplog_append: the UPDATE takes the clock row's lock, the INSERT draws an AUTO_INCREMENT. */
  function AppendEvent(d: Db, w: nat, now: nat, op: Op, ns: string, o: string, o2: Option<string>): Db {
    if d.lock.Pruning? || (d.lock.Writer? && d.lock.w != w) then d  // waits for the lock
    else
      var clock := Tick(OperationTime(d, w), now);
      if clock.t > MAX_UINT32 || clock.i > MAX_UINT32 || d.nextSeq > MAX_UINT64 then d  // statement fails
      else
        var pending := if d.lock.Writer? then d.lock.pending else [];
        d.(nextSeq := d.nextSeq + 1,
           reading := now,
           lock := Writer(w, clock, pending + [Event(d.nextSeq, clock, op, ns, o, o2)]))
  }

  /** A failed statement or ROLLBACK TO SAVEPOINT undoes a suffix of the transaction; sequence
      numbers already drawn stay drawn and the lock stays held. */
  function UndoTo(d: Db, w: nat, keep: nat): Db {
    if d.lock.Writer? && d.lock.w == w && keep <= |d.lock.pending| then
      d.(lock := Writer(w, if keep == 0 then d.clock else d.lock.pending[keep - 1].ts,
                        d.lock.pending[..keep]))
    else d
  }

  function CommitWriter(d: Db, w: nat): Db {
    if d.lock.Writer? && d.lock.w == w then
      d.(rows := d.rows + d.lock.pending, log := d.log + d.lock.pending,
         clock := d.lock.clock, lock := Free)
    else d
  }

  function RollbackWriter(d: Db, w: nat): Db {
    if d.lock.Writer? && d.lock.w == w then d.(lock := Free) else d
  }

  // ---------------------------------------------------------------- pruner statements

  /** UPDATE oplog_history: assignments run left to right, so pruned_ts_i still sees the old second. */
  function Advanced(h: History, newest: nat, ts: Stamp): History {
    var i := if h.pruned.t < ts.t then ts.i
             else if h.pruned.t == ts.t then Max(h.pruned.i, ts.i)
             else h.pruned.i;
    h.(prunedSeq := Max(h.prunedSeq, newest), pruned := Stamp(Max(h.pruned.t, ts.t), i))
  }

  function PublishPrune(d: Db, removed: seq<Event>, history: History): Db {
    d.(rows := Scan(d.rows, (e: Event) => e !in removed), history := history, lock := Free,
       deleted := d.deleted + (set e | e in removed))
  }

  function PlanWith(maxRows: nat, head: nat, cutoff: Option<nat>, mark: nat, d: Db): Plan {
    var cut := if 0 < maxRows <= |d.rows| then Some(d.rows[|d.rows| - maxRows].sn) else None;
    Plan(head, cutoff, cut, maxRows, mark, |d.log|)
  }

  function PruneStep(d: Db, p: Pruner, step: Step): (Db, Pruner) {
    match (step, p)
    case (PruneHead(maxRows, maxAge), Idle) =>
      if (maxRows == 0 && maxAge == 0) || MaxSeq(d.rows) == 0 then (d, Idle)
      else (d, SampledHead(maxRows, maxAge, MaxSeq(d.rows), |d.log|))
    case (PruneAge(now), SampledHead(maxRows, maxAge, head, mark)) =>
      (d, SampledAge(maxRows, head, if 0 < maxAge < now then Some(now - maxAge) else None, mark))
    case (PruneCut, SampledAge(maxRows, head, cutoff, mark)) =>
      var plan := PlanWith(maxRows, head, cutoff, mark, d);
      (d, if plan.cutoff.None? && plan.cut.None? then Idle else Planned(plan))
    case (PruneNewest, Planned(plan)) =>
      (d, if Victims(d.rows, plan) == [] then Idle else FoundNewest(plan, MaxSeq(Victims(d.rows, plan))))
    case (PruneStamp, FoundNewest(plan, newest)) =>
      (d, if Victims(d.rows, plan) == [] then Idle
          else FoundStamp(plan, newest, MaxStamp(Victims(d.rows, plan))))
    case (PruneLock, FoundStamp(plan, newest, stamp)) =>
      if d.lock.Free? then (d.(lock := Pruning), Locked(plan, newest, stamp)) else (d, p)
    case (PruneVerify, Locked(plan, newest, stamp)) =>
      if exists e :: e in d.rows && e.sn == newest && Doomed(plan, e) then (d, Verified(plan, newest, stamp))
      else (d.(lock := Free), Idle)
    case (PruneDelete, Verified(plan, newest, stamp)) =>
      (d, Deleting(plan, newest, stamp,
                   Scan(d.rows, (e: Event) => e.sn <= newest && Doomed(plan, e))))
    case (PruneMark, Deleting(plan, newest, stamp, removed)) =>
      (d, Marked(plan, removed, if removed == [] then d.history else Advanced(d.history, newest, stamp)))
    case (PruneCommit, Marked(plan, removed, history)) =>
      (PublishPrune(d, removed, history), Idle)
    case (PruneAbort, _) =>
      (if d.lock.Pruning? then d.(lock := Free) else d, Idle)
    case _ => (d, p)
  }

  // ---------------------------------------------------------------- consumer statements

  function OpenStep(s: State, step: Step): State
    requires step.OpenResolve? || step.OpenCheck?
  {
    if step.OpenResolve? then
      match Resolve(s.db, step.start)
      case None => s
      case Some(after) => s.(opens := s.opens[step.req := Opening(step.ns, after)])
    else if step.req !in s.opens then s
    else
      var o := s.opens[step.req];
      var s' := s.(opens := s.opens - {step.req});
      if HistoryLost(s.db, o.after) then s'
      else s'.(cursors := s.cursors[s.nextId := Tail(o.ns, o.after, o.after, [])], nextId := s.nextId + 1)
  }

  function Wanted(batchSize: int): nat {
    if batchSize < 1 then 1 else batchSize
  }

  function Take(s: seq<Event>, n: nat): seq<Event> {
    if n < |s| then s[..n] else s
  }

  /** The reply of a getMore: advance_tail, if the cursor still exists, and forget the request. */
  function Deliver(s: State, id: nat, g: Get): State
    requires g.Read?
  {
    s.(gets := s.gets - {id},
       cursors := if id !in s.cursors then s.cursors
                  else s.cursors[id := s.cursors[id].(after := NextAfter(g),
                                                      delivered := s.cursors[id].delivered + g.batch)])
  }

  function GetStep(s: State, id: nat, step: Step): State {
    if step.GetBegin? then
      if id in s.cursors && id !in s.gets then
        s.(gets := s.gets[id := Sampling(s.cursors[id].ns, s.cursors[id].after, Wanted(step.batchSize))])
      else s
    else if id !in s.gets then s
    else
      match (step, s.gets[id])
      case (GetHead(_), Sampling(ns, after, wanted)) =>
        s.(gets := s.gets[id := Sampled(ns, after, wanted, MaxSeq(s.db.rows))])
      case (GetSelect(_), Sampled(ns, after, wanted, head)) =>
        s.(gets := s.gets[id := Read(ns, after, wanted, head, Take(Following(s.db.rows, ns, after), wanted))])
      case (GetCheck(_, expired), Read(ns, after, wanted, head, batch)) =>
        if HistoryLost(s.db, after) then s.(gets := s.gets - {id})
        else if batch == [] && !expired then s.(gets := s.gets[id := Sampling(ns, after, wanted)])
        else Deliver(s, id, s.gets[id])
      case _ => s
  }

  // ---------------------------------------------------------------- the machine

  function Next(s: State, step: Step): State {
    match step
    case Append(w, now, op, ns, o, o2) => s.(db := AppendEvent(s.db, w, now, op, ns, o, o2))
    case RollbackTo(w, keep) => s.(db := UndoTo(s.db, w, keep))
    case Commit(w) => s.(db := CommitWriter(s.db, w))
    case Rollback(w) => s.(db := RollbackWriter(s.db, w))
    case OpenResolve(_, _, _) => OpenStep(s, step)
    case OpenCheck(_) => OpenStep(s, step)
    case GetBegin(id, _) => GetStep(s, id, step)
    case GetHead(id) => GetStep(s, id, step)
    case GetSelect(id) => GetStep(s, id, step)
    case GetCheck(id, _) => GetStep(s, id, step)
    case Kill(id) => s.(cursors := s.cursors - {id})
    case _ => var (d, p) := PruneStep(s.db, s.pruner, step); s.(db := d, pruner := p)
  }

  function Run(s: State, steps: seq<Step>): State
    decreases |steps|
  {
    if steps == [] then s else Run(Next(s, steps[0]), steps[1..])
  }

  /** The seconds reading of every append is at least that of the append before it. */
  ghost predicate Timely(s: State, steps: seq<Step>)
    decreases |steps|
  {
    steps == [] ||
    ((steps[0].Append? ==> s.db.reading <= steps[0].now) && Timely(Next(s, steps[0]), steps[1..]))
  }

  // ---------------------------------------------------------------- installation

  /** The history row install_oplog_schema seeds from the committed oplog; None is its refusal to
      bless an oplog that was emptied from outside. */
  function SeedHistory(legacy: bool, rows: seq<Event>, clock: Stamp): Option<History> {
    if legacy && clock != Stamp(0, 0) && rows == [] then None
    else if !legacy || rows == [] then Some(History(0, Stamp(0, 0), false, 0, Stamp(0, 0)))
    else Some(History(0, Stamp(0, 0), rows[0].sn > 1,
                      if rows[0].sn > 0 then rows[0].sn - 1 else 0, rows[0].ts))
  }
}
