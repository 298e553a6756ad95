/** What the client of a change stream gets, from the moment it opens the stream: at a token, at the
    head or at an operation time, with any steps of other sessions in between. */
module OplogStreams {
  import opened Optional
  import opened Oplog
  import opened OplogInvariant
  import opened OplogTheorems
  import opened ChangeEvents
  import opened ResumeToken

  // ---------------------------------------------------------------- opening

  /** Steps of sessions other than the aggregate opening stream req. */
  predicate NotOpening(req: nat, step: Step) {
    !(step.OpenResolve? && step.req == req) && !(step.OpenCheck? && step.req == req)
  }

  lemma {:induction false} OthersKeepOpening(s: State, req: nat, steps: seq<Step>)
    requires forall step :: step in steps ==> NotOpening(req, step)
    ensures req in s.opens ==> req in Run(s, steps).opens && Run(s, steps).opens[req] == s.opens[req]
    ensures req !in s.opens ==> req !in Run(s, steps).opens
    decreases |steps|
  {
    if steps != [] {
      assert steps[0] in steps;
      OneKeepsOpening(s, req, steps[0]);
      hide Next;
      OthersKeepOpening(Next(s, steps[0]), req, steps[1..]);
    }
  }

  lemma OneKeepsOpening(s: State, req: nat, step: Step)
    requires NotOpening(req, step)
    ensures var s' := Next(s, step);
            && (req in s.opens ==> req in s'.opens && s'.opens[req] == s.opens[req])
            && (req !in s.opens ==> req !in s'.opens)
  {
    hide AppendEvent, UndoTo, CommitWriter, RollbackWriter, PruneStep, NextAfter, HistoryLost, Following, Resolve;
  }

  /** The moment before the history check of an open that resolved its start in s. */
  function Checking(s: State, req: nat, ns: string, start: Start, between: seq<Step>): State {
    Run(Next(s, OpenResolve(req, ns, start)), between)
  }

  /** The open as a whole. */
  function Opens(s: State, req: nat, ns: string, start: Start, between: seq<Step>): State {
    Next(Checking(s, req, ns, start, between), OpenCheck(req))
  }

  /** The number of the cursor it registers. */
  function NewCursor(s: State, req: nat, ns: string, start: Start, between: seq<Step>): nat {
    Checking(s, req, ns, start, between).nextId
  }

  /** The open got through, and its cursor has not been closed since. */
  predicate Streaming(s: State, req: nat, ns: string, start: Start, between: seq<Step>, more: seq<Step>) {
    var id := NewCursor(s, req, ns, start, between);
    id in Opens(s, req, ns, start, between).cursors && id in Run(Opens(s, req, ns, start, between), more).cursors
  }

  /** The cursor is there, at the start that was resolved, unless there was none or it is refused. */
  predicate Registered(start: Option<nat>, d: Db, ns: string, id: nat, cursors: map<nat, Tail>) {
    match start
    case None => id !in cursors
    case Some(after) =>
      if HistoryLost(d, after) then id !in cursors else id in cursors && cursors[id] == Tail(ns, after, after, [])
  }

  lemma RegisteredTail(s: State, req: nat, ns: string, start: Start, between: seq<Step>)
    requires Inv(s) && req !in s.opens && forall step :: step in between ==> NotOpening(req, step)
    ensures var c, s' := Checking(s, req, ns, start, between), Opens(s, req, ns, start, between);
            && Inv(c) && Inv(s') && Advances(s.db, c.db) && s'.db == c.db && c.nextId !in c.cursors
            && (c.nextId in s'.cursors ==> s'.nextId == c.nextId + 1)
            && Registered(Resolve(s.db, start), c.db, ns, c.nextId, s'.cursors)
  {
    var s1 := Next(s, OpenResolve(req, ns, start));
    var c := Run(s1, between);
    hide Next, Run, Resolve, HistoryLost, Advances, Inv, Registered;
    ResolveStep(s, req, ns, start);
    NextKeeps(s, OpenResolve(req, ns, start));
    RunKeeps(s1, between);
    OthersKeepOpening(s1, req, between);
    NextKeeps(c, OpenCheck(req));
    FreshNumber(c);
    CheckStep(c, req, ns, Resolve(s.db, start));
  }

  /** What the other side of an open finds: nothing, or the origin that was resolved. */
  predicate Resolved(start: Option<nat>, ns: string, req: nat, opens: map<nat, Opening>) {
    match start
    case None => req !in opens
    case Some(after) => req in opens && opens[req] == Opening(ns, after)
  }

  lemma ResolveStep(s: State, req: nat, ns: string, start: Start)
    requires req !in s.opens
    ensures var s' := Next(s, OpenResolve(req, ns, start));
            s'.db == s.db && Resolved(Resolve(s.db, start), ns, req, s'.opens)
  {
    hide Resolve;
  }

  lemma CheckStep(s: State, req: nat, ns: string, start: Option<nat>)
    requires Resolved(start, ns, req, s.opens) && s.nextId !in s.cursors
    ensures var s' := Next(s, OpenCheck(req));
            && s'.db == s.db && Registered(start, s.db, ns, s.nextId, s'.cursors)
            && (s.nextId in s'.cursors ==> s'.nextId == s.nextId + 1)
  {
    hide HistoryLost;
  }

  lemma FreshNumber(s: State)
    requires Inv(s)
    ensures s.nextId !in s.cursors
  {
    hide DbInv, PrunerInv, TailsInv, GetsInv;
  }

  /** Opened with a token, a stream starts right behind it: refused exactly when the history check
      says so, and otherwise with the token's number as origin and position. */
  lemma OpensAfterToken(s: State, req: nat, ns: string, sn: nat, between: seq<Step>)
    requires Inv(s) && req !in s.opens && forall step :: step in between ==> NotOpening(req, step)
    ensures var id, s' := NewCursor(s, req, ns, AfterToken(sn), between), Opens(s, req, ns, AfterToken(sn), between);
            && (id in s'.cursors <==> !HistoryLost(s'.db, sn))
            && (id in s'.cursors ==> s'.cursors[id] == Tail(ns, sn, sn, []))
  {
    RegisteredTail(s, req, ns, AfterToken(sn), between);
    hide Inv, Opens, Checking, HistoryLost, Advances;
  }

  /** Opened without a start, a stream starts behind everything committed by then, at the newest event
      if there is one; it is refused exactly when the history check says so of that event. */
  lemma OpensAtHead(s: State, req: nat, ns: string, between: seq<Step>)
    requires Inv(s) && req !in s.opens && forall step :: step in between ==> NotOpening(req, step)
    ensures var id, s' := NewCursor(s, req, ns, AtHead, between), Opens(s, req, ns, AtHead, between);
            && (id in s'.cursors <==> !HistoryLost(s'.db, MaxSeq(s.db.log)))
            && (id in s'.cursors ==>
                  var c := s'.cursors[id];
                  && c == Tail(ns, c.origin, c.origin, []) && (forall e :: e in s.db.log ==> e.sn <= c.origin)
                  && (if s.db.log == [] then c.origin == 0 else exists e :: e in s.db.log && e.sn == c.origin))
  {
    RegisteredTail(s, req, ns, AtHead, between);
    HeadOf(s);
    hide Inv, Opens, Checking, HistoryLost, Advances, MaxSeq;
  }

  lemma HeadOf(s: State)
    requires Inv(s)
    ensures var head := MaxSeq(s.db.rows);
            && head == MaxSeq(s.db.log) && (forall e :: e in s.db.log ==> e.sn <= head)
            && (if s.db.log == [] then head == 0 else exists e :: e in s.db.log && e.sn == head)
  {
    MissingBelowFloor(s.db);
    MaxSeqBounds(s.db.log);
  }

  /** Opened at an operation time, a stream starts between the events stamped before it and those
      stamped at it or later, all of the latter still stored when the start was resolved; it is
      refused if one of the latter was deleted by then, or the time lies before the legacy boundary, and
      otherwise only if the history check refuses a start between the two. */
  lemma OpensAtTime(s: State, req: nat, ns: string, ts: Stamp, between: seq<Step>)
    requires Inv(s) && StampsIncrease(s.db.log) && BaselineInv(s.db)
    requires req !in s.opens && forall step :: step in between ==> NotOpening(req, step)
    ensures var id, s' := NewCursor(s, req, ns, AtTime(ts), between), Opens(s, req, ns, AtTime(ts), between);
            TimeOpened(s.db, s'.db, ts, ns, id, s'.cursors)
  {
    assert DbInv(s.db);
    hide Inv, DbInv, BaselineInv, StampsIncrease, Opens, Checking, HistoryLost, Advances, ResolveTime, AtMost, Before;
    hide TimeOpened, Registered, TimeFound;
    RegisteredTail(s, req, ns, AtTime(ts), between);
    TimeResolves(s.db, ts);
    assert Resolve(s.db, AtTime(ts)) == ResolveTime(s.db, ts);
    TimeOpens(s.db, Opens(s, req, ns, AtTime(ts), between).db, ts, ResolveTime(s.db, ts), ns,
              NewCursor(s, req, ns, AtTime(ts), between), Opens(s, req, ns, AtTime(ts), between).cursors);
  }

  /** What an open at a time comes to, from the tables when the start was resolved and when its history
      was checked. */
  ghost predicate TimeOpened(d: Db, d': Db, ts: Stamp, ns: string, id: nat, cursors: map<nat, Tail>) {
    && (id in cursors ==>
          var origin := cursors[id].origin;
          && cursors[id] == Tail(ns, origin, origin, []) && Splits(d, ts, origin)
          && (forall e :: e in d.log && AtMost(ts, e.ts) ==> e in d.rows))
    && (TimeLost(d, ts) ==> id !in cursors)
    && (id !in cursors ==> TimeLost(d, ts) || exists origin :: Splits(d, ts, origin) && HistoryLost(d', origin))
  }

  ghost predicate TimeFound(d: Db, ts: Stamp, start: Option<nat>) {
    match start
    case None => TimeLost(d, ts)
    case Some(origin) =>
      !TimeLost(d, ts) && Splits(d, ts, origin) && forall e :: e in d.log && AtMost(ts, e.ts) ==> e in d.rows
  }

  lemma TimeResolves(d: Db, ts: Stamp)
    requires DbInv(d) && StampsIncrease(d.log) && BaselineInv(d)
    ensures TimeFound(d, ts, ResolveTime(d, ts))
  {
    hide DbInv, BaselineInv, StampsIncrease, ResolveTime, AtMost, Before;
    ResolvedTimeExact(d, ts);
  }

  lemma TimeOpens(d: Db, d': Db, ts: Stamp, start: Option<nat>, ns: string, id: nat, cursors: map<nat, Tail>)
    requires TimeFound(d, ts, start) && Registered(start, d', ns, id, cursors)
    ensures TimeOpened(d, d', ts, ns, id, cursors)
  {
    hide Splits, TimeLost, HistoryLost, AtMost;
  }

  /** An event from that time on was deleted, or the time lies before the legacy boundary. */
  ghost predicate TimeLost(d: Db, ts: Stamp) {
    (exists e :: e in d.deleted && AtMost(ts, e.ts)) || (d.history.legacy && Before(ts, d.history.baseline))
  }

  /** The events from that time on are those above the origin. */
  ghost predicate Splits(d: Db, ts: Stamp, origin: nat) {
    forall e :: e in d.log ==> (AtMost(ts, e.ts) <==> origin < e.sn)
  }

  /** There is nowhere to start: only a time can be lost. */
  ghost predicate StartLost(start: Start, d: Db) {
    start.AtTime? && (StampsIncrease(d.log) ==> TimeLost(d, start.ts))
  }

  /** Where a stream has to start: right behind its token, behind everything committed, or between
      the events before a time and those from it on, none of which has been lost. */
  ghost predicate StartsAt(start: Start, d: Db, origin: nat) {
    match start
    case AfterToken(sn) => origin == sn
    case AtHead =>
      && (forall e :: e in d.log ==> e.sn <= origin)
      && (if d.log == [] then origin == 0 else exists e :: e in d.log && e.sn == origin)
    case AtTime(ts) =>
      StampsIncrease(d.log) ==>
        && Splits(d, ts, origin) && (forall e :: e in d.log && AtMost(ts, e.ts) ==> e in d.rows)
        && !(d.history.legacy && Before(ts, d.history.baseline))
  }

  lemma ResolvedStart(s: State, start: Start)
    requires Inv(s) && BaselineInv(s.db)
    ensures match Resolve(s.db, start)
            case Some(origin) => StartsAt(start, s.db, origin)
            case None => StartLost(start, s.db)
  {
    assert DbInv(s.db);
    HeadOf(s);
    hide Inv, DbInv, BaselineInv, StampsIncrease, ResolveTime, MaxSeq, AtMost, Before;
    if start.AtTime? && StampsIncrease(s.db.log) { TimeResolves(s.db, start.ts); }
  }

  // ---------------------------------------------------------------- streaming on

  /** A cursor is never renamed, and no number is used twice. */
  lemma {:induction false} CursorStays(s: State, steps: seq<Step>, id: nat)
    requires id < s.nextId && id in Run(s, steps).cursors
    ensures id in s.cursors && Run(s, steps).cursors[id].ns == s.cursors[id].ns
    ensures Run(s, steps).cursors[id].origin == s.cursors[id].origin
    decreases |steps|
  {
    if steps != [] {
      OneKeepsCursor(s, steps[0], id);
      hide Next;
      CursorStays(Next(s, steps[0]), steps[1..], id);
    }
  }

  lemma OneKeepsCursor(s: State, step: Step, id: nat)
    requires id < s.nextId
    ensures var s' := Next(s, step);
            && s.nextId <= s'.nextId
            && (id in s'.cursors ==>
                  id in s.cursors && s'.cursors[id].ns == s.cursors[id].ns && s'.cursors[id].origin == s.cursors[id].origin)
  {
    hide AppendEvent, UndoTo, CommitWriter, RollbackWriter, PruneStep, NextAfter, HistoryLost, Following, Resolve;
  }

  /** What a stream has delivered at any later moment, from the origin it was opened with. */
  lemma StreamFrom(s: State, req: nat, ns: string, start: Start, between: seq<Step>, more: seq<Step>)
    requires Inv(s) && req !in s.opens && (forall step :: step in between ==> NotOpening(req, step))
    requires Streaming(s, req, ns, start, between, more)
    ensures var id, s1 := NewCursor(s, req, ns, start, between), Opens(s, req, ns, start, between);
            var s2 := Run(s1, more); var c := s2.cursors[id];
            && Inv(s2) && Advances(s.db, s2.db) && c.ns == ns && c.origin == s1.cursors[id].origin
            && c.origin <= c.after && c.delivered == Between(s2.db.log, ns, c.origin, c.after)
            && (forall e :: e in c.delivered <==> e in s2.db.log && e.ns == ns && c.origin < e.sn <= c.after)
  {
    hide Inv, Advances, Resolve, HistoryLost, Between;
    RegisteredTail(s, req, ns, start, between);
    var id, s1 := NewCursor(s, req, ns, start, between), Opens(s, req, ns, start, between);
    hide Opens, Checking, Next, Run;
    CursorStays(s1, more, id);
    RunKeeps(s1, more);
    StreamHolds(s.db, s1, Run(s1, more), id);
  }

  lemma StreamHolds(d: Db, s1: State, s2: State, id: nat)
    requires Inv(s1) && Inv(s2) && Advances(d, s1.db) && Advances(s1.db, s2.db) && id in s2.cursors
    ensures var c := s2.cursors[id];
            && Advances(d, s2.db) && c.origin <= c.after
            && c.delivered == Between(s2.db.log, c.ns, c.origin, c.after)
            && (forall e :: e in c.delivered <==> e in s2.db.log && e.ns == c.ns && c.origin < e.sn <= c.after)
  {
    assert Sorted(s1.db.log) && Sorted(s2.db.log) && TailInv(s2.db.log, s2.cursors[id]);
    hide Inv, Advances, Sorted;
    CursorHolds(s2, id);
    AdvancesTransitive(d, s1.db, s2.db);
  }

  /** From a token on: the committed events of the namespace behind the token, in order. */
  lemma StreamAfterToken(s: State, req: nat, ns: string, sn: nat, between: seq<Step>, more: seq<Step>)
    requires Inv(s) && req !in s.opens && (forall step :: step in between ==> NotOpening(req, step))
    requires Streaming(s, req, ns, AfterToken(sn), between, more)
    ensures var s2 := Run(Opens(s, req, ns, AfterToken(sn), between), more);
            var c := s2.cursors[NewCursor(s, req, ns, AfterToken(sn), between)];
            && Inv(s2) && Advances(s.db, s2.db) && c.ns == ns && sn <= c.after
            && c.delivered == Between(s2.db.log, ns, sn, c.after)
  {
    hide Inv, Opens, Checking, HistoryLost, Run, Between, Advances;
    OpensAfterToken(s, req, ns, sn, between);
    StreamFrom(s, req, ns, AfterToken(sn), between, more);
  }

  /** From the head on: exactly what was committed after the open had sampled it. */
  lemma StreamFromHead(s: State, req: nat, ns: string, between: seq<Step>, more: seq<Step>)
    requires Inv(s) && req !in s.opens && (forall step :: step in between ==> NotOpening(req, step))
    requires Streaming(s, req, ns, AtHead, between, more)
    ensures var s2 := Run(Opens(s, req, ns, AtHead, between), more);
            var c := s2.cursors[NewCursor(s, req, ns, AtHead, between)];
            forall e :: e in c.delivered <==> e in s2.db.log && e !in s.db.log && e.ns == ns && e.sn <= c.after
  {
    hide Inv, Opens, Checking, Run, Between, Advances;
    OpensAtHead(s, req, ns, between);
    StreamFrom(s, req, ns, AtHead, between, more);
    var s2 := Run(Opens(s, req, ns, AtHead, between), more);
    var c := s2.cursors[NewCursor(s, req, ns, AtHead, between)];
    HeadOf(s);
    HeadIs(s, s2, c.origin);
  }

  /** A client that copies a collection, opens a stream at that moment and applies every event it is
      sent holds, at any later moment, the collection as of the position its cursor has reached. */
  lemma MirrorFromHead(s: State, req: nat, ns: string, between: seq<Step>, more: seq<Step>,
                       documents: seq<ChangeEvent>, keyOf: string -> string)
    requires Inv(s) && req !in s.opens && (forall step :: step in between ==> NotOpening(req, step))
    requires Streaming(s, req, ns, AtHead, between, more)
    requires var s2 := Run(Opens(s, req, ns, AtHead, between), more);
             TellsAll(documents, s2.cursors[NewCursor(s, req, ns, AtHead, between)].delivered, keyOf)
    ensures var s2 := Run(Opens(s, req, ns, AtHead, between), more);
            var position := s2.cursors[NewCursor(s, req, ns, AtHead, between)].after;
            Replay(Contents(s.db.log, ns, MaxSeq(s.db.log), keyOf), documents) == Contents(s2.db.log, ns, position, keyOf)
  {
    hide Inv, Opens, Checking, Run, Between, Advances, Replay, Contents, TellsAll, MaxSeq;
    OpensAtHead(s, req, ns, between);
    StreamFrom(s, req, ns, AtHead, between, more);
    var s2 := Run(Opens(s, req, ns, AtHead, between), more);
    var c := s2.cursors[NewCursor(s, req, ns, AtHead, between)];
    HeadOf(s);
    HeadContents(s, s2, ns, c.origin, keyOf);
    MirrorMoves(s2.db.log, ns, c.origin, c.after, documents, keyOf);
  }

  lemma HeadContents(s: State, s2: State, ns: string, origin: nat, keyOf: string -> string)
    requires Inv(s) && Inv(s2) && Advances(s.db, s2.db)
    requires forall e :: e in s.db.log ==> e.sn <= origin
    requires if s.db.log == [] then origin == 0 else exists e :: e in s.db.log && e.sn == origin
    ensures Sorted(s2.db.log)
    ensures Contents(s.db.log, ns, MaxSeq(s.db.log), keyOf) == Contents(s2.db.log, ns, origin, keyOf)
  {
    MaxSeqBounds(s.db.log);
    assert s.db.log != [] ==> s.db.log[|s.db.log| - 1] in s.db.log;
    assert origin == MaxSeq(s.db.log);
    BetweenStable(s.db.log, s2.db.log, ns, 0, origin);
  }

  /** What is not in the older log lies above its head. */
  lemma HeadIs(s: State, s2: State, origin: nat)
    requires Inv(s) && Inv(s2) && Advances(s.db, s2.db)
    requires forall e :: e in s.db.log ==> e.sn <= origin
    requires if s.db.log == [] then origin == 0 else exists e :: e in s.db.log && e.sn == origin
    ensures forall e :: e in s2.db.log ==> (e !in s.db.log <==> origin < e.sn)
  {
    assert forall e :: e in s2.db.log ==> 0 < e.sn;
    MaxSeqBounds(s.db.log);
    hide Inv;
    NewerAbove(s.db, s2.db, origin);
  }

  lemma NewerAbove(d: Db, d': Db, origin: nat)
    requires Advances(d, d')
    requires forall e :: e in d.log ==> e.sn <= origin
    requires if d.log == [] then origin == 0 else exists e :: e in d.log && e.sn == origin
    requires d.log != [] ==> forall e :: e in d.log ==> e.sn <= MaxSeq(d.log)
    requires forall e :: e in d'.log ==> 0 < e.sn
    ensures forall e :: e in d'.log ==> (e !in d.log <==> origin < e.sn)
  {
  }

  /** From an operation time on: the committed events stamped then or later, as long as the time is no
      later than the clock's next stamp when the open resolved it, and readings do not fall. */
  lemma StreamFromTime(s: State, req: nat, ns: string, ts: Stamp, between: seq<Step>, more: seq<Step>)
    requires Sound(s) && req !in s.opens && (forall step :: step in between ==> NotOpening(req, step))
    requires Streaming(s, req, ns, AtTime(ts), between, more)
    requires Timely(s, [OpenResolve(req, ns, AtTime(ts))] + between + [OpenCheck(req)] + more)
    requires AtMost(ts, Stamp(s.db.clock.t, s.db.clock.i + 1))
    ensures var s2 := Run(Opens(s, req, ns, AtTime(ts), between), more);
            var c := s2.cursors[NewCursor(s, req, ns, AtTime(ts), between)];
            forall e :: e in c.delivered <==> e in s2.db.log && AtMost(ts, e.ts) && e.ns == ns && e.sn <= c.after
  {
    var s2 := Run(Opens(s, req, ns, AtTime(ts), between), more);
    var origin := ResolveTime(s.db, ts).GetOr(0);
    hide Sound, Opens, Checking, Run, Timely, Between, Advances, ResolveTime, AtMost, Inv, HistoryLost;
    SoundParts(s);
    RegisteredTail(s, req, ns, AtTime(ts), between);
    assert Resolve(s.db, AtTime(ts)) == ResolveTime(s.db, ts);
    StreamFrom(s, req, ns, AtTime(ts), between, more);
    assert ResolveTime(s.db, ts).Some?;
    OpeningRun(s, req, ns, AtTime(ts), between, more);
    hide Streaming, Resolve;
    SplitByTime(s, [OpenResolve(req, ns, AtTime(ts))] + between + [OpenCheck(req)] + more, ts);
  }

  lemma SplitByTime(s: State, steps: seq<Step>, ts: Stamp)
    requires Sound(s) && Timely(s, steps) && ResolveTime(s.db, ts).Some?
    requires AtMost(ts, Stamp(s.db.clock.t, s.db.clock.i + 1))
    ensures forall e :: e in Run(s, steps).db.log ==> (AtMost(ts, e.ts) <==> ResolveTime(s.db, ts).value < e.sn)
  {
    hide Sound, Run, Timely, EarliestLater, ResolveTime, AtMost, Inv, TimeInv, BaselineInv;
    SoundParts(s);
    EarliestAfterClock(s.db);
    AtMostChain(ts, Stamp(s.db.clock.t, s.db.clock.i + 1), EarliestLater(s.db));
    forall e | e in Run(s, steps).db.log ensures AtMost(ts, e.ts) <==> ResolveTime(s.db, ts).value < e.sn {
      ResolvedTimeStays(s, steps, ts, e);
    }
  }

  lemma OpeningRun(s: State, req: nat, ns: string, start: Start, between: seq<Step>, more: seq<Step>)
    ensures Run(s, [OpenResolve(req, ns, start)] + between + [OpenCheck(req)] + more) ==
            Run(Opens(s, req, ns, start, between), more)
  {
    var a, b := OpenResolve(req, ns, start), OpenCheck(req);
    assert [a] + between + [b] + more == [a] + (between + ([b] + more));
    RunMore(s, a, between + ([b] + more));
    RunAppend(Next(s, a), between, [b] + more);
    RunMore(Run(Next(s, a), between), b, more);
    hide Next, Run;
  }

  lemma {:induction false} RunAppend(s: State, steps: seq<Step>, more: seq<Step>)
    ensures Run(s, steps + more) == Run(Run(s, steps), more)
    decreases |steps|
  {
    hide Next;
    if steps == [] {
      assert steps + more == more;
    } else {
      assert (steps + more)[0] == steps[0] && (steps + more)[1..] == steps[1..] + more;
      RunAppend(Next(s, steps[0]), steps[1..], more);
    }
  }

  // ---------------------------------------------------------------- cutting and resuming

  /** The reply's token resumes without gap or repeat: what a first cursor had delivered by that reply,
      followed by what a stream delivers that is opened later with the token, is one unbroken stream. */
  lemma ResumeAfterReply(s: State, id: nat, steps: seq<Step>, req: nat, sn: nat, between: seq<Step>, more: seq<Step>)
    requires Inv(s) && id in s.cursors && s.cursors[id].after < TOKEN_LIMIT
    requires DecodeToken(EncodeToken(s.cursors[id].after)) == Some(sn)
    requires req !in Run(s, steps).opens && (forall step :: step in between ==> NotOpening(req, step))
    requires Streaming(Run(s, steps), req, s.cursors[id].ns, AfterToken(sn), between, more)
    ensures var c, s1 := s.cursors[id], Run(s, steps);
            var s2 := Run(Opens(s1, req, c.ns, AfterToken(sn), between), more);
            var c' := s2.cursors[NewCursor(s1, req, c.ns, AfterToken(sn), between)];
            c.delivered + c'.delivered == Between(s2.db.log, c.ns, c.origin, c'.after)
  {
    var c := s.cursors[id];
    assert Sorted(s.db.log) && TailInv(s.db.log, c);
    hide Inv, Run, EncodeToken, DecodeToken, Opens, Checking, Advances, TailInv;
    DecodeEncode(c.after);
    RunKeeps(s, steps);
    StreamAfterToken(Run(s, steps), req, c.ns, sn, between, more);
    JoinStreams(s.db, Run(s, steps).db, Run(Opens(Run(s, steps), req, c.ns, AfterToken(sn), between), more), c,
                NewCursor(Run(s, steps), req, c.ns, AfterToken(sn), between));
  }

  lemma JoinStreams(d: Db, d1: Db, s2: State, c: Tail, id: nat)
    requires Sorted(d.log) && DbInv(d1) && Inv(s2) && Advances(d, d1) && Advances(d1, s2.db) && TailInv(d.log, c)
    requires id in s2.cursors && c.after <= s2.cursors[id].after
    requires s2.cursors[id].delivered == Between(s2.db.log, c.ns, c.after, s2.cursors[id].after)
    ensures c.delivered + s2.cursors[id].delivered == Between(s2.db.log, c.ns, c.origin, s2.cursors[id].after)
  {
    assert Sorted(d1.log) && Sorted(s2.db.log);
    hide Inv, DbInv, Sorted;
    AdvancesTransitive(d, d1, s2.db);
    BetweenStable(d.log, s2.db.log, c.ns, c.origin, c.after);
    BetweenJoin(s2.db.log, c.ns, c.origin, c.after, s2.cursors[id].after);
  }

  /** So does the _id of any event the first cursor delivered, cutting inside a batch. */
  lemma ResumeAfterEvent(s: State, id: nat, k: nat, steps: seq<Step>, req: nat, sn: nat,
                         between: seq<Step>, more: seq<Step>)
    requires Inv(s) && id in s.cursors && k < |s.cursors[id].delivered|
    requires DecodeToken(SqlToken(s.cursors[id].delivered[k].sn)) == Some(sn)
    requires req !in Run(s, steps).opens && (forall step :: step in between ==> NotOpening(req, step))
    requires Streaming(Run(s, steps), req, s.cursors[id].ns, AfterToken(sn), between, more)
    ensures var c, s1 := s.cursors[id], Run(s, steps);
            var s2 := Run(Opens(s1, req, c.ns, AfterToken(sn), between), more);
            var c' := s2.cursors[NewCursor(s1, req, c.ns, AfterToken(sn), between)];
            c.delivered[..k + 1] + c'.delivered == Between(s2.db.log, c.ns, c.origin, c'.after)
  {
    var c := s.cursors[id];
    CutTail(s, id, k);
    hide Inv, Run, EncodeToken, DecodeToken, SqlToken, Opens, Checking, Advances, TailInv;
    SqlTokenIsEncodeToken(c.delivered[k].sn);
    DecodeEncode(c.delivered[k].sn);
    RunKeeps(s, steps);
    StreamAfterToken(Run(s, steps), req, c.ns, sn, between, more);
    JoinStreams(s.db, Run(s, steps).db, Run(Opens(Run(s, steps), req, c.ns, AfterToken(sn), between), more),
                c.(after := c.delivered[k].sn, delivered := c.delivered[..k + 1]),
                NewCursor(Run(s, steps), req, c.ns, AfterToken(sn), between));
  }

  /** A cursor as it was when it had just delivered its event k. */
  lemma CutTail(s: State, id: nat, k: nat)
    requires Inv(s) && id in s.cursors && k < |s.cursors[id].delivered|
    ensures var c := s.cursors[id]; var at := c.delivered[k].sn;
            at < TOKEN_LIMIT && Sorted(s.db.log) && TailInv(s.db.log, c.(after := at, delivered := c.delivered[..k + 1]))
  {
    var c := s.cursors[id];
    assert Sorted(s.db.log) && TailInv(s.db.log, c);
    assert forall e :: e in s.db.log ==> e.sn < s.db.nextSeq <= MAX_UINT64 + 1;
    MaxSeqBounds(s.db.log);
    CursorHolds(s, id);
    assert c.delivered[k] in c.delivered;
    hide Inv, Between, Sorted, MaxSeq;
    PrefixRange(s.db.log, c.ns, c.origin, c.after, k);
  }

  // ---------------------------------------------------------------- fences

  /** A stream started, at any later moment, at the stamp a write reported delivers the write's last
      event by the time its cursor has passed it. */
  lemma FenceSeesItsWrite(s: State, w: nat, steps: seq<Step>, req: nat, between: seq<Step>, more: seq<Step>)
    requires Sound(s)
    requires s.db.lock.Writer? && s.db.lock.w == w && s.db.lock.pending != []
    requires Timely(Next(s, Commit(w)), steps)
    requires var s1 := Run(Next(s, Commit(w)), steps); var mine := s.db.lock.pending[|s.db.lock.pending| - 1];
             var start := AtTime(OperationTime(s.db, w));
             && req !in s1.opens && (forall step :: step in between ==> NotOpening(req, step))
             && Streaming(s1, req, mine.ns, start, between, more)
    ensures var s1 := Run(Next(s, Commit(w)), steps); var mine := s.db.lock.pending[|s.db.lock.pending| - 1];
            var start := AtTime(OperationTime(s.db, w));
            var end := Run(Opens(s1, req, mine.ns, start, between), more);
            var c := end.cursors[NewCursor(s1, req, mine.ns, start, between)];
            mine.sn <= c.after ==> mine in c.delivered
  {
    var s1 := Run(Next(s, Commit(w)), steps);
    var mine := s.db.lock.pending[|s.db.lock.pending| - 1];
    FenceCommits(s, w);
    hide Sound, Next, Run, Timely, OperationTime, Opens, Checking, Advances, StampsIncrease, BaselineInv, Inv, TimeInv;
    SoundLater(Next(s, Commit(w)), steps);
    SoundParts(s1);
    assert StampsIncrease(s1.db.log) by { TimedLog(s1.db); }
    OpensAtTime(s1, req, mine.ns, mine.ts, between);
    StreamFrom(s1, req, mine.ns, AtTime(mine.ts), between, more);
    var s2 := Run(Opens(s1, req, mine.ns, AtTime(mine.ts), between), more);
    assert mine in s1.db.log;
    assert mine in s2.db.log by { StaysLogged(s1.db, s2.db, mine); }
  }

  lemma StaysLogged(d: Db, d': Db, e: Event)
    requires Advances(d, d') && e in d.log
    ensures e in d'.log
  {
  }
}
