/** Change events: what the stream's SELECT makes of an oplog row, and what a client makes of it. */
module ChangeEvents {
  import opened Optional
  import opened Oplog
  import opened OplogInvariant
  import opened ResumeToken

  /** A change event as the client receives it. */
  datatype ChangeEvent = ChangeEvent(token: string, operationType: string, clusterTime: Stamp,
                                     wallMillis: nat, fullDocument: Option<string>,
                                     database: string, collection: string, documentKey: string)

  // ---------------------------------------------------------------- rendering

  function DotAt(ns: string): (k: nat)
    ensures k <= |ns|
  {
    if ns == [] || ns[0] == '.' then 0 else 1 + DotAt(ns[1..])
  }

  /** kEventExpr: the namespace splits at its first dot; a delete has no post-image.  `keyOf` is
      JSON_OBJECT('_id', JSON_EXTRACT(o, '$._id')). */
  function Render(e: Event, keyOf: string -> string): ChangeEvent {
    var k := DotAt(e.ns);
    ChangeEvent(SqlToken(e.sn),
                match e.op case Insert => "insert" case Update => "replace" case Delete => "delete",
                e.ts, e.ts.t * 1000,
                if e.op.Delete? then None else Some(e.o),
                e.ns[..k], if k == |e.ns| then e.ns else e.ns[k + 1..],
                e.o2.GetOr(keyOf(e.o)))
  }

  // ---------------------------------------------------------------- what an event tells

  /** The change event tells of this row: where the stream goes on from it, what was done, when,
      where, to which document, and what the document is now. */
  predicate Tells(c: ChangeEvent, e: Event, keyOf: string -> string) {
    && DecodeToken(c.token) == Some(e.sn)
    && (c.operationType == "insert" <==> e.op == Insert)
    && (c.operationType == "replace" <==> e.op == Update)
    && (c.operationType == "delete" <==> e.op == Delete)
    && c.clusterTime == e.ts && c.wallMillis == 1000 * e.ts.t
    && ('.' in e.ns ==> '.' !in c.database && c.database + "." + c.collection == e.ns)
    && (match e.o2 case Some(key) => c.documentKey == key case None => c.documentKey == keyOf(e.o))
    && (if c.operationType == "delete" then c.fullDocument == None else c.fullDocument == Some(e.o))
  }

  /** A reply's events tell of these rows, one by one and in order. */
  ghost predicate TellsAll(documents: seq<ChangeEvent>, s: seq<Event>, keyOf: string -> string) {
    |documents| == |s| && forall k :: 0 <= k < |s| ==> Tells(documents[k], s[k], keyOf)
  }

  lemma RenderedEvent(e: Event, keyOf: string -> string)
    requires e.sn < TOKEN_LIMIT
    ensures Tells(Render(e, keyOf), e, keyOf)
  {
    SqlTokenIsEncodeToken(e.sn);
    DecodeEncode(e.sn);
    hide SqlToken, EncodeToken, DecodeToken, DotAt;
    OpNames(e, keyOf);
    if '.' in e.ns { SplitOnce(e.ns); }
  }

  /** What the client receives gives back the row: its number, its stamp, what was done, its namespace,
      its document's key, and the image after an insert or an update. */
  lemma RenderingIsFaithful(e: Event, f: Event, keyOf: string -> string)
    requires e.sn < TOKEN_LIMIT && f.sn < TOKEN_LIMIT && '.' in e.ns && '.' in f.ns
    ensures Render(e, keyOf) == Render(f, keyOf) <==>
              && e.sn == f.sn && e.ts == f.ts && e.op == f.op && e.ns == f.ns && (e.op.Delete? || e.o == f.o)
              && e.o2.GetOr(keyOf(e.o)) == f.o2.GetOr(keyOf(f.o))
  {
    SqlTokenIsEncodeToken(e.sn);
    SqlTokenIsEncodeToken(f.sn);
    DecodeEncode(e.sn);
    DecodeEncode(f.sn);
    hide SqlToken, EncodeToken, DecodeToken, DotAt;
    SplitOnce(e.ns);
    SplitOnce(f.ns);
    OpNames(e, keyOf);
    OpNames(f, keyOf);
  }

  lemma OpNames(e: Event, keyOf: string -> string)
    ensures Render(e, keyOf).operationType == "insert" <==> e.op == Insert
    ensures Render(e, keyOf).operationType == "replace" <==> e.op == Update
    ensures Render(e, keyOf).operationType == "delete" <==> e.op == Delete
  {
    var name := Render(e, keyOf).operationType;
    assert name[0] == if e.op.Insert? then 'i' else if e.op.Update? then 'r' else 'd';
    assert "insert"[0] == 'i' && "replace"[0] == 'r' && "delete"[0] == 'd';
  }

  lemma SplitOnce(ns: string)
    requires '.' in ns
    ensures DotAt(ns) < |ns| && ns == ns[..DotAt(ns)] + "." + ns[DotAt(ns) + 1..] && '.' !in ns[..DotAt(ns)]
  {
    DotFound(ns);
    hide DotAt;
    Around(ns, DotAt(ns));
  }

  lemma Around(s: string, k: nat)
    requires k < |s| && s[k] == '.'
    ensures s == s[..k] + "." + s[k + 1..]
  {
  }

  lemma {:induction false} DotFound(ns: string)
    requires '.' in ns
    ensures DotAt(ns) < |ns| && ns[DotAt(ns)] == '.' && '.' !in ns[..DotAt(ns)]
  {
    if ns[0] != '.' {
      assert ns == [ns[0]] + ns[1..];
      DotFound(ns[1..]);
      assert ns[..DotAt(ns)] == [ns[0]] + ns[1..][..DotAt(ns[1..])];
    }
  }

  // ---------------------------------------------------------------- what a client keeps

  /** A collection as a client sees it: its documents by key. */
  type View = map<string, string>

  /** What a client does with a change event. */
  function Applied(view: View, c: ChangeEvent): View {
    if c.operationType == "delete" then view - {c.documentKey}
    else if (c.operationType == "insert" || c.operationType == "replace") && c.fullDocument.Some? then
      view[c.documentKey := c.fullDocument.value]
    else view
  }

  function Replay(view: View, documents: seq<ChangeEvent>): View {
    if documents == [] then view
    else Applied(Replay(view, documents[..|documents| - 1]), documents[|documents| - 1])
  }

  /** What a write did to its collection: a delete took its document away, anything else left the
      document it carries. */
  function Written(view: View, e: Event, keyOf: string -> string): View {
    var key := match e.o2 case Some(key) => key case None => keyOf(e.o);
    match e.op
    case Delete => view - {key}
    case Insert => view[key := e.o]
    case Update => view[key := e.o]
  }

  function Writes(view: View, s: seq<Event>, keyOf: string -> string): View {
    if s == [] then view else Written(Writes(view, s[..|s| - 1], keyOf), s[|s| - 1], keyOf)
  }

  /** The collection as all its committed writes up to a sequence number have left it. */
  function Contents(log: seq<Event>, ns: string, upTo: nat, keyOf: string -> string): View {
    Writes(map[], Between(log, ns, 0, upTo), keyOf)
  }

  lemma AppliedIsWritten(view: View, c: ChangeEvent, e: Event, keyOf: string -> string)
    requires Tells(c, e, keyOf)
    ensures Applied(view, c) == Written(view, e, keyOf)
  {
    hide DecodeToken;
  }

  /** Applying a reply does to a view what the writes it tells of did to the collection. */
  lemma {:induction false} ReplayIsWrites(view: View, documents: seq<ChangeEvent>, s: seq<Event>, keyOf: string -> string)
    requires TellsAll(documents, s, keyOf)
    ensures Replay(view, documents) == Writes(view, s, keyOf)
  {
    hide Tells, Applied, Written;
    if s != [] {
      var last := |s| - 1;
      ReplayIsWrites(view, documents[..last], s[..last], keyOf);
      AppliedIsWritten(Replay(view, documents[..last]), documents[last], s[last], keyOf);
    }
  }

  lemma {:induction false} WritesAppend(view: View, s: seq<Event>, more: seq<Event>, keyOf: string -> string)
    ensures Writes(view, s + more, keyOf) == Writes(Writes(view, s, keyOf), more, keyOf)
  {
    hide Written;
    if more == [] {
      assert s + more == s;
    } else {
      var last := |more| - 1;
      assert (s + more)[..|s + more| - 1] == s + more[..last];
      WritesAppend(view, s, more[..last], keyOf);
    }
  }

  /** A client that holds the collection as of one position and applies what tells of the range to
      another holds the collection as of that one. */
  lemma MirrorMoves(log: seq<Event>, ns: string, lo: nat, hi: nat, documents: seq<ChangeEvent>, keyOf: string -> string)
    requires Sorted(log) && lo <= hi && TellsAll(documents, Between(log, ns, lo, hi), keyOf)
    ensures Replay(Contents(log, ns, lo, keyOf), documents) == Contents(log, ns, hi, keyOf)
  {
    hide Between, Writes, Sorted, TellsAll;
    BetweenJoin(log, ns, 0, lo, hi);
    WritesAppend(map[], Between(log, ns, 0, lo), Between(log, ns, lo, hi), keyOf);
    ReplayIsWrites(Contents(log, ns, lo, keyOf), documents, Between(log, ns, lo, hi), keyOf);
  }
}
