# ChimeraDB: the oplog protocol and the translator's algebra, proved

ChimeraDB serves MongoDB clients from MariaDB tables. Writers append to an InnoDB oplog inside their
own transactions, a background pruner trims it, and change-stream cursors tail it; a translator turns
MongoDB documents, filters, updates, projections, pipelines, ids, shell statements and wire messages
into SQL and back. This project models both halves in Dafny 4.11 and proves what they promise.

`dafny verify dfyconfig.toml` checks everything.

## What is modelled

**The oplog, the pruner and the cursors** (`Oplog`, `OplogInvariant`, `OplogTheorems`, `OplogRetention`,
`OplogStreams`, `ChangeEvents`, `OplogServer`, `ResumeToken`). One step machine: every step is one SQL statement, commit, rollback or cursor-registry
update of some session, so a run is any interleaving of writers, pruning passes and getMore requests.
The state holds the committed rows, the clock row and the holder of its lock with that transaction's
uncommitted rows, the next AUTO_INCREMENT value, the deletion record, the pruner's frozen plan and
program counter, the registered cursors and the requests in flight, and as bookkeeping the log of every
event ever committed. `Server` is the same machine as a class whose methods are the functions of
`oplog.cc`, `changestream.cc`, `commands.cc` and `cursor.cc`, with other sessions' steps let in between
any two statements; its invariant says that its state is a run of the machine.

Hypotheses, all visible in the definitions: at most one getMore is in flight per cursor; consumer
statements autocommit; namespaces are compared for exact equality; only the pruner deletes oplog rows;
and, for most claims about timestamps (`Timely`), the seconds reading of each append is at least the
previous one's. That is more than a clock which is never set back: the reading is the one the statement
started with, so a writer that waited for the clock row's lock may come after a later reading
(`StampsFollowSequenceIff` does without the hypothesis). An oplog inherited from a version without a
deletion record is assumed to have lost only its oldest events (`Installed`). The `_id` of a document's
text is a parameter of rendering.

**The translator** (`Bson` and the modules built on it). BSON documents are ordered field lists in which
names may repeat, and arrays are documents carrying a flag. Integers have their 64-bit behaviour where
it shows: conversion of int64 to double rounds, date differences wrap, packed timestamps wrap. Finite
doubles are reals in `Bson` and bit patterns in `IdKey`.

What a specification, a filter or an update asks for is said a second time, straight from its fields:
the truth of a filter in three values over the answers to questions about single paths (`FilterTruth`),
the order a sort specification asks for, the paths a projection keeps or drops, the effect of an update
operator, the documents of a `$group`. The compilers, parsers and loops are proved to meet those. For
filters the server's side is any function from an operand's text and its bound values to a truth value
that knows 1 and 0 and takes NOT IN as the denial of IN.

## Where a promise does not hold as it stands

Each of these is a lemma with a concrete input or an exact condition:

- A stream opened for an operation time ahead of the clock's next stamp may also deliver events committed
  before that time. The clock row decides: the split is right for ever, whatever other sessions are doing,
  exactly up to that stamp (`ResolvedTimeSafeIff`; `ResolvedTimeStaysIff`, `ResolvedTimeBreaks`).
- Stamps follow sequence numbers exactly when no committed event has a smaller second than an earlier one
  (`StampsFollowSequenceIff`). A regressed reading that is rolled back does no harm; two writers of which
  the second waited for the lock are enough to break the order (`WaitingWriterBreaksOrder`).
- An inclusion projection is faithful for every specification exactly on documents that, below their top
  level, repeat no name with different values (`ListedFaithfully`).
- `$addToSet` is idempotent exactly when no offered value is a NaN or a regular expression
  (`AddToSetIdempotent`).
- A filter with `$not` over an empty document compiles to text that is not a condition, and this is the
  only such case (`CompileFilter`). A `?` in the name of a field that a condition is written for
  makes rendering fail, and nothing else does (`RenderFillsLeaves`).
- `compare_values` is an order on a set of scalars, and then on everything nested from them, exactly when
  the set holds no two different regular expressions, no NaN beside two different numbers, no two dates
  2^63 milliseconds apart and no three dates of which only the outer two are further apart than that
  (`OrderExactly`). Dates compare in time order exactly when they are less than 2^63 apart
  (`ChronologicalExactly`). `NaNBreaksOrder`, `RegexBreaksOrder` and `DatesBreakOrder` are concrete inputs.
  A sort by one key asks less: `OneKeyExactly` says when it may be called, for each direction.
- Timestamps packed into one 64-bit register keep their order except between seconds below 2^31 and
  seconds of 2^31 or more, where it turns round (`OrdinalOrder`).
- Of two bidirectional columns whose names agree in their first 20 characters, the later one takes over
  the earlier one's triggers (`AllLive`, `LosesTrack`).
- `chimera/README.md:151` says that when one statement changes both a bidirectional column and the
  document, the document wins. The triggers let the column win, and the model follows them
  (`ColumnWins`).

## Model

| member | source | states |
|---|---|---|
| OplogInvariant.NextKeeps | chimera/plugin/chimera_mongo/oplog.cc:284-384 | every step of every session keeps the whole invariant (ordered tables, every event accounted for, exact watermarks, lock and plan, exact batches and deliveries) and only moves the durable state forward |
| OplogInvariant.RunKeeps | chimera/plugin/chimera_mongo/oplog.cc:284-384 | the same over every run |
| OplogInvariant.PruneStepKeeps | chimera/plugin/chimera_mongo/oplog.cc:320-378 | each statement of a pruning pass keeps the plan's meaning and the deletion record |
| OplogInvariant.PlanSurvivesCommit | chimera/plugin/chimera_mongo/oplog.cc:317-320 | commits that land while a pass is planning change neither its head, its cut nor its selection |
| OplogInvariant.PruneMarkExact | chimera/plugin/chimera_mongo/oplog.cc:321-366 | the two watermark candidates are the maxima over the selected rows, and bounding the DELETE by the newest one deletes all of them |
| OplogInvariant.MarkedHistory | chimera/plugin/chimera_mongo/oplog.cc:368-377 | the left-to-right history UPDATE leaves both watermarks equal to the lexicographic maxima over everything deleted |
| OplogInvariant.SelectedPage | chimera/plugin/chimera_mongo/commands.cc:371-383 | a page read after its head was sampled is exactly the committed range the cursor will move over, if pruning has not passed its start |
| OplogInvariant.BetweenStable | chimera/plugin/chimera_mongo/oplog.cc:33-36 | no later commit adds an event to a range already passed |
| OplogTheorems.InstalledInv | chimera/plugin/chimera_mongo/oplog.cc:195-248 | the seeded history row establishes the invariant, for a fresh oplog and for a legacy one |
| OplogTheorems.ExactDelivery | chimera/plugin/chimera_mongo/commands.cc:362-402 | over every interleaving a cursor has delivered, in increasing seq, exactly the committed events of its namespace after its origin and up to its position |
| OplogTheorems.GetMoreOutcome | chimera/plugin/chimera_mongo/commands.cc:370-401 | a getMore either reports HistoryLost, delivering nothing and leaving the cursor, or delivers exactly the range it advances over |
| OplogTheorems.ShortReplyCatchesUp | chimera/plugin/chimera_mongo/commands.cc:377-383 | a reply with room left has delivered everything of the namespace up to the head sampled before it, and moves the cursor at least that far |
| OplogTheorems.PollDelivers | chimera/plugin/chimera_mongo/commands.cc:362-402 | a whole getMore with its time up and nobody in between delivers the next events owed, up to its batch size, and moves the cursor if any are owed |
| OplogTheorems.PollsDeliver | chimera/plugin/chimera_mongo/commands.cc:362-402 | progress: with nothing further committed, n getMores of batch size w deliver the first n·w events owed, or all of them |
| OplogTheorems.HistoryLostExactly | chimera/plugin/chimera_mongo/changestream.cc:120-138 | refusal happens exactly when a later event was deleted, the point precedes the legacy boundary, or a positive token meets an oplog never written; otherwise every later event is still stored |
| OplogTheorems.DeletionRecordExact | chimera/plugin/chimera_mongo/oplog.cc:54-67 | in every reachable state every missing event is under both watermarks or the baseline, the watermarks are maxima over events actually deleted, and the newest event is stored |
| OplogTheorems.OnlyPruneCommitDeletes | chimera/plugin/chimera_mongo/oplog.cc:54-57 | no rollback, failed pass, consumer or writer removes a row or moves a watermark |
| OplogTheorems.HeadIsFinal | chimera/plugin/chimera_mongo/oplog.cc:278-282 | nothing at or below a sampled head is ever committed later, and heads never fall |
| OplogTheorems.StampsFollowSequence | chimera/plugin/chimera_mongo/oplog.cc:69-83 | with non-decreasing readings stamps strictly increase along the log, whatever was rolled back |
| OplogTheorems.StampsFollowSequenceIff | chimera/plugin/chimera_mongo/oplog.cc:69-83 | over every run, whatever the readings, stamps strictly increase along the log exactly when no event's second is smaller than an earlier event's |
| OplogTheorems.StampsCount | chimera/plugin/chimera_mongo/oplog.cc:76-79 | over every run, whatever is rolled back, committed events count 1, 2, 3, … within a second, start at 1 whenever the second differs from the last event's, and stay within 32 bits |
| OplogTheorems.UndoneWrite | chimera/plugin/chimera_mongo/oplog.cc:71-83 | a write undone by a savepoint leaves no trace but the sequence number it drew and the lock |
| OplogTheorems.OthersReadCommitted | chimera/plugin/chimera_mongo/changestream.cc:140-147 | a session that does not hold the clock row reads the newest committed stamp |
| OplogTheorems.WaitingWriterBreaksOrder | chimera/plugin/chimera_mongo/oplog.cc:76-79 | a run of two writers, one waiting for the other's lock with its second already fixed, that breaks the order |
| OplogTheorems.SoundRuns | chimera/plugin/chimera_mongo/oplog.cc:195-248 | every timely run from an installed oplog with ordered stamps is in the states the claims about times start from |
| OplogTheorems.ResolvedTimeExact | chimera/plugin/chimera_mongo/changestream.cc:74-112 | a resolved origin splits everything ever committed at the requested time with nothing of the later part missing, and refusal is exactly a deleted event at or after it or a time before the legacy boundary |
| OplogTheorems.ResolvedTimeStaysIff | chimera/plugin/chimera_mongo/changestream.cc:70-113 | the split holds for all events ever committed later exactly when the time is not ahead of the earliest stamp still possible, given the writer at work and the last reading |
| OplogTheorems.ResolvedTimeSafeIff | chimera/plugin/chimera_mongo/changestream.cc:70-113 | what a client can check: in every state with these rows, clock and history the split holds for ever, exactly when the time is at most the clock's next stamp |
| OplogTheorems.ResolvedTimeBreaks | chimera/plugin/chimera_mongo/changestream.cc:109-112 | a time ahead of that stamp admits an earlier-stamped event after the origin |
| OplogTheorems.WriteStamp | chimera/plugin/chimera_mongo/commands.cc:697-708 | the stamp read before the commit is the write's own last event's, ahead of everything committed before |
| OplogTheorems.StampsFollowCommits | chimera/plugin/chimera_mongo/commands.cc:697-717 | of two writes the one committed later reports the later stamp, under any concurrent writers |
| OplogTheorems.FenceIsAhead | chimera/plugin/chimera_mongo/changestream.cc:140-147 | a stream started at a write's stamp has that write's last event ahead of it and still stored, or is refused |
| OplogRetention.RowLimitPass | chimera/plugin/chimera_mongo/oplog.cc:305-320 | a pass with only a row limit k keeps the k newest rows (all, if fewer) and leaves at most k plus the commits since its head sample |
| OplogRetention.AgeLimitPass | chimera/plugin/chimera_mongo/oplog.cc:298-366 | with both limits at once and any interleaving, from head sample to commit only rows below that head go, each past the age limit at the second that was read or below the newest maxRows rows; afterwards no row below the head is past the age limit and at most maxRows are left besides the commits since |
| OplogRetention.PlannedBoundaryHolds | chimera/plugin/chimera_mongo/oplog.cc:350-360 | the planned boundary is always verified under the lock and the deletion is never empty, whatever committed in between |
| OplogRetention.DeletesWhatWasPlanned | chimera/plugin/chimera_mongo/oplog.cc:317-366 | the set deleted under the lock is the set selected when planning |
| OplogStreams.OpensAfterToken | chimera/plugin/chimera_mongo/changestream.cc:70-73 | a stream opened with a token starts at that token's number, or is refused exactly when the history check says so |
| OplogStreams.OpensAtHead | chimera/plugin/chimera_mongo/changestream.cc:113-118 | a stream opened at the head has every event committed by then at or below its origin and every later one above it |
| OplogStreams.OpensAtTime | chimera/plugin/chimera_mongo/changestream.cc:74-112 | a stream opened at an operation time has the events stamped then or later above its origin, all of them still stored, and the earlier ones at or below it; it is refused if one of the former was deleted or the time precedes the legacy boundary |
| OplogStreams.StreamAfterToken | chimera/plugin/chimera_mongo/commands.cc:548-560 | from the open on, over every run, such a stream has delivered exactly the committed events of its namespace behind the token, in order |
| OplogStreams.StreamFromHead | chimera/plugin/chimera_mongo/commands.cc:548-560 | likewise, opened at the head: exactly what was committed after that |
| OplogStreams.StreamFromTime | chimera/plugin/chimera_mongo/commands.cc:548-560 | likewise, opened at a time no later than the clock's next stamp: exactly the events stamped then or later |
| OplogStreams.MirrorFromHead | chimera/plugin/chimera_mongo/commands.cc:362-402 | a client that copies a collection, opens a stream at that moment and applies what it is sent holds, at every later moment, the collection as of its cursor's position |
| OplogStreams.ResumeAfterReply | chimera/plugin/chimera_mongo/commands.cc:301-308 | reopening with a reply's postBatchResumeToken, decoded, continues the stream with no gap or repeat |
| OplogStreams.ResumeAfterEvent | chimera/plugin/chimera_mongo/changestream.cc:23-26 | so does reopening with any delivered event's _id |
| OplogStreams.FenceSeesItsWrite | chimera/plugin/chimera_mongo/commands.cc:697-717 | a stream opened at the stamp a write reported has delivered that write's last event once its cursor has passed it |
| ResumeToken.DecodeEncode | chimera/translator/src/changestream.cpp:63-83 | decoding an encoded token gives the sequence number, for every uint64 |
| ResumeToken.DecodeAcceptsOnlyEncodings | chimera/translator/src/changestream.cpp:69-83 | nothing but the 16-digit encodings is accepted |
| ResumeToken.SqlTokenIsEncodeToken | chimera/plugin/chimera_mongo/changestream.cc:23-26 | the SQL expression LPAD(LOWER(HEX(seq)), 16, '0') and the C++ encoder agree on every uint64 |
| ChangeEvents.RenderedEvent | chimera/plugin/chimera_mongo/changestream.cc:22-40 | a rendered event tells of its row: its _id decodes to the sequence number, operationType names the operation, clusterTime and wallTime are the stamp's, ns splits at the first dot, documentKey is o2 or the key of o, fullDocument is o unless it is a delete |
| ChangeEvents.ReplayIsWrites | chimera/plugin/chimera_mongo/changestream.cc:22-40 | a client applying events by operationType does to its view what the rows' writes did to the collection |
| ChangeEvents.MirrorMoves | chimera/plugin/chimera_mongo/commands.cc:362-402 | a view of the collection as of one position becomes, by applying what tells of the range to another, the view as of that one |
| ChangeEvents.RenderingIsFaithful | chimera/plugin/chimera_mongo/changestream.cc:22-40 | two rendered events are equal exactly when number, stamp, operation, namespace, document key and (unless a delete) post-image are |
| OplogServer.Server.Install | chimera/plugin/chimera_mongo/oplog.cc:213-248 | the installed server is the machine's initial state with the seeded history |
| OplogServer.Server.OplogAppend | chimera/plugin/chimera_mongo/oplog.cc:71-83 | the UPDATE and INSERT of the append procedure are the machine's append step, or fail changing nothing |
| OplogServer.Server.RunAtomically | chimera/plugin/chimera_mongo/commands.cc:702-717 | the first write waits for the clock lock; a committed body's events come right after those committed before it got the lock, in order, with the last one's stamp returned; a throwing body leaves no event and no transaction; with the lock free and stamps in range the body commits |
| OplogServer.Server.PlanPrune | chimera/plugin/chimera_mongo/oplog.cc:284-332 | the planning statements with other sessions in between delete nothing and end with both limits met below the head, or with a plan for that head, the row limit and a cutoff that tells exactly the events past the age limit |
| OplogServer.Server.PruneTransaction | chimera/plugin/chimera_mongo/oplog.cc:335-382 | the locked transaction deletes the planned rows and publishes the record together, or rolls back |
| OplogServer.Server.PruneOplog | chimera/plugin/chimera_mongo/oplog.cc:284-384 | a whole pass under every interleaving: of the rows found and committed since only those below the head it found that are past the age limit or below the newest maxRows are gone; if it ends, no row below that head is past the age limit and at most maxRows are left besides those committed meanwhile; undisturbed before its transaction, with the lock free and no error, it ends |
| OplogServer.Server.ReadChangestream | chimera/plugin/chimera_mongo/changestream.cc:44-61 | the SELECT and its loop: the first rows of the namespace past the position, at most as many as wanted, documents that tell of them one by one, and the last row's seq |
| OplogServer.Server.CheckAndAdvance | chimera/plugin/chimera_mongo/changestream.cc:62-67 | the history check after the read decides between refusal, another round, and a delivery of exactly the range moved over |
| OplogServer.Server.TailBatch | chimera/plugin/chimera_mongo/commands.cc:362-402 | the whole getMore: it is refused exactly when the history after the position is lost, which leaves the cursor where it was; a reply tells of exactly the committed events of its range, at most batchSize of them and reaching the head found at the call if fewer, carries the token of its new position, and moves a client's view of the collection there |
| OplogServer.Server.OpenChangeStream | chimera/plugin/chimera_mongo/commands.cc:548-560 | opening registers a cursor with nothing delivered that starts right behind the token, or with every stored event at or below it, or splitting the events at the operation time; a token is refused exactly when the history check says so |
| Bson.GetSet | chimera/translator/src/bson.cpp:196-258 | reading at or below a path just written reads the value written, on every document |
| Bson.GetSetElsewhere | chimera/translator/src/bson.cpp:221-258 | a path neither above nor below the written one reads as before |
| Bson.GetSetAbove | chimera/translator/src/bson.cpp:228-242 | above the written path there is a container of its old kind, changed only there |
| Bson.SetSet | chimera/translator/src/bson.cpp:221-258 | of two writes to one path only the last shows |
| Bson.SetFixed | chimera/translator/src/bson.cpp:221-258 | a write changes nothing exactly when every field on the path, repeated ones included, already holds the value |
| Bson.GetUnset | chimera/translator/src/bson.cpp:260-287 | reading a removed path finds nothing |
| Bson.GetUnsetElsewhere | chimera/translator/src/bson.cpp:260-287 | every path apart from the removed one reads as before |
| Bson.PathGet | chimera/translator/src/bson.cpp:196-207 | the lookup loop computes the specified reading |
| Bson.SetIn | chimera/translator/src/bson.cpp:221-253 | the copying loop computes the specified write |
| Bson.UnsetIn | chimera/translator/src/bson.cpp:260-282 | the copying loop computes the specified removal |
| Bson.SplitJoined | chimera/translator/src/bson.cpp:150-166 | a dotted name splits into exactly the members it was joined from |
| Bson.SplitExactly | chimera/translator/src/bson.cpp:150-166 | a dotted name is a path exactly when it joins that path's members, none of them empty or dotted |
| Bson.FindIsFirst | chimera/translator/src/bson.cpp:196-207 | a name is read from the first field that bears it |
| Bson.SetPlaces | chimera/translator/src/bson.cpp:221-253 | a write leaves every field where it stands, changes only those of the path's first name, and appends one if there was none |
| Bson.UnsetPlaces | chimera/translator/src/bson.cpp:260-282 | removing a name takes away all its fields and keeps the others in order; removing inside keeps every name where it was |
| Bson.RoundsToNearest | chimera/translator/src/bson.cpp:103-110 | an int64 becomes the nearest double of 53 significant bits, the even one of two |
| Bson.DecimalReads | chimera/translator/src/bson.cpp:303-313 | array elements are keyed by their indices in decimal digits without a leading zero |
| UpdateOperators.SetUpdate | chimera/translator/src/update.cpp:49-68 | a $set over paths none of which lies on another writes exactly those, leaves every other path, and changes nothing the second time, even with repeated names |
| UpdateOperators.OperatorEffect | chimera/translator/src/update.cpp:66-121 | any one operator on one field, through apply_update: refused for its reason, or $set leaves the value, $unset nothing, $inc the sum, $push and $addToSet the list with all or only the novel values offered, $pull the list without equal elements, $pop the list without its last or first; and every path apart reads as before |
| UpdateOperators.UpdateIsItsEdits | chimera/translator/src/update.cpp:127-166 | an update of operators is its edits one by one, each as an update of its own, in the order written, up to the first refused; one with other fields too is refused as a whole |
| UpdateOperators.DocumentExpected | chimera/translator/src/update.cpp:155-157 | an operator given no document is refused |
| UpdateOperators.PathRefused | chimera/translator/src/update.cpp:49-58 | a field that is no path, or has a positional `$`, is refused under every operator |
| UpdateOperators.ReplacementKeepsId | chimera/translator/src/update.cpp:138-152 | a replacement puts the old _id first and is the new document everywhere else |
| UpdateOperators.AddToSetIdempotent | chimera/translator/src/update.cpp:88-96 | $addToSet repeated changes nothing exactly when every offered value equals itself |
| UpdateOperators.WithoutKeeps | chimera/translator/src/update.cpp:97-105 | $pull drops every equal element and keeps the multiplicity of all others |
| UpdateOperators.PullTwice | chimera/translator/src/update.cpp:97-105 | after $pull no equal element is left and a second one changes nothing |
| UpdateOperators.PushThenPop | chimera/translator/src/update.cpp:84-115 | $push of a value then $pop restores the array and moves no other path |
| UpdateOperators.IncrementsAdd | chimera/translator/src/update.cpp:71-83 | within 53 bits two $inc are one of their sum |
| UpdateOperators.Apply | chimera/translator/src/update.cpp:127-167 | the imperative update computes the specified result or refusal, operator by operator |
| UpdateOperators.CheckUnmixed | chimera/translator/src/update.cpp:129-136 | comparing each field with the one before it finds every mixture of operators and fields |
| UpdateOperators.Updater.ApplyOperator | chimera/translator/src/update.cpp:49-58 | one operator's fields are applied in order to the held document, stopping at the first refusal |
| Projection.ProjectionWithin | chimera/translator/src/project.cpp:24-66 | whatever can be read in the output can be read in the input: the same scalar, or a container, through arrays and for any order and overlap of paths |
| Projection.ProjectionRefused | chimera/translator/src/project.cpp:11-41 | a projection is refused exactly for the first field whose value is no boolean or number or whose name is no path, or for listing some paths and omitting others |
| Projection.ListedOnly | chimera/translator/src/project.cpp:51-65 | a specification that lists paths shows nothing beside those, the _id unless hidden, and what lies on the way to them |
| Projection.IdLeads | chimera/translator/src/project.cpp:51-57 | an _id that is shown comes first |
| Projection.OmittedExactly | chimera/translator/src/project.cpp:43-49 | any other specification removes everything at and below the paths it omits and nothing apart from them |
| Projection.ListedFaithfully | chimera/translator/src/project.cpp:53-65 | every listed path present in the input reads the same, for all specifications, exactly on documents that below the top level repeat no name with different values |
| Projection.Project | chimera/translator/src/project.cpp:24-66 | the parsing and copying loops compute the specified projection or refusal |
| SortOrder.OrderExactly | chimera/translator/src/sort.cpp:55-120 | the comparison is an order (opposite signs the other way round, transitive with strictness) on a set of scalars, and on all values nested from them, exactly when the set is tame |
| SortOrder.Opposite | chimera/translator/src/sort.cpp:55-120 | over tame leaves comparing the other way round gives the opposite sign, through nested documents and arrays |
| SortOrder.Chain | chimera/translator/src/sort.cpp:55-120 | over tame leaves the comparison is transitive, strictly where either step is strict |
| SortOrder.OppositeExactly | chimera/translator/src/sort.cpp:55-120 | for any two nested values, opposite signs exactly when their first deciding leaves are not dates half a turn apart and, past two different patterns, the next differing leaves, names or lengths put the values the same way round |
| SortOrder.NumbersChainIff | chimera/translator/src/sort.cpp:61-65 | three numbers chain exactly when a NaN among them does not hide two that are out of step |
| SortOrder.RegexOppositeIff | chimera/translator/src/sort.cpp:90-91 | two regular expressions compare oppositely exactly when they are the same |
| SortOrder.DatesOppositeIff | chimera/translator/src/sort.cpp:81-82 | two dates compare oppositely exactly when they are not 2^63 milliseconds apart |
| SortOrder.DatesChainIff | chimera/translator/src/sort.cpp:81-82 | three such dates chain exactly when no two near steps add up to a far one |
| SortOrder.ChronologicalExactly | chimera/translator/src/sort.cpp:81-82 | a set of dates compares in time order exactly when any two are less than 2^63 milliseconds apart |
| SortOrder.Reflexive | chimera/translator/src/sort.cpp:55-120 | every value is level with itself |
| SortOrder.BytesLexicographic | chimera/translator/src/sort.cpp:42-49 | strings, binaries and ObjectIds compare as in a dictionary: at the first different byte, else the shorter first |
| SortOrder.FamiliesInOrder | chimera/translator/src/sort.cpp:17-38 | values of different types compare as their families do: MinKey, null, numbers, strings, documents, arrays, binaries, ObjectIds, booleans, dates, timestamps, regular expressions, MaxKey |
| SortOrder.WithinFamily | chimera/translator/src/sort.cpp:60-96 | within a type: numbers by size, text and bytes by dictionary, false before true, timestamps by second then counter, null and the two keys level |
| SortOrder.WithinContainers | chimera/translator/src/sort.cpp:100-121 | documents and arrays compare at the first field they differ in, by name first in a document, else by length |
| SortOrder.EqualIsLevel | chimera/translator/src/bson.cpp:112-148 | scalar equality is being of one family and level in the order, a NaN and a regular expression equal to nothing; documents and arrays are equal only when identical |
| SortOrder.NaNBreaksOrder | chimera/translator/src/sort.cpp:61-65 | a concrete input outside the condition of OrderExactly: NaN is level with two different numbers |
| SortOrder.RegexBreaksOrder | chimera/translator/src/sort.cpp:90-91 | another: two regular expressions, before one way round and level the other |
| SortOrder.DatesBreakOrder | chimera/translator/src/sort.cpp:81-82 | another: three dates, each before the next, round in a circle |
| SortOrder.TameIsWeaklyOrdered | chimera/translator/src/sort.cpp:147-158 | documents whose keys are read from tame leaves, a set for each key, give the sort the strict weak order std::stable_sort asks for |
| SortOrder.OneKeyExactly | chimera/translator/src/sort.cpp:147-158 | sorting by one key that holds scalars hands std::stable_sort a strict weak order exactly when no NaN stands beside two different numbers and the dates are tame for the key's direction; any patterns will do |
| SortOrder.StableExactly | chimera/translator/src/sort.cpp:125-158 | on documents where the predicate is a strict weak order, the sorted sequence is the only one that is in order under the multi-key spec and keeps documents level with each other in their original order |
| SortOrder.SortPermutes | chimera/translator/src/sort.cpp:147-158 | sorting is a permutation |
| SortOrder.SortedSides | chimera/translator/src/sort.cpp:147-158 | of two documents in sorted order the first field they differ in has the smaller value first where its number is 1 and the greater first where it is -1, wherever the comparison is antisymmetric on them |
| SortOrder.SortDocuments | chimera/translator/src/sort.cpp:125-158 | from the specification's fields alone: refused, leaving the order, for the first field whose number is neither 1 nor -1 or whose name is no path; otherwise a permutation in which nothing is followed by what the specification puts strictly first and level documents keep their order, wherever that is a strict weak order |
| FilterTruth.CompileFilter | chimera/translator/src/filter.cpp:265-271 | refused for the filter's first fault; otherwise, for every server that speaks SQL, the compiled condition read with NOT over AND over OR, token by token and character by character, and evaluated with its parameters taken left to right, is the filter's three-valued truth read straight from its fields; not readable exactly with a $not over an empty document |
| FilterTruth.FieldSays | chimera/translator/src/filter.cpp:117-134 | one field compiles to its meaning: every branch of $and, some of $or, none of $nor, every operator, or equality |
| FilterTruth.OperatorSays | chimera/translator/src/filter.cpp:188-240 | one operator compiles to its relation, its denial, its list, presence, pattern or containment, or is refused for its fault |
| FilterTruth.PathReads | chimera/translator/src/bson.cpp:168-179 | the JSON path written into a condition reads back as the field's path, whatever its names hold |
| FilterTruth.BoundStands | chimera/translator/src/filter.cpp:51-75 | a bound parameter stands for its value: itself, an id's hexadecimal digits, a date's milliseconds, a timestamp's two halves; other types are refused |
| FilterTruth.OrdinalOrder | chimera/translator/src/filter.cpp:22-25 | packed timestamps compare by second and counter, except that seconds of 2^31 or more come before smaller ones |
| Filter.RenderFillsLeaves | chimera/plugin/chimera_mongo/sql.cc:157-185 | rendering puts each leaf's own bound values in that leaf with none left over, exactly when no field name a condition is written for has a question mark |
| Filter.RenderedExactly | chimera/plugin/chimera_mongo/sql.cc:157-185 | rendering succeeds exactly when there are as many placeholders as parameters |
| Filter.Compiler.CompileDocument | chimera/translator/src/filter.cpp:31-37 | a document's text and the parameters it pushes are those of its tree, in leaf order |
| Filter.Compiler.CompileField | chimera/translator/src/filter.cpp:117-134 | likewise for one field, whose tree says what `FieldSays` states |
| Filter.Compiler.CompileOperator | chimera/translator/src/filter.cpp:188-240 | likewise for one operator, whose tree says what `OperatorSays` states |
| Filter.Compiler.CompileIn | chimera/translator/src/filter.cpp:177-186 | one placeholder per member, and a constant for an empty list |
| Filter.Render | chimera/plugin/chimera_mongo/sql.cc:157-185 | the scanning loop computes the specified text or the internal error |
| Mongosh.StatementRead | chimera/translator/src/mongosh.cpp:196-219 | every way of writing a statement parses back to its collection, verb and arguments, consuming all of it |
| Mongosh.ValueRead | chimera/translator/src/mongosh.cpp:86-188 | a written value reads back as itself and no further, whatever its quotes, escapes, bare keys and spaces |
| Mongosh.WritesReadBack | chimera/translator/src/mongosh.cpp:86-188 | every value of the shell's kinds can be written and reads back |
| Mongosh.Reader.QuotedString | chimera/translator/src/mongosh.cpp:61-84 | the quote and escape loop follows the grammar and ends on every input |
| Mongosh.Reader.ReadAny | chimera/translator/src/mongosh.cpp:86-93 | the reader does what the grammar says and ends on every input |
| Mongosh.Reader.ReadObjectBody | chimera/translator/src/mongosh.cpp:100-115 | likewise for an object's members |
| Mongosh.Reader.Number | chimera/translator/src/mongosh.cpp:134-155 | likewise for a number, an integer unless it has a point or an exponent |
| Mongosh.Reader.ParseShellCall | chimera/translator/src/mongosh.cpp:196-219 | likewise for a whole statement |
| IdKey.SameKey | chimera/translator/src/id.cpp:56-81 | two ids have the same key exactly when they are the same bytes, exactly the same number (int32, int64 and integral doubles together), or the same NaN bit for bit |
| IdKey.KeyOrder | chimera/translator/src/id.cpp:28-44 | bytewise order of integer keys is numeric order over all of int64, and of the other doubles' keys numeric order with the infinities |
| IdKey.KindsInOrder | chimera/translator/src/id.cpp:56-81 | exactly the ids of other kinds are refused; keys start with the BSON type code of their kind and keys of different kinds are ordered by it |
| IdKey.DecodeRefuses | chimera/translator/src/id.cpp:83-105 | a byte string is refused exactly when it is empty, of an unknown kind, or of the wrong length for its kind |
| IdKey.DecodeEncode | chimera/translator/src/id.cpp:83-105 | decoding an encoded id gives an equal id with the same key |
| IdKey.BigEndian | chimera/translator/src/id.cpp:16-20 | the byte loop writes the base-256 digits, most significant first |
| IdKey.FromBigEndian | chimera/translator/src/id.cpp:22-26 | the byte loop reads them back |
| IdKey.EncodeId | chimera/translator/src/id.cpp:56-81 | the switch computes the specified key or refusal |
| IdKey.DecodeId | chimera/translator/src/id.cpp:83-105 | the switch computes the specified id or refusal, for every byte string |
| Triggers.UpdateSyncs | chimera/plugin/chimera_mongo/projection.cc:153-160 | after every accepted write each projected column equals the wrapper-aware read of its field, for any number of columns over distinct fields |
| Triggers.FireAll | chimera/plugin/chimera_mongo/projection.cc:139-160 | all triggers together, in any order: refused exactly when a numeric column is set to NULL, else the stated row |
| Triggers.OrderIrrelevant | chimera/plugin/chimera_mongo/projection.cc:139-160 | the firing order makes no difference |
| Triggers.WritesOnlyItsFields | chimera/plugin/chimera_mongo/projection.cc:151-160 | a field is left alone unless it belongs to a column the write changed |
| Triggers.ColumnWins | chimera/plugin/chimera_mongo/projection.cc:154-158 | when one statement changes a column and the document, the column's value is in both |
| Triggers.WriteReplaces | chimera/plugin/chimera_mongo/projection.cc:132-144 | remove-then-merge-patch leaves exactly the new wrapper, or no field |
| Triggers.PatchAloneKeepsOldWrapper | chimera/plugin/chimera_mongo/projection.cc:135-138 | without the removal two wrappers would be left and the old value read |
| Triggers.ReadReplaced | chimera/plugin/chimera_mongo/projection.cc:75-97 | reading back what was written gives the column's text and leaves other fields' readings |
| Triggers.KindKept | chimera/plugin/chimera_mongo/projection.cc:75-106 | a value written back keeps its column's type: it stands where values of that kind stand and nowhere another would |
| Triggers.ReadsInPlaces | chimera/plugin/chimera_mongo/projection.cc:75-97 | a column reads its field in a fixed list of places, the first that has a scalar |
| Triggers.FiltersReadThere | chimera/translator/src/filter.cpp:244-263 | filters name exactly those places, in the same order |
| Triggers.NewRow.OnInsert | chimera/plugin/chimera_mongo/projection.cc:139-146 | after one column's BEFORE INSERT trigger the column and its field agree, a value given to the column stays, a column given none leaves the document alone, no other column or field moves, and the document is NULL only if it was |
| Triggers.NewRow.OnUpdate | chimera/plugin/chimera_mongo/projection.cc:153-160 | after one column's BEFORE UPDATE trigger the column and its field agree, the side that was written stays, no other column or field moves, and the document becomes NULL exactly when a numeric column was set to NULL |
| Triggers.Table.Insert | chimera/plugin/chimera_mongo/projection.cc:139-146 | an INSERT keeps every row of the table synchronised |
| Triggers.Table.Update | chimera/plugin/chimera_mongo/projection.cc:153-160 | an UPDATE keeps every row of the table synchronised |
| Triggers.Table.AddProjection | chimera/plugin/chimera_mongo/projection.cc:108-164 | adding a column backfills it, changes no document, and keeps all live columns synchronised |
| Triggers.AllLive | chimera/plugin/chimera_mongo/projection.cc:70-70 | every column keeps its triggers exactly when no two names agree in their first 20 characters |
| Triggers.LosesTrack | chimera/plugin/chimera_mongo/projection.cc:139-164 | a column whose triggers were replaced goes stale at the next write to its field |
| Wire.MessageParses | chimera/plugin/chimera_mongo/wire.cc:156-205 | any framing of one body and any sequences, in any order, with or without a checksum, parses to the body with each sequence appended in order; no body or two are refused |
| Wire.FoldedReadsBack | chimera/plugin/chimera_mongo/wire.cc:108-125 | the folded command is a document that gives back the body's own fields and then, in order, each sequence under its name with its documents in order |
| Wire.AcceptsOnlyMessages | chimera/plugin/chimera_mongo/wire.cc:156-205 | nothing but such framings is accepted |
| Wire.ReplyParses | chimera/plugin/chimera_mongo/wire.cc:223-251 | a reply parses back to its document, names the request it answers and is as long as it says |
| Wire.LegacyReplyLayout | chimera/plugin/chimera_mongo/wire.cc:223-251 | the reply to a legacy query has OP_REPLY, no flags, no cursor, start 0 and one document, each where a client looks for it |
| Wire.QueryParses | chimera/plugin/chimera_mongo/wire.cc:207-218 | a legacy query as a client frames it parses to its document |
| Wire.HeaderLayout | chimera/plugin/chimera_mongo/wire.cc:147-154 | a header is length, request id, response-to and opcode in this order |
| Wire.LittleEndian | chimera/plugin/chimera_mongo/wire.cc:14-26 | integers are four bytes, low first, in two's complement |
| Wire.FlagBits | chimera/plugin/chimera_mongo/wire.cc:164-169 | of the low sixteen flag bits only the two lowest may be set; the lowest says there is a checksum |
| Wire.DecimalReads | chimera/plugin/chimera_mongo/wire.cc:108-125 | the appended array's elements are keyed by their indices in decimal digits without a leading zero |
| Wire.OtherOpcodes | chimera/plugin/chimera_mongo/wire.cc:220-220 | any opcode but 2013 and 2004 is refused |
| Wire.ParseRequest | chimera/plugin/chimera_mongo/wire.cc:156-221 | the parse loops compute the specified request or refusal and end on arbitrary bytes |
| Wire.ParseSections | chimera/plugin/chimera_mongo/wire.cc:171-201 | likewise for the section loop |
| Wire.FoldInSequences | chimera/plugin/chimera_mongo/wire.cc:108-125 | the appended arrays, byte for byte |
| Wire.EncodeReply | chimera/plugin/chimera_mongo/wire.cc:223-251 | the reply's bytes after the length is patched in |
| Wire.Cursor.Document | chimera/plugin/chimera_mongo/wire.cc:74-83 | a document is taken only if its length and last byte fit, and the position stays within the message |
| Wire.Cursor.CString | chimera/plugin/chimera_mongo/wire.cc:65-72 | a string is taken up to its first zero byte, which must lie within the message |
| Wire.Cursor.SequenceSection | chimera/plugin/chimera_mongo/wire.cc:184-198 | a sequence must end exactly where its size says |
| Pipeline.SplitIsFaithful | chimera/translator/src/pipeline.cpp:137-202 | pushing the leading $match stages into one prefilter answers as running every stage in turn, under three-valued WHERE, exactly when all $match stages lead |
| Pipeline.PrefilterIs | chimera/translator/src/pipeline.cpp:150-161 | the $and of the matches keeps what the matches one after another keep, and is refused when one of them is |
| Pipeline.WhereKeeps | chimera/translator/src/filter.cpp:265-271 | a WHERE keeps, in order, the documents its filter is true of, or is refused for the filter's first fault or a $not over an empty document |
| Pipeline.GroupsPartition | chimera/translator/src/pipeline.cpp:70-85 | grouping puts every document in exactly one group, keeps keys pairwise unequal, and mixes no unequal keys |
| Pipeline.EqualKeysShare | chimera/translator/src/pipeline.cpp:75-81 | documents with equal keys are never in different groups |
| Pipeline.SumsConserved | chimera/translator/src/pipeline.cpp:82-84 | the groups' totals add up to the total over all documents |
| Pipeline.Tally | chimera/translator/src/pipeline.cpp:70-85 | the loops keep one key and the exact running totals per group |
| Pipeline.ApplyGroup | chimera/translator/src/pipeline.cpp:48-98 | the $group stage computes the specified documents or refusal |
| Pipeline.SplitPipeline | chimera/translator/src/pipeline.cpp:137-165 | the loop computes the specified plan or refusal |
| Pipeline.GroupMeetsSpec | chimera/translator/src/pipeline.cpp:21-98 | from the specification: $group is taken exactly when it says an _id and sums that can be read, and gives for each key, in the order of first appearance, the key and the exact sums over the documents that share it |
| Pipeline.SkipAndLimit | chimera/translator/src/pipeline.cpp:182-186 | $skip drops the first n documents and $limit keeps them, position by position |
| Pipeline.CountRefused | chimera/translator/src/pipeline.cpp:100-107 | their argument is refused exactly when it is no number, or a negative one |
| Pipeline.CountStage | chimera/translator/src/pipeline.cpp:190-196 | $count gives one document holding the number of documents under the given name |
| Pipeline.ProjectStage | chimera/translator/src/pipeline.cpp:176-178 | $project projects each document where it stands, or is refused as the first one that fails |
| Pipeline.SortStage | chimera/translator/src/pipeline.cpp:179-181 | $sort gives what its specification asks |
| Pipeline.StagesInOrder | chimera/translator/src/pipeline.cpp:112-119 | each stage takes what the one before it gave; a pipeline is refused as the first stage that stops: not one field, none of the six, or for its own reason |
| Pipeline.RunStages | chimera/translator/src/pipeline.cpp:167-202 | the stages one after another, each as the rows above say, up to the first refusal |

## Left out

- Sockets, threads, the listener, plugin entry points, the health probe, wake-up latency, await deadlines, idle cursor expiry and pruner scheduling: whether a getMore's time is up is a parameter.
- Raw `local.oplog.rs` tails: they make no history check, so nothing is claimed about gaps for them.
- The JSON text around a change event's fields, the extraction of `_id` from a document's text (a parameter), and the trigger that feeds the append procedure.
- Option parsing of `$changeStream` other than the token, and all refusals' texts.
- MariaDB and libbson internals: an SQL statement is one atomic step, a BSON document is a field list or a length-prefixed blob, extended JSON text is an abstract parameter value, and column type coercions are not modelled.
- BSON types Decimal128, code, symbol, undefined, DBPointer and binary subtypes.
- Agreement of compiled filters with MongoDB matching: negation over missing fields and cross-type comparison depend on MariaDB's NULL and coercion rules; the filter's meaning over the server's answers to single questions is proved.
- FilterTruth.CompileFilter: names with a question mark are not covered, as rendering fails for them, nor, for the reading character by character, names with a single quote and column names with spaces, quotes or parentheses; it reads the text with its placeholders, and what the server makes of an operand's own text is a parameter.
- UpdateOperators.IncrementsAdd: a sum outside int64, whose conversion the C++ language leaves undefined, is not modelled; sums of fractional doubles are exact reals.
- Pipeline.SumsConserved: totals are exact, so floating-point rounding of sums is not modelled.
- Mongosh.Reader.Number: the C library's text-to-double conversion is a parameter.
- Wire.ParseRequest: the `$db` lookup in the body and the database name of a legacy query are not modelled, nor are bodies above the 31-bit length limit.
- OplogTheorems.ResolvedTimeStaysIff: assumes that some event can still be committed (the sequence and the clock are not exhausted).
- OplogTheorems.ResolvedTimeSafeIff: assumes the same of the clock row and the newest stored row.
- OplogTheorems.PollsDeliver: no step of another session comes between its getMores; what a getMore with others in between delivers is the subject of ExactDelivery and ShortReplyCatchesUp.
- SortOrder.OrderExactly: takes the difference of two dates to wrap where the C++ language leaves its overflow undefined.
- SortOrder.SortDocuments: where the predicate is no strict weak order std::stable_sort promises nothing; the model then returns one insertion sort's arrangement.
- Pipeline.RunStages: where the C++ language leaves the source's behaviour undefined the model gives a definite one: a `$skip` or `$limit` of NaN, an infinity or a number above int64 is the number of documents, and a `$project`, `$sort` or `$group` argument that is neither document nor array is an empty specification.
- UpdateOperators.WithoutKeeps: values have no signed zero and no NaN payload, so containers that differ only in those are equal in the model and differ byte for byte in the source.
- Stack depth of the recursive readers, and memory limits.
- Namespace and index DDL, the SQL gateway and its read-only guard, ordinary (non-tailing) cursors, `hello` and `buildInfo`, the commands a shell call is turned into, the CLI and the packaging: easy or plumbing.
