/** Bidirectional projections: triggers that keep a column equal to a field of the document. */
module Triggers {
  import opened Optional
  import Filter

  /** A scalar is kept as the text SQL reads it as; object fields have unique names. */
  datatype Json = Absent | Null | Scalar(text: string) | List(items: seq<Json>) | Object(fields: map<string, Json>)

  type Doc = map<string, Json>

  datatype Kind = IntKind | BigIntKind | DoubleKind | TextKind

  datatype Column = Column(name: string, field: string, kind: Kind)

  /** A row on its way in; a document of None is an SQL NULL. */
  datatype Row = Row(doc: Option<Doc>, columns: map<string, Option<string>>)

  // ---------------------------------------------------------------- reading a field

  function At(v: Json, path: seq<string>): Json {
    if path == [] then v
    else if v.Object? && path[0] in v.fields then At(v.fields[path[0]], path[1..])
    else Absent
  }

  /** JSON_VALUE: NULL unless the path ends in a scalar. */
  function JsonValue(doc: Doc, path: seq<string>): Option<string> {
    var v := At(Object(doc), path);
    if v.Scalar? then Some(v.text) else None
  }

  function Coalesce(a: Option<string>, b: Option<string>): Option<string> {
    if a.Some? then a else b
  }

  /** The bare value, or the first type wrapper that has one. */
  function ReadField(doc: Doc, field: string): Option<string> {
    Coalesce(JsonValue(doc, [field]),
    Coalesce(JsonValue(doc, [field, "$numberInt"]),
    Coalesce(JsonValue(doc, [field, "$numberLong"]),
    Coalesce(JsonValue(doc, [field, "$numberDouble"]),
    Coalesce(JsonValue(doc, [field, "$date", "$numberLong"]),
             JsonValue(doc, [field, "$oid"]))))))
  }

  function ReadRow(doc: Option<Doc>, field: string): Option<string> {
    if doc.Some? then ReadField(doc.value, field) else None
  }

  // ---------------------------------------------------------------- writing it back

  /** Merge patch, section 2 of RFC 7396. */
  function MergePatch(target: Json, patch: Json): Json
    decreases patch
  {
    if !patch.Object? then patch
    else
      var old_ := if target.Object? then target.fields else map[];
      Object(map k | k in old_.Keys + patch.fields.Keys && !(k in patch.fields && patch.fields[k] == Null) ::
               if k !in patch.fields then old_[k]
               else MergePatch(if k in old_ then old_[k] else Absent, patch.fields[k]))
  }

  function Wrapped(kind: Kind, text: string): Json {
    match kind
    case IntKind => Object(map["$numberInt" := Scalar(text)])
    case BigIntKind => Object(map["$numberLong" := Scalar(text)])
    case DoubleKind => Object(map["$numberDouble" := Scalar(text)])
    case TextKind => Scalar(text)
  }

  /** The patch document; a NULL makes the numeric ones NULL and is a null field in the text one. */
  function PatchFor(c: Column, v: Option<string>): Option<Doc> {
    match v
    case Some(text) => Some(map[c.field := Wrapped(c.kind, text)])
    case None => if c.kind.TextKind? then Some(map[c.field := Null]) else None
  }

  /** JSON_MERGE_PATCH(JSON_REMOVE(doc, field), patch), NULL if any argument is. */
  function WriteField(doc: Option<Doc>, c: Column, v: Option<string>): Option<Doc> {
    var patch := PatchFor(c, v);
    if doc.None? || patch.None? then None
    else Some(MergePatch(Object(doc.value - {c.field}), Object(patch.value)).fields)
  }

  /** What a write-back comes to: the field holds the new wrapper alone, or is gone. */
  function Replaced(doc: Doc, c: Column, v: Option<string>): Doc {
    if v.Some? then doc[c.field := Wrapped(c.kind, v.value)] else doc - {c.field}
  }

  lemma WriteReplaces(doc: Doc, c: Column, v: Option<string>)
    ensures WriteField(Some(doc), c, v) ==
            if v.None? && !c.kind.TextKind? then None else Some(Replaced(doc, c, v))
  {
    if v.Some? {
      MergeFresh(Wrapped(c.kind, v.value));
      var merged := MergePatch(Object(doc - {c.field}), Object(map[c.field := Wrapped(c.kind, v.value)])).fields;
      assert merged == Replaced(doc, c, v);
    } else if c.kind.TextKind? {
      assert MergePatch(Object(doc - {c.field}), Object(map[c.field := Null])).fields == doc - {c.field};
    }
  }

  /** A wrapper merged into nothing is itself. */
  lemma MergeFresh(w: Json)
    requires w.Scalar? || (w.Object? && forall k :: k in w.fields ==> w.fields[k].Scalar?)
    ensures MergePatch(Absent, w) == w
  {
    if w.Object? { assert MergePatch(Absent, w).fields == w.fields; }
  }

  lemma ReadReplaced(doc: Doc, c: Column, v: Option<string>, field: string)
    ensures ReadField(Replaced(doc, c, v), field) == if field == c.field then v else ReadField(doc, field)
  {
    var after := Replaced(doc, c, v);
    if field == c.field {
      if v.Some? { ReadWrapped(after, c, v.value); } else { AtField(after, field, []); ReadMissing(after, field); }
    } else {
      SameRead(doc, after, field);
    }
  }

  lemma AtField(doc: Doc, field: string, below: seq<string>)
    ensures At(Object(doc), [field] + below) == if field in doc then At(doc[field], below) else Absent
  {
    assert ([field] + below)[1..] == below;
  }

  lemma ValueAt(doc: Doc, field: string, below: seq<string>)
    ensures JsonValue(doc, [field] + below) ==
            if field in doc && At(doc[field], below).Scalar? then Some(At(doc[field], below).text) else None
  {
    AtField(doc, field, below);
  }

  lemma ReadIs(doc: Doc, field: string)
    ensures ReadField(doc, field) == if field in doc then ReadWrapper(doc[field]) else None
  {
    ValueAt(doc, field, []);
    ValueAt(doc, field, ["$numberInt"]);
    ValueAt(doc, field, ["$numberLong"]);
    ValueAt(doc, field, ["$numberDouble"]);
    ValueAt(doc, field, ["$date", "$numberLong"]);
    ValueAt(doc, field, ["$oid"]);
    assert [field] + [] == [field];
    hide JsonValue, At;
  }

  function Text(v: Json): Option<string> {
    if v.Scalar? then Some(v.text) else None
  }

  function ReadWrapper(v: Json): Option<string> {
    Coalesce(Text(At(v, [])), Coalesce(Text(At(v, ["$numberInt"])), Coalesce(Text(At(v, ["$numberLong"])),
    Coalesce(Text(At(v, ["$numberDouble"])), Coalesce(Text(At(v, ["$date", "$numberLong"])), Text(At(v, ["$oid"])))))))
  }

  lemma ReadWrapped(doc: Doc, c: Column, text: string)
    requires c.field in doc && doc[c.field] == Wrapped(c.kind, text)
    ensures ReadField(doc, c.field) == Some(text)
  {
    ReadIs(doc, c.field);
    hide ReadField;
    var w := Wrapped(c.kind, text);
    assert At(w, []) == w;
    if w.Object? {
      assert forall k :: At(w, [k]) == if k in w.fields then At(w.fields[k], [k][1..]) else Absent;
      assert forall k, s :: k in w.fields && s == [] ==> At(w.fields[k], s) == w.fields[k];
    }
  }

  lemma ReadMissing(doc: Doc, field: string)
    requires field !in doc
    ensures ReadField(doc, field) == None
  {
    ReadIs(doc, field);
  }

  lemma SameRead(a: Doc, b: Doc, field: string)
    requires field in a <==> field in b
    requires field in a ==> a[field] == b[field]
    ensures ReadField(a, field) == ReadField(b, field)
  {
    ReadIs(a, field);
    ReadIs(b, field);
  }

  /** Where a value of each kind is written below its field. */
  function OwnPath(kind: Kind): seq<string> {
    match kind
    case IntKind => ["$numberInt"]
    case BigIntKind => ["$numberLong"]
    case DoubleKind => ["$numberDouble"]
    case TextKind => []
  }

  /** A written field keeps its column's type: its text is found where a value of that kind stands, and
      nowhere another kind would. */
  lemma KindKept(doc: Doc, c: Column, text: string, kind: Kind)
    ensures JsonValue(Replaced(doc, c, Some(text)), [c.field] + OwnPath(kind)) ==
            if kind == c.kind then Some(text) else None
  {
    var after, w := Replaced(doc, c, Some(text)), Wrapped(c.kind, text);
    ValueAt(after, c.field, OwnPath(kind));
    assert after[c.field] == w;
    if kind.TextKind? {
      assert At(w, []) == w;
    } else {
      var k := OwnPath(kind)[0];
      assert OwnPath(kind) == [k] && [k][1..] == [];
      assert At(w, [k]) == if w.Object? && k in w.fields then At(w.fields[k], []) else Absent;
      assert w.Object? && k in w.fields ==> At(w.fields[k], []) == w.fields[k];
      if kind != c.kind && !c.kind.TextKind? { KeysApart(kind, c.kind); }
    }
  }

  lemma KeysApart(a: Kind, b: Kind)
    requires !a.TextKind? && !b.TextKind? && a != b
    ensures OwnPath(a)[0] != OwnPath(b)[0]
  {
    var x, y := OwnPath(a)[0], OwnPath(b)[0];
    assert x[7] == (if a.IntKind? then 'I' else if a.BigIntKind? then 'L' else 'D');
    assert y[7] == (if b.IntKind? then 'I' else if b.BigIntKind? then 'L' else 'D');
  }

  /** The places below a field where its value may stand. */
  const PLACES: seq<seq<string>> :=
    [[], ["$numberInt"], ["$numberLong"], ["$numberDouble"], ["$date", "$numberLong"], ["$oid"]]

  function FirstReading(doc: Doc, field: string, places: seq<seq<string>>): Option<string> {
    if places == [] then None
    else Coalesce(JsonValue(doc, [field] + places[0]), FirstReading(doc, field, places[1..]))
  }

  lemma FirstStep(doc: Doc, field: string, places: seq<seq<string>>, k: nat)
    requires k < |places|
    ensures FirstReading(doc, field, places[k..]) ==
            Coalesce(JsonValue(doc, [field] + places[k]), FirstReading(doc, field, places[k + 1..]))
    ensures FirstReading(doc, field, places[|places|..]) == None
  {
    hide JsonValue, Coalesce;
    assert places[k..][1..] == places[k + 1..];
  }

  lemma InPlaces(doc: Doc, field: string, places: seq<seq<string>>)
    requires |places| == 6
    ensures FirstReading(doc, field, places) ==
            Coalesce(JsonValue(doc, [field] + places[0]), Coalesce(JsonValue(doc, [field] + places[1]),
            Coalesce(JsonValue(doc, [field] + places[2]), Coalesce(JsonValue(doc, [field] + places[3]),
            Coalesce(JsonValue(doc, [field] + places[4]), JsonValue(doc, [field] + places[5]))))))
  {
    assert places[0..] == places;
    FirstStep(doc, field, places, 0);
    FirstStep(doc, field, places, 1);
    FirstStep(doc, field, places, 2);
    FirstStep(doc, field, places, 3);
    FirstStep(doc, field, places, 4);
    FirstStep(doc, field, places, 5);
    hide JsonValue, FirstReading;
  }

  /** A column reads its field in the places, and in the order, … */
  lemma ReadsInPlaces(doc: Doc, field: string, places: seq<seq<string>>)
    requires places == PLACES
    ensures ReadField(doc, field) == FirstReading(doc, field, places)
  {
    hide FirstReading, JsonValue, Coalesce;
    InPlaces(doc, field, places);
    assert [field] + places[0] == [field];
    assert [field] + places[1] == [field, "$numberInt"];
    assert [field] + places[2] == [field, "$numberLong"];
    assert [field] + places[3] == [field, "$numberDouble"];
    assert [field] + places[4] == [field, "$date", "$numberLong"];
    assert [field] + places[5] == [field, "$oid"];
  }

  /** … that a filter on the field names. */
  lemma FiltersReadThere(places: seq<seq<string>>)
    requires places == PLACES
    ensures |places| == |Filter.WRAPPERS|
    ensures forall k :: 0 <= k < |places| ==> Filter.WRAPPERS[k] == Filter.Members(places[k])
  {
    hide Filter.Members;
    PlainPlaces(places);
    NoMember(places[0]);
    TwoMembers("$date", "$numberLong", places[4]);
  }

  lemma PlainPlaces(places: seq<seq<string>>)
    requires places == PLACES
    ensures forall k :: k in {1, 2, 3, 5} ==> Filter.WRAPPERS[k] == Filter.Members(places[k])
  {
    hide Filter.Members;
    OneMember("$numberInt", places[1]);
    OneMember("$numberLong", places[2]);
    OneMember("$numberDouble", places[3]);
    OneMember("$oid", places[5]);
  }

  predicate Unescaped(name: string) {
    forall i :: 0 <= i < |name| ==> name[i] != '"' && name[i] != '\\'
  }

  lemma {:induction false} NamePlain(name: string)
    requires Unescaped(name)
    ensures Filter.Escaped(name) == name
  {
    if name != [] {
      NamePlain(name[1..]);
      assert name == [name[0]] + name[1..];
    }
  }

  lemma NoMember(place: seq<string>)
    requires place == []
    ensures Filter.Members(place) == ""
  {
  }

  lemma OneMember(name: string, place: seq<string>)
    requires place == [name] && Unescaped(name)
    ensures Filter.Members(place) == ".\"" + name + "\""
  {
    NamePlain(name);
    hide Filter.Escaped;
    assert place[1..] == [];
    NoMember(place[1..]);
  }

  lemma TwoMembers(name: string, below: string, place: seq<string>)
    requires place == [name, below] && Unescaped(name) && Unescaped(below)
    ensures Filter.Members(place) == ".\"" + name + "\"" + (".\"" + below + "\"")
  {
    NamePlain(name);
    OneMember(below, place[1..]);
    hide Filter.Escaped;
  }

  /** Without the removal, merging a new wrapper into an old one leaves both. */
  lemma PatchAloneKeepsOldWrapper()
    ensures var doc := map["qty" := Object(map["$numberInt" := Scalar("1")])];
            var merged := MergePatch(Object(doc), Object(map["qty" := Wrapped(DoubleKind, "2.5")]));
            merged.fields["qty"].fields.Keys == {"$numberInt", "$numberDouble"} &&
            ReadField(merged.fields, "qty") == Some("1")
  {
    var doc := map["qty" := Object(map["$numberInt" := Scalar("1")])];
    var patch := Wrapped(DoubleKind, "2.5");
    var both := Object(map["$numberInt" := Scalar("1"), "$numberDouble" := Scalar("2.5")]);
    BothWrappers();
    var merged := MergePatch(Object(doc), Object(map["qty" := patch])).fields;
    assert merged == map["qty" := both];
    hide ReadField;
    FirstWrapperRead(merged, both);
  }

  lemma BothWrappers()
    ensures MergePatch(Object(map["$numberInt" := Scalar("1")]), Wrapped(DoubleKind, "2.5")) ==
            Object(map["$numberInt" := Scalar("1"), "$numberDouble" := Scalar("2.5")])
  {
    var merged := MergePatch(Object(map["$numberInt" := Scalar("1")]), Wrapped(DoubleKind, "2.5"));
    assert merged.fields == map["$numberInt" := Scalar("1"), "$numberDouble" := Scalar("2.5")];
  }

  lemma FirstWrapperRead(doc: Doc, both: Json)
    requires both == Object(map["$numberInt" := Scalar("1"), "$numberDouble" := Scalar("2.5")])
    requires doc == map["qty" := both]
    ensures ReadField(doc, "qty") == Some("1")
  {
    hide ReadField;
    ReadIs(doc, "qty");
    assert At(both, ["$numberInt"]) == At(Scalar("1"), ["$numberInt"][1..]);
  }

  // ---------------------------------------------------------------- the triggers

  predicate Fits(cs: seq<Column>, row: Row) {
    forall i :: 0 <= i < |cs| ==> cs[i].name in row.columns
  }

  /** On INSERT a column that was given a value wins over the document. */
  function BeforeInsert(c: Column, row: Row): Row
    requires c.name in row.columns
  {
    if row.columns[c.name].Some? then row.(doc := WriteField(row.doc, c, row.columns[c.name]))
    else row.(columns := row.columns[c.name := ReadRow(row.doc, c.field)])
  }

  /** On UPDATE a column that changed wins over the document. */
  function BeforeUpdate(c: Column, was: Row, row: Row): Row
    requires c.name in row.columns && c.name in was.columns
  {
    if row.columns[c.name] != was.columns[c.name] then row.(doc := WriteField(row.doc, c, row.columns[c.name]))
    else row.(columns := row.columns[c.name := ReadRow(row.doc, c.field)])
  }

  /** An insert is an update of a row whose columns are all NULL. */
  function Blank(row: Row): Row {
    row.(columns := map name | name in row.columns :: None)
  }

  lemma InsertIsUpdate(c: Column, row: Row, was: Row)
    requires c.name in row.columns && c.name in was.columns && was.columns[c.name] == None
    ensures BeforeInsert(c, row) == BeforeUpdate(c, was, row)
  {
  }

  function Fire(cs: seq<Column>, was: Row, row: Row): Row
    requires Fits(cs, was) && Fits(cs, row)
    decreases |cs|
  {
    if cs == [] then row else Fire(cs[1..], was, BeforeUpdate(cs[0], was, row))
  }

  predicate Apart(cs: seq<Column>) {
    forall i, j :: 0 <= i < j < |cs| ==> cs[i].name != cs[j].name && cs[i].field != cs[j].field
  }

  predicate Changed(c: Column, was: Row, row: Row)
    requires c.name in row.columns && c.name in was.columns
  {
    row.columns[c.name] != was.columns[c.name]
  }

  /** A numeric column set to NULL makes the document NULL, which its column does not allow. */
  predicate Refuses(c: Column, was: Row, row: Row)
    requires c.name in row.columns && c.name in was.columns
  {
    Changed(c, was, row) && row.columns[c.name].None? && !c.kind.TextKind?
  }

  /** What a trigger does to its own column and to each field. */
  lemma FireOne(c: Column, was: Row, row: Row)
    requires c.name in row.columns && c.name in was.columns && row.doc.Some?
    ensures var out := BeforeUpdate(c, was, row);
            out.doc.None? <==> Refuses(c, was, row)
    ensures var out := BeforeUpdate(c, was, row);
            out.doc.Some? ==>
              out.columns == row.columns[c.name := if Changed(c, was, row) then row.columns[c.name]
                                                   else ReadField(row.doc.value, c.field)] &&
              out.doc.value == (if Changed(c, was, row) then Replaced(row.doc.value, c, row.columns[c.name])
                                else row.doc.value)
  {
    WriteReplaces(row.doc.value, c, row.columns[c.name]);
    hide ReadField;
    assert row.columns == row.columns[c.name := row.columns[c.name]];
  }

  /** The row that comes out of all triggers, said without firing any of them. */
  ghost predicate Outcome(cs: seq<Column>, was: Row, row: Row, out: Row)
    requires Fits(cs, was) && Fits(cs, row) && row.doc.Some? && out.doc.Some?
  {
    out.columns.Keys == row.columns.Keys &&
    (forall i :: 0 <= i < |cs| ==> ColumnAfter(cs[i], was, row, out)) &&
    (forall name :: name in row.columns && (forall i :: 0 <= i < |cs| ==> cs[i].name != name) ==>
       out.columns[name] == row.columns[name]) &&
    (forall i :: 0 <= i < |cs| ==> FieldAfter(cs[i], was, row, out)) &&
    (forall f :: (forall i :: 0 <= i < |cs| ==> cs[i].field != f) ==> SameField(row.doc.value, out.doc.value, f))
  }

  predicate SameField(a: Doc, b: Doc, f: string) {
    (f in a <==> f in b) && (f in a ==> a[f] == b[f])
  }

  /** A changed column's field holds its wrapped value alone, or is gone; another's is untouched. */
  predicate FieldAfter(c: Column, was: Row, row: Row, out: Row)
    requires c.name in was.columns && c.name in row.columns && row.doc.Some? && out.doc.Some?
  {
    SameField(if Changed(c, was, row) then Replaced(row.doc.value, c, row.columns[c.name]) else row.doc.value,
              out.doc.value, c.field)
  }

  lemma {:induction false} FireNull(cs: seq<Column>, was: Row, row: Row)
    requires Fits(cs, was) && Fits(cs, row) && row.doc.None?
    ensures Fire(cs, was, row).doc.None?
    decreases |cs|
  {
    if cs != [] { FireNull(cs[1..], was, BeforeUpdate(cs[0], was, row)); }
  }

  /** All triggers together, in whatever order they fire: the row is refused exactly when a numeric
      column was set to NULL, and otherwise comes out as Outcome says. */
  lemma {:induction false} FireAll(cs: seq<Column>, was: Row, row: Row)
    requires Fits(cs, was) && Fits(cs, row) && Apart(cs) && row.doc.Some?
    ensures Fire(cs, was, row).doc.None? <==> exists i :: 0 <= i < |cs| && Refuses(cs[i], was, row)
    ensures Fire(cs, was, row).doc.Some? ==> Outcome(cs, was, row, Fire(cs, was, row))
    decreases |cs|
  {
    if cs != [] {
      var c, rest := cs[0], cs[1..];
      var next := BeforeUpdate(c, was, row);
      FireOne(c, was, row);
      if next.doc.None? {
        FireNull(rest, was, next);
        assert Refuses(cs[0], was, row);
      } else {
        FireAll(rest, was, next);
        hide ReadField, BeforeUpdate, WriteField, Outcome;
        RestRefuses(cs, was, row, next);
        if Fire(cs, was, row).doc.Some? { CombineOutcome(cs, was, row, next, Fire(cs, was, row)); }
      }
    }
  }

  /** The triggers after the first see the columns they watch as the first did. */
  lemma RestRefuses(cs: seq<Column>, was: Row, row: Row, next: Row)
    requires cs != [] && Fits(cs, was) && Fits(cs, row) && Apart(cs) && Fits(cs[1..], next)
    requires forall name :: name in row.columns && name != cs[0].name ==>
               name in next.columns && next.columns[name] == row.columns[name]
    requires !Refuses(cs[0], was, row)
    ensures (exists i :: 0 <= i < |cs| && Refuses(cs[i], was, row)) <==>
            (exists i :: 0 <= i < |cs[1..]| && Refuses(cs[1..][i], was, next))
  {
    var rest := cs[1..];
    assert forall i :: 0 <= i < |rest| ==> rest[i] == cs[i + 1] && rest[i].name != cs[0].name;
    forall i | 0 <= i < |rest| ensures Refuses(rest[i], was, next) == Refuses(cs[i + 1], was, row) {
    }
    hide Refuses, Apart;
    if i :| 0 <= i < |cs| && Refuses(cs[i], was, row) {
      assert Refuses(rest[i - 1], was, next);
    }
    if i :| 0 <= i < |rest| && Refuses(rest[i], was, next) {
      assert Refuses(cs[i + 1], was, row);
    }
  }

  lemma CombineOutcome(cs: seq<Column>, was: Row, row: Row, next: Row, out: Row)
    requires cs != [] && Fits(cs, was) && Fits(cs, row) && Apart(cs) && row.doc.Some? && next.doc.Some? && out.doc.Some?
    requires next == BeforeUpdate(cs[0], was, row) && Fits(cs[1..], next) && Outcome(cs[1..], was, next, out)
    ensures Outcome(cs, was, row, out)
  {
    var c, rest := cs[0], cs[1..];
    FireOne(c, was, row);
    assert Moves(c, was, row, next);
    hide ReadField, BeforeUpdate, Refuses, Apart, Replaced;
    RestIsApart(cs);
    FirstColumn(cs, was, row, next, out);
    forall i | 0 <= i < |cs| ensures ColumnAfter(cs[i], was, row, out) && FieldAfter(cs[i], was, row, out) {
      if i > 0 {
        assert cs[i] == rest[i - 1];
        LaterColumn(cs, was, row, next, out, i);
      }
    }
    OtherFields(cs, was, row, next, out);
    OtherColumns(cs, was, row, next, out);
    hide FieldAfter, SameField, Moves;
  }

  lemma OtherFields(cs: seq<Column>, was: Row, row: Row, next: Row, out: Row)
    requires cs != [] && Fits(cs, was) && Fits(cs, row) && row.doc.Some? && next.doc.Some? && out.doc.Some?
    requires Moves(cs[0], was, row, next) && Fits(cs[1..], next) && Outcome(cs[1..], was, next, out)
    ensures forall f :: (forall i :: 0 <= i < |cs| ==> cs[i].field != f) ==> SameField(row.doc.value, out.doc.value, f)
  {
    hide ReadField, Replaced;
    forall f | forall i :: 0 <= i < |cs| ==> cs[i].field != f ensures SameField(row.doc.value, out.doc.value, f) {
      assert cs[0].field != f && forall i :: 0 <= i < |cs[1..]| ==> cs[1..][i] == cs[i + 1];
      assert SameField(row.doc.value, next.doc.value, f) && SameField(next.doc.value, out.doc.value, f);
    }
  }

  lemma OtherColumns(cs: seq<Column>, was: Row, row: Row, next: Row, out: Row)
    requires cs != [] && Fits(cs, was) && Fits(cs, row) && row.doc.Some? && next.doc.Some? && out.doc.Some?
    requires Moves(cs[0], was, row, next) && Fits(cs[1..], next) && Outcome(cs[1..], was, next, out)
    ensures out.columns.Keys == row.columns.Keys
    ensures forall name :: name in row.columns && (forall i :: 0 <= i < |cs| ==> cs[i].name != name) ==>
              out.columns[name] == row.columns[name]
  {
    hide ReadField, Replaced;
    forall name | name in row.columns && forall i :: 0 <= i < |cs| ==> cs[i].name != name
      ensures out.columns[name] == row.columns[name]
    {
      assert cs[0].name != name && name in next.columns;
      assert forall i :: 0 <= i < |cs[1..]| ==> cs[1..][i] == cs[i + 1];
    }
  }

  /** One trigger's move, on columns and fields. */
  ghost predicate Moves(c: Column, was: Row, row: Row, next: Row)
    requires c.name in row.columns && c.name in was.columns && row.doc.Some? && next.doc.Some?
  {
    && next.columns == row.columns[c.name := if Changed(c, was, row) then row.columns[c.name]
                                             else ReadField(row.doc.value, c.field)]
    && next.doc.value == (if Changed(c, was, row) then Replaced(row.doc.value, c, row.columns[c.name])
                          else row.doc.value)
    && (forall f :: f != c.field ==> SameField(row.doc.value, next.doc.value, f))
  }

  predicate ColumnAfter(c: Column, was: Row, row: Row, out: Row)
    requires c.name in was.columns && c.name in row.columns && row.doc.Some?
  {
    c.name in out.columns &&
    out.columns[c.name] == if Changed(c, was, row) then row.columns[c.name] else ReadField(row.doc.value, c.field)
  }

  lemma RestIsApart(cs: seq<Column>)
    requires cs != [] && Apart(cs)
    ensures forall i :: 0 < i < |cs| ==> cs[i].name != cs[0].name && cs[i].field != cs[0].field
  {
  }

  lemma FirstColumn(cs: seq<Column>, was: Row, row: Row, next: Row, out: Row)
    requires cs != [] && Fits(cs, was) && Fits(cs, row) && row.doc.Some? && next.doc.Some? && out.doc.Some?
    requires forall i :: 0 < i < |cs| ==> cs[i].name != cs[0].name && cs[i].field != cs[0].field
    requires Moves(cs[0], was, row, next) && Fits(cs[1..], next) && Outcome(cs[1..], was, next, out)
    ensures ColumnAfter(cs[0], was, row, out) && FieldAfter(cs[0], was, row, out)
  {
    hide ReadField, Replaced;
    var c, rest := cs[0], cs[1..];
    assert forall i :: 0 <= i < |rest| ==> rest[i] == cs[i + 1] && rest[i].name != c.name && rest[i].field != c.field;
    assert SameField(next.doc.value, out.doc.value, c.field);
  }

  lemma LaterColumn(cs: seq<Column>, was: Row, row: Row, next: Row, out: Row, i: nat)
    requires cs != [] && Fits(cs, was) && Fits(cs, row) && row.doc.Some? && next.doc.Some? && out.doc.Some?
    requires Moves(cs[0], was, row, next) && Fits(cs[1..], next) && Outcome(cs[1..], was, next, out)
    requires 0 < i < |cs| && cs[i].name != cs[0].name && cs[i].field != cs[0].field
    ensures ColumnAfter(cs[i], was, row, out) && FieldAfter(cs[i], was, row, out)
  {
    hide ReadField;
    var d, rest := cs[i], cs[1..];
    assert d == rest[i - 1];
    assert SameField(row.doc.value, next.doc.value, d.field);
    SameRead(row.doc.value, next.doc.value, d.field);
    assert FieldAfter(d, was, next, out);
  }

  predicate Synced(c: Column, row: Row) {
    row.doc.Some? && c.name in row.columns && row.columns[c.name] == ReadField(row.doc.value, c.field)
  }

  lemma OutcomeSynced(cs: seq<Column>, was: Row, row: Row, out: Row, i: nat)
    requires Fits(cs, was) && Fits(cs, row) && row.doc.Some? && out.doc.Some? && Outcome(cs, was, row, out) && i < |cs|
    ensures Synced(cs[i], out)
  {
    var c := cs[i];
    hide ReadField;
    assert FieldAfter(c, was, row, out);
    if Changed(c, was, row) {
      var v := row.columns[c.name];
      ReadReplaced(row.doc.value, c, v, c.field);
      SameRead(Replaced(row.doc.value, c, v), out.doc.value, c.field);
    } else {
      SameRead(row.doc.value, out.doc.value, c.field);
    }
  }

  /** Every accepted update leaves every projected column equal to its field of the document. */
  lemma UpdateSyncs(cs: seq<Column>, was: Row, row: Row)
    requires Fits(cs, was) && Fits(cs, row) && Apart(cs) && row.doc.Some? && Fire(cs, was, row).doc.Some?
    ensures forall i :: 0 <= i < |cs| ==> Synced(cs[i], Fire(cs, was, row))
  {
    FireAll(cs, was, row);
    forall i | 0 <= i < |cs| ensures Synced(cs[i], Fire(cs, was, row)) {
      OutcomeSynced(cs, was, row, Fire(cs, was, row), i);
    }
  }

  /** The order in which the triggers fire makes no difference. */
  lemma OrderIrrelevant(cs: seq<Column>, ds: seq<Column>, was: Row, row: Row)
    requires Fits(cs, was) && Fits(cs, row) && Apart(cs) && Apart(ds) && row.doc.Some?
    requires forall c :: c in cs <==> c in ds
    ensures Fits(ds, was) && Fits(ds, row)
    ensures Fire(cs, was, row).doc.None? <==> Fire(ds, was, row).doc.None?
    ensures Fire(cs, was, row).doc.Some? ==> Fire(cs, was, row) == Fire(ds, was, row)
  {
    assert forall i :: 0 <= i < |ds| ==> ds[i] in cs;
    assert forall i :: 0 <= i < |cs| ==> cs[i] in ds;
    FireAll(cs, was, row);
    FireAll(ds, was, row);
    hide Refuses;
    assert (exists i :: 0 <= i < |cs| && Refuses(cs[i], was, row)) <==>
           (exists i :: 0 <= i < |ds| && Refuses(ds[i], was, row)) by {
      SameRefusals(cs, ds, was, row);
      SameRefusals(ds, cs, was, row);
    }
    if Fire(cs, was, row).doc.Some? { OneOutcome(cs, ds, was, row, Fire(cs, was, row), Fire(ds, was, row)); }
  }

  lemma SameRefusals(cs: seq<Column>, ds: seq<Column>, was: Row, row: Row)
    requires Fits(cs, was) && Fits(cs, row) && Fits(ds, was) && Fits(ds, row) && forall c :: c in cs ==> c in ds
    ensures (exists i :: 0 <= i < |cs| && Refuses(cs[i], was, row)) ==>
              exists i :: 0 <= i < |ds| && Refuses(ds[i], was, row)
  {
    hide Refuses;
    if i :| 0 <= i < |cs| && Refuses(cs[i], was, row) {
      assert cs[i] in ds;
      var j :| 0 <= j < |ds| && ds[j] == cs[i];
    }
  }

  lemma OneOutcome(cs: seq<Column>, ds: seq<Column>, was: Row, row: Row, a: Row, b: Row)
    requires Fits(cs, was) && Fits(cs, row) && Fits(ds, was) && Fits(ds, row)
    requires forall c :: c in cs <==> c in ds
    requires row.doc.Some? && a.doc.Some? && b.doc.Some? && Outcome(cs, was, row, a) && Outcome(ds, was, row, b)
    ensures a == b
  {
    hide ReadField, Replaced;
    forall name | name in row.columns ensures a.columns[name] == b.columns[name] {
      if i :| 0 <= i < |cs| && cs[i].name == name {
        assert cs[i] in ds;
        var j :| 0 <= j < |ds| && ds[j] == cs[i];
      } else {
        assert forall j :: 0 <= j < |ds| ==> ds[j] in cs;
        assert forall j :: 0 <= j < |ds| ==> ds[j].name != name;
      }
    }
    assert a.columns == b.columns;
    forall f ensures SameField(a.doc.value, b.doc.value, f) {
      if i :| 0 <= i < |cs| && cs[i].field == f {
        assert cs[i] in ds;
        var j :| 0 <= j < |ds| && ds[j] == cs[i];
        assert FieldAfter(cs[i], was, row, a) && FieldAfter(ds[j], was, row, b);
      } else {
        assert forall j :: 0 <= j < |ds| ==> ds[j] in cs;
        assert forall j :: 0 <= j < |ds| ==> ds[j].field != f;
        assert SameField(row.doc.value, a.doc.value, f) && SameField(row.doc.value, b.doc.value, f);
      }
    }
    assert a.doc.value.Keys == b.doc.value.Keys by {
      forall f ensures f in a.doc.value <==> f in b.doc.value { assert SameField(a.doc.value, b.doc.value, f); }
    }
    forall f | f in a.doc.value ensures a.doc.value[f] == b.doc.value[f] {
      assert SameField(a.doc.value, b.doc.value, f);
    }
    assert a.doc.value == b.doc.value;
  }

  /** A write that changes no column leaves the document alone; one that changes only columns
      leaves every field that is not theirs alone. */
  lemma WritesOnlyItsFields(cs: seq<Column>, was: Row, row: Row, f: string)
    requires Fits(cs, was) && Fits(cs, row) && Apart(cs) && row.doc.Some? && Fire(cs, was, row).doc.Some?
    requires forall i :: 0 <= i < |cs| ==> cs[i].field == f ==> !Changed(cs[i], was, row)
    ensures SameField(row.doc.value, Fire(cs, was, row).doc.value, f)
  {
    FireAll(cs, was, row);
    var out := Fire(cs, was, row);
    hide ReadField, Fire;
    if i :| 0 <= i < |cs| && cs[i].field == f {
      assert FieldAfter(cs[i], was, row, out);
    } else {
    }
  }

  /** When one statement changes both, the column wins. */
  lemma ColumnWins(cs: seq<Column>, was: Row, row: Row, i: nat)
    requires Fits(cs, was) && Fits(cs, row) && Apart(cs) && row.doc.Some? && Fire(cs, was, row).doc.Some?
    requires i < |cs| && Changed(cs[i], was, row)
    ensures var out := Fire(cs, was, row);
            cs[i].name in out.columns &&
            out.columns[cs[i].name] == row.columns[cs[i].name] == ReadField(out.doc.value, cs[i].field)
  {
    FireAll(cs, was, row);
    OutcomeSynced(cs, was, row, Fire(cs, was, row), i);
  }

  /** Only the trigger's own column and its own field are touched. */
  ghost predicate OnlyTouches(c: Column, row: Row, out: Row) {
    && out.columns.Keys == row.columns.Keys
    && (forall name :: name in row.columns && name != c.name ==> out.columns[name] == row.columns[name])
    && (row.doc.Some? && out.doc.Some? ==> forall f :: f != c.field ==> SameField(row.doc.value, out.doc.value, f))
  }

  /** What one trigger is for: its column and its field agree afterwards, the side that was written
      is left as it is, and nothing else moves. */
  lemma OneTrigger(c: Column, was: Row, row: Row)
    requires c.name in row.columns && c.name in was.columns
    ensures var out := BeforeUpdate(c, was, row);
            && OnlyTouches(c, row, out)
            && (out.doc.None? <==> row.doc.None? || Refuses(c, was, row))
            && (out.doc.Some? ==> Synced(c, out))
            && (if Changed(c, was, row) then out.columns == row.columns else out.doc == row.doc)
  {
    var out := BeforeUpdate(c, was, row);
    if row.doc.Some? {
      FireOne(c, was, row);
      if Changed(c, was, row) { ReadReplaced(row.doc.value, c, row.columns[c.name], c.field); }
      hide ReadField, BeforeUpdate, WriteField;
      assert out.doc.Some? ==> forall f :: f != c.field ==> SameField(row.doc.value, out.doc.value, f);
    }
  }

  // ---------------------------------------------------------------- triggers working in place

  /** NEW, while the triggers of a statement work on it. */
  class NewRow {
    var doc: Option<Doc>
    var columns: map<string, Option<string>>

    constructor (row: Row)
      ensures State() == row
    {
      doc, columns := row.doc, row.columns;
    }

    function State(): Row
      reads this
    {
      Row(doc, columns)
    }

    /** The BEFORE INSERT trigger of one column. */
    method OnInsert(c: Column)
      requires c.name in columns
      modifies this
      ensures OnlyTouches(c, old(State()), State())
      ensures doc.None? <==> old(doc).None?
      ensures doc.Some? ==> Synced(c, State())
      ensures if old(columns)[c.name].Some? then columns == old(columns) else doc == old(doc)
      ensures State() == BeforeInsert(c, old(State()))
    {
      InsertIsUpdate(c, State(), Blank(State()));
      OneTrigger(c, Blank(State()), State());
      hide ReadField, WriteField, OnlyTouches, Synced;
      if columns[c.name].Some? {
        doc := WriteField(doc, c, columns[c.name]);
      } else {
        columns := columns[c.name := ReadRow(doc, c.field)];
      }
    }

    /** The BEFORE UPDATE trigger of one column; was is OLD. */
    method OnUpdate(c: Column, was: Row)
      requires c.name in columns && c.name in was.columns
      modifies this
      ensures OnlyTouches(c, old(State()), State())
      ensures doc.None? <==> old(doc).None? || Refuses(c, was, old(State()))
      ensures doc.Some? ==> Synced(c, State())
      ensures if Changed(c, was, old(State())) then columns == old(columns) else doc == old(doc)
      ensures State() == BeforeUpdate(c, was, old(State()))
    {
      OneTrigger(c, was, State());
      hide ReadField, WriteField, OnlyTouches, Synced;
      if columns[c.name] != was.columns[c.name] {
        doc := WriteField(doc, c, columns[c.name]);
      } else {
        columns := columns[c.name := ReadRow(doc, c.field)];
      }
    }
  }

  /** A trigger is known by the first 20 characters of its column's name. */
  function Stem(name: string): string {
    if |name| <= 20 then name else name[..20]
  }

  function Without(triggers: seq<Column>, stem: string): seq<Column> {
    if triggers == [] then []
    else (if Stem(triggers[0].name) == stem then [] else [triggers[0]]) + Without(triggers[1..], stem)
  }

  lemma {:induction false} WithoutMembers(triggers: seq<Column>, stem: string, c: Column)
    ensures c in Without(triggers, stem) <==> c in triggers && Stem(c.name) != stem
  {
    if triggers != [] { WithoutMembers(triggers[1..], stem, c); }
  }

  predicate OwnNames(cs: seq<Column>) {
    forall i, j :: 0 <= i < j < |cs| ==> cs[i].name != cs[j].name
  }

  lemma {:induction false} WithoutApart(triggers: seq<Column>, stem: string)
    requires OwnNames(triggers)
    ensures OwnNames(Without(triggers, stem))
    ensures Apart(triggers) ==> Apart(Without(triggers, stem))
  {
    if triggers != [] {
      var rest := Without(triggers[1..], stem);
      TailApart(triggers);
      assert Without(triggers, stem) == rest || Without(triggers, stem) == [triggers[0]] + rest;
      hide OwnNames, Apart, Stem, Without;
      WithoutApart(triggers[1..], stem);
      forall c | c in rest
        ensures c.name != triggers[0].name && (Apart(triggers) ==> c.field != triggers[0].field)
      {
        WithoutMembers(triggers[1..], stem, c);
        OthersDiffer(triggers, c);
      }
      FirstApart(triggers[0], rest);
    }
  }

  lemma TailApart(triggers: seq<Column>)
    requires triggers != []
    ensures OwnNames(triggers) ==> OwnNames(triggers[1..])
    ensures Apart(triggers) ==> Apart(triggers[1..])
  {
  }

  lemma FirstApart(c: Column, rest: seq<Column>)
    requires OwnNames(rest) && forall d :: d in rest ==> d.name != c.name
    ensures OwnNames([c] + rest)
    ensures Apart(rest) && (forall d :: d in rest ==> d.field != c.field) ==> Apart([c] + rest)
  {
    assert forall i :: 0 <= i < |rest| ==> rest[i] in rest;
  }

  lemma OthersDiffer(triggers: seq<Column>, c: Column)
    requires triggers != [] && OwnNames(triggers) && c in triggers[1..]
    ensures c.name != triggers[0].name && (Apart(triggers) ==> c.field != triggers[0].field)
  {
    var j :| 0 <= j < |triggers[1..]| && triggers[1..][j] == c;
    assert triggers[j + 1] == c;
  }

  lemma AddedApart(triggers: seq<Column>, c: Column)
    requires OwnNames(triggers) && forall d :: d in triggers ==> d.name != c.name
    ensures OwnNames(AfterAdding(triggers, c))
    ensures forall d :: d in AfterAdding(triggers, c) ==> d == c || d in triggers
    ensures Apart(triggers) && (forall d :: d in AfterAdding(triggers, c) && d != c ==> d.field != c.field) ==>
              Apart(AfterAdding(triggers, c))
  {
    hide OwnNames, Apart, Without, Stem;
    var kept := Without(triggers, Stem(c.name));
    WithoutApart(triggers, Stem(c.name));
    forall d ensures d in kept ==> d in triggers { WithoutMembers(triggers, Stem(c.name), d); }
    assert AfterAdding(triggers, c) == kept + [c];
    LastApart(kept, c);
  }

  lemma LastApart(rest: seq<Column>, c: Column)
    requires OwnNames(rest) && forall d :: d in rest ==> d.name != c.name
    ensures OwnNames(rest + [c])
    ensures Apart(rest) && (forall d :: d in rest ==> d.field != c.field) ==> Apart(rest + [c])
  {
    assert forall i :: 0 <= i < |rest| ==> rest[i] in rest;
  }

  /** One collection's table. */
  class Table {
    var rows: seq<Row>
    var names: set<string>
    var triggers: seq<Column>
    /** No projection so far was of a field another live trigger watches. */
    ghost var apart: bool

    ghost predicate Valid()
      reads this
    {
      (forall r :: r in rows ==> r.doc.Some? && r.columns.Keys == names) &&
      (forall c :: c in triggers ==> c.name in names) && OwnNames(triggers) &&
      (apart ==> Apart(triggers) && forall r, c :: r in rows && c in triggers ==> Synced(c, r))
    }

    constructor ()
      ensures Valid() && apart && rows == [] && names == {} && triggers == []
    {
      rows, names, triggers, apart := [], {}, [], true;
    }

    /** INSERT: columns not given a value are NULL. */
    method Insert(doc: Doc, given: map<string, Option<string>>) returns (ok: bool)
      requires Valid() && given.Keys == names
      modifies this`rows
      ensures Valid()
      ensures var out := Fire(triggers, Blank(Row(Some(doc), given)), Row(Some(doc), given));
              ok == out.doc.Some? && rows == old(rows) + (if ok then [out] else [])
    {
      var start := Row(Some(doc), given);
      ghost var was := Blank(start);
      var new_ := new NewRow(start);
      for i := 0 to |triggers|
        modifies new_
        invariant new_.columns.Keys == names
        invariant Fire(triggers, was, start) == Fire(triggers[i..], was, new_.State())
      {
        assert triggers[i] in triggers && triggers[i..][0] == triggers[i] && triggers[i..][1..] == triggers[i + 1..];
        InsertIsUpdate(triggers[i], new_.State(), was);
        new_.OnInsert(triggers[i]);
      }
      ok := new_.doc.Some?;
      if ok {
        if apart { UpdateSyncs(triggers, was, start); }
        rows := rows + [new_.State()];
      }
    }

    /** UPDATE of one row, whichever of the document and the columns it assigns. */
    method Update(k: nat, row: Row) returns (ok: bool)
      requires Valid() && k < |rows| && row.doc.Some? && row.columns.Keys == names
      modifies this`rows
      ensures Valid() && Fits(triggers, old(rows)[k]) && Fits(triggers, row)
      ensures var out := Fire(triggers, old(rows)[k], row);
              ok == out.doc.Some? && rows == if ok then old(rows)[k := out] else old(rows)
    {
      var was := rows[k];
      var new_ := new NewRow(row);
      for i := 0 to |triggers|
        modifies new_
        invariant new_.columns.Keys == names
        invariant Fire(triggers, was, row) == Fire(triggers[i..], was, new_.State())
      {
        assert triggers[i] in triggers && triggers[i..][0] == triggers[i] && triggers[i..][1..] == triggers[i + 1..];
        new_.OnUpdate(triggers[i], was);
      }
      ok := new_.doc.Some?;
      if ok {
        if apart { UpdateSyncs(triggers, was, row); }
        rows := rows[k := new_.State()];
      }
    }

    /** chimera_add_projection: the column is added and filled in from the rows' documents, and its
        triggers replace those of the same stem. */
    method AddProjection(c: Column) returns (ok: bool)
      requires Valid()
      modifies this
      ensures Valid()
      ensures ok == (c.name !in old(names))
      ensures !ok ==> rows == old(rows) && names == old(names) && triggers == old(triggers) && apart == old(apart)
      ensures ok ==>
                names == old(names) + {c.name} && triggers == AfterAdding(old(triggers), c) &&
                apart == (old(apart) && forall d :: d in triggers && d != c ==> d.field != c.field) &&
                |rows| == |old(rows)| && forall k :: 0 <= k < |rows| ==> rows[k].doc == old(rows)[k].doc
    {
      hide Stem, Without, ReadField, WriteField;
      if c.name in names { return false; }
      var filled: seq<Row> := [];
      for k := 0 to |rows|
        modifies {}
        invariant |filled| == k
        invariant forall i :: 0 <= i < k ==>
          filled[i].doc == rows[i].doc && filled[i].doc.Some? && filled[i].columns.Keys == names + {c.name} &&
          (apart ==> Synced(c, filled[i]) && forall d :: d in triggers ==> Synced(d, filled[i]))
      {
        assert rows[k] in rows;
        var out := BackfillRow(rows[k], c);
        filled := filled + [out];
      }
      rows, names := filled, names + {c.name};
      AddedApart(triggers, c);
      triggers := Without(triggers, Stem(c.name)) + [c];
      apart := apart && forall d :: d in triggers && d != c ==> d.field != c.field;
      ok := true;
    }

    /** The new column, NULL so far, is set from the document while the other triggers fire. */
    method BackfillRow(row: Row, c: Column) returns (out: Row)
      requires row.doc.Some? && c.name !in row.columns && OwnNames(triggers)
      requires forall d :: d in triggers ==> d.name in row.columns
      ensures out.doc == row.doc && out.columns.Keys == row.columns.Keys + {c.name}
      ensures Apart(triggers) ==> Synced(c, out) && forall d :: d in triggers ==> Synced(d, out)
    {
      var was := row.(columns := row.columns[c.name := None]);
      var start := row.(columns := row.columns[c.name := ReadRow(row.doc, c.field)]);
      var new_ := new NewRow(start);
      assert Fits(triggers, was) && Fits(triggers, start);
      for i := 0 to |triggers|
        modifies new_
        invariant new_.columns.Keys == start.columns.Keys
        invariant Fire(triggers, was, start) == Fire(triggers[i..], was, new_.State())
      {
        assert triggers[i..][0] == triggers[i] && triggers[i..][1..] == triggers[i + 1..];
        new_.OnUpdate(triggers[i], was);
      }
      out := new_.State();
      hide ReadField, Fire;
      FireUnchanged(triggers, was, start);
      if Apart(triggers) {
        UpdateSyncs(triggers, was, start);
        FireAll(triggers, was, start);
      }
    }
  }

  lemma {:induction false} FireUnchanged(cs: seq<Column>, was: Row, row: Row)
    requires Fits(cs, was) && Fits(cs, row) && OwnNames(cs) && row.doc.Some?
    requires forall i :: 0 <= i < |cs| ==> !Changed(cs[i], was, row)
    ensures Fire(cs, was, row).doc == row.doc
    decreases |cs|
  {
    if cs != [] {
      var next := BeforeUpdate(cs[0], was, row);
      assert forall i :: 0 <= i < |cs[1..]| ==> cs[1..][i] == cs[i + 1] && cs[1..][i].name != cs[0].name;
      assert forall i :: 0 <= i < |cs[1..]| ==> Changed(cs[1..][i], was, next) == Changed(cs[i + 1], was, row);
      FireUnchanged(cs[1..], was, next);
    }
  }

  function AfterAdding(triggers: seq<Column>, c: Column): seq<Column> {
    Without(triggers, Stem(c.name)) + [c]
  }

  /** The live triggers after a number of projections. */
  function Live(added: seq<Column>): seq<Column> {
    if added == [] then [] else AfterAdding(Live(added[..|added| - 1]), added[|added| - 1])
  }

  lemma {:induction false} LiveMembers(added: seq<Column>, i: nat)
    requires OwnNames(added) && i < |added|
    ensures added[i] in Live(added) <==> forall j :: i < j < |added| ==> Stem(added[j].name) != Stem(added[i].name)
    decreases |added|
  {
    hide Stem;
    var front, last := added[..|added| - 1], added[|added| - 1];
    WithoutMembers(Live(front), Stem(last.name), added[i]);
    if i < |front| {
      LiveMembers(front, i);
      assert front[i] == added[i] && added[i].name != last.name;
      assert forall j :: i < j < |front| ==> front[j] == added[j];
      assert added[i] in Live(added) <==> added[i] in Live(front) && Stem(last.name) != Stem(added[i].name);
      hide Live;
    } else {
      assert last in Live(added);
      hide Live;
    }
  }

  /** The same name, or two that agree in their first 20 characters. */
  predicate StartAlike(a: string, b: string) {
    a == b || (|a| >= 20 && |b| >= 20 && forall k :: 0 <= k < 20 ==> a[k] == b[k])
  }

  lemma AlikeStems(a: string, b: string)
    ensures StartAlike(a, b) <==> Stem(a) == Stem(b)
  {
    if |a| >= 20 && |b| >= 20 && Stem(a) == Stem(b) {
      assert forall k :: 0 <= k < 20 ==> Stem(a)[k] == a[k] && Stem(b)[k] == b[k];
    }
  }

  /** Every projected column keeps its triggers exactly when no two columns share a stem: of two
      names equal in their first 20 characters, the later one takes over the earlier one's triggers. */
  lemma AllLive(added: seq<Column>)
    requires OwnNames(added)
    ensures (forall i :: 0 <= i < |added| ==> added[i] in Live(added)) <==>
            forall i, j :: 0 <= i < j < |added| ==> !StartAlike(added[i].name, added[j].name)
  {
    forall i, j | 0 <= i < j < |added|
      ensures StartAlike(added[i].name, added[j].name) <==> Stem(added[i].name) == Stem(added[j].name)
    {
      AlikeStems(added[i].name, added[j].name);
    }
    forall i | 0 <= i < |added|
      ensures added[i] in Live(added) <==> forall j :: i < j < |added| ==> Stem(added[j].name) != Stem(added[i].name)
    {
      LiveMembers(added, i);
    }
    hide Live, Stem;
  }

  /** A column without triggers is left behind by the next write to its field. */
  lemma LosesTrack(lost: Column, live: seq<Column>, was: Row, text: string)
    requires lost !in live && Fits(live, was) && Apart(live + [lost]) && was.doc.Some? && Synced(lost, was)
    requires was.columns[lost.name] != Some(text)
    ensures var row := was.(doc := Some(was.doc.value[lost.field := Scalar(text)]));
            Fire(live, was, row).doc.Some? && !Synced(lost, Fire(live, was, row))
  {
    var row := was.(doc := Some(was.doc.value[lost.field := Scalar(text)]));
    var both := live + [lost];
    forall i | 0 <= i < |live| ensures live[i].name != lost.name && live[i].field != lost.field {
      assert both[i] == live[i] && both[|live|] == lost;
    }
    assert Apart(live) by { assert forall i :: 0 <= i < |live| ==> both[i] == live[i]; }
    FireAll(live, was, row);
    FireUnchanged(live, was, row);
    var out := Fire(live, was, row);
    ReadWrapped(row.doc.value, lost.(kind := TextKind), text);
    hide ReadField, Fire;
    assert out.columns[lost.name] == was.columns[lost.name];
  }
}
