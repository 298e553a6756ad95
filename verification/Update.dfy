/** Update operators: apply_update and the Updater that edits a document operator by operator. */
module UpdateOperators {
  import opened Optional
  import opened Bson

  datatype Refusal = FailedToParse | NotImplemented | TypeMismatch

  datatype Result<+T> = Ok(value: T) | Err(refusal: Refusal)

  // ---------------------------------------------------------------- one operator on one path

  function CurrentArray(doc: seq<Field>, path: Path): Result<seq<Value>> {
    match Get(doc, path)
    case None => Ok([])
    case Some(v) => if v.Array? then Ok(Values(v.fields)) else Err(TypeMismatch)
  }

  predicate HasOperator(fields: seq<Field>) {
    exists k :: 0 <= k < |fields| && IsOperator(fields[k].key)
  }

  predicate IsOperator(key: string) {
    key != [] && key[0] == '$'
  }

  /** $push and $addToSet take a bare value or {$each: [...]}. */
  function EachValues(arg: Value): Result<seq<Value>> {
    if !arg.Document? then Ok([arg])
    else
      match Find(arg.fields, "$each")
      case Some(v) => if v.Array? then Ok(Values(v.fields)) else Err(TypeMismatch)
      case None => if HasOperator(arg.fields) then Err(FailedToParse) else Ok([arg])
  }

  predicate Holds(elements: seq<Value>, v: Value) {
    exists k :: 0 <= k < |elements| && ValueEqual(elements[k], v)
  }

  function AddMissing(elements: seq<Value>, candidates: seq<Value>): seq<Value>
    decreases |candidates|
  {
    if candidates == [] then elements
    else AddMissing(if Holds(elements, candidates[0]) then elements else elements + [candidates[0]], candidates[1..])
  }

  function Without(elements: seq<Value>, v: Value): seq<Value> {
    if elements == [] then []
    else (if ValueEqual(elements[0], v) then [] else [elements[0]]) + Without(elements[1..], v)
  }

  function SetArray(doc: seq<Field>, path: Path, elements: seq<Value>): seq<Field> {
    Set(doc, path, Array(Elements(elements)))
  }

  function Incremented(old_: Option<Value>, arg: Value): Result<Value> {
    if !IsNumeric(arg) then Err(TypeMismatch)
    else if old_.Some? && !IsNumeric(old_.value) then Err(TypeMismatch)
    else
      var sum := Plus(if old_.Some? then AsDouble(old_.value) else Finite(0.0), AsDouble(arg));
      if arg.Dbl? || (old_.Some? && old_.value.Dbl?) then Ok(Dbl(sum)) else Ok(Int64(RoundToDouble(sum.r.Floor)))
  }

  function ApplyOne(op: string, doc: seq<Field>, path: Path, arg: Value): Result<seq<Field>> {
    if op == "$set" then Ok(Set(doc, path, arg))
    else if op == "$unset" then Ok(Unset(doc, path))
    else if op == "$inc" then
      match Incremented(Get(doc, path), arg)
      case Ok(v) => Ok(Set(doc, path, v))
      case Err(e) => Err(e)
    else if op == "$push" then
      match (CurrentArray(doc, path), EachValues(arg))
      case (Ok(elements), Ok(more)) => Ok(SetArray(doc, path, elements + more))
      case (Err(e), _) => Err(e)
      case (_, Err(e)) => Err(e)
    else if op == "$addToSet" then
      match (CurrentArray(doc, path), EachValues(arg))
      case (Ok(elements), Ok(more)) => Ok(SetArray(doc, path, AddMissing(elements, more)))
      case (Err(e), _) => Err(e)
      case (_, Err(e)) => Err(e)
    else if op == "$pull" then
      if arg.Document? then Err(NotImplemented)
      else
        match CurrentArray(doc, path)
        case Ok(elements) => Ok(SetArray(doc, path, Without(elements, arg)))
        case Err(e) => Err(e)
    else if op == "$pop" then
      match CurrentArray(doc, path)
      case Ok(elements) =>
        if elements == [] then Ok(doc)
        else if IsNumeric(arg) && DoubleLess(AsDouble(arg), Finite(0.0)) then Ok(SetArray(doc, path, elements[1..]))
        else Ok(SetArray(doc, path, elements[..|elements| - 1]))
      case Err(e) => Err(e)
    else Err(FailedToParse)
  }

  // ---------------------------------------------------------------- whole operators

  datatype Edited = Edited(doc: seq<Field>, changed: seq<string>)

  function ApplyField(op: string, state: Edited, field: Field): Result<Edited> {
    match SplitPath(field.key)
    case None => Err(FailedToParse)
    case Some(path) =>
      if "$" in path then Err(NotImplemented)
      else
        match ApplyOne(op, state.doc, path, field.value)
        case Err(e) => Err(e)
        case Ok(doc) => Ok(Edited(doc, state.changed + [field.key]))
  }

  function ApplyFields(op: string, state: Edited, spec: seq<Field>): Result<Edited>
    decreases |spec|
  {
    if spec == [] then Ok(state)
    else
      match ApplyField(op, state, spec[0])
      case Err(e) => Err(e)
      case Ok(next) => ApplyFields(op, next, spec[1..])
  }

  function ApplyOperators(state: Edited, update: seq<Field>): Result<Edited>
    decreases |update|
  {
    if update == [] then Ok(state)
    else if !update[0].value.Document? then Err(FailedToParse)
    else
      match ApplyFields(update[0].key, state, update[0].value.fields)
      case Err(e) => Err(e)
      case Ok(next) => ApplyOperators(next, update[1..])
  }

  /** The replacement document: the old _id first, then everything but an _id of its own. */
  function Replacement(doc: seq<Field>, update: seq<Field>): seq<Field> {
    match Get(doc, ["_id"])
    case None => update
    case Some(id) => [Field("_id", id)] + NotId(update)
  }

  function NotId(fields: seq<Field>): seq<Field> {
    if fields == [] then []
    else (if fields[0].key == "_id" then [] else [fields[0]]) + NotId(fields[1..])
  }

  function Keys(fields: seq<Field>): seq<string> {
    seq(|fields|, i requires 0 <= i < |fields| => fields[i].key)
  }

  predicate Mixed(update: seq<Field>) {
    exists i, j :: 0 <= i < |update| && 0 <= j < |update| && IsOperator(update[i].key) && !IsOperator(update[j].key)
  }

  function ApplyUpdate(doc: seq<Field>, update: seq<Field>): Result<Edited> {
    if Mixed(update) then Err(FailedToParse)
    else if update == [] || !IsOperator(update[0].key) then Ok(Edited(Replacement(doc, update), Keys(update)))
    else ApplyOperators(Edited(doc, []), update)
  }

  class Updater {
    var doc: seq<Field>
    var changed: seq<string>

    constructor (doc: seq<Field>)
      ensures State() == Edited(doc, [])
    {
      this.doc, changed := doc, [];
    }

    function State(): Edited
      reads this
    {
      Edited(doc, changed)
    }

    method ApplyOperator(op: string, spec: seq<Field>) returns (refusal: Option<Refusal>)
      modifies this
      ensures ApplyFields(op, old(State()), spec) ==
              match refusal case None => Ok(State()) case Some(e) => Err(e)
    {
      for k := 0 to |spec|
        invariant ApplyFields(op, old(State()), spec) == ApplyFields(op, State(), spec[k..])
      {
        assert spec[k..][0] == spec[k] && spec[k..][1..] == spec[k + 1..];
        var path := SplitPath(spec[k].key);
        if path.None? { return Some(FailedToParse); }
        if "$" in path.value { return Some(NotImplemented); }
        var e := this.ApplyTo(op, path.value, spec[k].value);
        if e.Some? { return e; }
        changed := changed + [spec[k].key];
      }
      return None;
    }

    method ApplyTo(op: string, path: Path, arg: Value) returns (refusal: Option<Refusal>)
      requires path != []
      modifies this`doc
      ensures ApplyOne(op, old(doc), path, arg) == match refusal case None => Ok(doc) case Some(e) => Err(e)
    {
      if op == "$set" {
        doc := SetIn(doc, path, 0, arg);
        return None;
      }
      if op == "$unset" {
        doc := UnsetIn(doc, path, 0);
        return None;
      }
      if op == "$inc" {
        var existing := PathGet(doc, path);
        var next := Incremented(existing, arg);
        if next.Err? { return Some(next.refusal); }
        doc := SetIn(doc, path, 0, next.value);
        return None;
      }
      refusal := ApplyToArray(op, path, arg);
    }

    /** The operators on arrays, and the refusal of any other. */
    method ApplyToArray(op: string, path: Path, arg: Value) returns (refusal: Option<Refusal>)
      requires path != [] && op !in {"$set", "$unset", "$inc"}
      modifies this`doc
      ensures ApplyOne(op, old(doc), path, arg) == match refusal case None => Ok(doc) case Some(e) => Err(e)
    {
      hide Get, Set, EachValues, CurrentArray, AddMissing, Without, Elements;
      if op != "$push" && op != "$addToSet" && op != "$pull" && op != "$pop" { return Some(FailedToParse); }
      if op == "$pull" && arg.Document? { return Some(NotImplemented); }
      var current := CurrentArray(doc, path);
      if current.Err? { return Some(current.refusal); }
      var elements := current.value;
      if op == "$push" {
        var more := EachValues(arg);
        if more.Err? { return Some(more.refusal); }
        elements := elements + more.value;
      } else if op == "$addToSet" {
        var more := EachValues(arg);
        if more.Err? { return Some(more.refusal); }
        elements := AddToSet(elements, more.value);
      } else if op == "$pull" {
        elements := Without(elements, arg);
      } else if elements == [] {
        return None;
      } else if IsNumeric(arg) && DoubleLess(AsDouble(arg), Finite(0.0)) {
        elements := elements[1..];
      } else {
        elements := elements[..|elements| - 1];
      }
      doc := SetIn(doc, path, 0, Array(Elements(elements)));
      return None;
    }
  }

  method AddToSet(current: seq<Value>, candidates: seq<Value>) returns (elements: seq<Value>)
    ensures elements == AddMissing(current, candidates)
  {
    elements := current;
    for k := 0 to |candidates|
      invariant AddMissing(current, candidates) == AddMissing(elements, candidates[k..])
    {
      assert candidates[k..][1..] == candidates[k + 1..];
      if !Holds(elements, candidates[k]) { elements := elements + [candidates[k]]; }
    }
  }

  /** Comparing each field with the one before it finds every mixture. */
  method CheckUnmixed(update: seq<Field>) returns (mixed: bool, hasOperators: bool)
    ensures mixed == Mixed(update)
    ensures !mixed ==> hasOperators == (update != [] && IsOperator(update[0].key))
  {
    hasOperators := false;
    for k := 0 to |update|
      invariant forall i :: 0 <= i < k ==> IsOperator(update[i].key) == hasOperators
      invariant k == 0 ==> !hasOperators
    {
      var isOperator := IsOperator(update[k].key);
      if isOperator != hasOperators && k != 0 {
        assert IsOperator(update[k - 1].key) == hasOperators;
        return true, hasOperators;
      }
      hasOperators := isOperator;
    }
    return false, hasOperators;
  }

  method Replace(doc: seq<Field>, update: seq<Field>) returns (r: Edited)
    ensures r == Edited(Replacement(doc, update), Keys(update))
  {
    var id := PathGet(doc, ["_id"]);
    assert Replacement(doc, update) == Rebuilt(id, update);
    hide Get, Replacement, NotId, Keys;
    var replacement := if id.Some? then [Field("_id", id.value)] else [];
    var changed := [];
    RebuiltNone(id);
    for k := 0 to |update|
      invariant changed == Keys(update[..k]) && replacement == Rebuilt(id, update[..k])
    {
      RebuiltMore(id, update[..k], update[k]);
      assert update[..k + 1] == update[..k] + [update[k]];
      changed := changed + [update[k].key];
      if !(id.Some? && update[k].key == "_id") { replacement := replacement + [update[k]]; }
    }
    assert update[..|update|] == update;
    return Edited(replacement, changed);
  }

  function Rebuilt(id: Option<Value>, update: seq<Field>): seq<Field> {
    if id.Some? then [Field("_id", id.value)] + NotId(update) else update
  }

  lemma RebuiltNone(id: Option<Value>)
    ensures Rebuilt(id, []) == (if id.Some? then [Field("_id", id.value)] else []) && Keys([]) == []
  {
  }

  lemma RebuiltMore(id: Option<Value>, update: seq<Field>, f: Field)
    ensures Rebuilt(id, update + [f]) ==
            Rebuilt(id, update) + if id.Some? && f.key == "_id" then [] else [f]
    ensures Keys(update + [f]) == Keys(update) + [f.key]
  {
    NotIdAppend(update, [f]);
    NotIdOne(f);
    hide NotId;
  }

  lemma NotIdOne(f: Field)
    ensures NotId([f]) == if f.key == "_id" then [] else [f]
  {
    assert [f][1..] == [];
  }

  method RunOperators(doc: seq<Field>, update: seq<Field>) returns (r: Result<Edited>)
    ensures r == ApplyOperators(Edited(doc, []), update)
  {
    var updater := new Updater(doc);
    for k := 0 to |update|
      invariant ApplyOperators(Edited(doc, []), update) == ApplyOperators(updater.State(), update[k..])
    {
      assert update[k..][0] == update[k] && update[k..][1..] == update[k + 1..];
      if !update[k].value.Document? { return Err(FailedToParse); }
      var refusal := updater.ApplyOperator(update[k].key, update[k].value.fields);
      if refusal.Some? { return Err(refusal.value); }
    }
    return Ok(updater.State());
  }

  method Apply(doc: seq<Field>, update: seq<Field>) returns (r: Result<Edited>)
    ensures r == ApplyUpdate(doc, update)
  {
    var mixed, hasOperators := CheckUnmixed(update);
    if mixed { return Err(FailedToParse); }
    if hasOperators {
      r := RunOperators(doc, update);
    } else {
      var edited := Replace(doc, update);
      r := Ok(edited);
    }
  }

  lemma {:induction false} NotIdAppend(a: seq<Field>, b: seq<Field>)
    ensures NotId(a + b) == NotId(a) + NotId(b)
  {
    if a == [] {
      assert a + b == b;
    } else {
      assert (a + b)[1..] == a[1..] + b;
      NotIdAppend(a[1..], b);
    }
  }

  // ---------------------------------------------------------------- replacement

  lemma {:induction false} FindNotId(fields: seq<Field>, key: string)
    requires key != "_id"
    ensures Find(NotId(fields), key) == Find(fields, key)
  {
    if fields != [] {
      FindNotId(fields[1..], key);
      FindAppend(if fields[0].key == "_id" then [] else [fields[0]], NotId(fields[1..]), key);
    }
  }

  /** A replacement keeps the document's own _id, and is the new document everywhere else. */
  lemma ReplacementKeepsId(doc: seq<Field>, update: seq<Field>, path: Path)
    requires path != [] && (update == [] || !IsOperator(update[0].key)) && !Mixed(update)
    ensures ApplyUpdate(doc, update).Ok? && ApplyUpdate(doc, update).value.changed == Keys(update)
    ensures Get(doc, ["_id"]).Some? ==>
              ApplyUpdate(doc, update).value.doc[..1] == [Field("_id", Get(doc, ["_id"]).value)]
    ensures Get(ApplyUpdate(doc, update).value.doc, path) ==
            Get(if path[0] == "_id" && Get(doc, ["_id"]).Some? then doc else update, path)
  {
    var id := Get(doc, ["_id"]);
    assert id == Find(doc, "_id");
    if id.Some? {
      if path[0] != "_id" { FindNotId(update, path[0]); }
      FindAppend([Field("_id", id.value)], NotId(update), path[0]);
    }
  }

  // ---------------------------------------------------------------- $set

  predicate Settable(spec: seq<Field>) {
    forall k :: 0 <= k < |spec| ==> SplitPath(spec[k].key).Some? && "$" !in SplitPath(spec[k].key).value
  }

  function PathOf(f: Field): (path: Path)
    requires SplitPath(f.key).Some?
    ensures path != []
  {
    SplitPath(f.key).value
  }

  predicate Disjoint(spec: seq<Field>)
    requires Settable(spec)
  {
    forall i, j :: 0 <= i < j < |spec| ==> !Overlap(PathOf(spec[i]), PathOf(spec[j]))
  }

  function SetAll(doc: seq<Field>, spec: seq<Field>): seq<Field>
    requires Settable(spec)
    decreases |spec|
  {
    if spec == [] then doc else SetAll(Set(doc, PathOf(spec[0]), spec[0].value), spec[1..])
  }

  lemma {:induction false} SetFields(state: Edited, spec: seq<Field>)
    requires Settable(spec)
    ensures ApplyFields("$set", state, spec) == Ok(Edited(SetAll(state.doc, spec), state.changed + Keys(spec)))
    decreases |spec|
  {
    if spec == [] {
      assert state.changed + Keys(spec) == state.changed;
    } else {
      var next := Edited(Set(state.doc, PathOf(spec[0]), spec[0].value), state.changed + [spec[0].key]);
      assert ApplyField("$set", state, spec[0]) == Ok(next);
      SetFields(next, spec[1..]);
      assert [spec[0].key] + Keys(spec[1..]) == Keys(spec);
      assert next.changed + Keys(spec[1..]) == state.changed + Keys(spec);
    }
  }

  lemma {:induction false} SetAllElsewhere(doc: seq<Field>, spec: seq<Field>, other: Path)
    requires Settable(spec) && forall k :: 0 <= k < |spec| ==> !Overlap(PathOf(spec[k]), other)
    ensures Get(SetAll(doc, spec), other) == Get(doc, other)
    decreases |spec|
  {
    if spec != [] {
      hide Overlap, Get, Set, SplitPath, PathOf;
      assert !Overlap(PathOf(spec[0]), other);
      GetSetElsewhere(doc, PathOf(spec[0]), spec[0].value, other);
      SetAllElsewhere(Set(doc, PathOf(spec[0]), spec[0].value), spec[1..], other);
    }
  }

  lemma {:induction false} SetAllSettles(doc: seq<Field>, spec: seq<Field>, path: Path, v: Value)
    requires Settable(spec) && forall k :: 0 <= k < |spec| ==> !Overlap(path, PathOf(spec[k]))
    requires Everywhere(doc, path, v)
    ensures Everywhere(SetAll(doc, spec), path, v)
    decreases |spec|
  {
    if spec != [] {
      hide Overlap, Everywhere, Set, SplitPath, PathOf;
      assert !Overlap(path, PathOf(spec[0]));
      EverywhereSurvives(doc, path, v, PathOf(spec[0]), spec[0].value);
      SetAllSettles(Set(doc, PathOf(spec[0]), spec[0].value), spec[1..], path, v);
    }
  }

  lemma {:induction false} SetAllHolds(doc: seq<Field>, spec: seq<Field>, k: nat)
    requires Settable(spec) && Disjoint(spec) && k < |spec|
    ensures Everywhere(SetAll(doc, spec), PathOf(spec[k]), spec[k].value)
    decreases |spec|
  {
    hide Overlap, Everywhere, Set, SplitPath, PathOf;
    var first := Set(doc, PathOf(spec[0]), spec[0].value);
    if k == 0 {
      SetMakesEverywhere(doc, PathOf(spec[0]), spec[0].value);
      SetAllSettles(first, spec[1..], PathOf(spec[0]), spec[0].value);
    } else {
      SetAllHolds(first, spec[1..], k - 1);
    }
  }

  lemma {:induction false} SetAllFixed(doc: seq<Field>, spec: seq<Field>)
    requires Settable(spec)
    requires forall k :: 0 <= k < |spec| ==> Everywhere(doc, PathOf(spec[k]), spec[k].value)
    ensures SetAll(doc, spec) == doc
    decreases |spec|
  {
    if spec != [] {
      hide Everywhere, Set, SplitPath, PathOf;
      SetFixed(doc, PathOf(spec[0]), spec[0].value);
      SetAllFixed(doc, spec[1..]);
    }
  }

  /** What is everywhere on a path is what the path reads. */
  lemma {:induction false} EverywhereReads(doc: seq<Field>, path: Path, v: Value, below: Path)
    requires Everywhere(doc, path, v)
    ensures Get(doc, path + below) == if below == [] then Some(v) else GetIn(v, below)
  {
    SetFixed(doc, path, v);
    GetSet(doc, path, v, below);
  }

  /** A $set over paths none of which lies on another writes exactly those paths, leaves every
      other path reading as before, and changes nothing when applied again, on every document,
      repeated field names included. */
  lemma SetUpdate(doc: seq<Field>, spec: seq<Field>)
    requires Settable(spec) && Disjoint(spec)
    ensures var update := [Field("$set", Document(spec))];
            ApplyUpdate(doc, update) == Ok(Edited(SetAll(doc, spec), Keys(spec))) &&
            ApplyUpdate(SetAll(doc, spec), update) == Ok(Edited(SetAll(doc, spec), Keys(spec)))
    ensures forall k, below :: 0 <= k < |spec| ==>
              Get(SetAll(doc, spec), PathOf(spec[k]) + below) ==
              if below == [] then Some(spec[k].value) else GetIn(spec[k].value, below)
    ensures forall other :: (forall k :: 0 <= k < |spec| ==> !Overlap(PathOf(spec[k]), other)) ==>
              Get(SetAll(doc, spec), other) == Get(doc, other)
  {
    var result := SetAll(doc, spec);
    forall k | 0 <= k < |spec| ensures Everywhere(result, PathOf(spec[k]), spec[k].value) {
      SetAllHolds(doc, spec, k);
    }
    SetAllFixed(result, spec);
    OneOperator("$set", doc, spec);
    OneOperator("$set", result, spec);
    SetFields(Edited(doc, []), spec);
    SetFields(Edited(result, []), spec);
    assert [] + Keys(spec) == Keys(spec);
    forall k, below | 0 <= k < |spec|
      ensures Get(result, PathOf(spec[k]) + below) ==
              if below == [] then Some(spec[k].value) else GetIn(spec[k].value, below)
    {
      EverywhereReads(result, PathOf(spec[k]), spec[k].value, below);
    }
    hide Get, Overlap;
    forall other | forall k :: 0 <= k < |spec| ==> !Overlap(PathOf(spec[k]), other)
      ensures Get(result, other) == Get(doc, other)
    {
      SetAllElsewhere(doc, spec, other);
    }
  }

  lemma OneOperator(op: string, doc: seq<Field>, spec: seq<Field>)
    requires IsOperator(op)
    ensures var update := [Field(op, Document(spec))];
            ApplyUpdate(doc, update) == ApplyFields(op, Edited(doc, []), spec)
  {
    var update := [Field(op, Document(spec))];
    var first := ApplyFields(op, Edited(doc, []), spec);
    if first.Ok? {
      assert ApplyOperators(first.value, update[1..]) == first;
    }
  }

  // ---------------------------------------------------------------- arrays

  lemma ArrayAfter(doc: seq<Field>, path: Path, elements: seq<Value>)
    requires path != []
    ensures CurrentArray(SetArray(doc, path, elements), path) == Ok(elements)
  {
    GetSet(doc, path, Array(Elements(elements)), []);
    assert path + [] == path;
    assert Values(Elements(elements)) == elements;
  }

  lemma SetArrayTwice(doc: seq<Field>, path: Path, elements: seq<Value>)
    requires path != []
    ensures SetArray(SetArray(doc, path, elements), path, elements) == SetArray(doc, path, elements)
  {
    SetMakesEverywhere(doc, path, Array(Elements(elements)));
    SetFixed(SetArray(doc, path, elements), path, Array(Elements(elements)));
  }

  predicate SelfEqual(v: Value) {
    !v.Regex? && v != Dbl(NotANumber)
  }

  lemma HoldsMore(elements: seq<Value>, more: seq<Value>, v: Value)
    requires Holds(elements, v)
    ensures Holds(elements + more, v)
  {
    var k :| 0 <= k < |elements| && ValueEqual(elements[k], v);
    assert (elements + more)[k] == elements[k];
  }

  lemma {:induction false} AddMissingGrows(elements: seq<Value>, candidates: seq<Value>)
    ensures elements <= AddMissing(elements, candidates)
    ensures forall v :: v in candidates && SelfEqual(v) ==> Holds(AddMissing(elements, candidates), v)
    decreases |candidates|
  {
    if candidates != [] {
      var c := candidates[0];
      var next := if Holds(elements, c) then elements else elements + [c];
      AddMissingGrows(next, candidates[1..]);
      var all := AddMissing(elements, candidates);
      if SelfEqual(c) {
        assert ValueEqual(c, c);
        assert next[|next| - 1] == c || Holds(elements, c);
        HoldsMore(next, all[|next|..], c);
        assert next + all[|next|..] == all;
      }
    }
  }

  lemma {:induction false} AddMissingFixed(elements: seq<Value>, candidates: seq<Value>)
    requires forall v :: v in candidates && SelfEqual(v) ==> Holds(elements, v)
    ensures AddMissing(elements, candidates) == elements <==> forall v :: v in candidates ==> SelfEqual(v)
    decreases |candidates|
  {
    if candidates != [] {
      var c := candidates[0];
      if SelfEqual(c) {
        AddMissingFixed(elements, candidates[1..]);
        assert candidates == [c] + candidates[1..];
      } else {
        assert !Holds(elements, c);
        AddMissingGrows(elements + [c], candidates[1..]);
      }
    }
  }

  /** $addToSet changes nothing the second time exactly when every value offered equals itself:
      a NaN or a regular expression is appended again every time. */
  lemma AddToSetIdempotent(doc: seq<Field>, path: Path, arg: Value)
    requires path != [] && CurrentArray(doc, path).Ok? && EachValues(arg).Ok?
    ensures var once := ApplyOne("$addToSet", doc, path, arg).value;
            ApplyOne("$addToSet", once, path, arg) == Ok(once)
            <==> forall v :: v in EachValues(arg).value ==> SelfEqual(v)
  {
    var elements, more := CurrentArray(doc, path).value, EachValues(arg).value;
    var added := AddMissing(elements, more);
    var once := SetArray(doc, path, added);
    ArrayAfter(doc, path, added);
    AddMissingGrows(elements, more);
    AddMissingFixed(added, more);
    SetArrayTwice(doc, path, added);
    ArrayAfter(once, path, AddMissing(added, more));
    hide CurrentArray, EachValues, SetArray, AddMissing;
    assert ApplyOne("$addToSet", doc, path, arg) == Ok(once);
  }

  /** $pull drops every element equal to the value and keeps the others, in order and in number. */
  lemma {:induction false} WithoutKeeps(elements: seq<Value>, v: Value, x: Value)
    ensures multiset(Without(elements, v))[x] == if ValueEqual(x, v) then 0 else multiset(elements)[x]
  {
    if elements != [] {
      hide ValueEqual;
      WithoutKeeps(elements[1..], v, x);
      var first, rest := elements[0], Without(elements[1..], v);
      assert multiset(elements) == multiset{first} + multiset(elements[1..]) by {
        assert elements == [first] + elements[1..];
      }
      assert multiset([first] + rest) == multiset{first} + multiset(rest);
      assert Without(elements, v) == if ValueEqual(first, v) then rest else [first] + rest;
      hide Without;
    }
  }

  lemma {:induction false} WithoutNone(elements: seq<Value>, v: Value)
    ensures Without(elements, v) == elements <==> !Holds(elements, v)
    ensures |Without(elements, v)| <= |elements|
  {
    hide ValueEqual;
    if elements != [] {
      WithoutNone(elements[1..], v);
      assert elements == [elements[0]] + elements[1..];
      assert Holds(elements, v) <==> ValueEqual(elements[0], v) || Holds(elements[1..], v) by {
        if Holds(elements[1..], v) { HoldsLater(elements, v); }
      }
    }
  }

  lemma HoldsLater(elements: seq<Value>, v: Value)
    requires elements != [] && Holds(elements[1..], v)
    ensures Holds(elements, v)
  {
    var k :| 0 <= k < |elements[1..]| && ValueEqual(elements[1..][k], v);
    assert elements[k + 1] == elements[1..][k];
  }

  lemma PullTwice(elements: seq<Value>, v: Value)
    ensures !Holds(Without(elements, v), v)
    ensures Without(Without(elements, v), v) == Without(elements, v)
  {
    var left := Without(elements, v);
    forall k | 0 <= k < |left| ensures !ValueEqual(left[k], v) {
      WithoutKeeps(elements, v, left[k]);
      assert multiset(left)[left[k]] > 0;
    }
    WithoutNone(left, v);
  }

  /** $push of one value and then $pop of the last restores the array, and no other path moves. */
  lemma PushThenPop(doc: seq<Field>, path: Path, v: Value, other: Path)
    requires path != [] && CurrentArray(doc, path).Ok? && !v.Document? && !Overlap(path, other)
    ensures var pushed := ApplyOne("$push", doc, path, v);
            pushed.Ok? &&
            var popped := ApplyOne("$pop", pushed.value, path, Int32(1));
            popped.Ok? && CurrentArray(popped.value, path) == CurrentArray(doc, path) &&
            Get(popped.value, other) == Get(doc, other)
  {
    var elements := CurrentArray(doc, path).value;
    var pushed := SetArray(doc, path, elements + [v]);
    ArrayAfter(doc, path, elements + [v]);
    assert (elements + [v])[..|elements|] == elements;
    ArrayAfter(pushed, path, elements);
    GetSetElsewhere(doc, path, Array(Elements(elements + [v])), other);
    GetSetElsewhere(pushed, path, Array(Elements(elements)), other);
    hide CurrentArray, Get, Set;
  }

  // ---------------------------------------------------------------- what an operator does

  /** The elements at a path: none where there is nothing, and no list where there is something else. */
  function ListAt(doc: seq<Field>, path: Path): Option<seq<Value>> {
    match Get(doc, path)
    case None => Some([])
    case Some(Array(fields)) => Some(Values(fields))
    case Some(_) => None
  }

  predicate IsPlain(arg: Value) {
    arg.Document? ==>
      Find(arg.fields, "$each") == None && forall k :: 0 <= k < |arg.fields| ==> !("$" <= arg.fields[k].key)
  }

  /** What $push and $addToSet offer: the members of an $each, or the value itself. */
  function Offered(arg: Value): Option<seq<Value>> {
    if IsPlain(arg) then Some([arg])
    else
      match Find(arg.fields, "$each")
      case Some(Array(fields)) => Some(Values(fields))
      case _ => None
  }

  predicate Present(elements: seq<Value>, v: Value) {
    exists k :: 0 <= k < |elements| && ValueEqual(elements[k], v)
  }

  /** The values offered that equal none of the elements and none offered before them. */
  function Novel(elements: seq<Value>, more: seq<Value>): seq<Value> {
    if more == [] then []
    else
      var front, last := more[..|more| - 1], more[|more| - 1];
      Novel(elements, front) + if Present(elements, last) || Present(front, last) then [] else [last]
  }

  /** The elements not equal to a value, in their order. */
  function Others(elements: seq<Value>, v: Value): seq<Value> {
    if elements == [] then []
    else
      var front, last := elements[..|elements| - 1], elements[|elements| - 1];
      Others(front, v) + if ValueEqual(last, v) then [] else [last]
  }

  predicate IsNegative(v: Value) {
    match v
    case Int32(n) => n < 0
    case Int64(n) => n < 0
    case Dbl(Finite(r)) => r < 0.0
    case Dbl(NegInfinity) => true
    case _ => false
  }

  /** The sum as a double, or as a 64-bit integer if neither side is a double. */
  function Sum(old_: Option<Value>, arg: Value): Value
    requires IsNumeric(arg) && (old_.Some? ==> IsNumeric(old_.value))
  {
    var sum := Plus(if old_.Some? then AsDouble(old_.value) else Finite(0.0), AsDouble(arg));
    if arg.Dbl? || (old_.Some? && old_.value.Dbl?) then Dbl(sum) else Int64(RoundToDouble(sum.r.Floor))
  }

  /** Why an operator on one path is refused, if it is. */
  function Refused(op: string, doc: seq<Field>, path: Path, arg: Value): Option<Refusal> {
    if op == "$set" || op == "$unset" then None
    else if op == "$inc" then
      if !IsNumeric(arg) || (Get(doc, path).Some? && !IsNumeric(Get(doc, path).value)) then Some(TypeMismatch) else None
    else if op == "$pull" && arg.Document? then Some(NotImplemented)
    else if op == "$pull" || op == "$pop" then (if ListAt(doc, path).None? then Some(TypeMismatch) else None)
    else if op == "$push" || op == "$addToSet" then
      if ListAt(doc, path).None? then Some(TypeMismatch)
      else if Offered(arg).Some? then None
      else if arg.Document? && Find(arg.fields, "$each").Some? then Some(TypeMismatch)
      else Some(FailedToParse)
    else Some(FailedToParse)
  }

  /** What is found at its path afterwards. */
  predicate Leaves(op: string, doc: seq<Field>, path: Path, arg: Value, doc': seq<Field>)
    requires Refused(op, doc, path, arg) == None
  {
    if op == "$set" then Get(doc', path) == Some(arg)
    else if op == "$unset" then Get(doc', path) == None
    else if op == "$inc" then Get(doc', path) == Some(Sum(Get(doc, path), arg))
    else if op == "$push" then ListAt(doc', path) == Some(ListAt(doc, path).value + Offered(arg).value)
    else if op == "$addToSet" then
      ListAt(doc', path) == Some(ListAt(doc, path).value + Novel(ListAt(doc, path).value, Offered(arg).value))
    else if op == "$pull" then ListAt(doc', path) == Some(Others(ListAt(doc, path).value, arg))
    else
      var elements := ListAt(doc, path).value;
      if elements == [] then doc' == doc
      else if IsNegative(arg) then ListAt(doc', path) == Some(elements[1..])
      else ListAt(doc', path) == Some(elements[..|elements| - 1])
  }

  /** One operator on one path: refused for its reason, or its effect there and none on any path
      that is neither above nor below. */
  ghost predicate Effect(op: string, doc: seq<Field>, path: Path, arg: Value, r: Result<seq<Field>>) {
    match r
    case Err(e) => Refused(op, doc, path, arg) == Some(e)
    case Ok(doc') =>
      && Refused(op, doc, path, arg) == None && Leaves(op, doc, path, arg, doc')
      && forall other :: !Overlap(path, other) ==> Get(doc', other) == Get(doc, other)
  }

  lemma ListIs(doc: seq<Field>, path: Path)
    ensures match CurrentArray(doc, path)
            case Ok(elements) => ListAt(doc, path) == Some(elements)
            case Err(e) => ListAt(doc, path) == None && e == TypeMismatch
  {
    hide Get, Values;
  }

  lemma OfferedIs(arg: Value)
    ensures match EachValues(arg)
            case Ok(more) => Offered(arg) == Some(more)
            case Err(e) => Offered(arg) == None && arg.Document?
                           && e == if Find(arg.fields, "$each").Some? then TypeMismatch else FailedToParse
  {
    hide Find, Values;
    if arg.Document? {
      assert forall k :: 0 <= k < |arg.fields| ==> (IsOperator(arg.fields[k].key) <==> "$" <= arg.fields[k].key);
    }
  }

  lemma {:induction false} OthersAppend(a: seq<Value>, b: seq<Value>, v: Value)
    ensures Others(a + b, v) == Others(a, v) + Others(b, v)
  {
    hide ValueEqual;
    if b == [] {
      assert a + b == a;
    } else {
      assert (a + b)[..|a + b| - 1] == a + b[..|b| - 1];
      OthersAppend(a, b[..|b| - 1], v);
    }
  }

  lemma {:induction false} WithoutIs(elements: seq<Value>, v: Value)
    ensures Without(elements, v) == Others(elements, v)
  {
    if elements != [] {
      hide ValueEqual;
      WithoutIs(elements[1..], v);
      assert elements == [elements[0]] + elements[1..];
      OthersAppend([elements[0]], elements[1..], v);
      assert [elements[0]][..0] == [];
    }
  }

  lemma EqualBothWays(a: Value, b: Value, c: Value)
    ensures ValueEqual(a, b) && ValueEqual(b, c) ==> ValueEqual(a, c)
  {
    hide AsDouble;
  }

  lemma {:induction false} AddMissingAppend(elements: seq<Value>, a: seq<Value>, b: seq<Value>)
    ensures AddMissing(elements, a + b) == AddMissing(AddMissing(elements, a), b)
    decreases |a|
  {
    hide Holds;
    if a == [] {
      assert a + b == b;
    } else {
      assert (a + b)[1..] == a[1..] + b;
      AddMissingAppend(if Holds(elements, a[0]) then elements else elements + [a[0]], a[1..], b);
    }
  }

  /** Whatever was offered is in the list or equals something that is, unless it equals nothing. */
  lemma {:induction false} NovelCovers(elements: seq<Value>, more: seq<Value>, v: Value)
    ensures Present(elements + Novel(elements, more), v) <==> Present(elements, v) || Present(more, v)
  {
    hide ValueEqual;
    if more == [] {
      assert elements + [] == elements;
    } else {
      var front, last := more[..|more| - 1], more[|more| - 1];
      var before := elements + Novel(elements, front);
      NovelCovers(elements, front, v);
      assert more == front + [last];
      PresentMore(front, last, v);
      if Present(elements, last) || Present(front, last) {
        NovelCovers(elements, front, last);
        if ValueEqual(last, v) { PresentThrough(before, last, v); }
        assert elements + Novel(elements, more) == before;
      } else {
        PresentMore(before, last, v);
        assert elements + Novel(elements, more) == before + [last];
      }
    }
  }

  lemma PresentMore(elements: seq<Value>, last: Value, v: Value)
    ensures Present(elements + [last], v) <==> Present(elements, v) || ValueEqual(last, v)
  {
    hide ValueEqual;
    var all := elements + [last];
    assert all[|elements|] == last && forall k :: 0 <= k < |elements| ==> all[k] == elements[k];
  }

  lemma PresentThrough(elements: seq<Value>, w: Value, v: Value)
    requires Present(elements, w) && ValueEqual(w, v)
    ensures Present(elements, v)
  {
    var k :| 0 <= k < |elements| && ValueEqual(elements[k], w);
    EqualBothWays(elements[k], w, v);
  }

  lemma {:induction false} AddMissingIs(elements: seq<Value>, more: seq<Value>)
    ensures AddMissing(elements, more) == elements + Novel(elements, more)
  {
    if more != [] {
      hide ValueEqual;
      var front, last := more[..|more| - 1], more[|more| - 1];
      AddMissingIs(elements, front);
      assert more == front + [last];
      AddMissingAppend(elements, front, [last]);
      NovelCovers(elements, front, last);
      var before := AddMissing(elements, front);
      assert AddMissing(before, [last]) == (if Holds(before, last) then before else before + [last]) by {
        assert [last][1..] == [];
      }
      hide AddMissing;
      assert elements + (Novel(elements, front) + [last]) == before + [last];
    } else {
      assert elements + [] == elements;
    }
  }

  lemma SumIs(old_: Option<Value>, arg: Value)
    ensures match Incremented(old_, arg)
            case Ok(v) => IsNumeric(arg) && (old_.Some? ==> IsNumeric(old_.value)) && v == Sum(old_, arg)
            case Err(e) => e == TypeMismatch && (!IsNumeric(arg) || (old_.Some? && !IsNumeric(old_.value)))
  {
    hide RoundToDouble;
  }

  lemma SetLeaves(doc: seq<Field>, path: Path, v: Value)
    requires path != []
    ensures Get(Set(doc, path, v), path) == Some(v)
    ensures forall other :: !Overlap(path, other) ==> Get(Set(doc, path, v), other) == Get(doc, other)
  {
    GetSet(doc, path, v, []);
    assert path + [] == path;
    forall other | !Overlap(path, other)
      ensures Get(Set(doc, path, v), other) == Get(doc, other)
    {
      GetSetElsewhere(doc, path, v, other);
    }
  }

  lemma ListLeaves(doc: seq<Field>, path: Path, elements: seq<Value>)
    requires path != []
    ensures ListAt(SetArray(doc, path, elements), path) == Some(elements)
    ensures forall other :: !Overlap(path, other) ==> Get(SetArray(doc, path, elements), other) == Get(doc, other)
  {
    SetLeaves(doc, path, Array(Elements(elements)));
    assert Values(Elements(elements)) == elements;
    hide Get, Set;
  }

  lemma NegativeIs(arg: Value)
    ensures IsNumeric(arg) && DoubleLess(AsDouble(arg), Finite(0.0)) <==> IsNegative(arg)
  {
    if arg.Int64? { RoundedSign(arg.n); }
    hide RoundToDouble;
  }

  function DocumentOf(r: Result<Edited>): Result<seq<Field>> {
    match r
    case Err(e) => Err(e)
    case Ok(edited) => Ok(edited.doc)
  }

  lemma OneOperatorOneField(op: string, doc: seq<Field>, f: Field, path: Path)
    requires IsOperator(op) && SplitPath(f.key) == Some(path) && "$" !in path
    ensures ApplyUpdate(doc, [Field(op, Document([f]))]) ==
            match ApplyOne(op, doc, path, f.value)
            case Err(e) => Err(e)
            case Ok(edited) => Ok(Edited(edited, [f.key]))
  {
    hide SplitPath, ApplyOne;
    OneOperator(op, doc, [f]);
    assert [f][1..] == [];
    assert [] + [f.key] == [f.key];
    hide ApplyUpdate;
    assert ApplyFields(op, Edited(doc, []), [f]) ==
           match ApplyField(op, Edited(doc, []), f) case Err(e) => Err(e) case Ok(next) => ApplyFields(op, next, []);
  }

  lemma ArrayEffect(op: string, doc: seq<Field>, path: Path, arg: Value)
    requires path != [] && op !in {"$set", "$unset", "$inc"}
    ensures Effect(op, doc, path, arg, ApplyOne(op, doc, path, arg))
  {
    hide Get, SetArray, EachValues, Offered, CurrentArray, ListAt, AddMissing, Without, Novel, Others, Overlap;
    ListIs(doc, path);
    OfferedIs(arg);
    NegativeIs(arg);
    hide IsNegative, DoubleLess;
    if CurrentArray(doc, path).Ok? {
      var elements := CurrentArray(doc, path).value;
      if op == "$push" && EachValues(arg).Ok? {
        ListLeaves(doc, path, elements + EachValues(arg).value);
      } else if op == "$addToSet" && EachValues(arg).Ok? {
        AddMissingIs(elements, EachValues(arg).value);
        ListLeaves(doc, path, AddMissing(elements, EachValues(arg).value));
      } else if op == "$pull" {
        WithoutIs(elements, arg);
        ListLeaves(doc, path, Without(elements, arg));
      } else if op == "$pop" && elements != [] {
        ListLeaves(doc, path, elements[1..]);
        ListLeaves(doc, path, elements[..|elements| - 1]);
      }
    }
  }

  /** An update of one operator on one field does what the operator says, there and nowhere else, or
      is refused for its reason. */
  lemma OperatorEffect(op: string, doc: seq<Field>, f: Field, path: Path)
    requires IsOperator(op) && SplitPath(f.key) == Some(path) && "$" !in path
    ensures ApplyUpdate(doc, [Field(op, Document([f]))]).Ok? ==>
              ApplyUpdate(doc, [Field(op, Document([f]))]).value.changed == [f.key]
    ensures Effect(op, doc, path, f.value, DocumentOf(ApplyUpdate(doc, [Field(op, Document([f]))])))
  {
    OneOperatorOneField(op, doc, f, path);
    assert path != [];
    hide SplitPath, ApplyUpdate, Get, Set, Unset, Overlap;
    if op == "$set" {
      SetLeaves(doc, path, f.value);
    } else if op == "$unset" {
      UnsetLeaves(doc, path);
    } else if op == "$inc" {
      SumIs(Get(doc, path), f.value);
      hide Incremented, Sum;
      if Incremented(Get(doc, path), f.value).Ok? { SetLeaves(doc, path, Incremented(Get(doc, path), f.value).value); }
    } else {
      hide ApplyOne, Effect;
      ArrayEffect(op, doc, path, f.value);
    }
  }

  /** A field that is no path, or has a positional `$` in it, is refused whatever the operator. */
  lemma PathRefused(op: string, doc: seq<Field>, f: Field)
    requires IsOperator(op)
    ensures SplitPath(f.key) == None ==> ApplyUpdate(doc, [Field(op, Document([f]))]) == Err(FailedToParse)
    ensures SplitPath(f.key).Some? && "$" in SplitPath(f.key).value ==>
              ApplyUpdate(doc, [Field(op, Document([f]))]) == Err(NotImplemented)
  {
    OneOperator(op, doc, [f]);
    hide ApplyUpdate, SplitPath, ApplyOne;
    assert ApplyFields(op, Edited(doc, []), [f]) ==
           match ApplyField(op, Edited(doc, []), f)
           case Err(e) => Err(e)
           case Ok(next) => ApplyFields(op, next, [f][1..]);
  }

  lemma UnsetLeaves(doc: seq<Field>, path: Path)
    requires path != []
    ensures Get(Unset(doc, path), path) == None
    ensures forall other :: !Overlap(path, other) ==> Get(Unset(doc, path), other) == Get(doc, other)
  {
    GetUnset(doc, path);
    forall other | !Overlap(path, other)
      ensures Get(Unset(doc, path), other) == Get(doc, other)
    {
      GetUnsetElsewhere(doc, path, other);
    }
  }

  // ---------------------------------------------------------------- whole updates

  /** One operator's edits, each an update of its own: one a field, or the operator itself when what it
      is given is not a document. */
  function EditsOf(op: string, arg: Value): seq<Field> {
    if arg.Document? then seq(|arg.fields|, i requires 0 <= i < |arg.fields| => Field(op, Document([arg.fields[i]])))
    else [Field(op, arg)]
  }

  /** The edits of an update of operators, in the order they are written. */
  function Edits(update: seq<Field>): seq<Field> {
    if update == [] then [] else EditsOf(update[0].key, update[0].value) + Edits(update[1..])
  }

  /** Every edit as an update of its own, one after another until one is refused. */
  function OneByOne(state: Edited, edits: seq<Field>): Result<Edited>
    decreases |edits|
  {
    if edits == [] then Ok(state)
    else
      match ApplyUpdate(state.doc, [edits[0]])
      case Err(e) => Err(e)
      case Ok(next) => OneByOne(Edited(next.doc, state.changed + next.changed), edits[1..])
  }

  predicate OnlyOperators(update: seq<Field>) {
    forall k :: 0 <= k < |update| ==> IsOperator(update[k].key)
  }

  lemma EditIs(state: Edited, op: string, f: Field)
    requires IsOperator(op)
    ensures ApplyField(op, state, f) ==
            match ApplyUpdate(state.doc, [Field(op, Document([f]))])
            case Err(e) => Err(e)
            case Ok(next) => Ok(Edited(next.doc, state.changed + next.changed))
  {
    OneOperator(op, state.doc, [f]);
    assert [f][1..] == [];
    assert [] + [f.key] == [f.key];
    hide ApplyUpdate, ApplyOne, SplitPath;
    assert ApplyFields(op, Edited(state.doc, []), [f]) == ApplyField(op, Edited(state.doc, []), f);
  }

  lemma {:induction false} FieldsAreEdits(op: string, state: Edited, spec: seq<Field>, more: seq<Field>)
    requires IsOperator(op)
    ensures OneByOne(state, EditsOf(op, Document(spec)) + more) ==
            match ApplyFields(op, state, spec) case Err(e) => Err(e) case Ok(next) => OneByOne(next, more)
    decreases |spec|
  {
    hide ApplyUpdate, ApplyField;
    if spec == [] {
      assert EditsOf(op, Document(spec)) + more == more;
    } else {
      EditIs(state, op, spec[0]);
      assert (EditsOf(op, Document(spec)) + more)[1..] == EditsOf(op, Document(spec[1..])) + more;
      if ApplyField(op, state, spec[0]).Ok? {
        FieldsAreEdits(op, ApplyField(op, state, spec[0]).value, spec[1..], more);
      }
    }
  }

  /** Refused before any of its fields is looked at. */
  lemma DocumentExpected(op: string, doc: seq<Field>, arg: Value)
    requires IsOperator(op) && !arg.Document?
    ensures ApplyUpdate(doc, [Field(op, arg)]) == Err(FailedToParse)
  {
    assert !Mixed([Field(op, arg)]);
  }

  lemma {:induction false} OperatorsAreEdits(state: Edited, update: seq<Field>)
    requires OnlyOperators(update)
    ensures ApplyOperators(state, update) == OneByOne(state, Edits(update))
    decreases |update|
  {
    hide ApplyFields, ApplyUpdate;
    if update == [] {
    } else if update[0].value.Document? {
      var next := ApplyFields(update[0].key, state, update[0].value.fields);
      FieldsAreEdits(update[0].key, state, update[0].value.fields, Edits(update[1..]));
      hide OneByOne;
      if next.Ok? { OperatorsAreEdits(next.value, update[1..]); }
    } else {
      DocumentExpected(update[0].key, state.doc, update[0].value);
      assert Edits(update)[0] == Field(update[0].key, update[0].value);
    }
  }

  /** An update of operators is its edits one by one, in the order they are written, and stops at the
      first that is refused; one that has other fields beside its operators is refused as a whole. */
  lemma UpdateIsItsEdits(doc: seq<Field>, update: seq<Field>)
    requires update != [] && IsOperator(update[0].key)
    ensures ApplyUpdate(doc, update) ==
            if OnlyOperators(update) then OneByOne(Edited(doc, []), Edits(update)) else Err(FailedToParse)
  {
    if !OnlyOperators(update) {
      assert Mixed(update);
      return;
    }
    hide ApplyOperators, OneByOne, Edits;
    OperatorsAreEdits(Edited(doc, []), update);
  }

  predicate Exact(n: int) {
    -(TWO_53 as int) <= n <= TWO_53
  }

  lemma ExactStays(n: int)
    requires Exact(n)
    ensures RoundToDouble(n) == n
  {
    var m: nat := if n < 0 then -n else n;
    if m == TWO_53 {
      assert RoundAt(m, 1) == RoundAt(m, 2) == m;
    } else {
      assert RoundAt(m, 1) == m;
    }
  }

  /** Within 53 bits two increments are one increment by their sum. */
  lemma IncrementsAdd(doc: seq<Field>, path: Path, base: int, a: int, b: int)
    requires path != [] && (Get(doc, path) == Some(Int32(base)) || Get(doc, path) == Some(Int64(base)))
    requires Exact(base) && Exact(a) && Exact(b) && Exact(base + a) && Exact(a + b) && Exact(base + a + b)
    ensures var once := ApplyOne("$inc", doc, path, Int64(a));
            once.Ok? && ApplyOne("$inc", once.value, path, Int64(b)) == ApplyOne("$inc", doc, path, Int64(a + b)) ==
              Ok(Set(doc, path, Int64(base + a + b)))
  {
    hide Exact, Get, Set, ApplyOne, Incremented;
    SetTwice(doc, path, Int64(base + a), Int64(base + a + b));
    IncrementedExactly(Get(doc, path).value, base, a);
    IncrementedExactly(Int64(base + a), base + a, b);
    IncrementedExactly(Get(doc, path).value, base, a + b);
    IncrementSets(doc, path, Int64(a), Int64(base + a));
    IncrementSets(Set(doc, path, Int64(base + a)), path, Int64(b), Int64(base + a + b));
    IncrementSets(doc, path, Int64(a + b), Int64(base + a + b));
  }

  lemma IncrementSets(doc: seq<Field>, path: Path, arg: Value, v: Value)
    requires Incremented(Get(doc, path), arg) == Ok(v)
    ensures ApplyOne("$inc", doc, path, arg) == Ok(Set(doc, path, v))
  {
    hide Get, Set, Incremented;
  }

  lemma SetTwice(doc: seq<Field>, path: Path, v: Value, w: Value)
    requires path != []
    ensures Get(Set(doc, path, v), path) == Some(v) && Set(Set(doc, path, v), path, w) == Set(doc, path, w)
  {
    GetSet(doc, path, v, []);
    SetSet(doc, path, v, w);
    assert path + [] == path;
    hide Get, Set;
  }

  lemma IncrementedExactly(v: Value, base: int, a: int)
    requires (v == Int32(base) || v == Int64(base)) && Exact(base) && Exact(a) && Exact(base + a)
    ensures Incremented(Some(v), Int64(a)) == Ok(Int64(base + a))
  {
    ExactStays(base);
    ExactStays(a);
    ExactStays(base + a);
    hide RoundToDouble;
    assert (base as real + a as real).Floor == base + a;
  }
}
