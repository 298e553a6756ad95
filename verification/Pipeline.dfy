/** Aggregation pipelines: the $match prefix pushed into SQL, the stages that run afterwards, and
    grouping. */
module Pipeline {
  import opened Optional
  import opened Bson
  import Filter
  import FilterTruth
  import Projection
  import SortOrder

  /** SyntaxError is the server's own, for a condition that does not read. */
  datatype Refusal = FailedToParse | NotImplemented | TypeMismatch | BadValue | SyntaxError

  datatype Result<+T> = Ok(value: T) | Err(refusal: Refusal)

  type Doc = seq<Field>

  // ---------------------------------------------------------------- $group: keys and operands

  /** A $group _id or a $sum operand, once its field path has been looked at. */
  datatype Source = Literal(v: Value) | FieldPath(path: Path)

  function FieldSource(text: string): Result<Source> {
    match SplitPath(text[if text == [] then 0 else 1..])
    case None => Err(FailedToParse)
    case Some(path) => Ok(FieldPath(path))
  }

  predicate NamesField(v: Value) {
    v.Utf8? && v.text != [] && v.text[0] == '$'
  }

  function KeySource(spec: Value): Result<Source> {
    if spec.Document? then Err(NotImplemented)
    else if NamesField(spec) then FieldSource(spec.text)
    else Ok(Literal(spec))
  }

  function KeyOf(doc: Doc, source: Source): Value {
    match source
    case Literal(v) => v
    case FieldPath(path) => Get(doc, path).GetOr(Null)
  }

  function SumSource(operand: Value): Result<Source> {
    if NamesField(operand) then FieldSource(operand.text)
    else if operand.Utf8? || IsNumeric(operand) then Ok(Literal(operand))
    else Err(NotImplemented)
  }

  const ZERO := Finite(0.0)

  /** What a document adds to a total: nothing where the field is missing or not a number. */
  function Operand(doc: Doc, source: Source): Double {
    var v := KeyOf(doc, source);
    if IsNumeric(v) then AsDouble(v) else ZERO
  }

  // ---------------------------------------------------------------- $group: the groups

  datatype Group = Group(key: Value, members: seq<Doc>)

  /** The first group whose key equals this one, or one past the last. */
  function Slot(groups: seq<Group>, key: Value): (n: nat)
    ensures n <= |groups|
    ensures n < |groups| ==> ValueEqual(groups[n].key, key)
    ensures forall i :: 0 <= i < n ==> !ValueEqual(groups[i].key, key)
  {
    if groups == [] || ValueEqual(groups[0].key, key) then 0
    else
      var n := Slot(groups[1..], key);
      assert forall i :: 1 <= i < n + 1 ==> groups[i] == groups[1..][i - 1];
      1 + n
  }

  function PutIn(groups: seq<Group>, key: Value, doc: Doc): seq<Group> {
    var n := Slot(groups, key);
    if n == |groups| then groups + [Group(key, [doc])]
    else groups[n := Group(groups[n].key, groups[n].members + [doc])]
  }

  function Grouped(docs: seq<Doc>, src: Source): seq<Group> {
    if docs == [] then []
    else
      var last := docs[|docs| - 1];
      PutIn(Grouped(docs[..|docs| - 1], src), KeyOf(last, src), last)
  }

  function Sum(docs: seq<Doc>, of: Source): Double {
    if docs == [] then ZERO else Plus(Sum(docs[..|docs| - 1], of), Operand(docs[|docs| - 1], of))
  }

  function AllMembers(groups: seq<Group>): multiset<Doc> {
    if groups == [] then multiset{} else multiset(groups[0].members) + AllMembers(groups[1..])
  }

  function SumOfSums(groups: seq<Group>, of: Source): Double {
    if groups == [] then ZERO else Plus(Sum(groups[0].members, of), SumOfSums(groups[1..], of))
  }

  /** The group has its first member's key, and every member's key equals it, unless it is alone with
      a key that equals nothing. */
  predicate Belongs(g: Group, src: Source) {
    g.members != [] && g.key == KeyOf(g.members[0], src) &&
    forall k :: 0 <= k < |g.members| ==>
      ValueEqual(g.key, KeyOf(g.members[k], src)) || (|g.members| == 1 && g.key == KeyOf(g.members[k], src))
  }

  predicate KeysApart(groups: seq<Group>) {
    forall i, j :: 0 <= i < j < |groups| ==> !ValueEqual(groups[i].key, groups[j].key)
  }

  lemma PlusLaws(a: Double, b: Double, c: Double)
    ensures Plus(Plus(a, b), c) == Plus(a, Plus(b, c)) && Plus(a, b) == Plus(b, a) && Plus(a, ZERO) == a
  {
  }

  lemma {:induction false} PutInMembers(groups: seq<Group>, key: Value, doc: Doc)
    ensures AllMembers(PutIn(groups, key, doc)) == AllMembers(groups) + multiset{doc}
  {
    if groups != [] {
      hide ValueEqual;
      if ValueEqual(groups[0].key, key) {
        assert PutIn(groups, key, doc)[1..] == groups[1..];
      } else {
        assert PutIn(groups, key, doc)[1..] == PutIn(groups[1..], key, doc);
        PutInMembers(groups[1..], key, doc);
      }
    }
  }

  lemma {:induction false} PutInSums(groups: seq<Group>, key: Value, doc: Doc, of: Source)
    ensures SumOfSums(PutIn(groups, key, doc), of) == Plus(SumOfSums(groups, of), Operand(doc, of))
  {
    hide ValueEqual, Plus, Operand;
    var d := Operand(doc, of);
    if groups == [] {
      assert [Group(key, [doc])][1..] == [] && [doc][..0] == [];
      assert Sum([doc], of) == Plus(ZERO, d);
      PlusLaws(ZERO, d, ZERO);
      PlusLaws(Plus(ZERO, d), ZERO, ZERO);
    } else {
      var s, rest := Sum(groups[0].members, of), SumOfSums(groups[1..], of);
      if ValueEqual(groups[0].key, key) {
        var more := groups[0].members + [doc];
        assert PutIn(groups, key, doc)[1..] == groups[1..] && more[..|more| - 1] == groups[0].members;
        PlusLaws(s, d, rest);
        PlusLaws(s, rest, d);
        PlusLaws(d, rest, s);
      } else {
        assert PutIn(groups, key, doc)[1..] == PutIn(groups[1..], key, doc);
        PutInSums(groups[1..], key, doc, of);
        PlusLaws(s, rest, d);
      }
    }
  }

  lemma PutInApart(groups: seq<Group>, src: Source, doc: Doc)
    requires KeysApart(groups) && forall i :: 0 <= i < |groups| ==> Belongs(groups[i], src)
    ensures var r := PutIn(groups, KeyOf(doc, src), doc);
            KeysApart(r) && forall i :: 0 <= i < |r| ==> Belongs(r[i], src)
  {
    var key := KeyOf(doc, src);
    var n := Slot(groups, key);
    if n < |groups| {
      var g := groups[n];
      assert |g.members| == 1 && g.key == KeyOf(g.members[0], src) ==> ValueEqual(g.key, g.key) by {
        EqualToSelf(g.key, key);
      }
    }
    hide ValueEqual, KeyOf;
  }

  lemma EqualToSelf(a: Value, b: Value)
    requires ValueEqual(a, b)
    ensures ValueEqual(a, a) && ValueEqual(b, b) && ValueEqual(b, a)
  {
  }

  lemma EqualTransits(a: Value, b: Value, c: Value)
    requires ValueEqual(a, b) && ValueEqual(b, c)
    ensures ValueEqual(a, c)
  {
    hide AsDouble;
  }

  /** Grouping puts every document in exactly one group, keeps group keys unequal to each other,
      and gives no group a document of another key. */
  lemma {:induction false} GroupsPartition(docs: seq<Doc>, src: Source)
    ensures var groups := Grouped(docs, src);
            AllMembers(groups) == multiset(docs) && KeysApart(groups) &&
            forall i :: 0 <= i < |groups| ==> Belongs(groups[i], src)
  {
    if docs != [] {
      var front, last := docs[..|docs| - 1], docs[|docs| - 1];
      GroupsPartition(front, src);
      assert docs == front + [last];
      hide KeyOf, PutIn, Belongs, KeysApart;
      PutInMembers(Grouped(front, src), KeyOf(last, src), last);
      PutInApart(Grouped(front, src), src, last);
    }
  }

  /** Documents with equal keys are never in different groups. */
  lemma EqualKeysShare(docs: seq<Doc>, src: Source, i: nat, j: nat, a: nat, b: nat)
    requires var groups := Grouped(docs, src);
             i < |groups| && j < |groups| && a < |groups[i].members| && b < |groups[j].members| &&
             ValueEqual(KeyOf(groups[i].members[a], src), KeyOf(groups[j].members[b], src))
    ensures i == j
  {
    GroupsPartition(docs, src);
    var groups := Grouped(docs, src);
    var x, y := KeyOf(groups[i].members[a], src), KeyOf(groups[j].members[b], src);
    assert Belongs(groups[i], src) && Belongs(groups[j], src);
    hide ValueEqual, Grouped, KeyOf;
    EqualToSelf(x, y);
    if ValueEqual(groups[j].key, y) { EqualToSelf(groups[j].key, y); }
    if ValueEqual(groups[i].key, x) { EqualToSelf(groups[i].key, x); }
    assert ValueEqual(groups[i].key, x) && ValueEqual(y, groups[j].key);
    EqualTransits(groups[i].key, x, y);
    EqualTransits(groups[i].key, y, groups[j].key);
    EqualToSelf(groups[i].key, groups[j].key);
  }

  /** The totals of all groups add up to the total over all documents. */
  lemma {:induction false} SumsConserved(docs: seq<Doc>, src: Source, of: Source)
    ensures SumOfSums(Grouped(docs, src), of) == Sum(docs, of)
  {
    if docs != [] {
      hide KeyOf, PutIn, Operand, Plus;
      var front, last := docs[..|docs| - 1], docs[|docs| - 1];
      SumsConserved(front, src, of);
      PutInSums(Grouped(front, src), KeyOf(last, src), last, of);
    }
  }

  // ---------------------------------------------------------------- $group: the stage

  datatype Accumulator = Accumulator(name: string, operand: Value)

  function Accumulators(fields: seq<Field>): Result<seq<Accumulator>> {
    if fields == [] then Ok([])
    else
      var body := fields[0].value;
      if !body.Document? || |body.fields| != 1 || body.fields[0].key != "$sum" then Err(NotImplemented)
      else
        match Accumulators(fields[1..])
        case Err(e) => Err(e)
        case Ok(rest) => Ok([Accumulator(fields[0].key, body.fields[0].value)] + rest)
  }

  function SumSources(accumulators: seq<Accumulator>): Result<seq<Source>> {
    if accumulators == [] then Ok([])
    else
      match SumSource(accumulators[0].operand)
      case Err(e) => Err(e)
      case Ok(s) =>
        match SumSources(accumulators[1..])
        case Err(e) => Err(e)
        case Ok(rest) => Ok([s] + rest)
  }

  function TotalFields(accumulators: seq<Accumulator>, sources: seq<Source>, members: seq<Doc>): seq<Field>
    requires |sources| == |accumulators|
  {
    if accumulators == [] then []
    else
      [Field(accumulators[0].name, Dbl(Sum(members, sources[0])))] +
      TotalFields(accumulators[1..], sources[1..], members)
  }

  function GroupDocs(groups: seq<Group>, accumulators: seq<Accumulator>, sources: seq<Source>): seq<Doc>
    requires |sources| == |accumulators|
  {
    if groups == [] then []
    else
      [[Field("_id", groups[0].key)] + TotalFields(accumulators, sources, groups[0].members)] +
      GroupDocs(groups[1..], accumulators, sources)
  }

  lemma {:induction false} SourcesLength(accumulators: seq<Accumulator>)
    ensures SumSources(accumulators).Ok? ==> |SumSources(accumulators).value| == |accumulators|
  {
    if accumulators != [] { SourcesLength(accumulators[1..]); }
  }

  /** apply_group: field paths are looked at only when there is a document to read them from. */
  function GroupStage(docs: seq<Doc>, spec: seq<Field>): Result<seq<Doc>> {
    if spec == [] || spec[0].key != "_id" then Err(FailedToParse)
    else
      match Accumulators(spec[1..])
      case Err(e) => Err(e)
      case Ok(accumulators) =>
        if docs == [] then Ok([])
        else
          match (KeySource(spec[0].value), SumSources(accumulators))
          case (Err(e), _) => Err(e)
          case (_, Err(e)) => Err(e)
          case (Ok(src), Ok(sources)) =>
            SourcesLength(accumulators);
            Ok(GroupDocs(Grouped(docs, src), accumulators, sources))
  }

  // ---------------------------------------------------------------- the other stages

  function OfProjection(r: Projection.Result<Doc>): Result<Doc> {
    match r
    case Ok(d) => Ok(d)
    case Err(e) => Err(if e.FailedToParse? then FailedToParse else NotImplemented)
  }

  function ProjectAll(docs: seq<Doc>, spec: seq<Field>): Result<seq<Doc>> {
    if docs == [] then Ok([])
    else
      match OfProjection(Projection.Projected(docs[0], spec))
      case Err(e) => Err(e)
      case Ok(d) =>
        match ProjectAll(docs[1..], spec)
        case Err(e) => Err(e)
        case Ok(rest) => Ok([d] + rest)
  }

  function SortAll(docs: seq<Doc>, spec: seq<Field>): Result<seq<Doc>> {
    match SortOrder.SortFor(spec, docs)
    case Err(e) => Err(if e.BadValue? then BadValue else FailedToParse)
    case Ok(sorted) => Ok(sorted)
  }

  /** positive_count, held at the number of documents there are. */
  function CountArgument(v: Value, most: nat): (r: Result<nat>)
    ensures r.Ok? ==> r.value <= most
  {
    if !IsNumeric(v) then Err(TypeMismatch)
    else
      var n := AsDouble(v);
      if DoubleLess(n, ZERO) then Err(BadValue)
      else if n.Finite? && n.r.Floor < most then Ok(n.r.Floor)
      else Ok(most)
  }

  /** The operator and argument of a stage of exactly one field. */
  function StageOperator(stage: Doc): Result<Field> {
    if |stage| != 1 then Err(FailedToParse) else Ok(stage[0])
  }

  function RunStage(docs: seq<Doc>, op: string, body: Value): Result<seq<Doc>> {
    if op == "$match" then Err(NotImplemented)
    else if op == "$project" then ProjectAll(docs, FieldsIn(body))
    else if op == "$sort" then SortAll(docs, FieldsIn(body))
    else if op == "$skip" then
      match CountArgument(body, |docs|)
      case Err(e) => Err(e)
      case Ok(n) => Ok(docs[n..])
    else if op == "$limit" then
      match CountArgument(body, |docs|)
      case Err(e) => Err(e)
      case Ok(n) => Ok(docs[..n])
    else if op == "$group" then GroupStage(docs, FieldsIn(body))
    else if op == "$count" then
      if body.Utf8? then Ok([[Field(body.text, Int64(|docs|))]]) else Err(TypeMismatch)
    else Err(NotImplemented)
  }

  function Run(docs: seq<Doc>, stages: seq<Doc>): Result<seq<Doc>>
    decreases |stages|
  {
    if stages == [] then Ok(docs)
    else
      match StageOperator(stages[0])
      case Err(e) => Err(e)
      case Ok(f) =>
        match RunStage(docs, f.key, f.value)
        case Err(e) => Err(e)
        case Ok(next) => Run(next, stages[1..])
  }

  // ---------------------------------------------------------------- what a stage gives

  const STAGES: set<string> := {"$project", "$sort", "$skip", "$limit", "$group", "$count"}

  /** Each stage takes what the one before it gave. */
  ghost predicate Flows(flow: seq<seq<Doc>>, stages: seq<Doc>) {
    |flow| == |stages| + 1 &&
    forall i :: 0 <= i < |stages| ==>
      |stages[i]| == 1 && RunStage(flow[i], stages[i][0].key, stages[i][0].value) == Ok(flow[i + 1])
  }

  /** Why a stage refuses what it is given: not one field, no stage for this place, or its own reason. */
  ghost predicate Stops(docs: seq<Doc>, stage: Doc, e: Refusal) {
    if |stage| != 1 then e == FailedToParse
    else if stage[0].key !in STAGES then e == NotImplemented
    else RunStage(docs, stage[0].key, stage[0].value) == Err(e)
  }

  /** What comes of a pipeline: the last stage's documents, or the refusal of the first that stops. */
  ghost predicate Comes(docs: seq<Doc>, stages: seq<Doc>, flow: seq<seq<Doc>>, r: Result<seq<Doc>>) {
    && flow != [] && flow[0] == docs && |flow| <= |stages| + 1 && Flows(flow, stages[..|flow| - 1])
    && match r
       case Ok(out) => |flow| == |stages| + 1 && flow[|stages|] == out
       case Err(e) => |flow| <= |stages| && Stops(flow[|flow| - 1], stages[|flow| - 1], e)
  }

  /** A pipeline is its stages one after another. */
  lemma {:induction false} StagesInOrder(docs: seq<Doc>, stages: seq<Doc>) returns (flow: seq<seq<Doc>>)
    ensures Comes(docs, stages, flow, Run(docs, stages))
    decreases |stages|
  {
    flow := [docs];
    if stages != [] && |stages[0]| == 1 {
      var op, body := stages[0][0].key, stages[0][0].value;
      OtherStage(docs, op, body);
      hide RunStage;
      if RunStage(docs, op, body).Ok? {
        var next := RunStage(docs, op, body).value;
        hide Comes;
        var rest := StagesInOrder(next, stages[1..]);
        flow := flow + rest;
        ComesAfter(docs, stages, next, rest, Run(docs, stages));
      }
    }
  }

  lemma ComesAfter(docs: seq<Doc>, stages: seq<Doc>, next: seq<Doc>, rest: seq<seq<Doc>>, r: Result<seq<Doc>>)
    requires stages != [] && |stages[0]| == 1
    requires RunStage(docs, stages[0][0].key, stages[0][0].value) == Ok(next)
    requires Comes(next, stages[1..], rest, r)
    ensures Comes(docs, stages, [docs] + rest, r)
  {
    hide RunStage, Flows, Stops;
    FlowsOn(docs, stages[0], stages[1..][..|rest| - 1], rest);
    assert stages[..|rest|] == [stages[0]] + stages[1..][..|rest| - 1];
  }

  lemma OtherStage(docs: seq<Doc>, op: string, body: Value)
    ensures op !in STAGES ==> RunStage(docs, op, body) == Err(NotImplemented)
  {
    hide ProjectAll, SortAll, GroupStage, CountArgument;
  }

  lemma FlowsOn(docs: seq<Doc>, stage: Doc, stages: seq<Doc>, flow: seq<seq<Doc>>)
    requires |stage| == 1 && flow != [] && RunStage(docs, stage[0].key, stage[0].value) == Ok(flow[0])
    requires Flows(flow, stages)
    ensures Flows([docs] + flow, [stage] + stages)
  {
    hide RunStage;
    forall i | 0 <= i < |stages| + 1
      ensures var s := ([stage] + stages)[i];
              |s| == 1 && RunStage(([docs] + flow)[i], s[0].key, s[0].value) == Ok(([docs] + flow)[i + 1])
    {
      if i > 0 { assert ([stage] + stages)[i] == stages[i - 1] && ([docs] + flow)[i] == flow[i - 1]; }
    }
  }

  /** A whole number of documents, written as an integer or as a double with or without a fraction. */
  predicate Counts(v: Value, n: nat) {
    || v == Int32(n) || (v == Int64(n) && n < TWO_53)
    || (v.Dbl? && v.d.Finite? && n as real <= v.d.r < n as real + 1.0)
  }

  lemma ArgumentIs(v: Value, n: nat, most: nat)
    requires Counts(v, n)
    ensures CountArgument(v, most) == Ok(if n < most then n else most)
  {
    if v.Int64? {
      SmallIsExact(n);
      assert n == 0 ==> RoundToDouble(n) == 0;
    }
    hide RoundAt;
  }

  /** $skip drops the first n documents and $limit keeps them. */
  lemma SkipAndLimit(docs: seq<Doc>, body: Value, n: nat)
    requires Counts(body, n)
    ensures var skipped := RunStage(docs, "$skip", body);
            && skipped.Ok? && |skipped.value| == (if n < |docs| then |docs| - n else 0)
            && forall i :: 0 <= i < |skipped.value| ==> skipped.value[i] == docs[n + i]
    ensures var limited := RunStage(docs, "$limit", body);
            && limited.Ok? && |limited.value| == (if n < |docs| then n else |docs|)
            && forall i :: 0 <= i < |limited.value| ==> limited.value[i] == docs[i]
  {
    ArgumentIs(body, n, |docs|);
    hide CountArgument, Counts;
  }

  /** A negative number of documents, or something that is no number, is refused. */
  lemma CountRefused(docs: seq<Doc>, op: string, body: Value)
    requires op == "$skip" || op == "$limit"
    ensures RunStage(docs, op, body) == Err(TypeMismatch) <==> !IsNumeric(body)
    ensures RunStage(docs, op, body) == Err(BadValue) <==> IsNumeric(body) && DoubleLess(AsDouble(body), Finite(0.0))
  {
  }

  /** $count gives one document that holds the number of documents it was given. */
  lemma CountStage(docs: seq<Doc>, body: Value)
    ensures var r := RunStage(docs, "$count", body);
            if body.Utf8? then r.Ok? && |r.value| == 1 && Get(r.value[0], [body.text]) == Some(Int64(|docs|))
                               && |r.value[0]| == 1
            else r == Err(TypeMismatch)
  {
  }

  /** Each document projected where it stands, or the refusal of the first that cannot be. */
  ghost predicate ProjectsEach(docs: seq<Doc>, spec: seq<Field>, r: Result<seq<Doc>>) {
    match r
    case Ok(out) =>
      |out| == |docs| && forall i :: 0 <= i < |docs| ==> Projection.Projected(docs[i], spec) == Projection.Ok(out[i])
    case Err(e) =>
      exists i :: 0 <= i < |docs| && OfProjection(Projection.Projected(docs[i], spec)) == Err(e)
                  && forall j :: 0 <= j < i ==> Projection.Projected(docs[j], spec).Ok?
  }

  lemma ProjectStage(docs: seq<Doc>, spec: seq<Field>)
    ensures ProjectsEach(docs, spec, RunStage(docs, "$project", Document(spec)))
  {
    hide ProjectAll, Projection.Projected, ProjectsEach;
    ProjectEach(docs, spec);
  }

  lemma {:induction false} ProjectEach(docs: seq<Doc>, spec: seq<Field>)
    ensures ProjectsEach(docs, spec, ProjectAll(docs, spec))
  {
    hide Projection.Projected;
    if docs != [] {
      ProjectEach(docs[1..], spec);
      if ProjectAll(docs, spec).Err? && Projection.Projected(docs[0], spec).Ok? {
        var e := ProjectAll(docs, spec).refusal;
        var i :| 0 <= i < |docs[1..]| && OfProjection(Projection.Projected(docs[1..][i], spec)) == Err(e)
                 && forall j :: 0 <= j < i ==> Projection.Projected(docs[1..][j], spec).Ok?;
        assert docs[1..][i] == docs[i + 1];
        forall j | 0 <= j < i + 1 ensures Projection.Projected(docs[j], spec).Ok? {
          if j > 0 { assert docs[j] == docs[1..][j - 1]; }
        }
      }
    }
  }

  /** $sort gives what its specification asks. */
  lemma SortStage(docs: seq<Doc>, spec: seq<Field>)
    ensures SortedStage(docs, spec, RunStage(docs, "$sort", Document(spec)))
  {
    hide SortOrder.SortFor, SortOrder.RefusedFor, SortOrder.SortedBySpec, SortOrder.WeakBySpec;
    SortOrder.SortMeansSpec(spec, docs);
  }

  ghost predicate SortedStage(docs: seq<Doc>, spec: seq<Field>, r: Result<seq<Doc>>) {
    match r
    case Ok(sorted) => SortOrder.SortsBySpec(spec, docs, SortOrder.Ok(sorted))
    case Err(BadValue) => SortOrder.SortsBySpec(spec, docs, SortOrder.Err(SortOrder.BadValue))
    case Err(FailedToParse) => SortOrder.SortsBySpec(spec, docs, SortOrder.Err(SortOrder.FailedToParse))
    case Err(_) => false
  }

  // What $group gives, from its specification.

  /** A field path in a specification, and what it leads to in a document. */
  function FieldNamed(doc: Doc, text: string): Option<Value>
    requires text != []
  {
    match SplitPath(text[1..])
    case None => None
    case Some(path) => Get(doc, path)
  }

  /** The key of a document: a field, null where there is none, or the constant itself. */
  function KeyBySpec(doc: Doc, id: Value): Value {
    if id.Utf8? && "$" <= id.text then
      match FieldNamed(doc, id.text) case None => Null case Some(v) => v
    else id
  }

  /** What a document adds to a $sum: a number as it is, a numeric field, and otherwise nothing. */
  function AddsBySpec(doc: Doc, operand: Value): Double {
    if operand.Utf8? && "$" <= operand.text then
      match FieldNamed(doc, operand.text)
      case None => Finite(0.0)
      case Some(v) => if IsNumeric(v) then AsDouble(v) else Finite(0.0)
    else if IsNumeric(operand) then AsDouble(operand)
    else Finite(0.0)
  }

  function TotalBySpec(docs: seq<Doc>, operand: Value): Double {
    if docs == [] then Finite(0.0)
    else Plus(TotalBySpec(docs[..|docs| - 1], operand), AddsBySpec(docs[|docs| - 1], operand))
  }

  /** The keys in the order they first appear. */
  function KeysInOrder(docs: seq<Doc>, id: Value): seq<Value> {
    if docs == [] then []
    else
      var before, key := KeysInOrder(docs[..|docs| - 1], id), KeyBySpec(docs[|docs| - 1], id);
      if exists k :: k in before && ValueEqual(k, key) then before else before + [key]
  }

  predicate IsSum(f: Field) {
    f.value.Document? && |f.value.fields| == 1 && f.value.fields[0].key == "$sum"
  }

  predicate UsablePath(v: Value) {
    v.Utf8? && "$" <= v.text ==> SplitPath(v.text[1..]).Some?
  }

  /** A specification $group takes: an _id first, then sums; what they name is looked at only when there
      is a document. */
  predicate Groupable(spec: seq<Field>, docs: seq<Doc>) {
    && spec != [] && spec[0].key == "_id" && (forall k :: 1 <= k < |spec| ==> IsSum(spec[k]))
    && (docs != [] ==>
          && !spec[0].value.Document? && UsablePath(spec[0].value)
          && forall k :: 1 <= k < |spec| ==>
               var operand := spec[k].value.fields[0].value;
               (operand.Utf8? || IsNumeric(operand)) && UsablePath(operand))
  }

  /** A group's document: its key, then each sum over its members, under the names the specification
      gives and in its order. */
  ghost predicate DocumentOf(out: Doc, g: Group, spec: seq<Field>) {
    && |out| == |spec| > 0 && out[0] == Field("_id", g.key)
    && forall k :: 1 <= k < |spec| ==>
         IsSum(spec[k]) && out[k] == Field(spec[k].key, Dbl(TotalBySpec(g.members, spec[k].value.fields[0].value)))
  }

  /** Every document is in one group, by its key; the groups stand in the order of their keys' first
      appearance, and each gives its document. */
  ghost predicate GroupsBySpec(docs: seq<Doc>, spec: seq<Field>, groups: seq<Group>, out: seq<Doc>)
    requires spec != []
  {
    && AllMembers(groups) == multiset(docs) && KeysApart(groups)
    && (forall i :: 0 <= i < |groups| ==> SharesKey(groups[i], spec[0].value))
    && |groups| == |KeysInOrder(docs, spec[0].value)| == |out|
    && forall i :: 0 <= i < |groups| ==>
         groups[i].key == KeysInOrder(docs, spec[0].value)[i] && DocumentOf(out[i], groups[i], spec)
  }

  /** All members have the group's key, but for a single one whose key equals nothing. */
  predicate SharesKey(g: Group, id: Value) {
    g.members != [] && g.key == KeyBySpec(g.members[0], id) &&
    forall k :: 0 <= k < |g.members| ==>
      ValueEqual(g.key, KeyBySpec(g.members[k], id)) || (|g.members| == 1 && g.key == KeyBySpec(g.members[k], id))
  }

  lemma DollarIs(v: Value)
    ensures NamesField(v) <==> v.Utf8? && "$" <= v.text
  {
  }

  lemma KeyIs(doc: Doc, id: Value, src: Source)
    requires KeySource(id) == Ok(src)
    ensures KeyOf(doc, src) == KeyBySpec(doc, id)
  {
    hide SplitPath, Get;
    DollarIs(id);
  }

  lemma AddsIs(doc: Doc, operand: Value, src: Source)
    requires SumSource(operand) == Ok(src)
    ensures Operand(doc, src) == AddsBySpec(doc, operand)
  {
    hide SplitPath, Get, AsDouble;
    DollarIs(operand);
  }

  lemma {:induction false} TotalIs(docs: seq<Doc>, operand: Value, src: Source)
    requires SumSource(operand) == Ok(src)
    ensures Sum(docs, src) == TotalBySpec(docs, operand)
  {
    hide AddsBySpec, Operand, SumSource, Plus;
    if docs != [] {
      TotalIs(docs[..|docs| - 1], operand, src);
      AddsIs(docs[|docs| - 1], operand, src);
    }
  }

  lemma {:induction false} KeysAppear(docs: seq<Doc>, id: Value, src: Source)
    requires KeySource(id) == Ok(src)
    ensures var groups := Grouped(docs, src);
            && |groups| == |KeysInOrder(docs, id)|
            && forall i :: 0 <= i < |groups| ==> groups[i].key == KeysInOrder(docs, id)[i]
  {
    hide KeyBySpec, KeyOf, KeySource, ValueEqual;
    if docs != [] {
      var front, last := docs[..|docs| - 1], docs[|docs| - 1];
      KeysAppear(front, id, src);
      KeyIs(last, id, src);
      var groups, before, key := Grouped(front, src), KeysInOrder(front, id), KeyBySpec(last, id);
      var n := Slot(groups, key);
      if n < |groups| {
        assert before[n] in before && ValueEqual(before[n], key);
      } else {
        forall k | k in before ensures !ValueEqual(k, key) {
          var i :| 0 <= i < |before| && before[i] == k;
          assert groups[i].key == k;
        }
      }
    }
  }

  lemma {:induction false} AccumulatorsAre(fields: seq<Field>)
    ensures Accumulators(fields).Ok? <==> forall k :: 0 <= k < |fields| ==> IsSum(fields[k])
    ensures Accumulators(fields).Ok? ==>
      var a := Accumulators(fields).value;
      && |a| == |fields|
      && forall k :: 0 <= k < |fields| ==> a[k] == Accumulator(fields[k].key, fields[k].value.fields[0].value)
  {
    if fields != [] {
      AccumulatorsAre(fields[1..]);
      assert forall k :: 1 <= k < |fields| ==> fields[k] == fields[1..][k - 1];
      if forall k :: 0 <= k < |fields| ==> IsSum(fields[k]) {
        assert IsSum(fields[0]) && forall k :: 0 <= k < |fields[1..]| ==> IsSum(fields[1..][k]);
      }
    }
  }

  lemma {:induction false} SourcesAre(accumulators: seq<Accumulator>)
    ensures SumSources(accumulators).Ok? <==>
      forall k :: 0 <= k < |accumulators| ==> SumSource(accumulators[k].operand).Ok?
    ensures SumSources(accumulators).Ok? ==>
      var r := SumSources(accumulators).value;
      |r| == |accumulators| && forall k :: 0 <= k < |r| ==> SumSource(accumulators[k].operand) == Ok(r[k])
  {
    hide SumSource;
    if accumulators != [] {
      SourcesAre(accumulators[1..]);
      assert forall k :: 1 <= k < |accumulators| ==> accumulators[k] == accumulators[1..][k - 1];
    }
  }

  lemma UsableSource(v: Value)
    ensures KeySource(v).Ok? <==> !v.Document? && UsablePath(v)
    ensures SumSource(v).Ok? <==> (v.Utf8? || IsNumeric(v)) && UsablePath(v)
  {
    hide SplitPath;
    DollarIs(v);
  }

  lemma {:induction false} TotalsMean(accumulators: seq<Accumulator>, sources: seq<Source>, members: seq<Doc>)
    requires |sources| == |accumulators|
    requires forall k :: 0 <= k < |sources| ==> SumSource(accumulators[k].operand) == Ok(sources[k])
    ensures var out := TotalFields(accumulators, sources, members);
            |out| == |accumulators| && forall k :: 0 <= k < |out| ==>
              out[k] == Field(accumulators[k].name, Dbl(TotalBySpec(members, accumulators[k].operand)))
  {
    hide SumSource, Sum, TotalBySpec;
    if accumulators != [] {
      TotalIs(members, accumulators[0].operand, sources[0]);
      TotalsMean(accumulators[1..], sources[1..], members);
    }
  }

  lemma {:induction false} DocsAre(groups: seq<Group>, accumulators: seq<Accumulator>, sources: seq<Source>)
    requires |sources| == |accumulators|
    ensures var out := GroupDocs(groups, accumulators, sources);
            |out| == |groups| && forall i :: 0 <= i < |groups| ==>
              out[i] == [Field("_id", groups[i].key)] + TotalFields(accumulators, sources, groups[i].members)
  {
    hide TotalFields;
    if groups != [] { DocsAre(groups[1..], accumulators, sources); }
  }

  lemma DocumentIs(g: Group, spec: seq<Field>, accumulators: seq<Accumulator>, sources: seq<Source>)
    requires spec != [] && Accumulators(spec[1..]) == Ok(accumulators) && SumSources(accumulators) == Ok(sources)
    ensures |sources| == |accumulators|
    ensures DocumentOf([Field("_id", g.key)] + TotalFields(accumulators, sources, g.members), g, spec)
  {
    hide Accumulators, SumSources, SumSource, TotalFields, TotalBySpec, IsSum;
    AccumulatorsAre(spec[1..]);
    SourcesAre(accumulators);
    TotalsMean(accumulators, sources, g.members);
    assert forall k :: 1 <= k < |spec| ==> spec[k] == spec[1..][k - 1];
  }

  /** $group, from its specification: it is taken exactly when it says an _id and sums that can be
      read, and then every document is counted in the one group of its key. */
  lemma GroupMeetsSpec(docs: seq<Doc>, spec: seq<Field>) returns (groups: seq<Group>)
    ensures RunStage(docs, "$group", Document(spec)).Ok? <==> Groupable(spec, docs)
    ensures Groupable(spec, docs) ==> GroupsBySpec(docs, spec, groups, RunStage(docs, "$group", Document(spec)).value)
  {
    hide GroupStage;
    GroupTaken(docs, spec);
    groups := [];
    if Groupable(spec, docs) && docs != [] {
      hide Groupable;
      groups := GroupTotals(docs, spec);
    } else if Groupable(spec, docs) {
      NoGroups(spec);
    }
  }

  lemma NoGroups(spec: seq<Field>)
    requires Groupable(spec, [])
    ensures GroupStage([], spec).Ok? ==> GroupsBySpec([], spec, [], GroupStage([], spec).value)
  {
    hide Groupable, Accumulators;
  }

  lemma GroupTaken(docs: seq<Doc>, spec: seq<Field>)
    ensures GroupStage(docs, spec).Ok? <==> Groupable(spec, docs)
  {
    hide Accumulators, SumSources, KeySource, SumSource, Grouped, GroupDocs, UsablePath;
    if spec != [] {
      var tail := spec[1..];
      AccumulatorsAre(tail);
      assert forall k :: 1 <= k < |spec| ==> spec[k] == tail[k - 1];
      assert forall k :: 0 <= k < |tail| ==> tail[k] == spec[k + 1];
      UsableSource(spec[0].value);
      if Accumulators(tail).Ok? {
        var a := Accumulators(tail).value;
        SourcesAre(a);
        forall k | 0 <= k < |a|
          ensures SumSource(a[k].operand).Ok? <==>
                    (a[k].operand.Utf8? || IsNumeric(a[k].operand)) && UsablePath(a[k].operand)
        {
          UsableSource(a[k].operand);
        }
      }
    }
  }

  lemma GroupTotals(docs: seq<Doc>, spec: seq<Field>) returns (groups: seq<Group>)
    requires GroupStage(docs, spec).Ok? && docs != []
    ensures spec != [] && GroupsBySpec(docs, spec, groups, GroupStage(docs, spec).value)
  {
    var a := Accumulators(spec[1..]).value;
    var src, sources := KeySource(spec[0].value).value, SumSources(a).value;
    groups := Grouped(docs, src);
    var out := GroupStage(docs, spec).value;
    SourcesLength(a);
    assert out == GroupDocs(groups, a, sources);
    hide GroupStage, Accumulators, SumSources, KeySource, Grouped, GroupDocs, TotalFields, DocumentOf;
    hide KeyBySpec, KeyOf, KeysInOrder, AllMembers, KeysApart, ValueEqual;
    GroupsPartition(docs, src);
    KeysAppear(docs, spec[0].value, src);
    DocsAre(groups, a, sources);
    forall i | 0 <= i < |groups|
      ensures SharesKey(groups[i], spec[0].value) && DocumentOf(out[i], groups[i], spec)
    {
      DocumentIs(groups[i], spec, a, sources);
      MembersShare(groups[i], spec[0].value, src);
    }
    hide SharesKey;
  }

  lemma MembersShare(g: Group, id: Value, src: Source)
    requires KeySource(id) == Ok(src) && Belongs(g, src)
    ensures SharesKey(g, id)
  {
    hide KeyBySpec, KeyOf, KeySource, ValueEqual;
    forall k | 0 <= k < |g.members|
      ensures KeyOf(g.members[k], src) == KeyBySpec(g.members[k], id)
    {
      KeyIs(g.members[k], id, src);
    }
  }

  // ---------------------------------------------------------------- pushing $match into SQL

  /** What each leaf of a condition says of a document. */
  type Judge = (Doc, Filter.Cond) -> Filter.Truth

  /** What a condition says of a document. */
  function Judged(t: Filter.Tree, d: Doc, judge: Judge): Filter.Truth {
    Filter.Judged(t, About(judge, d))
  }

  function About(judge: Judge, d: Doc): Filter.Cond -> Filter.Truth {
    (c: Filter.Cond) => judge(d, c)
  }

  function Keep(docs: seq<Doc>, t: Filter.Tree, judge: Judge): seq<Doc> {
    if docs == [] then []
    else (if Judged(t, docs[0], judge) == Filter.True then [docs[0]] else []) + Keep(docs[1..], t, judge)
  }

  function OfFilter(e: Filter.Refusal): Refusal {
    match e
    case FailedToParse => FailedToParse
    case NotImplemented => NotImplemented
    case TypeMismatch => TypeMismatch
    case BadValue => BadValue
  }

  const COLUMN := "doc"

  /** SELECT … WHERE the compiled filter; a $not over an empty document makes it unreadable. */
  function Where(docs: seq<Doc>, filter: seq<Field>, judge: Judge): Result<seq<Doc>> {
    match Filter.DocumentTree(COLUMN, filter)
    case Err(e) => Err(OfFilter(e))
    case Ok(t) => if Filter.FullFields(filter) then Ok(Keep(docs, t, judge)) else Err(SyntaxError)
  }

  // What a WHERE keeps, in terms of the filter.

  /** What the server makes of an operand of a condition on a document. */
  type Server = (Doc, string, seq<Filter.Param>) -> Filter.Truth

  function On(server: Server, d: Doc): FilterTruth.Server {
    (s: string, ps: seq<Filter.Param>) => server(d, s, ps)
  }

  function ByServer(server: Server): Judge {
    (d: Doc, c: Filter.Cond) => server(d, Filter.Spelled(c.tokens), c.bound)
  }

  /** The filter is true of the document. */
  predicate Satisfies(d: Doc, filter: seq<Field>, server: Server) {
    FilterTruth.DocumentTruth(filter, FilterTruth.Said(On(server, d), COLUMN)) == Filter.True
  }

  function Satisfying(docs: seq<Doc>, filter: seq<Field>, server: Server): seq<Doc> {
    if docs == [] then []
    else (if Satisfies(docs[0], filter, server) then [docs[0]] else []) + Satisfying(docs[1..], filter, server)
  }

  /** A WHERE keeps the documents its filter is true of, in their order; a filter it cannot be written
      for is refused for its first fault. */
  lemma WhereKeeps(docs: seq<Doc>, filter: seq<Field>, server: Server)
    requires forall d: Doc :: FilterTruth.SpeaksSql(On(server, d), COLUMN)
    ensures match FilterTruth.DocumentFault(filter)
            case Some(e) => Where(docs, filter, ByServer(server)) == Err(OfFilter(e))
            case None => Where(docs, filter, ByServer(server)) ==
                         if Filter.FullFields(filter) then Ok(Satisfying(docs, filter, server)) else Err(SyntaxError)
  {
    hide Filter.DocumentTree, FilterTruth.DocumentFault, Keep, Satisfying, FilterTruth.SpeaksSql;
    FilterTruth.TreeRight(COLUMN, filter);
    if Filter.DocumentTree(COLUMN, filter).Ok? {
      KeepsSatisfying(docs, filter, Filter.DocumentTree(COLUMN, filter).value, server);
    }
  }

  lemma {:induction false} KeepsSatisfying(docs: seq<Doc>, filter: seq<Field>, t: Filter.Tree, server: Server)
    requires forall d: Doc :: FilterTruth.SpeaksSql(On(server, d), COLUMN)
    requires Filter.DocumentTree(COLUMN, filter) == Filter.Ok(t)
    ensures Keep(docs, t, ByServer(server)) == Satisfying(docs, filter, server)
  {
    hide Filter.DocumentTree, FilterTruth.SpeaksSql, Judged, Satisfies;
    if docs != [] {
      JudgedSatisfies(docs[0], filter, t, server);
      KeepsSatisfying(docs[1..], filter, t, server);
    }
  }

  lemma JudgedSatisfies(d: Doc, filter: seq<Field>, t: Filter.Tree, server: Server)
    requires FilterTruth.SpeaksSql(On(server, d), COLUMN) && Filter.DocumentTree(COLUMN, filter) == Filter.Ok(t)
    ensures Judged(t, d, ByServer(server)) == Filter.True <==> Satisfies(d, filter, server)
  {
    hide Filter.DocumentTree, FilterTruth.SpeaksSql, FilterTruth.DocumentTruth, Filter.Spelled;
    FilterTruth.DocumentSays(COLUMN, filter, On(server, d));
    var mine, theirs := About(ByServer(server), d), FilterTruth.ByText(On(server, d));
    forall c
      ensures mine(c) == theirs(c)
    {
      assert mine(c) == server(d, Filter.Spelled(c.tokens), c.bound);
      assert theirs(c) == On(server, d)(Filter.Spelled(c.tokens), c.bound);
    }
    hide About, ByServer, On, FilterTruth.ByText;
    SameJudge(t, mine, theirs);
  }

  lemma {:induction false} SameJudge(t: Filter.Tree, judge: Filter.Cond -> Filter.Truth,
                                     other: Filter.Cond -> Filter.Truth)
    requires forall c :: judge(c) == other(c)
    ensures Filter.Judged(t, judge) == Filter.Judged(t, other)
    decreases t
  {
    match t
    case Leaf(_) =>
    case Lacks(_) =>
    case Not(u) => SameJudge(u, judge, other);
    case And(parts) => SameJudges(parts, judge, other);
    case Or(parts) => SameJudges(parts, judge, other);
  }

  lemma {:induction false} SameJudges(parts: seq<Filter.Tree>, judge: Filter.Cond -> Filter.Truth,
                                      other: Filter.Cond -> Filter.Truth)
    requires forall c :: judge(c) == other(c)
    ensures Filter.JudgedAll(parts, judge) == Filter.JudgedAll(parts, other)
    ensures Filter.JudgedAny(parts, judge) == Filter.JudgedAny(parts, other)
    decreases parts
  {
    if parts != [] {
      SameJudge(parts[0], judge, other);
      SameJudges(parts[1..], judge, other);
    }
  }

  datatype Plan = Plan(prefilter: seq<Field>, stages: seq<Doc>)

  /** The argument documents of the leading $match stages, and the stages behind them. */
  function LeadingMatches(stages: seq<Doc>): Result<(seq<seq<Field>>, seq<Doc>)> {
    if stages == [] then Ok(([], []))
    else
      match StageOperator(stages[0])
      case Err(e) => Err(e)
      case Ok(f) =>
        if f.key != "$match" then Ok(([], stages))
        else if !f.value.Document? then Err(TypeMismatch)
        else
          match LeadingMatches(stages[1..])
          case Err(e) => Err(e)
          case Ok((matches, rest)) => Ok(([f.value.fields] + matches, rest))
  }

  function Branches(matches: seq<seq<Field>>): seq<Value> {
    seq(|matches|, i requires 0 <= i < |matches| => Document(matches[i]))
  }

  /** One $match is the prefilter itself, several are one $and. */
  function Prefilter(matches: seq<seq<Field>>): seq<Field> {
    if matches == [] then []
    else if |matches| == 1 then matches[0]
    else [Field("$and", Array(Elements(Branches(matches))))]
  }

  function Split(stages: seq<Doc>): Result<Plan> {
    match LeadingMatches(stages)
    case Err(e) => Err(e)
    case Ok((matches, rest)) => Ok(Plan(Prefilter(matches), rest))
  }

  /** The pipeline as it is run: the prefilter in SQL, then the stages. */
  function SplitRun(docs: seq<Doc>, stages: seq<Doc>, judge: Judge): Result<seq<Doc>> {
    match Split(stages)
    case Err(e) => Err(e)
    case Ok(plan) =>
      match Where(docs, plan.prefilter, judge)
      case Err(e) => Err(e)
      case Ok(kept) => Run(kept, plan.stages)
  }

  /** The pipeline as it is written: every stage in turn, a $match filtering where it stands. */
  function EveryStage(docs: seq<Doc>, stages: seq<Doc>, judge: Judge): Result<seq<Doc>>
    decreases |stages|
  {
    if stages == [] then Ok(docs)
    else
      match StageOperator(stages[0])
      case Err(e) => Err(e)
      case Ok(f) =>
        match (if f.key == "$match" then
                 (if f.value.Document? then Where(docs, f.value.fields, judge) else Err(TypeMismatch))
               else RunStage(docs, f.key, f.value))
        case Err(e) => Err(e)
        case Ok(next) => EveryStage(next, stages[1..], judge)
  }

  predicate IsMatch(stage: Doc) {
    |stage| == 1 && stage[0].key == "$match"
  }

  /** No $match behind another kind of stage. */
  predicate MatchesLead(stages: seq<Doc>) {
    forall i, j :: 0 <= i < j < |stages| && IsMatch(stages[j]) ==> IsMatch(stages[i])
  }

  // ---------------------------------------------------------------- both ways are the same

  lemma AndJudged(t: Filter.Tree, rest: seq<Filter.Tree>, d: Doc, judge: Judge)
    ensures Judged(Filter.And([t] + rest), d, judge) ==
            Filter.Both(Judged(t, d, judge), Judged(Filter.And(rest), d, judge))
  {
    assert ([t] + rest)[1..] == rest;
    var of := About(judge, d);
    assert Filter.Judged(Filter.And([t] + rest), of) == Filter.JudgedAll([t] + rest, of);
    assert Filter.Judged(Filter.And(rest), of) == Filter.JudgedAll(rest, of);
  }

  lemma {:induction false} KeepBoth(docs: seq<Doc>, t: Filter.Tree, rest: seq<Filter.Tree>, judge: Judge)
    ensures Keep(docs, Filter.And([t] + rest), judge) == Keep(Keep(docs, t, judge), Filter.And(rest), judge)
  {
    if docs != [] {
      KeepBoth(docs[1..], t, rest, judge);
      assert ([t] + rest)[1..] == rest;
      AndJudged(t, rest, docs[0], judge);
      hide Judged;
      var kept := Keep(docs[1..], t, judge);
      assert ([docs[0]] + kept)[1..] == kept && [] + kept == kept;
      if Judged(t, docs[0], judge) == Filter.True {
        assert Keep(docs, t, judge) == [docs[0]] + kept;
      } else {
        assert Keep(docs, t, judge) == kept;
      }
    }
  }

  lemma {:induction false} KeepAll(docs: seq<Doc>, judge: Judge)
    ensures Keep(docs, Filter.And([]), judge) == docs
  {
    if docs != [] {
      KeepAll(docs[1..], judge);
      assert docs == [docs[0]] + docs[1..];
    }
  }

  /** Filters one after another. */
  function WhereEach(docs: seq<Doc>, matches: seq<seq<Field>>, judge: Judge): Result<seq<Doc>>
    decreases |matches|
  {
    if matches == [] then Ok(docs)
    else
      match Where(docs, matches[0], judge)
      case Err(e) => Err(e)
      case Ok(kept) => WhereEach(kept, matches[1..], judge)
  }

  function Trees(matches: seq<seq<Field>>): Filter.Result<seq<Filter.Tree>> {
    if matches == [] then Filter.Ok([])
    else Filter.Prepend(Filter.DocumentTree(COLUMN, matches[0]), Trees(matches[1..]))
  }

  function WhereTrees(docs: seq<Doc>, trees: Filter.Result<seq<Filter.Tree>>, judge: Judge): Result<seq<Doc>> {
    match trees
    case Err(e) => Err(OfFilter(e))
    case Ok(ts) => Ok(Keep(docs, Filter.And(ts), judge))
  }

  predicate AllFull(matches: seq<seq<Field>>) {
    forall i :: 0 <= i < |matches| ==> Filter.FullFields(matches[i])
  }

  lemma {:induction false} EmptyNotFails(docs: seq<Doc>, matches: seq<seq<Field>>, judge: Judge)
    requires !AllFull(matches)
    ensures WhereEach(docs, matches, judge).Err?
    decreases |matches|
  {
    hide Filter.DocumentTree, Filter.FullFields, Keep;
    if Where(docs, matches[0], judge).Ok? {
      var i :| 0 <= i < |matches| && !Filter.FullFields(matches[i]);
      assert matches[1..][i - 1] == matches[i];
      EmptyNotFails(Where(docs, matches[0], judge).value, matches[1..], judge);
    }
  }

  lemma {:induction false} FullTogether(matches: seq<seq<Field>>, fields: seq<Field>)
    requires |fields| == |matches| && forall i :: 0 <= i < |matches| ==> fields[i].value == Document(matches[i])
    ensures Filter.FullBranches(fields) <==> AllFull(matches)
  {
    hide Filter.FullFields;
    if matches != [] {
      FullTogether(matches[1..], fields[1..]);
      assert forall i :: 0 < i < |matches| ==> matches[i] == matches[1..][i - 1];
    }
  }

  lemma FullPrefilter(matches: seq<seq<Field>>)
    ensures Filter.FullFields(Prefilter(matches)) <==> AllFull(matches)
  {
    if |matches| > 1 {
      var fields := Elements(Branches(matches));
      FullTogether(matches, fields);
      hide Filter.FullBranches, AllFull;
      FullAnd(fields);
    }
  }

  lemma FullAnd(fields: seq<Field>)
    ensures Filter.FullFields([Field("$and", Array(fields))]) <==> Filter.FullBranches(fields)
  {
    var filter := [Field("$and", Array(fields))];
    hide Filter.FullBranches;
    assert filter[1..] == [] && Filter.FullFields([]);
    assert Filter.FullField("$and", Array(fields)) <==> Filter.FullBranches(fields);
  }

  lemma {:induction false} WhereEachIs(docs: seq<Doc>, matches: seq<seq<Field>>, judge: Judge)
    requires AllFull(matches)
    ensures WhereEach(docs, matches, judge) == WhereTrees(docs, Trees(matches), judge)
    decreases |matches|
  {
    hide Filter.DocumentTree, Keep;
    if matches == [] {
      KeepAll(docs, judge);
    } else {
      var first := Filter.DocumentTree(COLUMN, matches[0]);
      if first.Ok? {
        WhereEachIs(Keep(docs, first.value, judge), matches[1..], judge);
        if Trees(matches[1..]).Ok? { KeepBoth(docs, first.value, Trees(matches[1..]).value, judge); }
      }
    }
  }

  lemma {:induction false} BranchesCompile(matches: seq<seq<Field>>, fields: seq<Field>)
    requires |fields| == |matches| && forall i :: 0 <= i < |matches| ==> fields[i].value == Document(matches[i])
    ensures Filter.BranchTrees(COLUMN, fields) == Trees(matches)
  {
    hide Filter.DocumentTree;
    if matches != [] {
      BranchesCompile(matches[1..], fields[1..]);
    }
  }

  /** The prefilter keeps what the filters one after another keep, and is refused when one of them is:
      for the first fault of any, before the server sees any of them. */
  lemma PrefilterIs(docs: seq<Doc>, matches: seq<seq<Field>>, judge: Judge)
    requires forall d :: judge(d, Filter.Constant(true)) == Filter.True
    ensures AllFull(matches) ==> Where(docs, Prefilter(matches), judge) == WhereEach(docs, matches, judge)
    ensures !AllFull(matches) ==> Where(docs, Prefilter(matches), judge).Err? && WhereEach(docs, matches, judge).Err?
  {
    FullPrefilter(matches);
    if AllFull(matches) {
      FullPrefilterIs(docs, matches, judge);
    } else {
      EmptyNotFails(docs, matches, judge);
      hide Filter.DocumentTree, Filter.FullFields, Prefilter;
    }
  }

  lemma FullPrefilterIs(docs: seq<Doc>, matches: seq<seq<Field>>, judge: Judge)
    requires forall d :: judge(d, Filter.Constant(true)) == Filter.True
    requires AllFull(matches) && Filter.FullFields(Prefilter(matches))
    ensures Where(docs, Prefilter(matches), judge) == WhereEach(docs, matches, judge)
  {
    hide Filter.FullFields;
    WhereEachIs(docs, matches, judge);
    if matches == [] {
      KeepTrue(docs, judge);
    } else if |matches| == 1 {
      assert matches[1..] == [];
      WhereEachIs(docs, matches, judge);
      LoneWhere(docs, matches[0], judge);
    } else {
      var fields := Elements(Branches(matches));
      BranchesCompile(matches, fields);
      AndCompiles(fields);
      TreesLength(matches);
      hide Filter.BranchTrees, Filter.DocumentTree, Keep;
      if Trees(matches).Ok? { assert Filter.Join(true, Trees(matches).value) == Filter.And(Trees(matches).value); }
    }
  }

  lemma LoneWhere(docs: seq<Doc>, filter: seq<Field>, judge: Judge)
    ensures WhereEach(docs, [filter], judge) == Where(docs, filter, judge)
  {
    assert [filter][1..] == [];
    hide Where;
    if Where(docs, filter, judge).Ok? {
      assert WhereEach(Where(docs, filter, judge).value, [], judge) == Where(docs, filter, judge);
    }
  }

  lemma {:induction false} KeepTrue(docs: seq<Doc>, judge: Judge)
    requires forall d :: judge(d, Filter.Constant(true)) == Filter.True
    ensures Keep(docs, Filter.Leaf(Filter.Constant(true)), judge) == docs
  {
    if docs != [] {
      KeepTrue(docs[1..], judge);
      assert docs == [docs[0]] + docs[1..];
    }
  }

  lemma {:induction false} TreesLength(matches: seq<seq<Field>>)
    ensures Trees(matches).Ok? ==> |Trees(matches).value| == |matches|
  {
    hide Filter.DocumentTree;
    if matches != [] { TreesLength(matches[1..]); }
  }

  lemma AndCompiles(fields: seq<Field>)
    requires fields != []
    ensures Filter.DocumentTree(COLUMN, [Field("$and", Array(fields))]) ==
            Filter.Joining(true, Filter.BranchTrees(COLUMN, fields))
  {
    var f := [Field("$and", Array(fields))];
    var inner := Filter.Joining(true, Filter.BranchTrees(COLUMN, fields));
    assert Filter.FieldTree(COLUMN, "$and", Array(fields)) == inner by { hide Filter.BranchTrees; }
    assert f[1..] == [] && Filter.FieldTrees(COLUMN, []) == Filter.Ok([]);
    hide Filter.FieldTree, Filter.BranchTrees, Filter.DocumentTree;
    AndOnly(f, inner);
  }

  lemma AndOnly(f: seq<Field>, inner: Filter.Result<Filter.Tree>)
    requires |f| == 1 && Filter.FieldTree(COLUMN, f[0].key, f[0].value) == inner
    ensures Filter.DocumentTree(COLUMN, f) == inner
  {
    hide Filter.FieldTree;
    assert Filter.FieldTrees(COLUMN, f[1..]) == Filter.Ok([]);
    assert Filter.FieldTrees(COLUMN, f) == Filter.Prepend(inner, Filter.Ok([]));
  }

  /** Behind the leading matches, running every stage is running the stages, unless a $match comes. */
  lemma {:induction false} NoMatchLeft(docs: seq<Doc>, stages: seq<Doc>, judge: Judge)
    ensures (forall k :: 0 <= k < |stages| ==> !IsMatch(stages[k])) ==>
              EveryStage(docs, stages, judge) == Run(docs, stages)
    ensures Run(docs, stages).Ok? ==> forall k :: 0 <= k < |stages| ==> !IsMatch(stages[k])
    decreases |stages|
  {
    if stages != [] && StageOperator(stages[0]).Ok? {
      var f := StageOperator(stages[0]).value;
      var next := RunStage(docs, f.key, f.value);
      assert f.key == "$match" ==> next.Err?;
      hide RunStage;
      if next.Ok? { NoMatchLeft(next.value, stages[1..], judge); }
      assert forall k :: 0 < k < |stages| ==> stages[k] == stages[1..][k - 1];
    }
  }

  /** The filters one after another, then every remaining stage. */
  function FilterThenRun(docs: seq<Doc>, plan: (seq<seq<Field>>, seq<Doc>), judge: Judge): Result<seq<Doc>> {
    match WhereEach(docs, plan.0, judge)
    case Err(e) => Err(e)
    case Ok(kept) => EveryStage(kept, plan.1, judge)
  }

  lemma {:induction false} MatchesFirst(docs: seq<Doc>, stages: seq<Doc>, judge: Judge)
    ensures LeadingMatches(stages).Err? ==> EveryStage(docs, stages, judge).Err?
    ensures LeadingMatches(stages).Ok? ==>
              EveryStage(docs, stages, judge) == FilterThenRun(docs, LeadingMatches(stages).value, judge)
    decreases |stages|
  {
    hide Where, RunStage;
    if stages != [] && IsMatch(stages[0]) && stages[0][0].value.Document? {
      var kept := Where(docs, stages[0][0].value.fields, judge);
      MatchesFirst(if kept.Ok? then kept.value else docs, stages[1..], judge);
    }
  }

  /** A pipeline answers as if every stage ran in turn, under three-valued WHERE, exactly when its
      $match stages all lead; a later $match is refused. */
  lemma SplitIsFaithful(docs: seq<Doc>, stages: seq<Doc>, judge: Judge)
    requires forall d :: judge(d, Filter.Constant(true)) == Filter.True
    ensures forall r :: SplitRun(docs, stages, judge) == Ok(r) <==>
                        EveryStage(docs, stages, judge) == Ok(r) && MatchesLead(stages)
  {
    MatchesFirst(docs, stages, judge);
    if LeadingMatches(stages).Ok? {
      var (matches, rest) := LeadingMatches(stages).value;
      PrefilterIs(docs, matches, judge);
      LeadingLength(stages);
      var kept := WhereEach(docs, matches, judge);
      if kept.Ok? { NoMatchLeft(kept.value, rest, judge); }
      LeadsExactly(stages, |matches|);
      hide Where, WhereEach, EveryStage, Run, LeadingMatches, Prefilter;
    }
  }

  /** The first n stages are $match, rest is what follows, and it starts with none. */
  predicate LeadsWith(stages: seq<Doc>, n: nat, rest: seq<Doc>) {
    n <= |stages| && rest == stages[n..] && (forall k :: 0 <= k < n ==> IsMatch(stages[k])) &&
    (rest != [] ==> !IsMatch(rest[0]))
  }

  lemma {:induction false} LeadingLength(stages: seq<Doc>)
    ensures LeadingMatches(stages).Ok? ==>
              LeadsWith(stages, |LeadingMatches(stages).value.0|, LeadingMatches(stages).value.1)
  {
    if stages != [] && LeadingMatches(stages).Ok? {
      if IsMatch(stages[0]) {
        LeadingLength(stages[1..]);
        var (matches, rest) := LeadingMatches(stages[1..]).value;
        assert forall k :: 0 < k < 1 + |matches| ==> stages[k] == stages[1..][k - 1];
      }
    }
  }

  lemma LeadsExactly(stages: seq<Doc>, n: nat)
    requires n <= |stages| && (forall k :: 0 <= k < n ==> IsMatch(stages[k])) && (n < |stages| ==> !IsMatch(stages[n]))
    ensures MatchesLead(stages) <==> forall k :: 0 <= k < |stages[n..]| ==> !IsMatch(stages[n..][k])
  {
    assert forall k :: n <= k < |stages| ==> stages[k] == stages[n..][k - n];
    if MatchesLead(stages) && n < |stages| {
      forall k | n <= k < |stages| ensures !IsMatch(stages[k]) { }
    }
  }

  // ---------------------------------------------------------------- the loops

  /** The stages before the first that is no $match. */
  method LeadingStages(stages: seq<Doc>) returns (r: Result<(seq<seq<Field>>, seq<Doc>)>)
    ensures r == LeadingMatches(stages)
  {
    var matches: seq<seq<Field>> := [];
    var index := 0;
    assert Ahead([], LeadingMatches(stages)) == LeadingMatches(stages) by { AheadNone(LeadingMatches(stages)); }
    while index < |stages|
      invariant index <= |stages|
      invariant LeadingMatches(stages) == Ahead(matches, LeadingMatches(stages[index..]))
    {
      assert stages[index..][0] == stages[index] && stages[index..][1..] == stages[index + 1..];
      var f := StageOperator(stages[index]);
      if f.Err? { return Err(f.refusal); }
      if f.value.key != "$match" { break; }
      if !f.value.value.Document? { return Err(TypeMismatch); }
      AheadOne(matches, f.value.value.fields, LeadingMatches(stages[index + 1..]));
      matches := matches + [f.value.value.fields];
      index := index + 1;
    }
    assert matches + [] == matches;
    return Ok((matches, stages[index..]));
  }

  /** More matches in front of those found further on. */
  ghost function Ahead(matches: seq<seq<Field>>, r: Result<(seq<seq<Field>>, seq<Doc>)>)
    : Result<(seq<seq<Field>>, seq<Doc>)>
  {
    match r
    case Err(e) => Err(e)
    case Ok((more, rest)) => Ok((matches + more, rest))
  }

  lemma AheadNone(r: Result<(seq<seq<Field>>, seq<Doc>)>)
    ensures Ahead([], r) == r
  {
    if r.Ok? { assert [] + r.value.0 == r.value.0; }
  }

  lemma AheadOne(matches: seq<seq<Field>>, one: seq<Field>, r: Result<(seq<seq<Field>>, seq<Doc>)>)
    ensures Ahead(matches, Ahead([one], r)) == Ahead(matches + [one], r)
  {
    if r.Ok? { assert matches + ([one] + r.value.0) == matches + [one] + r.value.0; }
  }

  /** split_pipeline. */
  method SplitPipeline(stages: seq<Doc>) returns (r: Result<Plan>)
    ensures r == Split(stages)
  {
    hide LeadingMatches;
    var found := LeadingStages(stages);
    if found.Err? { return Err(found.refusal); }
    var matches, rest := found.value.0, found.value.1;
    var prefilter: seq<Field> := [];
    if |matches| == 1 {
      prefilter := matches[0];
    } else if |matches| > 1 {
      var array_: seq<Field> := [];
      for i := 0 to |matches|
        invariant array_ == Elements(Branches(matches))[..i]
      {
        array_ := array_ + [Field(Decimal(i), Document(matches[i]))];
      }
      assert array_ == Elements(Branches(matches));
      prefilter := [Field("$and", Array(array_))];
    }
    return Ok(Plan(prefilter, rest));
  }

  method RunStages(documents: seq<Doc>, stages: seq<Doc>) returns (r: Result<seq<Doc>>)
    ensures r == Run(documents, stages)
  {
    var current := documents;
    for k := 0 to |stages|
      invariant Run(documents, stages) == Run(current, stages[k..])
    {
      assert stages[k..][0] == stages[k] && stages[k..][1..] == stages[k + 1..];
      var f := StageOperator(stages[k]);
      if f.Err? { return Err(f.refusal); }
      var next := ApplyStage(current, f.value.key, f.value.value);
      if next.Err? { return next; }
      current := next.value;
    }
    return Ok(current);
  }

  method ApplyStage(documents: seq<Doc>, op: string, body: Value) returns (r: Result<seq<Doc>>)
    ensures r == RunStage(documents, op, body)
  {
    hide SortAll, ProjectAll, GroupStage, CountArgument;
    if op == "$match" { return Err(NotImplemented); }
    if op == "$project" {
      r := ProjectDocuments(documents, FieldsIn(body));
    } else if op == "$sort" {
      r := SortDocuments(documents, FieldsIn(body));
    } else if op == "$skip" || op == "$limit" {
      var n := CountArgument(body, |documents|);
      if n.Err? { return Err(n.refusal); }
      r := Ok(if op == "$skip" then documents[n.value..] else documents[..n.value]);
    } else if op == "$group" {
      r := ApplyGroup(documents, FieldsIn(body));
    } else if op == "$count" {
      if !body.Utf8? { return Err(TypeMismatch); }
      r := Ok([[Field(body.text, Int64(|documents|))]]);
    } else {
      r := Err(NotImplemented);
    }
  }

  method ProjectDocuments(documents: seq<Doc>, spec: seq<Field>) returns (r: Result<seq<Doc>>)
    ensures r == ProjectAll(documents, spec)
  {
    var done: seq<Doc> := [];
    assert forall more: seq<Doc> :: done + more == more;
    for k := 0 to |documents|
      invariant match ProjectAll(documents[k..], spec)
                case Err(e) => ProjectAll(documents, spec) == Err(e)
                case Ok(more) => ProjectAll(documents, spec) == Ok(done + more)
    {
      assert documents[k..][0] == documents[k] && documents[k..][1..] == documents[k + 1..];
      var p := Projection.Project(documents[k], spec);
      var d := OfProjection(p);
      if d.Err? { return Err(d.refusal); }
      assert forall more: seq<Doc> :: done + ([d.value] + more) == done + [d.value] + more;
      done := done + [d.value];
    }
    assert done + [] == done;
    return Ok(done);
  }

  method SortDocuments(documents: seq<Doc>, spec: seq<Field>) returns (r: Result<seq<Doc>>)
    ensures r == SortAll(documents, spec)
  {
    hide SortOrder.SortFor;
    var a := new Doc[|documents|](i requires 0 <= i < |documents| => documents[i]);
    assert a[..] == documents;
    var refusal := SortOrder.SortDocuments(a, spec);
    if refusal.Some? { return Err(if refusal.value.BadValue? then BadValue else FailedToParse); }
    return Ok(a[..]);
  }

  method FindSlot(keys: seq<Value>, key: Value, ghost groups: seq<Group>) returns (slot: nat)
    requires |keys| == |groups| && forall i :: 0 <= i < |keys| ==> keys[i] == groups[i].key
    ensures slot == Slot(groups, key)
  {
    hide ValueEqual;
    slot := 0;
    while slot < |keys| && !ValueEqual(keys[slot], key)
      invariant slot <= |keys| && forall i :: 0 <= i < slot ==> !ValueEqual(groups[i].key, key)
    {
      slot := slot + 1;
    }
  }

  /** What apply_group keeps per group: its key and one running total per accumulator. */
  ghost predicate Tallied(groups: seq<Group>, sources: seq<Source>, keys: seq<Value>, totals: seq<seq<Double>>) {
    |keys| == |groups| && |totals| == |groups| &&
    forall i :: 0 <= i < |groups| ==>
      keys[i] == groups[i].key && |totals[i]| == |sources| &&
      forall j :: 0 <= j < |sources| ==> totals[i][j] == Sum(groups[i].members, sources[j])
  }

  method Tally(documents: seq<Doc>, src: Source, sources: seq<Source>)
    returns (keys: seq<Value>, totals: seq<seq<Double>>)
    ensures Tallied(Grouped(documents, src), sources, keys, totals)
  {
    hide ValueEqual, KeyOf, Sum, Slot, PutIn, Tallied;
    keys, totals := [], [];
    TallyNone(sources);
    for k := 0 to |documents|
      invariant Tallied(Grouped(documents[..k], src), sources, keys, totals)
    {
      var doc := documents[k];
      ghost var groups := Grouped(documents[..k], src);
      assert documents[..k + 1][..k] == documents[..k];
      var key := KeyOf(doc, src);
      TallySize(groups, sources, keys, totals);
      var slot := FindSlot(keys, key, groups);
      var before := if slot == |keys| then seq(|sources|, _ => ZERO) else totals[slot];
      ghost var members := if slot == |keys| then [] else groups[slot].members;
      var row := AddOperands(before, doc, sources, members);
      TallyStep(groups, sources, keys, totals, key, doc, row);
      if slot == |keys| {
        keys, totals := keys + [key], totals + [row];
      } else {
        totals := totals[slot := row];
      }
    }
    assert documents[..|documents|] == documents;
  }

  lemma TallyStep(groups: seq<Group>, sources: seq<Source>, keys: seq<Value>, totals: seq<seq<Double>>, key: Value,
                  doc: Doc, row: seq<Double>)
    requires Tallied(groups, sources, keys, totals) && |row| == |sources|
    requires var slot := Slot(groups, key);
             forall j :: 0 <= j < |sources| ==>
               row[j] == Sum((if slot == |groups| then [] else groups[slot].members) + [doc], sources[j])
    ensures var slot := Slot(groups, key);
            if slot == |groups| then Tallied(PutIn(groups, key, doc), sources, keys + [key], totals + [row])
            else Tallied(PutIn(groups, key, doc), sources, keys, totals[slot := row])
  {
    hide Slot, Sum;
    assert [] + [doc] == [doc];
  }

  lemma TallyNone(sources: seq<Source>)
    ensures Tallied([], sources, [], [])
    ensures forall j :: 0 <= j < |sources| ==> Sum([], sources[j]) == ZERO
  {
  }

  lemma TallySize(groups: seq<Group>, sources: seq<Source>, keys: seq<Value>, totals: seq<seq<Double>>)
    requires Tallied(groups, sources, keys, totals)
    ensures |keys| == |groups| && |totals| == |groups|
    ensures forall i :: 0 <= i < |groups| ==> keys[i] == groups[i].key && |totals[i]| == |sources|
    ensures forall i, j :: 0 <= i < |groups| && 0 <= j < |sources| ==> totals[i][j] == Sum(groups[i].members, sources[j])
  {
    hide Sum;
  }

  method AddOperands(before: seq<Double>, doc: Doc, sources: seq<Source>, ghost members: seq<Doc>)
    returns (row: seq<Double>)
    requires |before| == |sources| && forall j :: 0 <= j < |sources| ==> before[j] == Sum(members, sources[j])
    ensures |row| == |sources| && forall j :: 0 <= j < |sources| ==> row[j] == Sum(members + [doc], sources[j])
  {
    hide Operand, Plus;
    row := [];
    assert (members + [doc])[..|members|] == members;
    for j := 0 to |sources|
      invariant |row| == j && forall i :: 0 <= i < j ==> row[i] == Sum(members + [doc], sources[i])
    {
      row := row + [Plus(before[j], Operand(doc, sources[j]))];
    }
  }

  method ApplyGroup(documents: seq<Doc>, spec: seq<Field>) returns (r: Result<seq<Doc>>)
    ensures r == GroupStage(documents, spec)
  {
    if spec == [] || spec[0].key != "_id" { return Err(FailedToParse); }
    var accumulators := Accumulators(spec[1..]);
    if accumulators.Err? { return Err(accumulators.refusal); }
    if documents == [] { return Ok([]); }
    var src := KeySource(spec[0].value);
    if src.Err? { return Err(src.refusal); }
    var sources := SumSources(accumulators.value);
    if sources.Err? { return Err(sources.refusal); }
    SourcesLength(accumulators.value);
    var keys, totals := Tally(documents, src.value, sources.value);
    hide Grouped, Accumulators, SumSources, KeySource;
    r := Ok(GroupOutput(keys, totals, accumulators.value));
    OutputIs(Grouped(documents, src.value), accumulators.value, sources.value, keys, totals);
  }

  function TotalOutput(accumulators: seq<Accumulator>, totals: seq<Double>): seq<Field>
    requires |totals| == |accumulators|
  {
    seq(|totals|, i requires 0 <= i < |totals| => Field(accumulators[i].name, Dbl(totals[i])))
  }

  function GroupOutput(keys: seq<Value>, totals: seq<seq<Double>>, accumulators: seq<Accumulator>): seq<Doc>
    requires |keys| == |totals| && forall i :: 0 <= i < |totals| ==> |totals[i]| == |accumulators|
  {
    seq(|keys|, i requires 0 <= i < |keys| => [Field("_id", keys[i])] + TotalOutput(accumulators, totals[i]))
  }

  lemma {:induction false} TotalsAre(accumulators: seq<Accumulator>, sources: seq<Source>, members: seq<Doc>,
                                     totals: seq<Double>)
    requires |sources| == |accumulators| == |totals|
    requires forall j :: 0 <= j < |sources| ==> totals[j] == Sum(members, sources[j])
    ensures TotalFields(accumulators, sources, members) == TotalOutput(accumulators, totals)
  {
    hide Sum;
    if accumulators != [] { TotalsAre(accumulators[1..], sources[1..], members, totals[1..]); }
  }

  lemma {:induction false} OutputIs(groups: seq<Group>, accumulators: seq<Accumulator>, sources: seq<Source>,
                                    keys: seq<Value>, totals: seq<seq<Double>>)
    requires |sources| == |accumulators| && Tallied(groups, sources, keys, totals)
    ensures GroupDocs(groups, accumulators, sources) == GroupOutput(keys, totals, accumulators)
  {
    hide Sum, TotalFields, TotalOutput;
    if groups != [] {
      TotalsAre(accumulators, sources, groups[0].members, totals[0]);
      OutputIs(groups[1..], accumulators, sources, keys[1..], totals[1..]);
      var all := GroupOutput(keys, totals, accumulators);
      assert all[1..] == GroupOutput(keys[1..], totals[1..], accumulators);
      assert all == [all[0]] + all[1..];
    }
  }
}
