/** Query filters compiled to a SQL condition with placeholders, and the placeholders filled in. */
module Filter {
  import opened Optional
  import opened Bson

  datatype Refusal = FailedToParse | NotImplemented | TypeMismatch | BadValue

  datatype Result<+T> = Ok(value: T) | Err(refusal: Refusal)

  /** A bound value; Json stands for the extended JSON text of a document or scalar. */
  datatype Param = NullParam | BoolParam(b: bool) | IntParam(n: int) | DoubleParam(d: Double) | TextParam(s: string)
                 | JsonParam(v: Value)

  /** The pieces of a condition: the boolean skeleton, and the text and placeholders of its leaves. */
  datatype Token = LParen | RParen | AndWord | OrWord | NotWord | Text(s: string) | Mark

  // ---------------------------------------------------------------- conditions on one path

  datatype Cond = Cond(tokens: seq<Token>, bound: seq<Param>)

  function JsonPath(path: Path): (r: string)
    ensures PlainPath(path) <==> Plain(r)
  {
    "$" + Members(path)
  }

  function Members(path: Path): (r: string)
    ensures PlainPath(path) <==> Plain(r)
  {
    if path == [] then [] else ".\"" + Escaped(path[0]) + "\"" + Members(path[1..])
  }

  function Escaped(s: string): (r: string)
    ensures Plain(s) <==> Plain(r)
  {
    if s == [] then [] else (if s[0] == '"' || s[0] == '\\' then ['\\'] else []) + [s[0]] + Escaped(s[1..])
  }

  const WRAPPERS: seq<string> :=
    ["", ".\"$numberInt\"", ".\"$numberLong\"", ".\"$numberDouble\"", ".\"$date\".\"$numberLong\"", ".\"$oid\""]

  /** scalar_expr: the bare value first, then inside each type wrapper. */
  function ScalarExpr(path: Path, doc: string): (r: string)
    ensures Unmarked(doc, path) <==> Plain(r)
  {
    "COALESCE(" + Readings(JsonPath(path), doc, WRAPPERS) + ")"
  }

  function Readings(base: string, doc: string, wrappers: seq<string>): (r: string)
    ensures wrappers != [] ==>
              (Plain(base) && Plain(doc) && (forall k :: 0 <= k < |wrappers| ==> Plain(wrappers[k])) <==> Plain(r))
  {
    if wrappers == [] then []
    else
      "JSON_VALUE(" + doc + ",'" + base + wrappers[0] + "')" +
      (if |wrappers| > 1 then "," + Readings(base, doc, wrappers[1..]) else [])
  }

  function ExtractExpr(path: Path, doc: string): (r: string)
    ensures Unmarked(doc, path) <==> Plain(r)
  {
    "JSON_EXTRACT(" + doc + ",'" + JsonPath(path) + "')"
  }

  function TimestampPart(path: Path, doc: string, name: string): (r: string)
    ensures Unmarked(doc, path) && Plain(name) <==> Plain(r)
  {
    "CAST(JSON_VALUE(" + doc + ",'" + JsonPath(path) + ".\"$timestamp\"." + name + "') AS UNSIGNED)"
  }

  function Comparable(path: Path, doc: string, against: Value): (r: string)
    ensures Unmarked(doc, path) <==> Plain(r)
  {
    if against.Timestamp? then
      "(" + TimestampPart(path, doc, "t") + " * 4294967296 + " + TimestampPart(path, doc, "i") + ")"
    else if IsNumeric(against) || against.DateTime? then "CAST(" + ScalarExpr(path, doc) + " AS DOUBLE)"
    else ScalarExpr(path, doc)
  }

  function HexDigit(n: nat): char
    requires n < 16
  {
    "0123456789abcdef"[n]
  }

  function Hex(bytes: string): string {
    if bytes == [] then []
    else [HexDigit(bytes[0] as int / 16 % 16), HexDigit(bytes[0] as int % 16)] + Hex(bytes[1..])
  }

  /** (t, i) as one 64-bit register: a t of 2^31 or more comes out negative. */
  function TimestampOrdinal(t: nat, i: nat): int {
    (t * 0x1_0000_0000 + i + 0x8000_0000_0000_0000) % 0x1_0000_0000_0000_0000 - 0x8000_0000_0000_0000
  }

  function BindValue(v: Value): Result<Param> {
    match v
    case Null => Ok(NullParam)
    case Bool(b) => Ok(BoolParam(b))
    case Int32(n) => Ok(IntParam(n))
    case Int64(n) => Ok(IntParam(n))
    case Dbl(d) => Ok(DoubleParam(d))
    case DateTime(m) => Ok(IntParam(m))
    case Timestamp(t, i) => Ok(IntParam(TimestampOrdinal(t, i)))
    case ObjectId(data) => Ok(TextParam(Hex(data)))
    case Utf8(text) => Ok(TextParam(text))
    case _ => Err(NotImplemented)
  }

  /** Lacks is a negated leaf written without parentheses. */
  datatype Tree = Leaf(c: Cond) | Lacks(c: Cond) | And(parts: seq<Tree>) | Or(parts: seq<Tree>) | Not(t: Tree)

  /** What compiling produces: leaves of text and placeholders, no joint of exactly one part. */
  predicate Shaped(t: Tree)
    decreases t
  {
    match t
    case Leaf(c) => ShapedCond(c)
    case Lacks(c) => ShapedCond(c)
    case And(parts) => |parts| != 1 && ShapedAll(parts)
    case Or(parts) => |parts| > 1 && ShapedAll(parts)
    case Not(u) => Shaped(u)
  }

  predicate ShapedAll(parts: seq<Tree>)
    decreases parts
  {
    parts == [] || (Shaped(parts[0]) && ShapedAll(parts[1..]))
  }

  function Marks(toks: seq<Token>): nat {
    if toks == [] then 0 else (if toks[0].Mark? then 1 else 0) + Marks(toks[1..])
  }

  predicate ShapedCond(c: Cond) {
    c.tokens != [] && (forall k :: 0 <= k < |c.tokens| ==> InAtom(c.tokens[k])) && Marks(c.tokens) == |c.bound|
  }

  /** No joint without parts. */
  predicate NoEmpty(t: Tree)
    decreases t
  {
    match t
    case Not(u) => NoEmpty(u)
    case And(parts) => parts != [] && NoneEmpty(parts)
    case Or(parts) => NoneEmpty(parts)
    case _ => true
  }

  predicate NoneEmpty(parts: seq<Tree>)
    decreases parts
  {
    parts == [] || (NoEmpty(parts[0]) && NoneEmpty(parts[1..]))
  }

  /** No $not over an empty document anywhere in the filter. */
  predicate FullFields(fields: seq<Field>)
    decreases fields, 0
  {
    fields == [] || (FullField(fields[0].key, fields[0].value) && FullFields(fields[1..]))
  }

  predicate FullField(key: string, v: Value)
    decreases v, 1
  {
    if key in {"$and", "$or", "$nor"} then v.Array? ==> FullBranches(v.fields)
    else v.Document? && v.fields != [] && IsOperator(v.fields[0].key) ==> FullOperators(v.fields)
  }

  predicate FullBranches(branches: seq<Field>)
    decreases branches, 0
  {
    branches == [] ||
    ((branches[0].value.Document? ==> FullFields(branches[0].value.fields)) && FullBranches(branches[1..]))
  }

  predicate FullOperators(ops: seq<Field>)
    decreases ops, 0
  {
    ops == [] || (FullOperator(ops[0].key, ops[0].value) && FullOperators(ops[1..]))
  }

  predicate FullOperator(op: string, v: Value)
    decreases v, 1
  {
    op == "$not" && v.Document? ==> v.fields != [] && FullOperators(v.fields)
  }

  predicate Plain(s: string) {
    '?' !in s
  }

  predicate PlainPath(path: Path) {
    forall k :: 0 <= k < |path| ==> Plain(path[k])
  }

  /** No question mark in anything a condition on a path spells out. */
  predicate Unmarked(doc: string, path: Path) {
    Plain(doc) && PlainPath(path)
  }

  /** No question mark in the document column or in any field name that a condition is written for.
      Names inside $and, $or and $nor count; names inside compared values do not, nor does the name
      of a field of which only membership in an empty list is asked. */
  predicate QuietFields(doc: string, fields: seq<Field>)
    decreases fields, 0
  {
    fields == [] || (QuietField(doc, fields[0].key, fields[0].value) && QuietFields(doc, fields[1..]))
  }

  predicate QuietField(doc: string, key: string, v: Value)
    decreases v, 1
  {
    if key in {"$and", "$or", "$nor"} then v.Array? ==> QuietBranches(doc, v.fields)
    else if v.Document? && v.fields != [] && IsOperator(v.fields[0].key) then
      QuietOperators(Plain(doc) && Plain(key), v.fields)
    else Plain(doc) && Plain(key)
  }

  predicate QuietBranches(doc: string, branches: seq<Field>)
    decreases branches, 0
  {
    branches == [] ||
    ((branches[0].value.Document? ==> QuietFields(doc, branches[0].value.fields)) && QuietBranches(doc, branches[1..]))
  }

  predicate QuietOperators(unmarked: bool, ops: seq<Field>)
    decreases ops, 0
  {
    ops == [] || (QuietOperator(unmarked, ops[0].key, ops[0].value) && QuietOperators(unmarked, ops[1..]))
  }

  predicate QuietOperator(unmarked: bool, op: string, v: Value)
    decreases v, 1
  {
    if op == "$not" && v.Document? then QuietOperators(unmarked, v.fields)
    else unmarked || (op in {"$in", "$nin"} && v.Array? && v.fields == [])
  }

  /** No question mark in the text of any leaf: the placeholders are the only ones. */
  predicate Quiet(t: Tree)
    decreases t
  {
    match t
    case Leaf(c) => QuietTokens(c.tokens)
    case Lacks(c) => QuietTokens(c.tokens)
    case And(parts) => QuietAll(parts)
    case Or(parts) => QuietAll(parts)
    case Not(u) => Quiet(u)
  }

  predicate QuietAll(parts: seq<Tree>)
    decreases parts
  {
    parts == [] || (Quiet(parts[0]) && QuietAll(parts[1..]))
  }

  predicate QuietTokens(toks: seq<Token>) {
    forall k :: 0 <= k < |toks| ==> toks[k].Text? ==> Plain(toks[k].s)
  }

  lemma {:induction false} PlainSplit(dotted: string)
    ensures Plain(dotted) <==> PlainPath(Split(dotted))
  {
    if dotted != [] {
      var rest := Split(dotted[1..]);
      PlainSplit(dotted[1..]);
      PlainFirst([], rest);
      PlainFirst(rest[0], rest[1..]);
      PlainFirst([dotted[0]] + rest[0], rest[1..]);
      assert rest == [rest[0]] + rest[1..] && dotted == [dotted[0]] + dotted[1..];
      hide PlainPath;
    } else {
      assert PlainPath(Split(dotted));
    }
  }

  lemma PlainFirst(first: string, rest: Path)
    ensures PlainPath([first] + rest) <==> Plain(first) && PlainPath(rest)
  {
    assert forall k :: 0 <= k < |rest| ==> ([first] + rest)[k + 1] == rest[k];
    assert ([first] + rest)[0] == first;
    hide Plain;
  }

  function Constant(b: bool): (r: Cond)
    ensures ShapedCond(r) && QuietTokens(r.tokens)
  {
    Cond([Text(if b then "1" else "0")], [])
  }

  function IsNull(path: Path, doc: string): (r: Cond)
    ensures ShapedCond(r) && (Unmarked(doc, path) <==> QuietTokens(r.tokens))
  {
    Cond([Text(ScalarExpr(path, doc) + " IS NULL")], [])
  }

  /** Text, one placeholder, and perhaps more text. */
  function Around(before: string, p: Param, after: string): (r: Cond)
    ensures ShapedCond(r) && (Plain(before) && Plain(after) <==> QuietTokens(r.tokens))
  {
    MarksAppend([Text(before), Mark], [Text(after)]);
    MarksAppend([Text(before)], [Mark]);
    assert [Text(before)] + [Mark] == [Text(before), Mark];
    assert [Text(before), Mark] + [Text(after)] == [Text(before), Mark, Text(after)];
    Cond(if after == [] then [Text(before), Mark] else [Text(before), Mark, Text(after)], [p])
  }

  function Regexp(path: Path, doc: string, pattern: Param): (r: Cond)
    ensures ShapedCond(r) && (Unmarked(doc, path) <==> QuietTokens(r.tokens))
  {
    Around(ScalarExpr(path, doc) + " REGEXP ", pattern, [])
  }

  function Comparison(path: Path, doc: string, op: string, v: Value): (r: Result<Tree>)
    requires Plain(op)
    ensures r.Ok? ==> NoEmpty(r.value)
    ensures r.Ok? ==>
              Shaped(r.value) &&
              (Unmarked(doc, path) <==> Quiet(r.value))
  {
    match BindValue(v)
    case Err(e) => Err(e)
    case Ok(p) => Ok(Leaf(Around(Comparable(path, doc, v) + " " + op + " ", p, [])))
  }

  function Contains(path: Path, doc: string, v: Value): (r: Cond)
    ensures ShapedCond(r) && (Unmarked(doc, path) <==> QuietTokens(r.tokens))
  {
    Around("JSON_CONTAINS(" + ExtractExpr(path, doc) + ", ", JsonParam(v), ")")
  }

  lemma {:induction false} MarksAppend(a: seq<Token>, b: seq<Token>)
    ensures Marks(a + b) == Marks(a) + Marks(b)
  {
    if a == [] {
      assert a + b == b;
    } else {
      assert (a + b)[1..] == a[1..] + b;
      MarksAppend(a[1..], b);
    }
  }

  function Exists(path: Path, doc: string): (r: Cond)
    ensures ShapedCond(r) && (Unmarked(doc, path) <==> QuietTokens(r.tokens))
  {
    Cond([Text("JSON_EXISTS(" + doc + ",'" + JsonPath(path) + "')")], [])
  }

  function BindAll(fields: seq<Field>): Result<seq<Param>> {
    if fields == [] then Ok([])
    else
      match (BindValue(fields[0].value), BindAll(fields[1..]))
      case (Err(e), _) => Err(e)
      case (_, Err(e)) => Err(e)
      case (Ok(p), Ok(rest)) => Ok([p] + rest)
  }

  /** Placeholders for n members, with commas between. */
  function Listed(n: nat): (r: seq<Token>)
    ensures Marks(r) == n && QuietTokens(r) && forall k :: 0 <= k < |r| ==> InAtom(r[k])
  {
    if n == 0 then [] else if n == 1 then [Mark]
    else
      MarksAppend(Listed(n - 1) + [Text(", ")], [Mark]);
      MarksAppend(Listed(n - 1), [Text(", ")]);
      Listed(n - 1) + [Text(", ")] + [Mark]
  }

  /** Text, then one placeholder for each value. */
  function InList(before: string, ps: seq<Param>): (r: Cond)
    ensures ShapedCond(r) && (Plain(before) <==> QuietTokens(r.tokens))
  {
    MarksAppend([Text(before)] + Listed(|ps|), [Text(")")]);
    MarksAppend([Text(before)], Listed(|ps|));
    ListQuiet(before, Listed(|ps|));
    Cond([Text(before)] + Listed(|ps|) + [Text(")")], ps)
  }

  lemma ListQuiet(before: string, middle: seq<Token>)
    requires QuietTokens(middle)
    ensures QuietTokens([Text(before)] + middle + [Text(")")]) <==> Plain(before)
  {
    assert Plain(")");
    hide Plain;
    var all := [Text(before)] + middle + [Text(")")];
    assert all[0] == Text(before) && all[|middle| + 1] == Text(")");
    assert forall k :: 0 < k <= |middle| ==> all[k] == middle[k - 1];
  }

  function Membership(path: Path, doc: string, v: Value, negated: bool): (r: Result<Tree>)
    ensures r.Ok? ==> NoEmpty(r.value)
    ensures r.Ok? ==>
              v.Array? && Shaped(r.value) &&
              (v.fields == [] || Unmarked(doc, path) <==> Quiet(r.value))
  {
    if !v.Array? then Err(TypeMismatch)
    else if v.fields == [] then Ok(Leaf(Constant(negated)))
    else
      match BindAll(v.fields)
      case Err(e) => Err(e)
      case Ok(ps) =>
        var before := ScalarExpr(path, doc) + (if negated then " NOT IN (" else " IN (");
        assert Plain(before) <==> Plain(ScalarExpr(path, doc));
        Ok(Leaf(InList(before, ps)))
  }

  // ---------------------------------------------------------------- the filter's own boolean tree

  /** A conjunction or disjunction of one part is that part. */
  function Join(all: bool, parts: seq<Tree>): Tree {
    if |parts| == 1 then parts[0] else if all then And(parts) else Or(parts)
  }

  predicate IsOperator(key: string) {
    key != [] && key[0] == '$'
  }

  function Prepend(first: Result<Tree>, rest: Result<seq<Tree>>): (r: Result<seq<Tree>>)
    ensures r.Ok? ==> first.Ok? && rest.Ok? && r.value == [first.value] + rest.value
  {
    match (first, rest)
    case (Err(e), _) => Err(e)
    case (_, Err(e)) => Err(e)
    case (Ok(t), Ok(ts)) => Ok([t] + ts)
  }

  function Joining(all: bool, parts: Result<seq<Tree>>): (r: Result<Tree>)
    ensures r.Ok? == parts.Ok?
    ensures parts.Ok? && ShapedAll(parts.value) && (all || parts.value != []) ==> Shaped(r.value)
    ensures parts.Ok? ==> (QuietAll(parts.value) <==> Quiet(r.value))
    ensures parts.Ok? && (!all ==> parts.value != []) ==>
              (NoEmpty(r.value) <==> parts.value != [] && NoneEmpty(parts.value))
  {
    match parts
    case Err(e) => Err(e)
    case Ok(ts) => Ok(Join(all, ts))
  }

  function Negating(t: Result<Tree>): Result<Tree> {
    match t
    case Err(e) => Err(e)
    case Ok(x) => Ok(Not(x))
  }

  /** A filter document: all of its fields hold. */
  function DocumentTree(doc: string, filter: seq<Field>): (r: Result<Tree>)
    ensures r.Ok? ==> (NoEmpty(r.value) <==> FullFields(filter))
    ensures r.Ok? ==>
              Shaped(r.value) &&
              (QuietFields(doc, filter) <==> Quiet(r.value))
    decreases filter, 1
  {
    if filter == [] then Ok(Leaf(Constant(true))) else Joining(true, FieldTrees(doc, filter))
  }

  function FieldTrees(doc: string, fields: seq<Field>): (r: Result<seq<Tree>>)
    ensures r.Ok? ==> (NoneEmpty(r.value) <==> FullFields(fields))
    ensures r.Ok? ==>
              |r.value| == |fields| && ShapedAll(r.value) &&
              (QuietFields(doc, fields) <==> QuietAll(r.value))
    decreases fields, 0
  {
    if fields == [] then Ok([])
    else Prepend(FieldTree(doc, fields[0].key, fields[0].value), FieldTrees(doc, fields[1..]))
  }

  function FieldTree(doc: string, key: string, v: Value): (r: Result<Tree>)
    ensures r.Ok? ==> (NoEmpty(r.value) <==> FullField(key, v))
    ensures r.Ok? ==>
              Shaped(r.value) &&
              (QuietField(doc, key, v) <==> Quiet(r.value))
    decreases v, 1
  {
    if key == "$and" then LogicalTree(doc, true, v)
    else if key == "$or" then LogicalTree(doc, false, v)
    else if key == "$nor" then Negating(LogicalTree(doc, false, v))
    else if IsOperator(key) then Err(NotImplemented)
    else
      match SplitPath(key)
      case None => Err(FailedToParse)
      case Some(path) =>
        PlainSplit(key);
        if v.Document? && v.fields != [] && IsOperator(v.fields[0].key) then OperatorsTree(doc, path, v.fields)
        else EqTree(doc, path, v)
  }

  function LogicalTree(doc: string, all: bool, v: Value): (r: Result<Tree>)
    ensures r.Ok? ==> v.Array? && (NoEmpty(r.value) <==> FullBranches(v.fields))
    ensures r.Ok? ==>
              Shaped(r.value) &&
              (QuietBranches(doc, v.fields) <==> Quiet(r.value))
    decreases v, 0
  {
    if !v.Array? then Err(TypeMismatch)
    else if v.fields == [] then Err(FailedToParse)
    else Joining(all, BranchTrees(doc, v.fields))
  }

  function BranchTrees(doc: string, branches: seq<Field>): (r: Result<seq<Tree>>)
    ensures r.Ok? ==> (NoneEmpty(r.value) <==> FullBranches(branches))
    ensures r.Ok? ==>
              |r.value| == |branches| && ShapedAll(r.value) &&
              (QuietBranches(doc, branches) <==> QuietAll(r.value))
    decreases branches, 0
  {
    if branches == [] then Ok([])
    else if !branches[0].value.Document? then Err(FailedToParse)
    else
      Prepend(DocumentTree(doc, branches[0].value.fields), BranchTrees(doc, branches[1..]))
  }

  function OperatorsTree(doc: string, path: Path, ops: seq<Field>): (r: Result<Tree>)
    ensures r.Ok? ==> (NoEmpty(r.value) <==> ops != [] && FullOperators(ops))
    ensures r.Ok? ==>
              Shaped(r.value) &&
              (QuietOperators(Unmarked(doc, path), ops) <==> Quiet(r.value))
    decreases ops, 1
  {
    Joining(true, OperatorTrees(doc, path, ops))
  }

  function OperatorTrees(doc: string, path: Path, ops: seq<Field>): (r: Result<seq<Tree>>)
    ensures r.Ok? ==> (NoneEmpty(r.value) <==> FullOperators(ops))
    ensures r.Ok? ==>
              |r.value| == |ops| && ShapedAll(r.value) &&
              (QuietOperators(Unmarked(doc, path), ops) <==> QuietAll(r.value))
    decreases ops, 0
  {
    if ops == [] then Ok([])
    else Prepend(OperatorTree(doc, path, ops[0].key, ops[0].value), OperatorTrees(doc, path, ops[1..]))
  }

  /** Equality with a scalar also holds for an array that contains it. */
  function EqTree(doc: string, path: Path, v: Value): (r: Result<Tree>)
    ensures r.Ok? ==> NoEmpty(r.value)
    ensures r.Ok? ==>
              Shaped(r.value) &&
              (Unmarked(doc, path) <==> Quiet(r.value))
  {
    if v.Null? then Ok(Leaf(IsNull(path, doc)))
    else if v.Regex? then Ok(Leaf(Regexp(path, doc, TextParam(v.pattern))))
    else if HasFields(v) then Err(NotImplemented)
    else OrContained(Comparison(path, doc, "=", v), Contains(path, doc, v))
  }

  function OrContained(eq: Result<Tree>, contains: Cond): (r: Result<Tree>)
    requires ShapedCond(contains) && (eq.Ok? ==> Shaped(eq.value))
    ensures r.Ok? == eq.Ok?
    ensures eq.Ok? && NoEmpty(eq.value) ==> NoEmpty(r.value)
    ensures r.Ok? ==>
              eq.Ok? && Shaped(r.value) &&
              (Quiet(eq.value) && QuietTokens(contains.tokens) <==> Quiet(r.value))
  {
    match eq
    case Err(e) => Err(e)
    case Ok(t) =>
      assert [t, Leaf(contains)][1..] == [Leaf(contains)];
      assert Shaped(Leaf(contains)) && ShapedAll([Leaf(contains)]);
      assert NoEmpty(Leaf(contains)) && NoneEmpty([]) && NoneEmpty([Leaf(contains)]);
      assert QuietTokens(contains.tokens) <==> Quiet(Leaf(contains));
      assert QuietAll([Leaf(contains)]) <==> Quiet(Leaf(contains));
      Ok(Or([t, Leaf(contains)]))
  }

  function OperatorTree(doc: string, path: Path, op: string, v: Value): (r: Result<Tree>)
    ensures r.Ok? ==> (NoEmpty(r.value) <==> FullOperator(op, v))
    ensures r.Ok? ==>
              Shaped(r.value) &&
              (QuietOperator(Unmarked(doc, path), op, v) <==> Quiet(r.value))
    decreases v, 1
  {
    if op == "$eq" then EqTree(doc, path, v)
    else if op == "$ne" then Negating(EqTree(doc, path, v))
    else if op == "$gt" then Comparison(path, doc, ">", v)
    else if op == "$gte" then Comparison(path, doc, ">=", v)
    else if op == "$lt" then Comparison(path, doc, "<", v)
    else if op == "$lte" then Comparison(path, doc, "<=", v)
    else if op == "$in" then Membership(path, doc, v, false)
    else if op == "$nin" then Membership(path, doc, v, true)
    else if op == "$exists" then
      Ok(if v.Bool? && !v.b then Lacks(Exists(path, doc)) else Leaf(Exists(path, doc)))
    else if op == "$regex" then
      if v.Utf8? then Ok(Leaf(Regexp(path, doc, TextParam(v.text))))
      else if v.Regex? then Ok(Leaf(Regexp(path, doc, TextParam(v.pattern))))
      else Err(FailedToParse)
    else if op == "$not" then
      if v.Document? then Negating(OperatorsTree(doc, path, v.fields)) else Err(FailedToParse)
    else if op == "$elemMatch" then
      if !v.Document? then Err(FailedToParse)
      else if exists k :: 0 <= k < |v.fields| && IsOperator(v.fields[k].key) then Err(NotImplemented)
      else Ok(Leaf(Contains(path, doc, v)))
    else Err(BadValue)
  }

  // ---------------------------------------------------------------- printing a tree

  function Joined(parts: seq<seq<Token>>, joiner: Token): seq<Token> {
    if parts == [] then []
    else if |parts| == 1 then parts[0]
    else parts[0] + [joiner] + Joined(parts[1..], joiner)
  }

  /** conjoin: parentheses only around more than one part. */
  function Conjoined(parts: seq<seq<Token>>, joiner: Token): seq<Token> {
    if |parts| == 1 then parts[0] else [LParen] + Joined(parts, joiner) + [RParen]
  }

  function Printed(t: Tree): seq<Token>
    decreases t
  {
    match t
    case Leaf(c) => c.tokens
    case Lacks(c) => [NotWord] + c.tokens
    case And(parts) => [LParen] + Joined(PrintedAll(parts), AndWord) + [RParen]
    case Or(parts) => [LParen] + Joined(PrintedAll(parts), OrWord) + [RParen]
    case Not(u) => [NotWord, LParen] + Printed(u) + [RParen]
  }

  function PrintedAll(parts: seq<Tree>): (r: seq<seq<Token>>)
    ensures |r| == |parts|
    decreases parts
  {
    if parts == [] then [] else [Printed(parts[0])] + PrintedAll(parts[1..])
  }

  function Bound(t: Tree): seq<Param>
    decreases t
  {
    match t
    case Leaf(c) => c.bound
    case Lacks(c) => c.bound
    case Not(u) => Bound(u)
    case And(parts) => BoundAll(parts)
    case Or(parts) => BoundAll(parts)
  }

  function BoundAll(parts: seq<Tree>): seq<Param>
    decreases parts
  {
    if parts == [] then [] else Bound(parts[0]) + BoundAll(parts[1..])
  }

  // ---------------------------------------------------------------- reading SQL back

  /** A SQL condition as the server reads it: NOT binds tighter than AND, AND tighter than OR. */
  datatype Sql = Atom(tokens: seq<Token>) | All(parts: seq<Sql>) | Any(parts: seq<Sql>) | Negation(s: Sql)

  type Read<T> = Option<(T, seq<Token>)>

  predicate InAtom(t: Token) {
    t.Text? || t.Mark?
  }

  function AtomLength(toks: seq<Token>): (n: nat)
    ensures n <= |toks|
  {
    if toks == [] || !InAtom(toks[0]) then 0 else 1 + AtomLength(toks[1..])
  }

  function One(parts: seq<Sql>, all: bool): Sql
    requires parts != []
  {
    if |parts| == 1 then parts[0] else if all then All(parts) else Any(parts)
  }

  function ReadOr(toks: seq<Token>): (r: Read<Sql>)
    ensures r.Some? ==> |r.value.1| < |toks|
    decreases |toks|, 4
  {
    match ReadOrs(toks)
    case None => None
    case Some((parts, rest)) => Some((One(parts, false), rest))
  }

  function ReadOrs(toks: seq<Token>): (r: Read<seq<Sql>>)
    ensures r.Some? ==> |r.value.1| < |toks| && r.value.0 != []
    decreases |toks|, 3
  {
    match ReadAnds(toks)
    case None => None
    case Some((parts, rest)) =>
      if rest == [] || rest[0] != OrWord then Some(([One(parts, true)], rest))
      else
        match ReadOrs(rest[1..])
        case None => None
        case Some((more, last)) => Some(([One(parts, true)] + more, last))
  }

  function ReadAnds(toks: seq<Token>): (r: Read<seq<Sql>>)
    ensures r.Some? ==> |r.value.1| < |toks| && r.value.0 != []
    decreases |toks|, 2
  {
    match ReadNot(toks)
    case None => None
    case Some((s, rest)) =>
      if rest == [] || rest[0] != AndWord then Some(([s], rest))
      else
        match ReadAnds(rest[1..])
        case None => None
        case Some((more, last)) => Some(([s] + more, last))
  }

  function ReadNot(toks: seq<Token>): (r: Read<Sql>)
    ensures r.Some? ==> |r.value.1| < |toks|
    decreases |toks|, 1
  {
    if toks == [] then None
    else if toks[0] == NotWord then
      match ReadNot(toks[1..])
      case None => None
      case Some((s, rest)) => Some((Negation(s), rest))
    else if toks[0] == LParen then
      match ReadOr(toks[1..])
      case None => None
      case Some((s, rest)) => if rest != [] && rest[0] == RParen then Some((s, rest[1..])) else None
    else if InAtom(toks[0]) then
      Some((Atom(toks[..AtomLength(toks)]), toks[AtomLength(toks)..]))
    else None
  }

  /** The whole text as one condition. */
  function ReadSql(toks: seq<Token>): Option<Sql> {
    match ReadOr(toks)
    case None => None
    case Some((s, rest)) => if rest == [] then Some(s) else None
  }

  /** The condition a filter's tree stands for. */
  function Meaning(t: Tree): Sql
    decreases t
  {
    match t
    case Leaf(c) => Atom(c.tokens)
    case Lacks(c) => Negation(Atom(c.tokens))
    case And(parts) => All(Meanings(parts))
    case Or(parts) => Any(Meanings(parts))
    case Not(u) => Negation(Meaning(u))
  }

  function Meanings(parts: seq<Tree>): (r: seq<Sql>)
    ensures |r| == |parts|
    decreases parts
  {
    if parts == [] then [] else [Meaning(parts[0])] + Meanings(parts[1..])
  }

  // ---------------------------------------------------------------- truth

  /** SQL truth: WHERE keeps a row only where its condition is True. */
  datatype Truth = False | Unknown | True

  function Negated(t: Truth): Truth {
    match t case False => True case Unknown => Unknown case True => False
  }

  function Both(a: Truth, b: Truth): Truth {
    if a.False? || b.False? then False else if a.Unknown? || b.Unknown? then Unknown else True
  }

  function Either(a: Truth, b: Truth): Truth {
    if a.True? || b.True? then True else if a.Unknown? || b.Unknown? then Unknown else False
  }

  /** A tree's truth, given that of each leaf. */
  function Judged(t: Tree, judge: Cond -> Truth): Truth
    decreases t
  {
    match t
    case Leaf(c) => judge(c)
    case Lacks(c) => Negated(judge(c))
    case Not(u) => Negated(Judged(u, judge))
    case And(parts) => JudgedAll(parts, judge)
    case Or(parts) => JudgedAny(parts, judge)
  }

  function JudgedAll(parts: seq<Tree>, judge: Cond -> Truth): Truth
    decreases parts
  {
    if parts == [] then True else Both(Judged(parts[0], judge), JudgedAll(parts[1..], judge))
  }

  function JudgedAny(parts: seq<Tree>, judge: Cond -> Truth): Truth
    decreases parts
  {
    if parts == [] then False else Either(Judged(parts[0], judge), JudgedAny(parts[1..], judge))
  }

  /** What may stand behind a condition: nothing, another joint, or a closing parenthesis. */
  predicate Closed(rest: seq<Token>) {
    rest == [] || rest[0] in {AndWord, OrWord, RParen}
  }

  lemma {:induction false} AtomEnds(toks: seq<Token>, rest: seq<Token>)
    requires forall k :: 0 <= k < |toks| ==> InAtom(toks[k])
    requires Closed(rest)
    ensures AtomLength(toks + rest) == |toks|
  {
    if toks == [] {
      assert toks + rest == rest;
    } else {
      assert (toks + rest)[1..] == toks[1..] + rest;
      AtomEnds(toks[1..], rest);
    }
  }

  /** A printed tree followed by a joint reads back as that tree, unless it has an empty joint. */
  lemma {:induction false} ReadPrinted(t: Tree, rest: seq<Token>)
    requires Shaped(t) && Closed(rest)
    ensures ReadNot(Printed(t) + rest) == if NoEmpty(t) then Some((Meaning(t), rest)) else None
    decreases t, 0
  {
    match t
    case Leaf(c) => ReadAtom(c, rest);
    case Lacks(c) =>
      ReadAtom(c, rest);
      assert ([NotWord] + c.tokens + rest)[1..] == c.tokens + rest;
    case Not(u) => ReadNegation(u, rest);
    case And(parts) => ReadAll(parts, rest);
    case Or(parts) => ReadAny(parts, rest);
  }

  lemma {:induction false} ReadNegation(u: Tree, rest: seq<Token>)
    requires Shaped(u) && Closed(rest)
    ensures ReadNot(Printed(Not(u)) + rest) == if NoEmpty(u) then Some((Negation(Meaning(u)), rest)) else None
    decreases u, 1
  {
    var body := Printed(u);
    assert Printed(Not(u)) == [NotWord, LParen] + body + [RParen];
    assert NoEmpty(Not(u)) == NoEmpty(u);
    hide Printed, ReadOr, Meaning, NoEmpty, Shaped;
    ReadPrinted(u, [RParen] + rest);
    assert body + ([RParen] + rest) == body + [RParen] + rest;
    Singleton(body + [RParen] + rest);
    NegationRead(body, rest);
  }

  lemma NegationRead(body: seq<Token>, rest: seq<Token>)
    ensures ReadNot([NotWord, LParen] + body + [RParen] + rest) ==
            match ReadOr(body + [RParen] + rest)
            case None => None
            case Some((s, last)) => if last != [] && last[0] == RParen then Some((Negation(s), last[1..])) else None
  {
    hide ReadOr;
    var inner := [LParen] + body + [RParen] + rest;
    ReadParenthesised(body, rest);
    assert ([NotWord, LParen] + body + [RParen] + rest)[1..] == inner;
  }

  lemma {:induction false} ReadAll(parts: seq<Tree>, rest: seq<Token>)
    requires |parts| != 1 && ShapedAll(parts) && Closed(rest)
    ensures ReadNot([LParen] + Joined(PrintedAll(parts), AndWord) + [RParen] + rest) ==
            if NoEmpty(And(parts)) then Some((Meaning(And(parts)), rest)) else None
    decreases parts, 1
  {
    var body := Joined(PrintedAll(parts), AndWord);
    ReadParenthesised(body, rest);
    if parts == [] {
      assert body == [];
      assert body + [RParen] + rest == [RParen] + rest;
      Singleton([RParen] + rest);
      hide ReadOr;
    } else {
      ReadConjunction(parts, [RParen] + rest);
      assert body + ([RParen] + rest) == body + [RParen] + rest;
      hide ReadNot, ReadOr, Joined, PrintedAll;
    }
  }

  lemma {:induction false} ReadAny(parts: seq<Tree>, rest: seq<Token>)
    requires |parts| > 1 && ShapedAll(parts) && Closed(rest)
    ensures ReadNot([LParen] + Joined(PrintedAll(parts), OrWord) + [RParen] + rest) ==
            if NoneEmpty(parts) then Some((Meaning(Or(parts)), rest)) else None
    decreases parts, 1
  {
    var body := Joined(PrintedAll(parts), OrWord);
    ReadParenthesised(body, rest);
    ReadDisjunction(parts, [RParen] + rest);
    assert body + ([RParen] + rest) == body + [RParen] + rest;
    var toks := body + [RParen] + rest;
    assert ReadOr(toks) == if NoneEmpty(parts) then Some((Any(Meanings(parts)), [RParen] + rest)) else None by {
      hide ReadOrs;
    }
    hide ReadNot, ReadOr, Joined, PrintedAll;
  }

  lemma ReadAtom(c: Cond, rest: seq<Token>)
    requires ShapedCond(c) && Closed(rest)
    ensures ReadNot(c.tokens + rest) == Some((Atom(c.tokens), rest))
  {
    AtomEnds(c.tokens, rest);
    var toks := c.tokens + rest;
    assert InAtom(toks[0]) && toks[..|c.tokens|] == c.tokens && toks[|c.tokens|..] == rest;
  }

  lemma ReadParenthesised(body: seq<Token>, rest: seq<Token>)
    ensures var toks := [LParen] + body + [RParen] + rest;
            ReadNot(toks) ==
            match ReadOr(body + [RParen] + rest)
            case None => None
            case Some((s, last)) => if last != [] && last[0] == RParen then Some((s, last[1..])) else None
  {
    assert ([LParen] + body + [RParen] + rest)[1..] == body + [RParen] + rest;
    hide ReadOr;
  }

  /** Where a negation reads and no joint follows, it is the whole condition. */
  lemma Singleton(toks: seq<Token>)
    ensures ReadNot(toks).Some? && (ReadNot(toks).value.1 == [] || ReadNot(toks).value.1[0] == RParen) ==>
              ReadOr(toks) == ReadNot(toks)
    ensures ReadNot(toks) == None ==> ReadOr(toks) == None
  {
    hide ReadNot;
    var not_ := ReadNot(toks);
    if not_.Some? && (not_.value.1 == [] || not_.value.1[0] == RParen) {
      assert ReadAnds(toks) == Some(([not_.value.0], not_.value.1));
      assert ReadOrs(toks) == Some(([not_.value.0], not_.value.1));
    } else if not_ == None {
      assert ReadAnds(toks) == None;
      assert ReadOrs(toks) == None;
    }
  }

  /** A conjunction that no joint follows is the whole condition. */
  lemma OneConjunction(toks: seq<Token>)
    ensures var ands := ReadAnds(toks);
            ands.Some? && (ands.value.1 == [] || ands.value.1[0] == RParen) ==>
              ReadOr(toks) == Some((One(ands.value.0, true), ands.value.1))
    ensures ReadAnds(toks) == None ==> ReadOr(toks) == None
  {
    hide ReadAnds;
    var ands := ReadAnds(toks);
    if ands.Some? && (ands.value.1 == [] || ands.value.1[0] == RParen) {
      assert ReadOrs(toks) == Some(([One(ands.value.0, true)], ands.value.1));
    } else if ands == None {
      assert ReadOrs(toks) == None;
    }
  }

  /** Where a negation reads and no AND follows, it is a conjunction by itself. */
  lemma Lone(toks: seq<Token>)
    ensures ReadNot(toks).Some? && (ReadNot(toks).value.1 == [] || ReadNot(toks).value.1[0] != AndWord) ==>
              ReadAnds(toks) == Some(([ReadNot(toks).value.0], ReadNot(toks).value.1))
    ensures ReadNot(toks) == None ==> ReadAnds(toks) == None
  {
    hide ReadNot;
  }

  lemma {:induction false} ReadConjunction(parts: seq<Tree>, rest: seq<Token>)
    requires parts != [] && ShapedAll(parts) && (rest == [] || rest[0] == RParen)
    ensures var toks := Joined(PrintedAll(parts), AndWord) + rest;
            ReadAnds(toks) == (if NoneEmpty(parts) then Some((Meanings(parts), rest)) else None) &&
            ReadOr(toks) == (if NoneEmpty(parts) then Some((One(Meanings(parts), true), rest)) else None)
    decreases parts, 0
  {
    var toks := Joined(PrintedAll(parts), AndWord) + rest;
    hide ReadNot, Printed, Meaning, NoEmpty, Shaped;
    OneConjunction(toks);
    if |parts| == 1 {
      assert Meanings(parts) == [Meaning(parts[0])];
      ReadPrinted(parts[0], rest);
    } else {
      var more := Joined(PrintedAll(parts[1..]), AndWord) + rest;
      ReadPrinted(parts[0], [AndWord] + more);
      ReadConjunction(parts[1..], rest);
      assert PrintedAll(parts)[1..] == PrintedAll(parts[1..]);
      assert toks == Printed(parts[0]) + ([AndWord] + more);
      assert ([AndWord] + more)[1..] == more;
    }
  }

  lemma {:induction false} ReadDisjunction(parts: seq<Tree>, rest: seq<Token>)
    requires parts != [] && ShapedAll(parts) && (rest == [] || rest[0] == RParen)
    ensures var toks := Joined(PrintedAll(parts), OrWord) + rest;
            ReadOrs(toks) == (if NoneEmpty(parts) then Some((Meanings(parts), rest)) else None)
    decreases parts, 0
  {
    var toks := Joined(PrintedAll(parts), OrWord) + rest;
    hide ReadNot, Printed, Meaning, NoEmpty, Shaped;
    if |parts| == 1 {
      assert Meanings(parts) == [Meaning(parts[0])];
      ReadPrinted(parts[0], rest);
      Lone(toks);
    } else {
      var more := Joined(PrintedAll(parts[1..]), OrWord) + rest;
      Lone(toks);
      ReadPrinted(parts[0], [OrWord] + more);
      ReadDisjunction(parts[1..], rest);
      assert PrintedAll(parts)[1..] == PrintedAll(parts[1..]);
      assert toks == Printed(parts[0]) + ([OrWord] + more);
      assert ([OrWord] + more)[1..] == more;
    }
  }

  /** What a compiled filter prints, read with SQL precedence, is the filter's own tree, exactly
      when no $not is over an empty document. */
  lemma PrintedReadsBack(t: Tree)
    requires Shaped(t)
    ensures ReadSql(Printed(t)) == if NoEmpty(t) then Some(Meaning(t)) else None
  {
    ReadPrinted(t, []);
    assert Printed(t) + [] == Printed(t);
    Singleton(Printed(t));
  }

  // ---------------------------------------------------------------- compiling

  /** Tokens and bindings of a compiled condition, as the compiler leaves them. */
  predicate Compiles(tree: Result<Tree>, r: Result<seq<Token>>, before: seq<Param>, after: seq<Param>) {
    match tree
    case Err(e) => r == Err(e)
    case Ok(t) => r == Ok(Printed(t)) && after == before + Bound(t)
  }

  /** Parts compiled so far, and what is still to come. */
  ghost predicate SoFar(whole: Result<seq<Tree>>, done: seq<Tree>, rest: Result<seq<Tree>>,
                        parts: seq<seq<Token>>, before: seq<Param>, after: seq<Param>) {
    parts == PrintedAll(done) && after == before + BoundAll(done) &&
    (match rest
     case Err(e) => whole == Err(e)
     case Ok(ts) => whole == Ok(done + ts))
  }

  lemma {:induction false} PrintedAppend(a: seq<Tree>, b: seq<Tree>)
    ensures PrintedAll(a + b) == PrintedAll(a) + PrintedAll(b)
    ensures BoundAll(a + b) == BoundAll(a) + BoundAll(b)
  {
    if a == [] {
      assert a + b == b;
    } else {
      hide Printed, Bound;
      assert (a + b)[1..] == a[1..] + b;
      PrintedAppend(a[1..], b);
    }
  }

  /** One more part, compiled by a step that ended as tree says. */
  lemma OneMore(whole: Result<seq<Tree>>, done: seq<Tree>, tree: Result<Tree>, rest: Result<seq<Tree>>,
                parts: seq<seq<Token>>, r: Result<seq<Token>>, before: seq<Param>, was: seq<Param>, after: seq<Param>)
    requires SoFar(whole, done, Prepend(tree, rest), parts, before, was) && Compiles(tree, r, was, after)
    ensures r.Err? ==> tree.Err? && whole == Err(r.refusal)
    ensures r.Ok? ==> tree.Ok? && SoFar(whole, done + [tree.value], rest, parts + [r.value], before, after)
  {
    if r.Ok? {
      PrintedAppend(done, [tree.value]);
      assert PrintedAll([tree.value]) == [Printed(tree.value)];
      assert BoundAll([tree.value]) == Bound(tree.value);
      hide Printed, Bound, PrintedAll, BoundAll;
      assert after == before + (BoundAll(done) + BoundAll([tree.value]));
      if rest.Ok? { assert done + ([tree.value] + rest.value) == done + [tree.value] + rest.value; }
    }
  }

  /** All parts compiled: joined they print as their tree does. */
  lemma AllDone(whole: Result<seq<Tree>>, done: seq<Tree>, all: bool, parts: seq<seq<Token>>, before: seq<Param>,
                after: seq<Param>)
    requires SoFar(whole, done, Ok([]), parts, before, after)
    ensures Compiles(Joining(all, whole), Ok(Conjoined(parts, if all then AndWord else OrWord)), before, after)
  {
    assert done + [] == done;
    if |done| == 1 {
      assert PrintedAll(done) == [Printed(done[0])] && BoundAll(done) == Bound(done[0]);
    }
  }

  /** More bindings in front of those found further on. */
  ghost function After(bound: seq<Param>, r: Result<seq<Param>>): Result<seq<Param>> {
    match r
    case Err(e) => Err(e)
    case Ok(ps) => Ok(bound + ps)
  }

  lemma BindOne(fields: seq<Field>)
    requires fields != [] && BindValue(fields[0].value).Ok?
    ensures BindAll(fields) == After([BindValue(fields[0].value).value], BindAll(fields[1..]))
  {
    hide BindValue;
  }

  lemma AfterNone(r: Result<seq<Param>>)
    ensures After([], r) == r
  {
    if r.Ok? { assert [] + r.value == r.value; }
  }

  lemma AfterOne(bound: seq<Param>, p: Param, r: Result<seq<Param>>)
    ensures After(bound, After([p], r)) == After(bound + [p], r)
  {
    if r.Ok? { assert bound + ([p] + r.value) == bound + [p] + r.value; }
  }

  class Compiler {
    const doc: string
    var params: seq<Param>

    constructor (doc: string)
      ensures this.doc == doc && params == []
    {
      this.doc, params := doc, [];
    }

    method CompileDocument(filter: seq<Field>) returns (r: Result<seq<Token>>)
      modifies this
      ensures Compiles(DocumentTree(doc, filter), r, old(params), params)
      decreases filter, 1
    {
      if filter == [] { return Ok([Text("1")]); }
      hide SoFar, Printed, Bound, FieldTree;
      var parts: seq<seq<Token>> := [];
      ghost var done: seq<Tree> := [];
      ghost var whole := FieldTrees(doc, filter);
      Start(whole, params);
      for k := 0 to |filter|
        invariant SoFar(whole, done, FieldTrees(doc, filter[k..]), parts, old(params), params)
      {
        assert filter[k..][0] == filter[k] && filter[k..][1..] == filter[k + 1..];
        ghost var was := params;
        var part := CompileField(filter[k].key, filter[k].value);
        ghost var tree := FieldTree(doc, filter[k].key, filter[k].value);
        OneMore(whole, done, tree, FieldTrees(doc, filter[k + 1..]), parts, part, old(params), was, params);
        if part.Err? { return part; }
        parts := parts + [part.value];
        done := done + [tree.value];
      }
      AllDone(whole, done, true, parts, old(params), params);
      return Ok(Conjoined(parts, AndWord));
    }

    method CompileLogical(all: bool, v: Value) returns (r: Result<seq<Token>>)
      modifies this
      ensures Compiles(LogicalTree(doc, all, v), r, old(params), params)
      decreases v, 0
    {
      if !v.Array? { return Err(TypeMismatch); }
      if v.fields == [] { return Err(FailedToParse); }
      hide SoFar, Printed, Bound, DocumentTree;
      var parts: seq<seq<Token>> := [];
      ghost var done: seq<Tree> := [];
      ghost var whole := BranchTrees(doc, v.fields);
      Start(whole, params);
      for k := 0 to |v.fields|
        invariant SoFar(whole, done, BranchTrees(doc, v.fields[k..]), parts, old(params), params)
      {
        assert v.fields[k..][0] == v.fields[k] && v.fields[k..][1..] == v.fields[k + 1..];
        ghost var was := params;
        if !v.fields[k].value.Document? { return Err(FailedToParse); }
        var part := CompileDocument(v.fields[k].value.fields);
        ghost var tree := DocumentTree(doc, v.fields[k].value.fields);
        OneMore(whole, done, tree, BranchTrees(doc, v.fields[k + 1..]), parts, part, old(params), was, params);
        if part.Err? { return part; }
        parts := parts + [part.value];
        done := done + [tree.value];
      }
      AllDone(whole, done, all, parts, old(params), params);
      return Ok(Conjoined(parts, if all then AndWord else OrWord));
    }

    method CompileField(key: string, v: Value) returns (r: Result<seq<Token>>)
      modifies this
      ensures Compiles(FieldTree(doc, key, v), r, old(params), params)
      decreases v, 1
    {
      hide LogicalTree, OperatorsTree, EqTree, SplitPath;
      if key == "$and" {
        r := CompileLogical(true, v);
      } else if key == "$or" {
        r := CompileLogical(false, v);
      } else if key == "$nor" {
        r := CompileLogical(false, v);
        if r.Ok? { r := Ok([NotWord, LParen] + r.value + [RParen]); }
      } else if IsOperator(key) {
        return Err(NotImplemented);
      } else {
        var path := SplitPath(key);
        if path.None? { return Err(FailedToParse); }
        if v.Document? && v.fields != [] && IsOperator(v.fields[0].key) {
          r := CompileOperators(path.value, v.fields);
        } else {
          r := CompileEq(path.value, v);
        }
      }
    }

    method Bind(v: Value) returns (r: Result<seq<Token>>)
      modifies this
      ensures match BindValue(v)
              case Err(e) => r == Err(e)
              case Ok(p) => r == Ok([Mark]) && params == old(params) + [p]
    {
      var p := BindValue(v);
      if p.Err? { return Err(p.refusal); }
      params := params + [p.value];
      return Ok([Mark]);
    }

    method CompileComparison(path: Path, op: string, v: Value) returns (r: Result<seq<Token>>)
      requires Plain(op)
      modifies this
      ensures Compiles(Comparison(path, doc, op, v), r, old(params), params)
    {
      var mark := Bind(v);
      if mark.Err? { return mark; }
      var before := Text(Comparable(path, doc, v) + " " + op + " ");
      assert [before] + [Mark] == [before, Mark];
      return Ok([before] + mark.value);
    }

    method CompileEq(path: Path, v: Value) returns (r: Result<seq<Token>>)
      modifies this
      ensures Compiles(EqTree(doc, path, v), r, old(params), params)
    {
      hide ScalarExpr, ExtractExpr, Comparable;
      if v.Null? { return Ok([Text(ScalarExpr(path, doc) + " IS NULL")]); }
      if v.Regex? {
        params := params + [TextParam(v.pattern)];
        return Ok([Text(ScalarExpr(path, doc) + " REGEXP "), Mark]);
      }
      if HasFields(v) { return Err(NotImplemented); }
      ghost var was := params;
      var eq := CompileComparison(path, "=", v);
      if eq.Err? { return eq; }
      params := params + [JsonParam(v)];
      var contains := [Text("JSON_CONTAINS(" + ExtractExpr(path, doc) + ", "), Mark, Text(")")];
      EitherPrints(Comparison(path, doc, "=", v).value, Contains(path, doc, v));
      r := Ok([LParen] + eq.value + [OrWord] + contains + [RParen]);
    }

    method CompileOperators(path: Path, ops: seq<Field>) returns (r: Result<seq<Token>>)
      modifies this
      ensures Compiles(OperatorsTree(doc, path, ops), r, old(params), params)
      decreases ops, 1
    {
      hide SoFar, Printed, Bound, OperatorTree;
      var parts: seq<seq<Token>> := [];
      ghost var done: seq<Tree> := [];
      ghost var whole := OperatorTrees(doc, path, ops);
      Start(whole, params);
      for k := 0 to |ops|
        invariant SoFar(whole, done, OperatorTrees(doc, path, ops[k..]), parts, old(params), params)
      {
        assert ops[k..][0] == ops[k] && ops[k..][1..] == ops[k + 1..];
        ghost var was := params;
        var part := CompileOperator(path, ops[k].key, ops[k].value);
        ghost var tree := OperatorTree(doc, path, ops[k].key, ops[k].value);
        OneMore(whole, done, tree, OperatorTrees(doc, path, ops[k + 1..]), parts, part, old(params), was, params);
        if part.Err? { return part; }
        parts := parts + [part.value];
        done := done + [tree.value];
      }
      AllDone(whole, done, true, parts, old(params), params);
      return Ok(Conjoined(parts, AndWord));
    }

    method CompileIn(path: Path, v: Value, negated: bool) returns (r: Result<seq<Token>>)
      modifies this
      ensures Compiles(Membership(path, doc, v, negated), r, old(params), params)
    {
      hide ScalarExpr, Plain, QuietTokens;
      if !v.Array? { return Err(TypeMismatch); }
      if v.fields == [] { return Ok([Text(if negated then "1" else "0")]); }
      var list: seq<Token> := [];
      ghost var bound: seq<Param> := [];
      AfterNone(BindAll(v.fields));
      for k := 0 to |v.fields|
        invariant |bound| == k && list == Listed(k) && params == old(params) + bound
        invariant BindAll(v.fields) == After(bound, BindAll(v.fields[k..]))
      {
        assert v.fields[k..][0] == v.fields[k] && v.fields[k..][1..] == v.fields[k + 1..];
        var mark := Bind(v.fields[k].value);
        if mark.Err? { return mark; }
        ghost var p := BindValue(v.fields[k].value).value;
        BindOne(v.fields[k..]);
        AfterOne(bound, p, BindAll(v.fields[k + 1..]));
        bound := bound + [p];
        list := list + (if k == 0 then [] else [Text(", ")]) + mark.value;
      }
      assert bound + [] == bound;
      return Ok([Text(ScalarExpr(path, doc) + (if negated then " NOT IN (" else " IN ("))] + list + [Text(")")]);
    }

    method CompileOperator(path: Path, op: string, v: Value) returns (r: Result<seq<Token>>)
      modifies this
      ensures Compiles(OperatorTree(doc, path, op, v), r, old(params), params)
      decreases v, 2
    {
      hide Comparison, Membership, EqTree, OperatorsTree, ScalarExpr, JsonPath;
      if op == "$eq" {
        r := CompileEq(path, v);
      } else if op == "$ne" {
        r := CompileEq(path, v);
        if r.Ok? { r := Ok([NotWord, LParen] + r.value + [RParen]); }
      } else if op == "$gt" {
        r := CompileComparison(path, ">", v);
      } else if op == "$gte" {
        r := CompileComparison(path, ">=", v);
      } else if op == "$lt" {
        r := CompileComparison(path, "<", v);
      } else if op == "$lte" {
        r := CompileComparison(path, "<=", v);
      } else if op == "$in" {
        r := CompileIn(path, v, false);
      } else if op == "$nin" {
        r := CompileIn(path, v, true);
      } else {
        r := CompileOther(path, op, v);
      }
    }

    method CompileOther(path: Path, op: string, v: Value) returns (r: Result<seq<Token>>)
      requires op !in {"$eq", "$ne", "$gt", "$gte", "$lt", "$lte", "$in", "$nin"}
      modifies this
      ensures Compiles(OperatorTree(doc, path, op, v), r, old(params), params)
      decreases v, 1
    {
      hide OperatorsTree, ScalarExpr, ExtractExpr, JsonPath;
      if op == "$exists" {
        var test := [Text("JSON_EXISTS(" + doc + ",'" + JsonPath(path) + "')")];
        return Ok(if v.Bool? && !v.b then [NotWord] + test else test);
      }
      if op == "$regex" {
        if !v.Utf8? && !v.Regex? { return Err(FailedToParse); }
        params := params + [TextParam(if v.Utf8? then v.text else v.pattern)];
        return Ok([Text(ScalarExpr(path, doc) + " REGEXP "), Mark]);
      }
      if op == "$not" {
        if !v.Document? { return Err(FailedToParse); }
        r := CompileOperators(path, v.fields);
        if r.Ok? { r := Ok([NotWord, LParen] + r.value + [RParen]); }
        return;
      }
      if op == "$elemMatch" {
        if !v.Document? { return Err(FailedToParse); }
        for k := 0 to |v.fields|
          invariant forall i :: 0 <= i < k ==> !IsOperator(v.fields[i].key)
        {
          if IsOperator(v.fields[k].key) { return Err(NotImplemented); }
        }
        params := params + [JsonParam(v)];
        return Ok([Text("JSON_CONTAINS(" + ExtractExpr(path, doc) + ", "), Mark, Text(")")]);
      }
      return Err(BadValue);
    }
  }

  lemma LonePrints(c: Cond)
    ensures PrintedAll([Leaf(c)]) == [c.tokens] && BoundAll([Leaf(c)]) == c.bound
  {
    assert [Leaf(c)][1..] == [];
    assert BoundAll([Leaf(c)]) == c.bound + BoundAll([]);
  }

  lemma EitherPrints(t: Tree, c: Cond)
    ensures Printed(Or([t, Leaf(c)])) == [LParen] + Printed(t) + [OrWord] + c.tokens + [RParen]
    ensures Bound(Or([t, Leaf(c)])) == Bound(t) + c.bound
  {
    LonePrints(c);
    assert [t, Leaf(c)][1..] == [Leaf(c)];
    assert PrintedAll([t, Leaf(c)]) == [Printed(t), c.tokens];
    EitherJoined(Printed(t), c.tokens);
    Regrouped([LParen], Printed(t), [OrWord], c.tokens, [RParen]);
    hide Joined;
  }

  lemma EitherJoined(a: seq<Token>, b: seq<Token>)
    ensures Joined([a, b], OrWord) == a + [OrWord] + b
  {
    assert [a, b][1..] == [b];
  }

  lemma Regrouped(a: seq<Token>, b: seq<Token>, c: seq<Token>, d: seq<Token>, e: seq<Token>)
    ensures a + (b + c + d) + e == a + b + c + d + e
  {
  }

  lemma Start(whole: Result<seq<Tree>>, params: seq<Param>)
    ensures SoFar(whole, [], whole, [], params, params)
  {
    if whole.Ok? { assert [] + whole.value == whole.value; }
  }

  // ---------------------------------------------------------------- filling in the placeholders

  function Word(t: Token): string {
    match t
    case LParen => "("
    case RParen => ")"
    case AndWord => " AND "
    case OrWord => " OR "
    case NotWord => "NOT "
    case Text(s) => s
    case Mark => "?"
  }

  function Spelled(toks: seq<Token>): string {
    if toks == [] then [] else Word(toks[0]) + Spelled(toks[1..])
  }

  function Rendered(sql: string, params: seq<Param>, spell: Param -> string): Option<string> {
    if sql == [] then (if params == [] then Some([]) else None)
    else if sql[0] != '?' then
      match Rendered(sql[1..], params, spell)
      case None => None
      case Some(rest) => Some([sql[0]] + rest)
    else if params == [] then None
    else
      match Rendered(sql[1..], params[1..], spell)
      case None => None
      case Some(rest) => Some(spell(params[0]) + rest)
  }

  /** render: None is the internal error of too many or too few parameters. */
  method Render(sql: string, params: seq<Param>, spell: Param -> string) returns (r: Option<string>)
    ensures r == Rendered(sql, params, spell)
  {
    var out: string, next := [], 0;
    assert forall rest: string :: out + rest == rest;
    for i := 0 to |sql|
      invariant 0 <= next <= |params|
      invariant Rendered(sql, params, spell) ==
                match Rendered(sql[i..], params[next..], spell)
                case None => None
                case Some(rest) => Some(out + rest)
    {
      assert sql[i..][0] == sql[i] && sql[i..][1..] == sql[i + 1..];
      if sql[i] != '?' {
        assert forall rest: string :: out + ([sql[i]] + rest) == out + [sql[i]] + rest;
        out := out + [sql[i]];
        continue;
      }
      if next >= |params| { return None; }
      assert params[next..][0] == params[next] && params[next..][1..] == params[next + 1..];
      assert forall rest: string :: out + (spell(params[next]) + rest) == out + spell(params[next]) + rest;
      out := out + spell(params[next]);
      next := next + 1;
    }
    if next != |params| { return None; }
    assert out + [] == out;
    return Some(out);
  }

  function Questions(s: string): nat {
    if s == [] then 0 else (if s[0] == '?' then 1 else 0) + Questions(s[1..])
  }

  lemma {:induction false} RenderedExactly(sql: string, params: seq<Param>, spell: Param -> string)
    ensures Rendered(sql, params, spell).Some? <==> Questions(sql) == |params|
  {
    if sql != [] {
      RenderedExactly(sql[1..], params, spell);
      if params != [] { RenderedExactly(sql[1..], params[1..], spell); }
    }
  }

  lemma {:induction false} QuestionsAppend(a: string, b: string)
    ensures Questions(a + b) == Questions(a) + Questions(b)
  {
    if a == [] {
      assert a + b == b;
    } else {
      assert (a + b)[1..] == a[1..] + b;
      QuestionsAppend(a[1..], b);
    }
  }

  lemma {:induction false} NoQuestions(s: string)
    ensures Questions(s) == 0 <==> Plain(s)
  {
    if s != [] { NoQuestions(s[1..]); }
  }

  lemma {:induction false} MarksAreQuestions(toks: seq<Token>)
    ensures Questions(Spelled(toks)) >= Marks(toks)
    ensures Questions(Spelled(toks)) == Marks(toks) <==> QuietTokens(toks)
  {
    if toks != [] {
      MarksAreQuestions(toks[1..]);
      QuestionsAppend(Word(toks[0]), Spelled(toks[1..]));
      NoQuestions(Word(toks[0]));
      assert toks[0].Mark? ==> Questions("?") == 1;
      assert toks == [toks[0]] + toks[1..];
      hide Questions, Plain;
    }
  }

  /** The leaf's own text with its own bound values in it. */
  function Filled(toks: seq<Token>, params: seq<Param>, spell: Param -> string): string
    requires Marks(toks) == |params|
  {
    if toks == [] then []
    else if toks[0].Mark? then spell(params[0]) + Filled(toks[1..], params[1..], spell)
    else Word(toks[0]) + Filled(toks[1..], params, spell)
  }

  /** The whole condition, every leaf filled in from its own values. */
  function FilledTree(t: Tree, spell: Param -> string): string
    requires Shaped(t)
    decreases t
  {
    match t
    case Leaf(c) => Filled(c.tokens, c.bound, spell)
    case Lacks(c) => "NOT " + Filled(c.tokens, c.bound, spell)
    case And(parts) => "(" + FilledJoin(parts, " AND ", spell) + ")"
    case Or(parts) => "(" + FilledJoin(parts, " OR ", spell) + ")"
    case Not(u) => "NOT (" + FilledTree(u, spell) + ")"
  }

  function FilledJoin(parts: seq<Tree>, joiner: string, spell: Param -> string): string
    requires ShapedAll(parts)
    decreases parts
  {
    if parts == [] then []
    else if |parts| == 1 then FilledTree(parts[0], spell)
    else FilledTree(parts[0], spell) + joiner + FilledJoin(parts[1..], joiner, spell)
  }

  lemma {:induction false} FilledAppend(a: seq<Token>, b: seq<Token>, p: seq<Param>, q: seq<Param>, spell: Param -> string)
    requires Marks(a) == |p| && Marks(b) == |q|
    ensures Marks(a + b) == |p + q|
    ensures Filled(a + b, p + q, spell) == Filled(a, p, spell) + Filled(b, q, spell)
  {
    MarksAppend(a, b);
    if a == [] {
      assert a + b == b && p + q == q;
    } else {
      assert (a + b)[1..] == a[1..] + b;
      if a[0].Mark? {
        assert (p + q)[1..] == p[1..] + q;
        FilledAppend(a[1..], b, p[1..], q, spell);
      } else {
        FilledAppend(a[1..], b, p, q, spell);
      }
    }
  }

  lemma {:induction false} FillsQuiet(toks: seq<Token>, params: seq<Param>, spell: Param -> string)
    requires QuietTokens(toks) && Marks(toks) == |params|
    ensures Rendered(Spelled(toks), params, spell) == Some(Filled(toks, params, spell))
  {
    if toks != [] {
      if toks[0].Mark? {
        FillsQuiet(toks[1..], params[1..], spell);
        assert ("?" + Spelled(toks[1..]))[1..] == Spelled(toks[1..]);
      } else {
        FillsQuiet(toks[1..], params, spell);
        Copies(Word(toks[0]), Spelled(toks[1..]), params, spell);
      }
    }
  }

  lemma {:induction false} Copies(a: string, b: string, params: seq<Param>, spell: Param -> string)
    requires Plain(a)
    ensures Rendered(a + b, params, spell) ==
            match Rendered(b, params, spell) case None => None case Some(rest) => Some(a + rest)
  {
    if a == [] {
      assert a + b == b && forall rest: string :: a + rest == rest;
    } else {
      assert (a + b)[1..] == a[1..] + b;
      Copies(a[1..], b, params, spell);
      assert forall rest: string :: [a[0]] + (a[1..] + rest) == a + rest;
    }
  }

  lemma {:induction false} PrintedFills(t: Tree, spell: Param -> string)
    requires Shaped(t)
    ensures Marks(Printed(t)) == |Bound(t)|
    ensures Filled(Printed(t), Bound(t), spell) == FilledTree(t, spell)
    ensures QuietTokens(Printed(t)) <==> Quiet(t)
    decreases t
  {
    match t
    case Leaf(c) =>
    case Lacks(c) => FilledAppend([NotWord], c.tokens, [], c.bound, spell);
      assert [] + c.bound == c.bound;
    case Not(u) =>
      PrintedFills(u, spell);
      Bracketed([NotWord, LParen], Printed(u), Bound(u), spell);
    case And(parts) =>
      JoinedFills(parts, AndWord, spell);
      Bracketed([LParen], Joined(PrintedAll(parts), AndWord), BoundAll(parts), spell);
    case Or(parts) =>
      JoinedFills(parts, OrWord, spell);
      Bracketed([LParen], Joined(PrintedAll(parts), OrWord), BoundAll(parts), spell);
  }

  lemma Bracketed(head: seq<Token>, body: seq<Token>, params: seq<Param>, spell: Param -> string)
    requires head in {[LParen], [NotWord, LParen]} && Marks(body) == |params|
    ensures Marks(head + body + [RParen]) == |params|
    ensures Filled(head + body + [RParen], params, spell) == Spelled(head) + Filled(body, params, spell) + ")"
    ensures QuietTokens(head + body + [RParen]) <==> QuietTokens(body)
    ensures Spelled([LParen]) == "(" && Spelled([NotWord, LParen]) == "NOT ("
  {
    QuietBrackets(head, body);
    hide QuietTokens;
    assert [NotWord, LParen][1..] == [LParen];
    assert Marks(head) == 0 && Filled(head, [], spell) == Spelled(head);
    assert Marks([RParen]) == 0 && Filled([RParen], [], spell) == ")";
    hide Marks, Filled;
    FilledAppend(head, body, [], params, spell);
    FilledAppend(head + body, [RParen], params, [], spell);
    assert [] + params == params && params + [] == params;
  }

  lemma QuietBrackets(head: seq<Token>, body: seq<Token>)
    requires head in {[LParen], [NotWord, LParen]}
    ensures QuietTokens(head + body + [RParen]) <==> QuietTokens(body)
  {
    hide Plain;
    var all := head + body + [RParen];
    assert forall k :: 0 <= k < |body| ==> all[|head| + k] == body[k];
    assert forall k :: 0 <= k < |all| ==> all[k] in body || all[k] in {LParen, RParen, NotWord};
  }

  lemma {:induction false} JoinedFills(parts: seq<Tree>, joiner: Token, spell: Param -> string)
    requires ShapedAll(parts) && (joiner.AndWord? || joiner.OrWord?)
    ensures Marks(Joined(PrintedAll(parts), joiner)) == |BoundAll(parts)|
    ensures Filled(Joined(PrintedAll(parts), joiner), BoundAll(parts), spell) == FilledJoin(parts, Word(joiner), spell)
    ensures QuietTokens(Joined(PrintedAll(parts), joiner)) <==> QuietAll(parts)
    decreases parts
  {
    if parts != [] {
      hide Printed, Bound, FilledTree, Quiet, Shaped, Filled;
      PrintedFills(parts[0], spell);
      if |parts| == 1 {
        assert Joined(PrintedAll(parts), joiner) == Printed(parts[0]);
        assert BoundAll(parts) == Bound(parts[0]);
      } else {
        var head, tail := Printed(parts[0]), Joined(PrintedAll(parts[1..]), joiner);
        JoinedFills(parts[1..], joiner, spell);
        assert PrintedAll(parts)[1..] == PrintedAll(parts[1..]);
        Between(head, joiner, tail, Bound(parts[0]), BoundAll(parts[1..]), spell);
      }
    }
  }

  lemma Between(head: seq<Token>, joiner: Token, tail: seq<Token>, p: seq<Param>, q: seq<Param>, spell: Param -> string)
    requires Marks(head) == |p| && Marks(tail) == |q| && (joiner.AndWord? || joiner.OrWord?)
    ensures Marks(head + [joiner] + tail) == |p + q|
    ensures Filled(head + [joiner] + tail, p + q, spell) == Filled(head, p, spell) + Word(joiner) + Filled(tail, q, spell)
    ensures QuietTokens(head + [joiner] + tail) <==> QuietTokens(head) && QuietTokens(tail)
  {
    assert Filled([joiner], [], spell) == Word(joiner);
    FilledAppend(head, [joiner], p, [], spell);
    FilledAppend(head + [joiner], tail, p, q, spell);
    assert p + [] == p;
    var all := head + [joiner] + tail;
    assert forall k :: 0 <= k < |head| ==> all[k] == head[k];
    assert forall k :: 0 <= k < |tail| ==> all[|head| + 1 + k] == tail[k];
  }

  /** A compiled filter is read by the server as the tree it was compiled to, NOT over AND over OR,
      although a joint of one part is written without parentheses; this holds exactly when no $not is
      over an empty document, and such a filter compiles to text that does not read at all. */
  lemma CompiledReadsAsFilter(column: string, filter: seq<Field>)
    requires DocumentTree(column, filter).Ok?
    ensures var t := DocumentTree(column, filter).value;
            ReadSql(Printed(t)) == if FullFields(filter) then Some(Meaning(t)) else None
  {
    PrintedReadsBack(DocumentTree(column, filter).value);
  }

  /** Filling in the placeholders puts each leaf's own values in that leaf and has none left over;
      it succeeds exactly when no leaf's text holds a question mark of its own, which can be seen from
      the filter's field names, whatever question marks its values hold. */
  lemma RenderFillsLeaves(column: string, filter: seq<Field>, spell: Param -> string)
    requires DocumentTree(column, filter).Ok?
    ensures var t := DocumentTree(column, filter).value;
            Rendered(Spelled(Printed(t)), Bound(t), spell) ==
              if QuietFields(column, filter) then Some(FilledTree(t, spell)) else None
    ensures Quiet(DocumentTree(column, filter).value) <==> QuietFields(column, filter)
  {
    var t := DocumentTree(column, filter).value;
    PrintedFills(t, spell);
    MarksAreQuestions(Printed(t));
    RenderedExactly(Spelled(Printed(t)), Bound(t), spell);
    if Quiet(t) { FillsQuiet(Printed(t), Bound(t), spell); }
  }
}
