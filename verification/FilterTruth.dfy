/** What a filter means, read straight from its fields, and the proof that the SQL it compiles to,
    as the server reads and evaluates it, says just that of every document. */
module FilterTruth {
  import opened Optional
  import opened Bson
  import opened Filter
  import opened FilterText

  // ---------------------------------------------------------------- the meaning of a filter

  datatype Relation = Same | Greater | GreaterOrSame | Less | LessOrSame

  /** What a filter can ask of one path: is nothing or null there, does the value stand in a relation
      to another, does it hold a value inside, match a pattern, occur in a list, is anything there. */
  datatype Test =
    | Missing
    | Relates(relation: Relation, v: Value)
    | Holds(v: Value)
    | Matches(pattern: string)
    | Among(vs: seq<Value>)
    | Present

  /** The answers for one document. */
  type Answers = (Path, Test) -> Truth

  /** A document is all of its fields. */
  function DocumentTruth(filter: seq<Field>, said: Answers): Truth
    decreases filter, 0
  {
    if filter == [] then True
    else Both(FieldTruth(filter[0].key, filter[0].value, said), DocumentTruth(filter[1..], said))
  }

  function FieldTruth(key: string, v: Value, said: Answers): Truth
    decreases v, 1
  {
    if key == "$and" then (if v.Array? then EveryBranch(v.fields, said) else Unknown)
    else if key == "$or" then (if v.Array? then SomeBranch(v.fields, said) else Unknown)
    else if key == "$nor" then (if v.Array? then Negated(SomeBranch(v.fields, said)) else Unknown)
    else
      match SplitPath(key)
      case None => Unknown
      case Some(path) =>
        if v.Document? && v.fields != [] && "$" <= v.fields[0].key then EveryOperator(path, v.fields, said)
        else EqualTruth(path, v, said)
  }

  function EveryBranch(branches: seq<Field>, said: Answers): Truth
    decreases branches, 0
  {
    if branches == [] then True
    else if !branches[0].value.Document? then Unknown
    else Both(DocumentTruth(branches[0].value.fields, said), EveryBranch(branches[1..], said))
  }

  function SomeBranch(branches: seq<Field>, said: Answers): Truth
    decreases branches, 0
  {
    if branches == [] then False
    else if !branches[0].value.Document? then Unknown
    else Either(DocumentTruth(branches[0].value.fields, said), SomeBranch(branches[1..], said))
  }

  function EveryOperator(path: Path, ops: seq<Field>, said: Answers): Truth
    decreases ops, 0
  {
    if ops == [] then True
    else Both(OperatorTruth(path, ops[0].key, ops[0].value, said), EveryOperator(path, ops[1..], said))
  }

  /** null asks for nothing there, a pattern for a match, and any other value for itself, either as
      the value or inside it. */
  function EqualTruth(path: Path, v: Value, said: Answers): Truth {
    if v == Null then said(path, Missing)
    else if v.Regex? then said(path, Matches(v.pattern))
    else Either(said(path, Relates(Same, v)), said(path, Holds(v)))
  }

  function OperatorTruth(path: Path, op: string, v: Value, said: Answers): Truth
    decreases v, 1
  {
    if op == "$eq" then EqualTruth(path, v, said)
    else if op == "$ne" then Negated(EqualTruth(path, v, said))
    else if op == "$gt" then said(path, Relates(Greater, v))
    else if op == "$gte" then said(path, Relates(GreaterOrSame, v))
    else if op == "$lt" then said(path, Relates(Less, v))
    else if op == "$lte" then said(path, Relates(LessOrSame, v))
    else if op == "$in" then (if FieldsIn(v) == [] then False else said(path, Among(Values(FieldsIn(v)))))
    else if op == "$nin" then (if FieldsIn(v) == [] then True else Negated(said(path, Among(Values(FieldsIn(v))))))
    else if op == "$exists" then (if v == Bool(false) then Negated(said(path, Present)) else said(path, Present))
    else if op == "$regex" then
      (match v case Utf8(text) => said(path, Matches(text)) case Regex(p) => said(path, Matches(p)) case _ => Unknown)
    else if op == "$not" then (if v.Document? then Negated(EveryOperator(path, v.fields, said)) else Unknown)
    else if op == "$elemMatch" then said(path, Holds(v))
    else Unknown
  }

  // ---------------------------------------------------------------- what is refused

  /** The first thing in a filter that is refused, in the order it is written. */
  function DocumentFault(filter: seq<Field>): Option<Refusal>
    decreases filter, 0
  {
    if filter == [] then None else First(FieldFault(filter[0].key, filter[0].value), DocumentFault(filter[1..]))
  }

  function First(a: Option<Refusal>, b: Option<Refusal>): Option<Refusal> {
    if a.Some? then a else b
  }

  function FieldFault(key: string, v: Value): Option<Refusal>
    decreases v, 1
  {
    if key == "$and" || key == "$or" || key == "$nor" then
      if !v.Array? then Some(TypeMismatch)
      else if v.fields == [] then Some(FailedToParse)
      else BranchesFault(v.fields)
    else if "$" <= key then Some(NotImplemented)
    else if SplitPath(key) == None then Some(FailedToParse)
    else if v.Document? && v.fields != [] && "$" <= v.fields[0].key then OperatorsFault(v.fields)
    else EqualFault(v)
  }

  function BranchesFault(branches: seq<Field>): Option<Refusal>
    decreases branches, 0
  {
    if branches == [] then None
    else if !branches[0].value.Document? then Some(FailedToParse)
    else First(DocumentFault(branches[0].value.fields), BranchesFault(branches[1..]))
  }

  function OperatorsFault(ops: seq<Field>): Option<Refusal>
    decreases ops, 0
  {
    if ops == [] then None else First(OperatorFault(ops[0].key, ops[0].value), OperatorsFault(ops[1..]))
  }

  predicate Bindable(v: Value) {
    v.Null? || v.Bool? || v.Int32? || v.Int64? || v.Dbl? || v.DateTime? || v.Timestamp? || v.ObjectId? || v.Utf8?
  }

  function BindFault(v: Value): Option<Refusal> {
    if Bindable(v) then None else Some(NotImplemented)
  }

  function EqualFault(v: Value): Option<Refusal> {
    if v.Regex? then None else BindFault(v)
  }

  function OperatorFault(op: string, v: Value): Option<Refusal>
    decreases v, 1
  {
    if op == "$eq" || op == "$ne" then EqualFault(v)
    else if op == "$gt" || op == "$gte" || op == "$lt" || op == "$lte" then BindFault(v)
    else if op == "$in" || op == "$nin" then
      if !v.Array? then Some(TypeMismatch)
      else if forall k :: 0 <= k < |v.fields| ==> Bindable(v.fields[k].value) then None
      else Some(NotImplemented)
    else if op == "$exists" then None
    else if op == "$regex" then (if v.Utf8? || v.Regex? then None else Some(FailedToParse))
    else if op == "$not" then (if v.Document? then OperatorsFault(v.fields) else Some(FailedToParse))
    else if op == "$elemMatch" then
      if !v.Document? then Some(FailedToParse)
      else if exists k :: 0 <= k < |v.fields| && "$" <= v.fields[k].key then Some(NotImplemented)
      else None
    else Some(BadValue)
  }

  // ---------------------------------------------------------------- the questions in SQL

  /** One reading of a path: a JSON_VALUE inside a type wrapper. */
  function Inside(column: string, path: Path, wrapper: string): string {
    "JSON_VALUE(" + column + ",'" + JsonPath(path) + wrapper + "')"
  }

  function Commas(parts: seq<string>): string {
    if parts == [] then "" else if |parts| == 1 then parts[0] else parts[0] + "," + Commas(parts[1..])
  }

  /** The scalar at a path, bare or inside one of the wrappers of canonical extended JSON. */
  function Scalar(column: string, path: Path): string {
    "COALESCE(" + Commas([
      Inside(column, path, ""),
      Inside(column, path, ".\"$numberInt\""),
      Inside(column, path, ".\"$numberLong\""),
      Inside(column, path, ".\"$numberDouble\""),
      Inside(column, path, ".\"$date\".\"$numberLong\""),
      Inside(column, path, ".\"$oid\"")]) + ")"
  }

  /** What is set against a value: a number against numbers and dates, a packed 64-bit ordinal against
      timestamps, and otherwise the text. */
  function Side(column: string, path: Path, v: Value): string {
    if v.Int32? || v.Int64? || v.Dbl? || v.DateTime? then "CAST(" + Scalar(column, path) + " AS DOUBLE)"
    else if v.Timestamp? then
      "(CAST(" + Inside(column, path, ".\"$timestamp\".t") + " AS UNSIGNED) * 4294967296 + CAST("
      + Inside(column, path, ".\"$timestamp\".i") + " AS UNSIGNED))"
    else Scalar(column, path)
  }

  function Symbol(r: Relation): string {
    match r
    case Same => "="
    case Greater => ">"
    case GreaterOrSame => ">="
    case Less => "<"
    case LessOrSame => "<="
  }

  /** n placeholders with commas between. */
  function Holes(n: nat): string {
    if n == 0 then "" else if n == 1 then "?" else Holes(n - 1) + ", ?"
  }

  function Question(column: string, path: Path, test: Test): string {
    match test
    case Missing => Scalar(column, path) + " IS NULL"
    case Relates(r, v) => Side(column, path, v) + " " + Symbol(r) + " ?"
    case Holds(_) => "JSON_CONTAINS(JSON_EXTRACT(" + column + ",'" + JsonPath(path) + "'), ?)"
    case Matches(_) => Scalar(column, path) + " REGEXP ?"
    case Among(vs) => Scalar(column, path) + " IN (" + Holes(|vs|) + ")"
    case Present => "JSON_EXISTS(" + column + ",'" + JsonPath(path) + "')"
  }

  function Denial(column: string, path: Path, vs: seq<Value>): string {
    Scalar(column, path) + " NOT IN (" + Holes(|vs|) + ")"
  }

  /** The values a question is asked with. */
  function Given(test: Test): seq<Param> {
    match test
    case Missing => []
    case Relates(_, v) => GivenEach([v])
    case Holds(v) => [JsonParam(v)]
    case Matches(pattern) => [TextParam(pattern)]
    case Among(vs) => GivenEach(vs)
    case Present => []
  }

  function GivenEach(vs: seq<Value>): seq<Param> {
    if vs == [] then []
    else (match BindValue(vs[0]) case Ok(p) => [p] case Err(_) => []) + GivenEach(vs[1..])
  }

  /** What the server makes of an operand of a condition, with the values of its placeholders, on
      one document. */
  type Server = (string, seq<Param>) -> Truth

  /** What the proof asks of the server: 1 and 0 are true and false, and NOT IN denies IN. */
  ghost predicate SpeaksSql(server: Server, column: string) {
    && server("1", []) == True && server("0", []) == False
    && forall path: Path, vs: seq<Value> :: vs != [] ==>
         server(Denial(column, path, vs), GivenEach(vs)) ==
           Negated(server(Question(column, path, Among(vs)), GivenEach(vs)))
  }

  /** The server's answers to the questions about a document column. */
  function Said(server: Server, column: string): Answers {
    (path: Path, test: Test) => server(Question(column, path, test), Given(test))
  }

  // ---------------------------------------------------------------- paths and values in SQL

  /** A quoted member name, up to its closing quote, and what is behind it; a backslash stands for the
      character after it. */
  function ReadMember(s: string): Option<(string, string)> {
    if s == [] then None
    else if s[0] == '"' then Some(("", s[1..]))
    else
      var skip := if s[0] == '\\' && |s| > 1 then 1 else 0;
      match ReadMember(s[skip + 1..])
      case None => None
      case Some((name, rest)) => Some(([s[skip]] + name, rest))
  }

  function ReadMembers(s: string): Option<Path>
    decreases |s|
  {
    if s == [] then Some([])
    else if !(".\"" <= s) then None
    else
      match ReadMember(s[2..])
      case None => None
      case Some((name, rest)) =>
        if |rest| >= |s| then None
        else
          match ReadMembers(rest)
          case None => None
          case Some(path) => Some([name] + path)
  }

  /** A JSON path as MariaDB reads it. */
  function ReadPath(s: string): Option<Path> {
    if s != [] && s[0] == '$' then ReadMembers(s[1..]) else None
  }

  /** A name read behind one more character. */
  function NameBehind(c: char, r: Option<(string, string)>): Option<(string, string)> {
    match r
    case None => None
    case Some((name, rest)) => Some(([c] + name, rest))
  }

  lemma CharacterReads(c: char, tail: string)
    ensures c != '"' && c != '\\' ==> ReadMember([c] + tail) == NameBehind(c, ReadMember(tail))
    ensures ReadMember(['\\', c] + tail) == NameBehind(c, ReadMember(tail))
  {
    assert ([c] + tail)[1..] == tail && (['\\', c] + tail)[2..] == tail;
  }

  lemma {:induction false} MemberReads(name: string, rest: string)
    ensures ReadMember(Escaped(name) + "\"" + rest) == Some((name, rest))
  {
    if name == [] {
      assert Escaped(name) + "\"" + rest == "\"" + rest && ("\"" + rest)[1..] == rest;
    } else {
      hide ReadMember;
      MemberReads(name[1..], rest);
      var tail := Escaped(name[1..]) + "\"" + rest;
      CharacterReads(name[0], tail);
      EscapedFirst(name, rest);
      hide Escaped;
      assert [name[0]] + name[1..] == name;
    }
  }

  lemma EscapedFirst(name: string, rest: string)
    requires name != []
    ensures Escaped(name) + "\"" + rest ==
            (if name[0] == '"' || name[0] == '\\' then ['\\', name[0]] else [name[0]])
            + (Escaped(name[1..]) + "\"" + rest)
  {
    var slash := if name[0] == '"' || name[0] == '\\' then ['\\'] else [];
    var more := Escaped(name[1..]);
    assert Escaped(name) == slash + [name[0]] + more;
    hide Escaped;
    Regrouping(slash + [name[0]], more, "\"", rest);
  }

  lemma Regrouping(a: string, b: string, c: string, d: string)
    ensures a + b + c + d == a + (b + c + d)
  {
  }

  lemma MembersStep(member: string, name: string, rest: string)
    requires ReadMember(member) == Some((name, rest)) && |rest| <= |member|
    ensures ReadMembers(".\"" + member) ==
            match ReadMembers(rest) case None => None case Some(path) => Some([name] + path)
  {
    hide ReadMember;
    assert (".\"" + member)[2..] == member;
  }

  lemma MembersFirst(path: Path)
    requires path != []
    ensures Members(path) == ".\"" + (Escaped(path[0]) + "\"" + Members(path[1..]))
  {
    hide Escaped;
    Regrouping(".\"", Escaped(path[0]), "\"", Members(path[1..]));
  }

  lemma {:induction false} MembersRead(path: Path)
    ensures ReadMembers(Members(path)) == Some(path)
  {
    if path != [] {
      hide Escaped, ReadMember, ReadMembers, Members;
      var rest := Members(path[1..]);
      MembersFirst(path);
      MemberReads(path[0], rest);
      MembersRead(path[1..]);
      MembersStep(Escaped(path[0]) + "\"" + rest, path[0], rest);
      assert path == [path[0]] + path[1..];
    } else {
      assert Members(path) == [];
    }
  }

  /** The path written into the condition is the field's, whatever its names hold. */
  lemma PathReads(path: Path)
    ensures ReadPath(JsonPath(path)) == Some(path)
  {
    MembersRead(path);
    assert JsonPath(path)[1..] == Members(path);
    hide Members, ReadMembers;
  }

  function Nibble(c: char): nat {
    if '0' <= c <= '9' then c as nat - '0' as nat else if 'a' <= c <= 'f' then c as nat - 'a' as nat + 10 else 0
  }

  function Unhex(s: string): string {
    if |s| < 2 then [] else [(Nibble(s[0]) % 16 * 16 + Nibble(s[1]) % 16) as char] + Unhex(s[2..])
  }

  predicate IsBytes(s: string) {
    forall k :: 0 <= k < |s| ==> s[k] as nat < 256
  }

  lemma NibbleIs(n: nat)
    requires n < 16
    ensures Nibble(HexDigit(n)) == n
  {
  }

  lemma ByteHalves(n: nat)
    requires n < 256
    ensures n / 16 < 16 && n / 16 % 16 == n / 16 && n / 16 * 16 + n % 16 == n
  {
  }

  lemma UnhexTwo(high: nat, low: nat, rest: string)
    requires high < 16 && low < 16
    ensures Unhex([HexDigit(high), HexDigit(low)] + rest) == [(high * 16 + low) as char] + Unhex(rest)
  {
    hide Nibble, HexDigit, Unhex;
    NibbleIs(high);
    NibbleIs(low);
    UnhexStep(HexDigit(high), HexDigit(low), rest);
  }

  lemma UnhexStep(a: char, b: char, rest: string)
    ensures Unhex([a, b] + rest) == [(Nibble(a) % 16 * 16 + Nibble(b) % 16) as char] + Unhex(rest)
  {
    hide Nibble;
    assert ([a, b] + rest)[2..] == rest;
  }

  lemma {:induction false} HexReads(data: string)
    requires IsBytes(data)
    ensures Unhex(Hex(data)) == data && |Hex(data)| == 2 * |data|
  {
    if data != [] {
      hide Unhex, HexDigit;
      var n := data[0] as nat;
      ByteHalves(n);
      UnhexTwo(n / 16, n % 16, Hex(data[1..]));
      HexReads(data[1..]);
      assert data == [data[0]] + data[1..] && n as char == data[0];
    } else {
      assert Hex(data) == [];
    }
  }

  /** The parameter stands for the value: itself, an id's hexadecimal digits, a date's milliseconds, or
      a timestamp's two halves in one 64-bit register. */
  predicate StandsFor(p: Param, v: Value) {
    match v
    case Null => p == NullParam
    case Bool(b) => p == BoolParam(b)
    case Int32(n) => p == IntParam(n)
    case Int64(n) => p == IntParam(n)
    case Dbl(d) => p == DoubleParam(d)
    case Utf8(text) => p == TextParam(text)
    case DateTime(millis) => p == IntParam(millis)
    case ObjectId(data) => p.TextParam? && |p.s| == 2 * |data| && Unhex(p.s) == data
    case Timestamp(t, i) =>
      p.IntParam? && -TWO_63 <= p.n < TWO_63 && (p.n == t * TWO_32 + i || p.n == t * TWO_32 + i - 2 * TWO_63)
    case _ => false
  }

  const TWO_32: nat := 0x1_0000_0000
  const TWO_63: int := 0x8000_0000_0000_0000

  lemma BoundStands(v: Value)
    requires v.ObjectId? ==> IsBytes(v.data)
    requires v.Timestamp? ==> v.t < TWO_32 && v.i < TWO_32
    ensures if Bindable(v) then BindValue(v).Ok? && StandsFor(BindValue(v).value, v)
            else BindValue(v) == Err(NotImplemented)
  {
    hide Hex, Unhex;
    if v.ObjectId? { HexReads(v.data); }
  }

  /** Timestamps compare in the register as they do by second and counter, except that one of 2^31
      seconds or more comes before one of less. */
  lemma OrdinalOrder(t: nat, i: nat, t': nat, i': nat)
    requires t < TWO_32 && i < TWO_32 && t' < TWO_32 && i' < TWO_32
    ensures TimestampOrdinal(t, i) < TimestampOrdinal(t', i') <==>
              if (t < TWO_32 / 2) == (t' < TWO_32 / 2) then t < t' || (t == t' && i < i') else TWO_32 / 2 <= t
    ensures TimestampOrdinal(t, i) == TimestampOrdinal(t', i') <==> t == t' && i == i'
  {
    OrdinalIs(t, i);
    OrdinalIs(t', i');
    hide TimestampOrdinal;
  }

  lemma OrdinalIs(t: nat, i: nat)
    requires t < TWO_32 && i < TWO_32
    ensures TimestampOrdinal(t, i) == t * TWO_32 + i - (if t < TWO_32 / 2 then 0 else 2 * TWO_63)
  {
  }

  // ---------------------------------------------------------------- evaluating a condition

  /** A condition's truth, with the values of its placeholders taken from left to right; what is left
      of them comes back. */
  function Eval(s: Sql, ps: seq<Param>, server: Server): (Truth, seq<Param>)
    decreases s
  {
    match s
    case Atom(tokens) =>
      var n := Questions(Spelled(tokens));
      if n <= |ps| then (server(Spelled(tokens), ps[..n]), ps[n..]) else (Unknown, [])
    case Negation(u) => var (t, rest) := Eval(u, ps, server); (Negated(t), rest)
    case All(parts) => EvalAll(parts, ps, server)
    case Any(parts) => EvalAny(parts, ps, server)
  }

  function EvalAll(parts: seq<Sql>, ps: seq<Param>, server: Server): (Truth, seq<Param>)
    decreases parts
  {
    if parts == [] then (True, ps)
    else
      var (t, rest) := Eval(parts[0], ps, server);
      var (u, last) := EvalAll(parts[1..], rest, server);
      (Both(t, u), last)
  }

  function EvalAny(parts: seq<Sql>, ps: seq<Param>, server: Server): (Truth, seq<Param>)
    decreases parts
  {
    if parts == [] then (False, ps)
    else
      var (t, rest) := Eval(parts[0], ps, server);
      var (u, last) := EvalAny(parts[1..], rest, server);
      (Either(t, u), last)
  }

  /** How the server takes a leaf of the compiled condition. */
  function ByText(server: Server): Cond -> Truth {
    (c: Cond) => server(Spelled(c.tokens), c.bound)
  }

  lemma SaidIs(server: Server, column: string, path: Path, test: Test)
    ensures Said(server, column)(path, test) == server(Question(column, path, test), Given(test))
  {
  }

  lemma LeafIs(c: Cond, server: Server)
    ensures Judged(Leaf(c), ByText(server)) == server(Spelled(c.tokens), c.bound)
    ensures Judged(Lacks(c), ByText(server)) == Negated(server(Spelled(c.tokens), c.bound))
  {
  }

  lemma LeafSays(c: Cond, server: Server, column: string, path: Path, test: Test)
    requires Spelled(c.tokens) == Question(column, path, test) && c.bound == Given(test)
    ensures Judged(Leaf(c), ByText(server)) == Said(server, column)(path, test)
    ensures Judged(Lacks(c), ByText(server)) == Negated(Said(server, column)(path, test))
  {
    SaidIs(server, column, path, test);
    LeafIs(c, server);
    hide Spelled, Question, Given, ByText, Said, Judged;
  }

  lemma EvalLeaf(c: Cond, rest: seq<Param>, server: Server)
    requires ShapedCond(c) && QuietTokens(c.tokens)
    ensures Eval(Atom(c.tokens), c.bound + rest, server) == (server(Spelled(c.tokens), c.bound), rest)
  {
    MarksAreQuestions(c.tokens);
    hide Questions, Spelled, Marks, QuietTokens;
    assert (c.bound + rest)[..|c.bound|] == c.bound && (c.bound + rest)[|c.bound|..] == rest;
  }

  /** Reading a tree's values from left to right gives every leaf its own. */
  lemma {:induction false} EvalTree(t: Tree, rest: seq<Param>, server: Server)
    requires Shaped(t) && Quiet(t)
    ensures Eval(Meaning(t), Bound(t) + rest, server) == (Judged(t, ByText(server)), rest)
    decreases t
  {
    match t
    case Leaf(c) => EvalLeaf(c, rest, server);
    case Lacks(c) => EvalLeaf(c, rest, server);
    case Not(u) => EvalTree(u, rest, server);
    case And(parts) => EvalParts(parts, rest, server);
    case Or(parts) => EvalParts(parts, rest, server);
  }

  lemma {:induction false} EvalParts(parts: seq<Tree>, rest: seq<Param>, server: Server)
    requires ShapedAll(parts) && QuietAll(parts)
    ensures EvalAll(Meanings(parts), BoundAll(parts) + rest, server) == (JudgedAll(parts, ByText(server)), rest)
    ensures EvalAny(Meanings(parts), BoundAll(parts) + rest, server) == (JudgedAny(parts, ByText(server)), rest)
    decreases parts
  {
    hide Eval, Meaning, Bound, Judged, Shaped, Quiet, ByText;
    if parts == [] {
      assert [] + rest == rest;
    } else {
      EvalTree(parts[0], BoundAll(parts[1..]) + rest, server);
      EvalParts(parts[1..], rest, server);
      assert BoundAll(parts) + rest == Bound(parts[0]) + (BoundAll(parts[1..]) + rest);
      assert Meanings(parts)[1..] == Meanings(parts[1..]);
    }
  }

  /** It makes no difference whether a leaf's text is in one piece. */
  lemma {:induction false} EvalMerged(t: Tree, ps: seq<Param>, server: Server)
    ensures Eval(Meaning(Merged(t)), ps, server) == Eval(Meaning(t), ps, server)
    decreases t
  {
    hide Spelled, Questions;
    match t
    case Leaf(c) => SpelledOne(Text(Spelled(c.tokens)));
    case Lacks(c) => SpelledOne(Text(Spelled(c.tokens)));
    case Not(u) => EvalMerged(u, ps, server);
    case And(parts) => EvalMergedParts(parts, ps, server);
    case Or(parts) => EvalMergedParts(parts, ps, server);
  }

  lemma {:induction false} EvalMergedParts(parts: seq<Tree>, ps: seq<Param>, server: Server)
    ensures EvalAll(Meanings(MergedAll(parts)), ps, server) == EvalAll(Meanings(parts), ps, server)
    ensures EvalAny(Meanings(MergedAll(parts)), ps, server) == EvalAny(Meanings(parts), ps, server)
    decreases parts
  {
    hide Eval, Meaning, Merged;
    if parts != [] {
      EvalMerged(parts[0], ps, server);
      EvalMergedParts(parts[1..], Eval(Meaning(parts[0]), ps, server).1, server);
      assert MergedAll(parts)[1..] == MergedAll(parts[1..]);
      assert Meanings(parts)[1..] == Meanings(parts[1..]);
      assert Meanings(MergedAll(parts))[1..] == Meanings(MergedAll(parts)[1..]);
    }
  }

  // ---------------------------------------------------------------- leaf by leaf

  /** A compiled tree says what the filter means, or its refusal is the filter's first fault. */
  predicate Says(tree: Result<Tree>, fault: Option<Refusal>, truth: Truth, server: Server) {
    match tree
    case Err(e) => fault == Some(e)
    case Ok(t) => fault == None && Judged(t, ByText(server)) == truth
  }

  predicate SaysAll(trees: Result<seq<Tree>>, fault: Option<Refusal>, all: Truth, server: Server) {
    match trees
    case Err(e) => fault == Some(e)
    case Ok(ts) => fault == None && JudgedAll(ts, ByText(server)) == all
  }

  lemma {:induction false} ReadingsAre(column: string, path: Path, wrappers: seq<string>, parts: seq<string>)
    requires |parts| == |wrappers| && forall k :: 0 <= k < |parts| ==> parts[k] == Inside(column, path, wrappers[k])
    ensures Readings(JsonPath(path), column, wrappers) == Commas(parts)
  {
    hide JsonPath;
    if wrappers != [] {
      ReadingsAre(column, path, wrappers[1..], parts[1..]);
    }
  }

  lemma ScalarIs(column: string, path: Path)
    ensures ScalarExpr(path, column) == Scalar(column, path)
  {
    hide JsonPath, Readings, Inside, Commas;
    ReadingsAre(column, path, WRAPPERS, [
      Inside(column, path, ""),
      Inside(column, path, ".\"$numberInt\""),
      Inside(column, path, ".\"$numberLong\""),
      Inside(column, path, ".\"$numberDouble\""),
      Inside(column, path, ".\"$date\".\"$numberLong\""),
      Inside(column, path, ".\"$oid\"")]);
  }

  lemma PartIs(column: string, path: Path)
    ensures TimestampPart(path, column, "t") == "CAST(" + Inside(column, path, ".\"$timestamp\".t") + " AS UNSIGNED)"
    ensures TimestampPart(path, column, "i") == "CAST(" + Inside(column, path, ".\"$timestamp\".i") + " AS UNSIGNED)"
  {
    hide JsonPath;
    var stamp := ".\"$timestamp\".";
    assert stamp + "t" == ".\"$timestamp\".t" && stamp + "i" == ".\"$timestamp\".i";
    PartText(column, JsonPath(path), "t");
    PartText(column, JsonPath(path), "i");
    Wrapped("CAST(", Inside(column, path, stamp + "t"), " AS UNSIGNED", ")");
    Wrapped("CAST(", Inside(column, path, stamp + "i"), " AS UNSIGNED", ")");
    assert " AS UNSIGNED" + ")" == " AS UNSIGNED)";
  }

  lemma Wrapped(a: string, b: string, c: string, d: string)
    ensures a + (b + c) + d == a + b + (c + d)
  {
  }

  lemma SideIs(column: string, path: Path, v: Value)
    ensures Comparable(path, column, v) == Side(column, path, v)
  {
    hide ScalarExpr, Scalar, TimestampPart, Inside;
    ScalarIs(column, path);
    if v.Timestamp? {
      TimestampSide(column, path);
    }
  }

  lemma TimestampSide(column: string, path: Path)
    ensures "(" + TimestampPart(path, column, "t") + " * 4294967296 + " + TimestampPart(path, column, "i") + ")" ==
            "(CAST(" + Inside(column, path, ".\"$timestamp\".t") + " AS UNSIGNED) * 4294967296 + CAST("
            + Inside(column, path, ".\"$timestamp\".i") + " AS UNSIGNED))"
  {
    hide TimestampPart, Inside;
    PartIs(column, path);
    PackingText(Inside(column, path, ".\"$timestamp\".t"), Inside(column, path, ".\"$timestamp\".i"));
  }

  lemma PackingText(t: string, i: string)
    ensures "(" + ("CAST(" + t + " AS UNSIGNED)") + " * 4294967296 + " + ("CAST(" + i + " AS UNSIGNED)") + ")" ==
            "(CAST(" + t + " AS UNSIGNED) * 4294967296 + CAST(" + i + " AS UNSIGNED))"
  {
    Packing("CAST(", t, " AS UNSIGNED)", " * 4294967296 + ", i, ")");
    assert "(" + "CAST(" == "(CAST(";
    assert " AS UNSIGNED)" + " * 4294967296 + " + "CAST(" == " AS UNSIGNED) * 4294967296 + CAST(";
    assert " AS UNSIGNED)" + ")" == " AS UNSIGNED))";
  }

  lemma Packing(open_: string, t: string, close: string, between: string, i: string, last: string)
    ensures "(" + (open_ + t + close) + between + (open_ + i + close) + last ==
            ("(" + open_) + t + (close + between + open_) + i + (close + last)
  {
  }

  lemma BoundAs(v: Value)
    ensures match BindValue(v)
            case Ok(p) => BindFault(v) == None && GivenEach([v]) == [p]
            case Err(e) => BindFault(v) == Some(e)
  {
    hide TimestampOrdinal, Hex;
    assert [v][1..] == [] && GivenEach([]) == [];
    assert BindValue(v).Ok? ==> [BindValue(v).value] + [] == [BindValue(v).value];
  }

  lemma ComparisonSays(column: string, path: Path, r: Relation, v: Value, server: Server)
    ensures Plain(Symbol(r))
    ensures Says(Comparison(path, column, Symbol(r), v), BindFault(v), Said(server, column)(path, Relates(r, v)), server)
  {
    BoundAs(v);
    SideIs(column, path, v);
    hide Comparable, Side, BindValue, BindFault, GivenEach, Spelled;
    if BindValue(v).Ok? {
      var x, p := Side(column, path, v), BindValue(v).value;
      ComparisonSpelled(x, Symbol(r), p);
      assert x + " " + Symbol(r) + " ?" == x + (" " + Symbol(r) + " ?");
      LeafSays(Around(x + " " + Symbol(r) + " ", p, []), server, column, path, Relates(r, v));
    }
  }

  lemma ContainsSays(column: string, path: Path, v: Value, server: Server)
    ensures Judged(Leaf(Contains(path, column, v)), ByText(server)) == Said(server, column)(path, Holds(v))
  {
    hide Spelled, JsonPath;
    ContainsSpelled(path, column, v);
    ContainsText("JSON_CONTAINS(", "JSON_EXTRACT(", column, ",'", JsonPath(path), "')", ", ?", ")");
    assert "JSON_CONTAINS(" + "JSON_EXTRACT(" == "JSON_CONTAINS(JSON_EXTRACT(" && "')" + ", ?" + ")" == "'), ?)";
    assert ExtractExpr(path, column) == "JSON_EXTRACT(" + column + ",'" + JsonPath(path) + "')";
    LeafSays(Contains(path, column, v), server, column, path, Holds(v));
  }

  lemma ContainsText(a: string, b: string, c: string, d: string, e: string, f: string, g: string, h: string)
    ensures a + ((b + c + d + e + f) + g) + h == (a + b) + c + d + e + (f + g + h)
  {
  }

  lemma MissingSays(column: string, path: Path, server: Server)
    ensures Judged(Leaf(IsNull(path, column)), ByText(server)) == Said(server, column)(path, Missing)
  {
    hide Spelled, ScalarExpr, Scalar;
    ScalarIs(column, path);
    SpelledOne(Text(ScalarExpr(path, column) + " IS NULL"));
    LeafSays(IsNull(path, column), server, column, path, Missing);
  }

  lemma MatchesSays(column: string, path: Path, pattern: string, server: Server)
    ensures Judged(Leaf(Regexp(path, column, TextParam(pattern))), ByText(server)) ==
            Said(server, column)(path, Matches(pattern))
  {
    hide Spelled, ScalarExpr, Scalar;
    ScalarIs(column, path);
    RegexpSpelled(path, column, TextParam(pattern));
    LeafSays(Regexp(path, column, TextParam(pattern)), server, column, path, Matches(pattern));
  }

  lemma PresentSays(column: string, path: Path, server: Server)
    ensures Judged(Leaf(Exists(path, column)), ByText(server)) == Said(server, column)(path, Present)
    ensures Judged(Lacks(Exists(path, column)), ByText(server)) == Negated(Said(server, column)(path, Present))
  {
    hide Spelled, JsonPath;
    SpelledOne(Text("JSON_EXISTS(" + column + ",'" + JsonPath(path) + "')"));
    LeafSays(Exists(path, column), server, column, path, Present);
  }

  lemma {:induction false} BoundEach(fields: seq<Field>)
    ensures match BindAll(fields)
            case Ok(ps) =>
              && ps == GivenEach(Values(fields)) && |ps| == |fields|
              && forall k :: 0 <= k < |fields| ==> Bindable(fields[k].value)
            case Err(e) => e == NotImplemented && exists k :: 0 <= k < |fields| && !Bindable(fields[k].value)
  {
    hide BindValue, Bindable;
    if fields != [] {
      var v := fields[0].value;
      BoundEach(fields[1..]);
      assert Values(fields)[1..] == Values(fields[1..]) && Values(fields)[0] == v;
      assert forall k :: 1 <= k < |fields| ==> fields[k] == fields[1..][k - 1];
      assert BindValue(v).Ok? <==> Bindable(v) by { BindsExactly(v); }
      assert BindValue(v).Err? ==> BindValue(v).refusal == NotImplemented by { BindsExactly(v); }
      if BindAll(fields[1..]).Err? {
        var k :| 0 <= k < |fields[1..]| && !Bindable(fields[1..][k].value);
        assert fields[k + 1] == fields[1..][k];
      }
    }
  }

  lemma BindsExactly(v: Value)
    ensures BindValue(v).Ok? <==> Bindable(v)
    ensures BindValue(v).Err? ==> BindValue(v).refusal == NotImplemented
  {
  }

  lemma {:induction false} HolesSpelled(n: nat)
    ensures Spelled(Listed(n)) == Holes(n)
  {
    SpelledOne(Mark);
    SpelledOne(Text(", "));
    if n > 1 {
      HolesSpelled(n - 1);
      SpelledAppend(Listed(n - 1), [Text(", ")]);
      SpelledAppend(Listed(n - 1) + [Text(", ")], [Mark]);
      hide Spelled;
      assert ", ?" == ", " + "?";
    } else {
      assert Spelled([]) == [];
    }
  }

  /** Whether a list is asked for or denied. */
  function ListTruth(path: Path, v: Value, negated: bool, said: Answers): Truth {
    if FieldsIn(v) == [] then (if negated then True else False)
    else if negated then Negated(said(path, Among(Values(FieldsIn(v)))))
    else said(path, Among(Values(FieldsIn(v))))
  }

  function ListFault(v: Value): Option<Refusal> {
    if !v.Array? then Some(TypeMismatch)
    else if forall k :: 0 <= k < |v.fields| ==> Bindable(v.fields[k].value) then None
    else Some(NotImplemented)
  }

  lemma MembershipSays(column: string, path: Path, v: Value, negated: bool, server: Server)
    requires SpeaksSql(server, column)
    ensures Says(Membership(path, column, v, negated), ListFault(v),
                 ListTruth(path, v, negated, Said(server, column)), server)
  {
    hide Spelled, ScalarExpr, Scalar, BindAll, Holes, SpeaksSql;
    if v.Array? && v.fields == [] {
      SpelledOne(Text(if negated then "1" else "0"));
      LeafIs(Constant(negated), server);
      Constants(server, column);
    } else if v.Array? {
      BoundEach(v.fields);
      hide Bindable;
      if BindAll(v.fields).Ok? { ListLeaf(column, path, v, negated, BindAll(v.fields).value, server); }
    }
  }

  lemma Constants(server: Server, column: string)
    requires SpeaksSql(server, column)
    ensures server("1", []) == True && server("0", []) == False
  {
  }

  lemma ListLeaf(column: string, path: Path, v: Value, negated: bool, ps: seq<Param>, server: Server)
    requires SpeaksSql(server, column) && v.Array? && v.fields != [] && ps == GivenEach(Values(v.fields))
    requires |ps| == |v.fields|
    ensures var before := ScalarExpr(path, column) + (if negated then " NOT IN (" else " IN (");
            Judged(Leaf(InList(before, ps)), ByText(server)) == ListTruth(path, v, negated, Said(server, column))
  {
    hide Spelled, ScalarExpr, InList, SpeaksSql, GivenEach, ByText, Said, Judged, Question, Denial;
    var vs := Values(v.fields);
    ListSays(column, path, v.fields, negated, ps);
    DenialIs(server, column, path, vs);
    LeafIs(InList(ScalarExpr(path, column) + (if negated then " NOT IN (" else " IN ("), ps), server);
    SaidIs(server, column, path, Among(vs));
  }

  lemma DenialIs(server: Server, column: string, path: Path, vs: seq<Value>)
    requires SpeaksSql(server, column) && vs != []
    ensures server(Denial(column, path, vs), GivenEach(vs)) ==
              Negated(server(Question(column, path, Among(vs)), GivenEach(vs)))
  {
    hide Denial, Question, GivenEach;
  }

  lemma ListSays(column: string, path: Path, fields: seq<Field>, negated: bool, ps: seq<Param>)
    requires ps == GivenEach(Values(fields)) && |ps| == |fields|
    ensures var before := ScalarExpr(path, column) + (if negated then " NOT IN (" else " IN (");
            && Spelled(InList(before, ps).tokens) ==
                 (if negated then Denial(column, path, Values(fields)) else Question(column, path, Among(Values(fields))))
            && InList(before, ps).bound == ps
  {
    hide Spelled, ScalarExpr, Scalar, Holes, Listed;
    ScalarIs(column, path);
    HolesSpelled(|ps|);
    SpelledList(ScalarExpr(path, column) + (if negated then " NOT IN (" else " IN ("), ps);
  }

  // ---------------------------------------------------------------- operator by operator

  lemma OperatorKey(key: string)
    ensures IsOperator(key) <==> "$" <= key
  {
  }

  lemma NegatingSays(t: Result<Tree>, fault: Option<Refusal>, truth: Truth, server: Server)
    requires Says(t, fault, truth, server)
    ensures Says(Negating(t), fault, Negated(truth), server)
  {
    hide ByText;
  }

  lemma JoiningSays(all: bool, trees: Result<seq<Tree>>, fault: Option<Refusal>, truth: Truth, server: Server)
    requires all ==> SaysAll(trees, fault, truth, server)
    requires !all ==> SaysAny(trees, fault, truth, server)
    ensures Says(Joining(all, trees), fault, truth, server)
  {
    hide ByText;
    if trees.Ok? && |trees.value| == 1 {
      assert trees.value == [trees.value[0]];
      OneJudged(trees.value[0], ByText(server));
    }
  }

  lemma PrependSays(first: Result<Tree>, rest: Result<seq<Tree>>, fault: Option<Refusal>, more: Option<Refusal>,
                    truth: Truth, others: Truth, server: Server)
    requires Says(first, fault, truth, server)
    ensures SaysAll(rest, more, others, server) ==>
              SaysAll(Prepend(first, rest), First(fault, more), Both(truth, others), server)
    ensures SaysAny(rest, more, others, server) ==>
              SaysAny(Prepend(first, rest), First(fault, more), Either(truth, others), server)
  {
    hide ByText, Judged;
    if first.Ok? && rest.Ok? { assert ([first.value] + rest.value)[1..] == rest.value; }
  }

  predicate SaysAny(trees: Result<seq<Tree>>, fault: Option<Refusal>, any: Truth, server: Server) {
    match trees
    case Err(e) => fault == Some(e)
    case Ok(ts) => fault == None && JudgedAny(ts, ByText(server)) == any
  }

  lemma EqualSays(column: string, path: Path, v: Value, server: Server)
    ensures Says(EqTree(column, path, v), EqualFault(v), EqualTruth(path, v, Said(server, column)), server)
  {
    hide Comparison, Contains, IsNull, Regexp, Said, ByText, ShapedCond;
    if v.Null? {
      MissingSays(column, path, server);
    } else if v.Regex? {
      MatchesSays(column, path, v.pattern, server);
    } else if !HasFields(v) {
      ComparisonSays(column, path, Same, v, server);
      ContainsSays(column, path, v, server);
      var eq := Comparison(path, column, "=", v);
      if eq.Ok? { EitherSays(eq.value, Contains(path, column, v), server); }
    }
  }

  lemma EitherSays(t: Tree, c: Cond, server: Server)
    ensures Judged(Or([t, Leaf(c)]), ByText(server)) ==
            Either(Judged(t, ByText(server)), Judged(Leaf(c), ByText(server)))
  {
    hide ByText;
    assert [t, Leaf(c)][1..] == [Leaf(c)];
    OneJudged(Leaf(c), ByText(server));
    assert Judged(Or([t, Leaf(c)]), ByText(server)) == JudgedAny([t, Leaf(c)], ByText(server));
  }

  lemma OneJudged(t: Tree, judge: Cond -> Truth)
    ensures JudgedAll([t], judge) == JudgedAny([t], judge) == Judged(t, judge)
  {
    assert [t][1..] == [] && JudgedAll([], judge) == True && JudgedAny([], judge) == False;
  }

  lemma {:induction false} OperatorSays(column: string, path: Path, op: string, v: Value, server: Server)
    requires SpeaksSql(server, column)
    ensures Says(OperatorTree(column, path, op, v), OperatorFault(op, v),
                 OperatorTruth(path, op, v, Said(server, column)), server)
    decreases v, 3
  {
    hide EqTree, EqualTruth, Comparison, Membership, SpeaksSql, Said, ByText, Judged, BindFault, EqualFault;
    hide OperatorsTree, OperatorTrees, EveryOperator, OperatorsFault, Exists, Regexp, Contains;
    if op == "$eq" {
      EqualSays(column, path, v, server);
    } else if op == "$ne" {
      EqualSays(column, path, v, server);
      NegatingSays(EqTree(column, path, v), EqualFault(v), EqualTruth(path, v, Said(server, column)), server);
    } else if op == "$gt" {
      ComparisonSays(column, path, Greater, v, server);
    } else if op == "$gte" {
      ComparisonSays(column, path, GreaterOrSame, v, server);
    } else if op == "$lt" {
      ComparisonSays(column, path, Less, v, server);
    } else if op == "$lte" {
      ComparisonSays(column, path, LessOrSame, v, server);
    } else {
      OtherOperatorSays(column, path, op, v, server);
    }
  }

  lemma {:induction false} OtherOperatorSays(column: string, path: Path, op: string, v: Value, server: Server)
    requires SpeaksSql(server, column)
    requires op !in {"$eq", "$ne", "$gt", "$gte", "$lt", "$lte"}
    ensures Says(OperatorTree(column, path, op, v), OperatorFault(op, v),
                 OperatorTruth(path, op, v, Said(server, column)), server)
    decreases v, 2
  {
    hide EqTree, EqualTruth, Comparison, Membership, SpeaksSql, Said, ByText, Judged, BindFault, EqualFault;
    hide OperatorsTree, OperatorTrees, EveryOperator, OperatorsFault, Exists, Regexp, Contains;
    if op == "$in" {
      MembershipSays(column, path, v, false, server);
    } else if op == "$nin" {
      MembershipSays(column, path, v, true, server);
    } else if op == "$exists" {
      PresentSays(column, path, server);
    } else {
      LastOperatorSays(column, path, op, v, server);
    }
  }

  lemma {:induction false} LastOperatorSays(column: string, path: Path, op: string, v: Value, server: Server)
    requires SpeaksSql(server, column)
    requires op !in {"$eq", "$ne", "$gt", "$gte", "$lt", "$lte", "$in", "$nin", "$exists"}
    ensures Says(OperatorTree(column, path, op, v), OperatorFault(op, v),
                 OperatorTruth(path, op, v, Said(server, column)), server)
    decreases v, 1
  {
    hide EqTree, EqualTruth, Comparison, Membership, SpeaksSql, Said, ByText, Judged, BindFault, EqualFault, Values;
    hide OperatorsTree, OperatorTrees, EveryOperator, OperatorsFault, Exists, Regexp, Contains;
    if op == "$regex" {
      if v.Utf8? { MatchesSays(column, path, v.text, server); }
      if v.Regex? { MatchesSays(column, path, v.pattern, server); }
    } else if op == "$not" {
      if v.Document? { NotSays(column, path, v, server); }
    } else if op == "$elemMatch" {
      ContainsSays(column, path, v, server);
      if v.Document? { OperatorKeys(v.fields); }
    }
  }

  lemma {:induction false} NotSays(column: string, path: Path, v: Value, server: Server)
    requires SpeaksSql(server, column) && v.Document?
    ensures Says(Negating(OperatorsTree(column, path, v.fields)), OperatorsFault(v.fields),
                 Negated(EveryOperator(path, v.fields, Said(server, column))), server)
    decreases v, 0
  {
    hide OperatorTrees, EveryOperator, OperatorsFault, SpeaksSql, Said, ByText, Judged;
    var said := Said(server, column);
    OperatorsSay(column, path, v.fields, server);
    JoiningSays(true, OperatorTrees(column, path, v.fields), OperatorsFault(v.fields),
                EveryOperator(path, v.fields, said), server);
    NegatingSays(OperatorsTree(column, path, v.fields), OperatorsFault(v.fields),
                 EveryOperator(path, v.fields, said), server);
  }

  lemma OperatorKeys(fields: seq<Field>)
    ensures (exists k :: 0 <= k < |fields| && IsOperator(fields[k].key)) <==>
            (exists k :: 0 <= k < |fields| && "$" <= fields[k].key)
  {
    forall k | 0 <= k < |fields|
      ensures IsOperator(fields[k].key) <==> "$" <= fields[k].key
    {
      OperatorKey(fields[k].key);
    }
  }

  lemma {:induction false} OperatorsSay(column: string, path: Path, ops: seq<Field>, server: Server)
    requires SpeaksSql(server, column)
    ensures SaysAll(OperatorTrees(column, path, ops), OperatorsFault(ops),
                    EveryOperator(path, ops, Said(server, column)), server)
    decreases ops, 0
  {
    hide OperatorTree, OperatorFault, OperatorTruth, SpeaksSql, Said, ByText, Judged;
    if ops != [] {
      OperatorSays(column, path, ops[0].key, ops[0].value, server);
      OperatorsSay(column, path, ops[1..], server);
      PrependSays(OperatorTree(column, path, ops[0].key, ops[0].value), OperatorTrees(column, path, ops[1..]),
                  OperatorFault(ops[0].key, ops[0].value), OperatorsFault(ops[1..]),
                  OperatorTruth(path, ops[0].key, ops[0].value, Said(server, column)),
                  EveryOperator(path, ops[1..], Said(server, column)), server);
    }
  }

  // ---------------------------------------------------------------- field by field

  lemma {:induction false} FieldSays(column: string, key: string, v: Value, server: Server)
    requires SpeaksSql(server, column)
    ensures Says(FieldTree(column, key, v), FieldFault(key, v), FieldTruth(key, v, Said(server, column)), server)
    decreases v, 4
  {
    var said := Said(server, column);
    hide EqTree, EqualTruth, EqualFault, SpeaksSql, Said, ByText, Judged, SplitPath;
    hide BranchTrees, BranchesFault, EveryBranch, SomeBranch, OperatorTrees, OperatorsFault, EveryOperator;
    OperatorKey(key);
    if key == "$and" || key == "$or" || key == "$nor" {
      if v.Array? && v.fields != [] {
        BranchesSay(column, v.fields, server);
        if key == "$and" {
          JoiningSays(true, BranchTrees(column, v.fields), BranchesFault(v.fields), EveryBranch(v.fields, said), server);
        } else {
          JoiningSays(false, BranchTrees(column, v.fields), BranchesFault(v.fields), SomeBranch(v.fields, said), server);
          NegatingSays(LogicalTree(column, false, v), BranchesFault(v.fields), SomeBranch(v.fields, said), server);
        }
      }
    } else if !IsOperator(key) && SplitPath(key).Some? {
      var path := SplitPath(key).value;
      if v.Document? && v.fields != [] {
        OperatorKey(v.fields[0].key);
        if IsOperator(v.fields[0].key) {
          OperatorsSay(column, path, v.fields, server);
          JoiningSays(true, OperatorTrees(column, path, v.fields), OperatorsFault(v.fields),
                      EveryOperator(path, v.fields, said), server);
        }
      }
      EqualSays(column, path, v, server);
    }
  }

  lemma {:induction false} BranchesSay(column: string, branches: seq<Field>, server: Server)
    requires SpeaksSql(server, column)
    ensures SaysAll(BranchTrees(column, branches), BranchesFault(branches),
                    EveryBranch(branches, Said(server, column)), server)
    ensures SaysAny(BranchTrees(column, branches), BranchesFault(branches),
                    SomeBranch(branches, Said(server, column)), server)
    decreases branches, 0
  {
    hide DocumentTree, DocumentFault, DocumentTruth, SpeaksSql, Said, ByText, Judged;
    if branches != [] && branches[0].value.Document? {
      var said, doc := Said(server, column), branches[0].value.fields;
      DocumentSays(column, doc, server);
      BranchesSay(column, branches[1..], server);
      PrependSays(DocumentTree(column, doc), BranchTrees(column, branches[1..]),
                  DocumentFault(doc), BranchesFault(branches[1..]),
                  DocumentTruth(doc, said), EveryBranch(branches[1..], said), server);
      PrependSays(DocumentTree(column, doc), BranchTrees(column, branches[1..]),
                  DocumentFault(doc), BranchesFault(branches[1..]),
                  DocumentTruth(doc, said), SomeBranch(branches[1..], said), server);
    }
  }

  lemma {:induction false} FieldsSay(column: string, fields: seq<Field>, server: Server)
    requires SpeaksSql(server, column)
    ensures SaysAll(FieldTrees(column, fields), DocumentFault(fields),
                    DocumentTruth(fields, Said(server, column)), server)
    decreases fields, 0
  {
    hide FieldTree, FieldFault, FieldTruth, SpeaksSql, Said, ByText, Judged;
    if fields != [] {
      var said := Said(server, column);
      FieldSays(column, fields[0].key, fields[0].value, server);
      FieldsSay(column, fields[1..], server);
      PrependSays(FieldTree(column, fields[0].key, fields[0].value), FieldTrees(column, fields[1..]),
                  FieldFault(fields[0].key, fields[0].value), DocumentFault(fields[1..]),
                  FieldTruth(fields[0].key, fields[0].value, said), DocumentTruth(fields[1..], said), server);
    }
  }

  /** The tree a filter is compiled to says what the filter means; a refusal is its first fault. */
  lemma {:induction false} DocumentSays(column: string, filter: seq<Field>, server: Server)
    requires SpeaksSql(server, column)
    ensures Says(DocumentTree(column, filter), DocumentFault(filter), DocumentTruth(filter, Said(server, column)), server)
    decreases filter, 1
  {
    hide FieldTrees, SpeaksSql, Said, ByText, Spelled;
    if filter == [] {
      SpelledOne(Text("1"));
      LeafIs(Constant(true), server);
      Constants(server, column);
    } else {
      FieldsSay(column, filter, server);
      JoiningSays(true, FieldTrees(column, filter), DocumentFault(filter),
                  DocumentTruth(filter, Said(server, column)), server);
    }
  }

  // ---------------------------------------------------------------- the compiled filter

  /** A condition that was read answers with this truth, and uses up the values it comes with. */
  predicate AnswersWith(read: Option<Sql>, params: seq<Param>, server: Server, truth: Truth) {
    read.Some? && Eval(read.value, params, server) == (truth, [])
  }

  /** What the compilation of a filter comes to for every server: refused for its first fault, and
      otherwise a condition that is read and evaluated to what the filter means; one with a $not over
      an empty document is not read at all. */
  ghost predicate CompiledRight(column: string, filter: seq<Field>, r: Result<seq<Token>>, params: seq<Param>) {
    match r
    case Err(e) => DocumentFault(filter) == Some(e)
    case Ok(toks) =>
      && DocumentFault(filter) == None
      && (FullFields(filter) ==> forall server: Server :: SpeaksSql(server, column) ==>
            AnswersRight(column, filter, toks, params, server))
      && (!FullFields(filter) ==> ReadSql(toks) == None)
      && (!FullFields(filter) && ColumnName(column) && QuoteFreeFields(filter) ==> ReadText(Spelled(toks)) == None)
  }

  /** Token by token, as long as no name holds a question mark, and as text, as long as none holds a
      quote either. */
  ghost predicate AnswersRight(column: string, filter: seq<Field>, toks: seq<Token>, params: seq<Param>, server: Server) {
    && (QuietFields(column, filter) ==>
          AnswersWith(ReadSql(toks), params, server, DocumentTruth(filter, Said(server, column))))
    && (QuietFields(column, filter) && ColumnName(column) && QuoteFreeFields(filter) ==>
          AnswersWith(ReadText(Spelled(toks)), params, server, DocumentTruth(filter, Said(server, column))))
  }

  lemma TreeAnswers(column: string, filter: seq<Field>, t: Tree, server: Server)
    requires SpeaksSql(server, column) && DocumentTree(column, filter) == Ok(t) && FullFields(filter)
    ensures AnswersRight(column, filter, Printed(t), Bound(t), server)
  {
    hide DocumentTree, DocumentFault, DocumentTruth, SpeaksSql, Said, ByText, Judged, Eval, Printed, ReadSql;
    hide ReadText, Spelled;
    hide Meaning, Merged, ColumnName, QuoteFreeFields, QuietFields, FullFields;
    DocumentSays(column, filter, server);
    if QuietFields(column, filter) {
      EvalTree(t, [], server);
      assert Bound(t) + [] == Bound(t);
      CompiledReadsAsFilter(column, filter);
      if ColumnName(column) && QuoteFreeFields(filter) {
        CompiledTextReads(column, filter);
        EvalMerged(t, Bound(t), server);
      }
    }
  }

  /** Some server speaks SQL. */
  lemma TreeRight(column: string, filter: seq<Field>)
    ensures DocumentTree(column, filter).Err? ==> DocumentFault(filter) == Some(DocumentTree(column, filter).refusal)
    ensures DocumentTree(column, filter).Ok? ==> DocumentFault(filter) == None
  {
    hide DocumentTree, DocumentFault, DocumentTruth;
    var server: Server := (s: string, ps: seq<Param>) => if s == "1" then True else if s == "0" then False else Unknown;
    forall path: Path, vs: seq<Value> | vs != []
      ensures server(Denial(column, path, vs), GivenEach(vs)) ==
              Negated(server(Question(column, path, Among(vs)), GivenEach(vs)))
    {
      assert |Denial(column, path, vs)| > 1 && |Question(column, path, Among(vs))| > 1;
    }
    DocumentSays(column, filter, server);
  }

  /** compile_filter: the condition and its bindings, from an empty list of them. */
  method CompileFilter(filter: seq<Field>, column: string) returns (r: Result<seq<Token>>, params: seq<Param>)
    ensures Compiles(DocumentTree(column, filter), r, [], params)
    ensures CompiledRight(column, filter, r, params)
  {
    var compiler := new Compiler(column);
    r := compiler.CompileDocument(filter);
    params := compiler.params;
    hide DocumentTree, DocumentFault, SpeaksSql, AnswersRight, Printed, Bound, ReadSql, ReadText, FullFields;
    TreeRight(column, filter);
    if r.Ok? {
      var t := DocumentTree(column, filter).value;
      assert [] + Bound(t) == Bound(t);
      CompiledReadsAsFilter(column, filter);
      if ColumnName(column) && QuoteFreeFields(filter) { CompiledTextReads(column, filter); }
      if FullFields(filter) {
        forall server: Server | SpeaksSql(server, column)
          ensures AnswersRight(column, filter, r.value, params, server)
        {
          TreeAnswers(column, filter, t, server);
        }
      }
    }
  }
}
