/** The compiled condition as text: read character by character, with quotes, parentheses and words
    found by a lexer, it is still the tree it was compiled to. */
module FilterText {
  import opened Optional
  import opened Bson
  import opened Filter

  // ---------------------------------------------------------------- a lexer for conditions

  predicate Joint(s: string) {
    " AND " <= s || " OR " <= s
  }

  /** What ends an operand: the end, a closing parenthesis that is not its own, or a joint. */
  predicate Ended(s: string) {
    s == [] || s[0] == ')' || Joint(s)
  }

  function Deeper(c: char, depth: nat): nat
    requires depth == 0 ==> c != ')'
  {
    if c == '(' then depth + 1 else if c == ')' then depth - 1 else depth
  }

  /** How far it is to the next end outside quotes and parentheses; joints count as ends if asked for.
      In a quoted literal a backslash hides the character behind it. */
  function Scan(s: string, depth: nat, quoted: bool, joints: bool): (n: nat)
    ensures n <= |s|
    decreases |s|
  {
    if s == [] then 0
    else if quoted then
      if s[0] == '\\' && |s| > 1 then 2 + Scan(s[2..], depth, true, joints)
      else 1 + Scan(s[1..], depth, s[0] != '\'', joints)
    else if depth == 0 && (s[0] == ')' || (joints && Joint(s))) then 0
    else 1 + Scan(s[1..], Deeper(s[0], depth), s[0] == '\'', joints)
  }

  /** A parenthesis groups a condition if nothing is done to the value inside it. */
  predicate Groups(s: string) {
    s != [] && s[0] == '(' &&
    var n := Scan(s[1..], 0, false, false);
    n + 1 < |s| && Ended(s[n + 2..])
  }

  /** The tokens of a condition, each operand as one piece of text; None if it is not one. */
  function Lex(s: string, operand: bool): Option<seq<Token>>
    decreases |s|
  {
    if s == [] then Some([])
    else if !operand then
      if s[0] == ')' then Put(RParen, Lex(s[1..], false))
      else if " AND " <= s then Put(AndWord, Lex(s[5..], true))
      else if " OR " <= s then Put(OrWord, Lex(s[4..], true))
      else None
    else if "NOT " <= s then Put(NotWord, Lex(s[4..], true))
    else if Groups(s) then Put(LParen, Lex(s[1..], true))
    else
      var n := Scan(s, 0, false, true);
      if n > 0 then Put(Text(s[..n]), Lex(s[n..], false))
      else if s[0] == ')' then Put(RParen, Lex(s[1..], false))
      else None
  }

  function Put(t: Token, r: Option<seq<Token>>): Option<seq<Token>> {
    match r
    case None => None
    case Some(toks) => Some([t] + toks)
  }

  /** The text as the server reads it: NOT before AND before OR. */
  function ReadText(sql: string): Option<Sql> {
    match Lex(sql, true)
    case None => None
    case Some(toks) => ReadSql(toks)
  }

  // ---------------------------------------------------------------- walking over a piece of text

  datatype Place = Place(depth: nat, quoted: bool)

  /** Where a scan that runs through a piece of text comes out; None if it would stop inside, or if
      that depends on what comes behind. */
  function Walk(a: string, at: Place, joints: bool): Option<Place>
    decreases |a|
  {
    if a == [] then Some(at)
    else if at.quoted then
      if a[0] == '\\' then (if |a| > 1 then Walk(a[2..], at, joints) else None)
      else Walk(a[1..], Place(at.depth, a[0] != '\''), joints)
    else if at.depth == 0 && (a[0] == ')' || (joints && a[0] == ' ' && MayJoin(a))) then None
    else Walk(a[1..], Place(Deeper(a[0], at.depth), a[0] == '\''), joints)
  }

  predicate MayJoin(a: string) {
    !(|a| > 1 && a[1] != 'A' && a[1] != 'O')
  }

  predicate Keeps(a: string, at: Place, joints: bool) {
    Walk(a, at, joints) == Some(at)
  }

  lemma {:induction false} WalkScans(a: string, rest: string, at: Place, joints: bool)
    requires Walk(a, at, joints).Some?
    ensures var to := Walk(a, at, joints).value;
            Scan(a + rest, at.depth, at.quoted, joints) == |a| + Scan(rest, to.depth, to.quoted, joints)
    decreases |a|
  {
    hide Joint, MayJoin;
    if a == [] {
      assert a + rest == rest;
    } else if at.quoted && a[0] == '\\' {
      assert (a + rest)[2..] == a[2..] + rest;
      WalkScans(a[2..], rest, at, joints);
    } else {
      assert (a + rest)[0] == a[0] && (a + rest)[1..] == a[1..] + rest;
      var next := if at.quoted then Place(at.depth, a[0] != '\'') else Place(Deeper(a[0], at.depth), a[0] == '\'');
      if !at.quoted && at.depth == 0 && joints { NoJoint(a, rest); }
      WalkScans(a[1..], rest, next, joints);
    }
  }

  lemma NoJoint(a: string, rest: string)
    requires a != [] && (a[0] == ' ' ==> !MayJoin(a))
    ensures !Joint(a + rest)
  {
    var s := a + rest;
    assert s[0] == a[0] && (|a| > 1 ==> s[1] == a[1]);
  }

  lemma {:induction false} WalkJoins(a: string, b: string, at: Place, joints: bool)
    requires Walk(a, at, joints).Some?
    ensures Walk(a + b, at, joints) == Walk(b, Walk(a, at, joints).value, joints)
    decreases |a|
  {
    if a == [] {
      assert a + b == b;
    } else if at.quoted && a[0] == '\\' {
      assert (a + b)[2..] == a[2..] + b;
      WalkJoins(a[2..], b, at, joints);
    } else {
      assert (a + b)[0] == a[0] && (a + b)[1..] == a[1..] + b && (|a| > 1 ==> (a + b)[1] == a[1]);
      var next := if at.quoted then Place(at.depth, a[0] != '\'') else Place(Deeper(a[0], at.depth), a[0] == '\'');
      WalkJoins(a[1..], b, next, joints);
    }
  }

  /** What is walked over with joints looked out for is walked over without. */
  lemma {:induction false} WalkFreely(a: string, at: Place)
    requires Walk(a, at, true).Some?
    ensures Walk(a, at, false) == Walk(a, at, true)
    decreases |a|
  {
    if a != [] {
      if at.quoted && a[0] == '\\' {
        WalkFreely(a[2..], at);
      } else {
        WalkFreely(a[1..], if at.quoted then Place(at.depth, a[0] != '\'')
                           else Place(Deeper(a[0], at.depth), a[0] == '\''));
      }
    }
  }

  lemma KeepBoth(a: string, b: string, at: Place, joints: bool)
    requires Keeps(a, at, joints) && Keeps(b, at, joints)
    ensures Keeps(a + b, at, joints)
  {
    WalkJoins(a, b, at, joints);
  }

  /** A character that means nothing to the lexer, and does not begin a joint. */
  predicate CalmAt(a: string, k: nat)
    requires k < |a|
  {
    a[k] != '\'' && a[k] != '(' && a[k] != ')' && (a[k] == ' ' ==> k + 1 < |a| && a[k + 1] != 'A' && a[k + 1] != 'O')
  }

  predicate Calm(a: string) {
    forall k :: 0 <= k < |a| ==> CalmAt(a, k)
  }

  lemma CalmFirst(a: string)
    requires a != [] && Calm(a)
    ensures a[0] != '\'' && a[0] != '(' && a[0] != ')' && (a[0] == ' ' ==> !MayJoin(a)) && Calm(a[1..])
  {
    assert CalmAt(a, 0);
    forall k | 0 <= k < |a| - 1 ensures CalmAt(a[1..], k) {
      assert CalmAt(a, k + 1);
    }
  }

  lemma {:induction false} CalmKeeps(a: string, at: Place, joints: bool)
    requires Calm(a) && !at.quoted
    ensures Keeps(a, at, joints)
  {
    if a == [] {
      assert Walk(a, at, joints) == Some(at);
    } else {
      CalmFirst(a);
      var next := Place(Deeper(a[0], at.depth), a[0] == '\'');
      assert next == at;
      CalmKeeps(a[1..], at, joints);
      assert Walk(a, at, joints) == Walk(a[1..], next, joints);
    }
  }

  /** Characters that mean nothing inside parentheses, where joints do not matter. */
  predicate Smooth(a: string) {
    forall k :: 0 <= k < |a| ==> a[k] !in {'\'', '(', ')'}
  }

  lemma {:induction false} SmoothKeeps(a: string, at: Place, joints: bool)
    requires Smooth(a) && !at.quoted && (at.depth > 0 || !joints)
    ensures Keeps(a, at, joints)
  {
    if a == [] {
      assert Walk(a, at, joints) == Some(at);
    } else {
      assert a[0] !in {'\'', '(', ')'};
      assert Smooth(a[1..]);
      var next := Place(Deeper(a[0], at.depth), a[0] == '\'');
      assert next == at;
      SmoothKeeps(a[1..], at, joints);
      assert Walk(a, at, joints) == Walk(a[1..], next, joints);
    }
  }

  /** Text that opens a parenthesis: a function's name, or an operator before a list. */
  predicate Opener(a: string) {
    a != [] && a[|a| - 1] == '(' && forall k :: 0 <= k < |a| - 1 ==> CalmAt(a, k)
  }

  lemma {:induction false} OpenWalks(a: string, at: Place, joints: bool)
    requires Opener(a) && !at.quoted
    ensures Walk(a, at, joints) == Some(Place(at.depth + 1, false))
  {
    if |a| > 1 {
      assert CalmAt(a, 0);
      forall k | 0 <= k < |a| - 2 ensures CalmAt(a[1..], k) {
        assert CalmAt(a, k + 1);
      }
      OpenWalks(a[1..], at, joints);
    } else {
      assert a[1..] == [];
    }
  }

  lemma InParentheses(open_: string, inner: string, at: Place, joints: bool)
    requires !at.quoted && Opener(open_) && Keeps(inner, Place(at.depth + 1, false), joints)
    ensures Keeps(open_ + inner + ")", at, joints)
  {
    OpenWalks(open_, at, joints);
    WalkJoins(open_, inner, at, joints);
    WalkJoins(open_ + inner, ")", at, joints);
    assert Walk(")", Place(at.depth + 1, false), joints) == Walk([], at, joints) by { assert ")"[1..] == []; }
  }

  /** The same behind something else: an operator before a list. */
  lemma BehindOperand(x: string, open_: string, inner: string, at: Place, joints: bool)
    requires !at.quoted && Opener(open_) && Keeps(x, at, joints)
    requires Keeps(inner, Place(at.depth + 1, false), joints)
    ensures Keeps(x + open_ + inner + ")", at, joints)
  {
    hide Opener;
    InParentheses(open_, inner, at, joints);
    hide Keeps;
    KeepBoth(x, open_ + inner + ")", at, joints);
    assert x + (open_ + inner + ")") == x + open_ + inner + ")";
  }

  /** Several arguments, or one with more text behind it. */
  lemma Arguments(open_: string, x: string, after: string, at: Place, joints: bool)
    requires !at.quoted && Opener(open_) && Smooth(after) && Keeps(x, Place(at.depth + 1, false), joints)
    ensures Keeps(open_ + (x + after) + ")", at, joints)
  {
    var inside := Place(at.depth + 1, false);
    SmoothKeeps(after, inside, joints);
    KeepBoth(x, after, inside, joints);
    InParentheses(open_, x + after, at, joints);
  }

  lemma InQuotes(inner: string, at: Place, joints: bool)
    requires !at.quoted && Keeps(inner, Place(at.depth, true), joints)
    ensures Keeps("'" + inner + "'", at, joints)
  {
    var quoted := Place(at.depth, true);
    assert Walk("'", at, joints) == Walk([], quoted, joints) by { assert "'"[1..] == []; }
    assert Walk("'", quoted, joints) == Walk([], at, joints) by { assert "'"[1..] == []; }
    WalkJoins("'", inner, at, joints);
    WalkJoins("'" + inner, "'", at, joints);
  }

  // ---------------------------------------------------------------- the texts of leaves

  predicate QuoteFree(s: string) {
    '\'' !in s
  }

  predicate QuoteFreePath(path: Path) {
    forall k :: 0 <= k < |path| ==> QuoteFree(path[k])
  }

  /** A column name the lexer passes over. */
  predicate ColumnName(doc: string) {
    Calm(doc) && ' ' !in doc
  }

  lemma {:induction false} EscapedKeeps(s: string, depth: nat, joints: bool)
    requires QuoteFree(s)
    ensures Keeps(Escaped(s), Place(depth, true), joints)
  {
    if s != [] {
      var at := Place(depth, true);
      EscapedKeeps(s[1..], depth, joints);
      var head := (if s[0] == '"' || s[0] == '\\' then ['\\'] else []) + [s[0]];
      assert s[0] in s;
      assert Keeps(head, at, joints) by {
        if s[0] == '"' || s[0] == '\\' {
          assert head == ['\\', s[0]] && head[2..] == [];
        } else {
          assert head == [s[0]] && head[1..] == [];
        }
      }
      assert Escaped(s) == head + Escaped(s[1..]);
      KeepBoth(head, Escaped(s[1..]), at, joints);
    }
  }

  /** Quoted text without quotes and backslashes. */
  lemma {:induction false} QuotedKeeps(a: string, depth: nat, joints: bool)
    requires '\'' !in a && '\\' !in a
    ensures Keeps(a, Place(depth, true), joints)
  {
    if a != [] {
      assert a[0] in a;
      QuotedKeeps(a[1..], depth, joints);
    }
  }

  lemma {:induction false} MembersKeep(path: Path, depth: nat, joints: bool)
    requires QuoteFreePath(path)
    ensures Keeps(Members(path), Place(depth, true), joints)
  {
    if path != [] {
      var at := Place(depth, true);
      hide Keeps, Walk, Escaped;
      QuotedKeeps(".\"", depth, joints);
      EscapedKeeps(path[0], depth, joints);
      QuotedKeeps("\"", depth, joints);
      MembersKeep(path[1..], depth, joints);
      KeepBoth(".\"", Escaped(path[0]), at, joints);
      KeepBoth(".\"" + Escaped(path[0]), "\"", at, joints);
      KeepBoth(".\"" + Escaped(path[0]) + "\"", Members(path[1..]), at, joints);
      assert Members(path) == ".\"" + Escaped(path[0]) + "\"" + Members(path[1..]);
    } else {
      assert Members(path) == [];
    }
  }

  lemma PathKeeps(path: Path, after: string, depth: nat, joints: bool)
    requires QuoteFreePath(path) && '\'' !in after && '\\' !in after
    ensures Keeps(JsonPath(path) + after, Place(depth, true), joints)
  {
    hide Keeps, Walk, Members;
    QuotedKeeps("$", depth, joints);
    MembersKeep(path, depth, joints);
    KeepBoth("$", Members(path), Place(depth, true), joints);
    QuotedKeeps(after, depth, joints);
    KeepBoth("$" + Members(path), after, Place(depth, true), joints);
    assert JsonPath(path) == "$" + Members(path);
  }

  lemma CommaCalm(doc: string)
    requires ColumnName(doc)
    ensures Calm(doc + ",")
  {
    forall k | 0 <= k < |doc| + 1 ensures CalmAt(doc + ",", k) {
      if k < |doc| { assert CalmAt(doc, k) && doc[k] in doc; }
    }
  }

  /** A call of a JSON function on the document at a path. */
  lemma CallKeeps(name: string, doc: string, path: Path, below: string, at: Place, joints: bool)
    requires !at.quoted && ColumnName(doc) && QuoteFreePath(path) && '\'' !in below && '\\' !in below
    requires name in {"JSON_VALUE(", "JSON_EXTRACT(", "JSON_EXISTS("}
    ensures Keeps(name + doc + ",'" + JsonPath(path) + below + "')", at, joints)
  {
    hide JsonPath, Walk, Keeps, Calm;
    var inside := Place(at.depth + 1, false);
    var literal := JsonPath(path) + below;
    CommaCalm(doc);
    assert Opener(name);
    PathKeeps(path, below, at.depth + 1, joints);
    InQuotes(literal, inside, joints);
    CalmKeeps(doc + ",", inside, joints);
    KeepBoth(doc + ",", "'" + literal + "'", inside, joints);
    InParentheses(name, doc + "," + ("'" + literal + "'"), at, joints);
    CallText(name, doc, JsonPath(path), below);
  }

  lemma CallText(name: string, doc: string, path: string, below: string)
    ensures name + doc + ",'" + path + below + "')" == name + (doc + "," + ("'" + (path + below) + "'")) + ")"
  {
    assert ",'" == "," + "'" && "')" == "'" + ")";
  }

  predicate QuoteFreeWrappers(wrappers: seq<string>) {
    forall k :: 0 <= k < |wrappers| ==> '\'' !in wrappers[k] && '\\' !in wrappers[k]
  }

  lemma {:induction false} ReadingsKeep(path: Path, doc: string, wrappers: seq<string>, at: Place, joints: bool)
    requires !at.quoted && at.depth > 0 && ColumnName(doc) && QuoteFreePath(path) && QuoteFreeWrappers(wrappers)
    ensures Keeps(Readings(JsonPath(path), doc, wrappers), at, joints)
    decreases |wrappers|
  {
    if wrappers != [] {
      var first := "JSON_VALUE(" + doc + ",'" + JsonPath(path) + wrappers[0] + "')";
      CallKeeps("JSON_VALUE(", doc, path, wrappers[0], at, joints);
      ReadingsKeep(path, doc, wrappers[1..], at, joints);
      SmoothKeeps(",", at, joints);
      assert |wrappers| <= 1 ==> Keeps([], at, joints);
      var more := Readings(JsonPath(path), doc, wrappers[1..]);
      hide Keeps, Walk, JsonPath;
      KeepBoth(",", more, at, joints);
      KeepBoth(first, if |wrappers| > 1 then "," + more else [], at, joints);
      assert Readings(JsonPath(path), doc, wrappers) == first + (if |wrappers| > 1 then "," + more else []);
    }
  }

  lemma ScalarKeeps(path: Path, doc: string, at: Place, joints: bool)
    requires !at.quoted && ColumnName(doc) && QuoteFreePath(path)
    ensures Keeps(ScalarExpr(path, doc), at, joints)
  {
    WrappersAreQuoteFree();
    hide Keeps, Walk, Readings, JsonPath, QuoteFreeWrappers, ColumnName, QuoteFreePath;
    ReadingsKeep(path, doc, WRAPPERS, Place(at.depth + 1, false), joints);
    InParentheses("COALESCE(", Readings(JsonPath(path), doc, WRAPPERS), at, joints);
  }

  lemma WrappersAreQuoteFree()
    ensures QuoteFreeWrappers(WRAPPERS)
  {
  }

  lemma ExtractKeeps(path: Path, doc: string, at: Place, joints: bool)
    requires !at.quoted && ColumnName(doc) && QuoteFreePath(path)
    ensures Keeps(ExtractExpr(path, doc), at, joints)
  {
    hide Keeps, Walk, JsonPath;
    CallKeeps("JSON_EXTRACT(", doc, path, "", at, joints);
    assert "JSON_EXTRACT(" + doc + ",'" + JsonPath(path) + "" == "JSON_EXTRACT(" + doc + ",'" + JsonPath(path);
  }

  lemma PartKeeps(path: Path, doc: string, name: string, at: Place, joints: bool)
    requires !at.quoted && ColumnName(doc) && QuoteFreePath(path) && name in {"t", "i"}
    ensures Keeps(TimestampPart(path, doc, name), at, joints)
  {
    hide Keeps, Walk, JsonPath;
    var inside := Place(at.depth + 1, false);
    var below := ".\"$timestamp\"." + name;
    var call := "JSON_VALUE(" + doc + ",'" + JsonPath(path) + below + "')";
    CallKeeps("JSON_VALUE(", doc, path, below, inside, joints);
    Arguments("CAST(", call, " AS UNSIGNED", at, joints);
    PartText(doc, JsonPath(path), name);
  }

  lemma PartText(doc: string, path: string, name: string)
    ensures "CAST(JSON_VALUE(" + doc + ",'" + path + ".\"$timestamp\"." + name + "') AS UNSIGNED)" ==
            "CAST(" + ("JSON_VALUE(" + doc + ",'" + path + (".\"$timestamp\"." + name) + "')" + " AS UNSIGNED") + ")"
  {
    assert "CAST(JSON_VALUE(" == "CAST(" + "JSON_VALUE(";
    assert "') AS UNSIGNED)" == "')" + " AS UNSIGNED" + ")";
  }

  /** An operand: walked over whole, not taken for a NOT, and if it opens with a parenthesis something
      is done to the value inside. */
  ghost predicate Operand(a: string) {
    && a != [] && a[0] != 'N' && Keeps(a, Place(0, false), true)
    && (a[0] == '(' ==> exists inner, more :: Opened(a, inner, more))
  }

  predicate Opened(a: string, inner: string, more: string) {
    && a == "(" + inner + ")" + more && Keeps(inner, Place(0, false), false)
    && more != [] && more[0] == ' ' && !MayJoin(more)
  }

  lemma OperandRuns(a: string, rest: string)
    requires Operand(a) && Ended(rest)
    ensures Scan(a + rest, 0, false, true) == |a| && !Groups(a + rest) && !("NOT " <= a + rest)
  {
    assert (a + rest)[0] == a[0];
    WalkScans(a, rest, Place(0, false), true);
    EndsHere(rest);
    hide Scan, Walk, Ended;
    if a[0] == '(' {
      var inner, more :| Opened(a, inner, more);
      NoGroup(a, inner, more, rest);
    }
    hide Groups, Opened, Keeps;
  }

  lemma EndsHere(rest: string)
    requires Ended(rest)
    ensures Scan(rest, 0, false, true) == 0
  {
  }

  lemma NoGroup(a: string, inner: string, more: string, rest: string)
    requires Opened(a, inner, more)
    ensures !Groups(a + rest)
  {
    var s, tail := a + rest, ")" + (more + rest);
    OpenedText(a, inner, more, rest);
    WalkScans(inner, tail, Place(0, false), false);
    assert Scan(tail, 0, false, false) == 0;
    NoJoint(more, rest);
    assert (more + rest)[0] == ' ';
    hide Scan, Walk, Joint;
  }

  lemma OpenedText(a: string, inner: string, more: string, rest: string)
    requires a == "(" + inner + ")" + more
    ensures (a + rest)[1..] == inner + (")" + (more + rest)) && |a + rest| >= |inner| + 2
    ensures (a + rest)[|inner| + 2..] == more + rest
  {
  }

  lemma PlainOperand(x: string, suffix: string)
    requires x != [] && x[0] in {'C', 'J', '0', '1'} && Keeps(x, Place(0, false), true) && Calm(suffix)
    ensures Operand(x + suffix)
  {
    CalmKeeps(suffix, Place(0, false), true);
    KeepBoth(x, suffix, Place(0, false), true);
    assert (x + suffix)[0] == x[0];
  }

  lemma LoneOperand(x: string)
    requires x != [] && x[0] in {'C', 'J', '0', '1'} && Keeps(x, Place(0, false), true)
    ensures Operand(x)
  {
  }

  // ---------------------------------------------------------------- spelling

  lemma {:induction false} SpelledAppend(a: seq<Token>, b: seq<Token>)
    ensures Spelled(a + b) == Spelled(a) + Spelled(b)
  {
    if a == [] {
      assert a + b == b;
    } else {
      assert (a + b)[0] == a[0] && (a + b)[1..] == a[1..] + b;
      SpelledAppend(a[1..], b);
    }
  }

  lemma SpelledOne(t: Token)
    ensures Spelled([t]) == Word(t)
  {
    assert [t][1..] == [] && Spelled([]) == [];
  }

  lemma SpelledAround(before: string, p: Param, after: string)
    ensures Spelled(Around(before, p, after).tokens) == before + "?" + after
  {
    SpelledOne(Text(before));
    SpelledOne(Mark);
    SpelledOne(Text(after));
    SpelledAppend([Text(before)], [Mark]);
    SpelledAppend([Text(before), Mark], [Text(after)]);
    assert [Text(before)] + [Mark] == [Text(before), Mark];
    assert [Text(before), Mark] + [Text(after)] == [Text(before), Mark, Text(after)];
  }

  lemma {:induction false} ListKeeps(n: nat, at: Place)
    requires !at.quoted && at.depth > 0
    ensures Keeps(Spelled(Listed(n)), at, true)
  {
    SpelledOne(Mark);
    SpelledOne(Text(", "));
    SmoothKeeps("?", at, true);
    SmoothKeeps(", ", at, true);
    if n > 1 {
      hide Keeps;
      ListKeeps(n - 1, at);
      SpelledAppend(Listed(n - 1), [Text(", ")]);
      SpelledAppend(Listed(n - 1) + [Text(", ")], [Mark]);
      KeepBoth(Spelled(Listed(n - 1)), ", ", at, true);
      KeepBoth(Spelled(Listed(n - 1)) + ", ", "?", at, true);
    } else {
      assert Spelled([]) == [] && Keeps([], at, true);
    }
  }

  // ---------------------------------------------------------------- leaf by leaf

  lemma ConstantOperand(b: bool)
    ensures Operand(Spelled(Constant(b).tokens))
  {
    var x := if b then "1" else "0";
    SpelledOne(Text(x));
    CalmKeeps(x, Place(0, false), true);
    LoneOperand(x);
  }

  lemma IsNullOperand(path: Path, doc: string)
    requires ColumnName(doc) && QuoteFreePath(path)
    ensures Operand(Spelled(IsNull(path, doc).tokens))
  {
    var x := ScalarExpr(path, doc);
    SpelledOne(Text(x + " IS NULL"));
    ScalarStarts(path, doc);
    hide ScalarExpr, Operand, Spelled, Keeps, Walk;
    ScalarKeeps(path, doc, Place(0, false), true);
    NullCalm();
    hide Calm;
    PlainOperand(x, " IS NULL");
  }

  lemma NullCalm()
    ensures Calm(" IS NULL")
  {
  }

  lemma RegexpOperand(path: Path, doc: string, p: Param)
    requires ColumnName(doc) && QuoteFreePath(path)
    ensures Operand(Spelled(Regexp(path, doc, p).tokens))
  {
    var x := ScalarExpr(path, doc);
    RegexpSpelled(path, doc, p);
    ScalarStarts(path, doc);
    hide ScalarExpr, Operand, Spelled, Regexp, Keeps, Walk;
    ScalarKeeps(path, doc, Place(0, false), true);
    PlainOperand(x, " REGEXP ?");
  }

  lemma RegexpSpelled(path: Path, doc: string, p: Param)
    ensures Spelled(Regexp(path, doc, p).tokens) == ScalarExpr(path, doc) + " REGEXP ?"
  {
    hide ScalarExpr, Spelled;
    SpelledAround(ScalarExpr(path, doc) + " REGEXP ", p, []);
    assert " REGEXP ?" == " REGEXP " + "?";
  }

  lemma ContainsOperand(path: Path, doc: string, v: Value)
    requires ColumnName(doc) && QuoteFreePath(path)
    ensures Operand(Spelled(Contains(path, doc, v).tokens))
  {
    var x := ExtractExpr(path, doc);
    ContainsSpelled(path, doc, v);
    hide ExtractExpr, Spelled, Contains, Around, Keeps, Walk;
    ExtractKeeps(path, doc, Place(1, false), true);
    Arguments("JSON_CONTAINS(", x, ", ?", Place(0, false), true);
  }

  lemma ContainsSpelled(path: Path, doc: string, v: Value)
    ensures Spelled(Contains(path, doc, v).tokens) == "JSON_CONTAINS(" + (ExtractExpr(path, doc) + ", ?") + ")"
  {
    hide ExtractExpr, Spelled;
    SpelledAround("JSON_CONTAINS(" + ExtractExpr(path, doc) + ", ", JsonParam(v), ")");
    assert ", ?" == ", " + "?";
  }

  lemma ExistsOperand(path: Path, doc: string)
    requires ColumnName(doc) && QuoteFreePath(path)
    ensures Operand(Spelled(Exists(path, doc).tokens))
  {
    hide JsonPath, Operand, Keeps, Walk;
    var x := "JSON_EXISTS(" + doc + ",'" + JsonPath(path) + "')";
    SpelledOne(Text(x));
    CallKeeps("JSON_EXISTS(", doc, path, "", Place(0, false), true);
    assert "JSON_EXISTS(" + doc + ",'" + JsonPath(path) + "" == "JSON_EXISTS(" + doc + ",'" + JsonPath(path);
    LoneOperand(x);
  }

  lemma InListOperand(path: Path, doc: string, open_: string, ps: seq<Param>)
    requires ColumnName(doc) && QuoteFreePath(path) && Opener(open_)
    ensures Operand(Spelled(InList(ScalarExpr(path, doc) + open_, ps).tokens))
  {
    var x, list := ScalarExpr(path, doc), Spelled(Listed(|ps|));
    SpelledList(x + open_, ps);
    ScalarStarts(path, doc);
    hide ScalarExpr, Spelled, Listed, InList, Keeps, Walk, Opener;
    ScalarKeeps(path, doc, Place(0, false), true);
    ListKeeps(|ps|, Place(1, false));
    BehindOperand(x, open_, list, Place(0, false), true);
  }

  lemma SpelledList(before: string, ps: seq<Param>)
    ensures Spelled(InList(before, ps).tokens) == before + Spelled(Listed(|ps|)) + ")"
  {
    hide Listed;
    SpelledOne(Text(before));
    SpelledOne(Text(")"));
    SpelledAppend([Text(before)], Listed(|ps|));
    SpelledAppend([Text(before)] + Listed(|ps|), [Text(")")]);
  }

  lemma ScalarStarts(path: Path, doc: string)
    ensures ScalarExpr(path, doc) != [] && ScalarExpr(path, doc)[0] == 'C'
  {
  }

  lemma NumericKeeps(path: Path, doc: string, at: Place, joints: bool)
    requires !at.quoted && ColumnName(doc) && QuoteFreePath(path)
    ensures Keeps("CAST(" + ScalarExpr(path, doc) + " AS DOUBLE)", at, joints)
  {
    hide ScalarExpr, Keeps, Walk;
    ScalarKeeps(path, doc, Place(at.depth + 1, false), joints);
    Arguments("CAST(", ScalarExpr(path, doc), " AS DOUBLE", at, joints);
    assert "CAST(" + ScalarExpr(path, doc) + " AS DOUBLE)" == "CAST(" + (ScalarExpr(path, doc) + " AS DOUBLE") + ")" by {
      assert " AS DOUBLE)" == " AS DOUBLE" + ")";
    }
  }

  /** The two halves of a timestamp put together. */
  function Packed(path: Path, doc: string): string {
    TimestampPart(path, doc, "t") + " * 4294967296 + " + TimestampPart(path, doc, "i")
  }

  lemma PackedKeeps(path: Path, doc: string, at: Place, joints: bool)
    requires !at.quoted && (at.depth > 0 || !joints) && ColumnName(doc) && QuoteFreePath(path)
    ensures Keeps(Packed(path, doc), at, joints)
  {
    hide TimestampPart, Keeps, Walk;
    PartKeeps(path, doc, "t", at, joints);
    PartKeeps(path, doc, "i", at, joints);
    SmoothKeeps(" * 4294967296 + ", at, joints);
    KeepBoth(TimestampPart(path, doc, "t"), " * 4294967296 + ", at, joints);
    KeepBoth(TimestampPart(path, doc, "t") + " * 4294967296 + ", TimestampPart(path, doc, "i"), at, joints);
  }

  /** A parenthesised value with something done to it. */
  lemma OpenedOperand(inner: string, more: string)
    requires Keeps(inner, Place(1, false), true) && Keeps(inner, Place(0, false), false)
    requires Calm(more) && more != [] && more[0] == ' '
    ensures Operand("(" + inner + ")" + more)
  {
    assert !MayJoin(more) by { CalmFirst(more); }
    hide Keeps, Walk, MayJoin;
    InParentheses("(", inner, Place(0, false), true);
    CalmKeeps(more, Place(0, false), true);
    KeepBoth("(" + inner + ")", more, Place(0, false), true);
    assert Opened("(" + inner + ")" + more, inner, more);
  }

  predicate Relation(op: string) {
    op in {"=", ">", ">=", "<", "<="}
  }

  lemma RelationCalm(op: string)
    requires Relation(op)
    ensures Calm(" " + op + " ?")
  {
  }

  lemma ComparisonOperand(path: Path, doc: string, op: string, v: Value, p: Param)
    requires ColumnName(doc) && QuoteFreePath(path) && Relation(op)
    ensures Operand(Spelled(Around(Comparable(path, doc, v) + " " + op + " ", p, []).tokens))
  {
    var x, more := Comparable(path, doc, v), " " + op + " ?";
    ComparisonSpelled(x, op, p);
    RelationCalm(op);
    ComparableIs(path, doc, v);
    ScalarStarts(path, doc);
    hide Comparable, ScalarExpr, Packed, Operand, Spelled, Around, Keeps, Walk, Calm;
    if v.Timestamp? {
      PackedKeeps(path, doc, Place(1, false), true);
      PackedKeeps(path, doc, Place(0, false), false);
      OpenedOperand(Packed(path, doc), more);
    } else if IsNumeric(v) || v.DateTime? {
      NumericKeeps(path, doc, Place(0, false), true);
      PlainOperand(x, more);
    } else {
      ScalarKeeps(path, doc, Place(0, false), true);
      PlainOperand(x, more);
    }
  }

  lemma ComparisonSpelled(x: string, op: string, p: Param)
    ensures Spelled(Around(x + " " + op + " ", p, []).tokens) == x + (" " + op + " ?")
  {
    hide Spelled, Around;
    SpelledAround(x + " " + op + " ", p, []);
    assert " ?" == " " + "?";
    assert x + " " + op + " " + "?" + [] == x + (" " + op + (" " + "?"));
  }

  lemma ComparableIs(path: Path, doc: string, v: Value)
    ensures Comparable(path, doc, v) ==
            if v.Timestamp? then "(" + Packed(path, doc) + ")"
            else if IsNumeric(v) || v.DateTime? then "CAST(" + ScalarExpr(path, doc) + " AS DOUBLE)"
            else ScalarExpr(path, doc)
  {
    hide ScalarExpr, TimestampPart;
    if v.Timestamp? {
      assert "(" + TimestampPart(path, doc, "t") + " * 4294967296 + " + TimestampPart(path, doc, "i") + ")" ==
             "(" + (TimestampPart(path, doc, "t") + " * 4294967296 + " + TimestampPart(path, doc, "i")) + ")";
    }
  }

  // ---------------------------------------------------------------- a filter's leaves are operands

  /** No single quote in a field name that a condition is written for. */
  predicate QuoteFreeFields(fields: seq<Field>)
    decreases fields, 0
  {
    fields == [] || (QuoteFreeField(fields[0].key, fields[0].value) && QuoteFreeFields(fields[1..]))
  }

  predicate QuoteFreeField(key: string, v: Value)
    decreases v, 1
  {
    if key in {"$and", "$or", "$nor"} then v.Array? ==> QuoteFreeBranches(v.fields) else QuoteFree(key)
  }

  predicate QuoteFreeBranches(branches: seq<Field>)
    decreases branches, 0
  {
    branches == [] ||
    ((branches[0].value.Document? ==> QuoteFreeFields(branches[0].value.fields)) && QuoteFreeBranches(branches[1..]))
  }

  ghost predicate Operands(t: Tree)
    decreases t
  {
    match t
    case Leaf(c) => Operand(Spelled(c.tokens))
    case Lacks(c) => Operand(Spelled(c.tokens))
    case And(parts) => AllOperands(parts)
    case Or(parts) => AllOperands(parts)
    case Not(u) => Operands(u)
  }

  ghost predicate AllOperands(parts: seq<Tree>)
    decreases parts
  {
    parts == [] || (Operands(parts[0]) && AllOperands(parts[1..]))
  }

  lemma {:induction false} SplitQuoteFree(dotted: string)
    requires QuoteFree(dotted)
    ensures QuoteFreePath(Split(dotted))
  {
    if dotted != [] {
      assert QuoteFree(dotted[1..]) && dotted[0] in dotted;
      SplitQuoteFree(dotted[1..]);
      var rest := Split(dotted[1..]);
      assert QuoteFree([dotted[0]] + rest[0]);
    }
  }

  lemma JoiningOperands(all: bool, parts: Result<seq<Tree>>)
    requires parts.Ok? && AllOperands(parts.value)
    ensures Operands(Joining(all, parts).value)
  {
  }

  lemma EqOperands(path: Path, doc: string, v: Value)
    requires ColumnName(doc) && QuoteFreePath(path) && EqTree(doc, path, v).Ok?
    ensures Operands(EqTree(doc, path, v).value)
  {
    hide Operand, Spelled, Comparable, Around, IsNull, Regexp, Contains, ColumnName, QuoteFreePath;
    if v.Null? {
      IsNullOperand(path, doc);
    } else if v.Regex? {
      RegexpOperand(path, doc, TextParam(v.pattern));
    } else {
      ComparisonOperand(path, doc, "=", v, BindValue(v).value);
      ContainsOperand(path, doc, v);
      BothOperands(Comparison(path, doc, "=", v).value, Contains(path, doc, v));
    }
  }

  lemma BothOperands(t: Tree, c: Cond)
    requires Operands(t) && Operand(Spelled(c.tokens))
    ensures Operands(Or([t, Leaf(c)]))
  {
    hide Operand, Spelled;
    assert [t, Leaf(c)][1..] == [Leaf(c)] && [Leaf(c)][1..] == [];
    assert Operands(Leaf(c)) && AllOperands([]);
    assert AllOperands([Leaf(c)]);
  }

  lemma MembershipOperands(path: Path, doc: string, v: Value, negated: bool)
    requires ColumnName(doc) && QuoteFreePath(path) && Membership(path, doc, v, negated).Ok?
    ensures Operands(Membership(path, doc, v, negated).value)
  {
    hide Operand, Spelled, ScalarExpr, InList, Constant, ColumnName, QuoteFreePath;
    if v.fields == [] {
      ConstantOperand(negated);
    } else {
      InListOperand(path, doc, if negated then " NOT IN (" else " IN (", BindAll(v.fields).value);
    }
  }

  lemma {:induction false} OperatorOperands(doc: string, path: Path, op: string, v: Value)
    requires ColumnName(doc) && QuoteFreePath(path) && OperatorTree(doc, path, op, v).Ok?
    ensures Operands(OperatorTree(doc, path, op, v).value)
    decreases v, 1
  {
    hide Operand, Spelled, Comparable, Around, EqTree, Membership, Regexp, Exists, Contains, ColumnName, QuoteFreePath;
    if op == "$eq" || op == "$ne" {
      EqOperands(path, doc, v);
    } else if op == "$gt" {
      ComparisonOperand(path, doc, ">", v, BindValue(v).value);
    } else if op == "$gte" {
      ComparisonOperand(path, doc, ">=", v, BindValue(v).value);
    } else if op == "$lt" {
      ComparisonOperand(path, doc, "<", v, BindValue(v).value);
    } else if op == "$lte" {
      ComparisonOperand(path, doc, "<=", v, BindValue(v).value);
    } else if op == "$in" || op == "$nin" {
      MembershipOperands(path, doc, v, op == "$nin");
    } else if op == "$exists" {
      ExistsOperand(path, doc);
    } else if op == "$regex" {
      RegexpOperand(path, doc, TextParam(if v.Utf8? then v.text else v.pattern));
    } else if op == "$not" {
      OperatorsOperands(doc, path, v.fields);
      JoiningOperands(true, OperatorTrees(doc, path, v.fields));
    } else {
      ContainsOperand(path, doc, v);
    }
  }

  lemma {:induction false} OperatorsOperands(doc: string, path: Path, ops: seq<Field>)
    requires ColumnName(doc) && QuoteFreePath(path) && OperatorTrees(doc, path, ops).Ok?
    ensures AllOperands(OperatorTrees(doc, path, ops).value)
    decreases ops, 0
  {
    hide OperatorTree, ColumnName, QuoteFreePath, Operands;
    if ops != [] {
      OperatorOperands(doc, path, ops[0].key, ops[0].value);
      OperatorsOperands(doc, path, ops[1..]);
    }
  }

  lemma {:induction false} FieldOperands(doc: string, key: string, v: Value)
    requires ColumnName(doc) && QuoteFreeField(key, v) && FieldTree(doc, key, v).Ok?
    ensures Operands(FieldTree(doc, key, v).value)
    decreases v, 1
  {
    hide ColumnName, EqTree, OperatorTrees, BranchTrees;
    if key in {"$and", "$or", "$nor"} {
      BranchesOperands(doc, v.fields);
      JoiningOperands(key == "$and", BranchTrees(doc, v.fields));
    } else {
      SplitQuoteFree(key);
      var path := SplitPath(key).value;
      if v.Document? && v.fields != [] && IsOperator(v.fields[0].key) {
        OperatorsOperands(doc, path, v.fields);
        JoiningOperands(true, OperatorTrees(doc, path, v.fields));
      } else {
        EqOperands(path, doc, v);
      }
    }
  }

  lemma {:induction false} FieldsOperands(doc: string, fields: seq<Field>)
    requires ColumnName(doc) && QuoteFreeFields(fields) && FieldTrees(doc, fields).Ok?
    ensures AllOperands(FieldTrees(doc, fields).value)
    decreases fields, 0
  {
    hide ColumnName, FieldTree, Operands;
    if fields != [] {
      FieldOperands(doc, fields[0].key, fields[0].value);
      FieldsOperands(doc, fields[1..]);
    }
  }

  lemma {:induction false} BranchesOperands(doc: string, branches: seq<Field>)
    requires ColumnName(doc) && QuoteFreeBranches(branches) && BranchTrees(doc, branches).Ok?
    ensures AllOperands(BranchTrees(doc, branches).value)
    decreases branches, 0
  {
    hide ColumnName, DocumentTree, Operands;
    if branches != [] {
      DocumentOperands(doc, branches[0].value.fields);
      BranchesOperands(doc, branches[1..]);
    }
  }

  lemma {:induction false} DocumentOperands(doc: string, filter: seq<Field>)
    requires ColumnName(doc) && QuoteFreeFields(filter) && DocumentTree(doc, filter).Ok?
    ensures Operands(DocumentTree(doc, filter).value)
    decreases filter, 1
  {
    hide ColumnName, FieldTrees, Operand, Spelled, Constant;
    if filter == [] {
      ConstantOperand(true);
    } else {
      FieldsOperands(doc, filter);
      JoiningOperands(true, FieldTrees(doc, filter));
    }
  }

  // ---------------------------------------------------------------- the text of a tree

  function TreeText(t: Tree): string
    decreases t
  {
    match t
    case Leaf(c) => Spelled(c.tokens)
    case Lacks(c) => "NOT " + Spelled(c.tokens)
    case And(parts) => "(" + JoinText(parts, " AND ") + ")"
    case Or(parts) => "(" + JoinText(parts, " OR ") + ")"
    case Not(u) => "NOT (" + TreeText(u) + ")"
  }

  function JoinText(parts: seq<Tree>, joint: string): string
    decreases parts
  {
    if parts == [] then []
    else if |parts| == 1 then TreeText(parts[0])
    else TreeText(parts[0]) + joint + JoinText(parts[1..], joint)
  }

  lemma {:induction false} PrintedSpells(t: Tree)
    ensures Spelled(Printed(t)) == TreeText(t)
    decreases t
  {
    hide Spelled;
    SpelledOne(NotWord);
    SpelledOne(LParen);
    SpelledOne(RParen);
    match t
    case Leaf(_) =>
    case Lacks(c) => SpelledAppend([NotWord], c.tokens);
    case Not(u) =>
      PrintedSpells(u);
      assert [NotWord, LParen] == [NotWord] + [LParen] && "NOT (" == "NOT " + "(";
      SpelledAppend([NotWord], [LParen]);
      SpelledBrackets([NotWord, LParen], Printed(u));
    case And(parts) =>
      JoinedSpells(parts, AndWord);
      SpelledBrackets([LParen], Filter.Joined(PrintedAll(parts), AndWord));
    case Or(parts) =>
      JoinedSpells(parts, OrWord);
      SpelledBrackets([LParen], Filter.Joined(PrintedAll(parts), OrWord));
  }

  lemma SpelledBrackets(head: seq<Token>, body: seq<Token>)
    ensures Spelled(head + body + [RParen]) == Spelled(head) + Spelled(body) + ")"
  {
    SpelledOne(RParen);
    SpelledAppend(head, body);
    SpelledAppend(head + body, [RParen]);
    hide Spelled;
  }

  lemma {:induction false} JoinedSpells(parts: seq<Tree>, joiner: Token)
    requires joiner.AndWord? || joiner.OrWord?
    ensures Spelled(Filter.Joined(PrintedAll(parts), joiner)) == JoinText(parts, Word(joiner))
    decreases parts
  {
    hide TreeText, Printed;
    if parts != [] {
      PrintedSpells(parts[0]);
      if |parts| > 1 {
        var head, tail := Printed(parts[0]), Filter.Joined(PrintedAll(parts[1..]), joiner);
        JoinedSpells(parts[1..], joiner);
        assert PrintedAll(parts)[1..] == PrintedAll(parts[1..]);
        assert Filter.Joined(PrintedAll(parts), joiner) == head + [joiner] + tail;
        SpelledOne(joiner);
        SpelledAppend(head, [joiner]);
        SpelledAppend(head + [joiner], tail);
        hide Spelled, Filter.Joined;
      }
    } else {
      assert Spelled([]) == [];
    }
  }

  /** The same tree with each leaf's text in one piece. */
  function Merged(t: Tree): Tree
    decreases t
  {
    match t
    case Leaf(c) => Leaf(Cond([Text(Spelled(c.tokens))], []))
    case Lacks(c) => Lacks(Cond([Text(Spelled(c.tokens))], []))
    case And(parts) => And(MergedAll(parts))
    case Or(parts) => Or(MergedAll(parts))
    case Not(u) => Not(Merged(u))
  }

  function MergedAll(parts: seq<Tree>): (r: seq<Tree>)
    ensures |r| == |parts|
    decreases parts
  {
    if parts == [] then [] else [Merged(parts[0])] + MergedAll(parts[1..])
  }

  lemma PieceShaped(x: string)
    ensures ShapedCond(Cond([Text(x)], []))
  {
    assert [Text(x)][1..] == [] && Marks([]) == 0;
  }

  lemma {:induction false} MergedShape(t: Tree)
    requires Shaped(t)
    ensures Shaped(Merged(t)) && (NoEmpty(Merged(t)) <==> NoEmpty(t))
    decreases t
  {
    hide Spelled, ShapedCond;
    match t
    case Leaf(c) => PieceShaped(Spelled(c.tokens));
    case Lacks(c) => PieceShaped(Spelled(c.tokens));
    case Not(u) => MergedShape(u);
    case And(parts) => MergedShapes(parts);
    case Or(parts) => MergedShapes(parts);
  }

  lemma {:induction false} MergedShapes(parts: seq<Tree>)
    requires ShapedAll(parts)
    ensures ShapedAll(MergedAll(parts)) && (NoneEmpty(MergedAll(parts)) <==> NoneEmpty(parts))
    decreases parts
  {
    hide Merged, Shaped, NoEmpty;
    if parts != [] {
      MergedShape(parts[0]);
      MergedShapes(parts[1..]);
      assert MergedAll(parts)[1..] == MergedAll(parts[1..]);
    }
  }

  // ---------------------------------------------------------------- lexing the text of a tree

  lemma {:induction false} TextKeeps(t: Tree)
    requires Operands(t)
    ensures Keeps(TreeText(t), Place(0, false), false)
    decreases t
  {
    match t
    case Leaf(c) => WalkFreely(Spelled(c.tokens), Place(0, false));
    case Lacks(c) =>
      WalkFreely(Spelled(c.tokens), Place(0, false));
      hide Keeps, Walk, Spelled;
      SmoothKeeps("NOT ", Place(0, false), false);
      KeepBoth("NOT ", Spelled(c.tokens), Place(0, false), false);
    case Not(u) =>
      hide Keeps, Walk;
      TextKeeps(u);
      InBrackets("NOT (", TreeText(u));
    case And(parts) =>
      hide Keeps, Walk;
      JoinKeeps(parts, " AND ");
      InBrackets("(", JoinText(parts, " AND "));
    case Or(parts) =>
      hide Keeps, Walk;
      JoinKeeps(parts, " OR ");
      InBrackets("(", JoinText(parts, " OR "));
  }

  /** Without joints to look out for, brackets may be closed at the outermost level. */
  lemma InBrackets(open_: string, inner: string)
    requires Opener(open_) && Keeps(inner, Place(0, false), false)
    ensures Keeps(open_ + inner + ")", Place(0, false), false)
  {
    hide Walk;
    WalkDeeper(inner, Place(0, false), Place(1, false));
    InParentheses(open_, inner, Place(0, false), false);
  }

  /** What is walked over at one level is walked over deeper inside. */
  lemma {:induction false} WalkDeeper(a: string, at: Place, below: Place)
    requires Walk(a, at, false).Some? && at.quoted == below.quoted && at.depth < below.depth
    ensures Walk(a, below, false) ==
            Some(Place(Walk(a, at, false).value.depth + (below.depth - at.depth), Walk(a, at, false).value.quoted))
    decreases |a|
  {
    if a != [] {
      if at.quoted && a[0] == '\\' {
        WalkDeeper(a[2..], at, below);
      } else if at.quoted {
        WalkDeeper(a[1..], Place(at.depth, a[0] != '\''), Place(below.depth, a[0] != '\''));
      } else {
        WalkDeeper(a[1..], Place(Deeper(a[0], at.depth), a[0] == '\''), Place(Deeper(a[0], below.depth), a[0] == '\''));
      }
    }
  }

  lemma {:induction false} JoinKeeps(parts: seq<Tree>, joint: string)
    requires AllOperands(parts) && joint in {" AND ", " OR "}
    ensures Keeps(JoinText(parts, joint), Place(0, false), false)
    decreases parts
  {
    if parts != [] {
      hide TreeText, Walk;
      TextKeeps(parts[0]);
      if |parts| > 1 {
        JoinKeeps(parts[1..], joint);
        SmoothKeeps(joint, Place(0, false), false);
        hide Keeps;
        KeepBoth(TreeText(parts[0]), joint, Place(0, false), false);
        KeepBoth(TreeText(parts[0]) + joint, JoinText(parts[1..], joint), Place(0, false), false);
      }
    }
  }

  /** A bracketed condition is taken for a group when an end follows it. */
  lemma Grouped(inner: string, rest: string)
    requires Keeps(inner, Place(0, false), false) && Ended(rest)
    ensures var s := "(" + inner + ")" + rest;
            Groups(s) && Lex(s, true) == Put(LParen, Lex(inner + (")" + rest), true))
  {
    var s, tail := "(" + inner + ")" + rest, ")" + rest;
    assert s[1..] == inner + tail && s[|inner| + 2..] == rest;
    WalkScans(inner, tail, Place(0, false), false);
    assert Scan(tail, 0, false, false) == 0;
    hide Scan, Walk, Keeps, Ended;
    assert s[0] == '(' && !("NOT " <= s);
  }

  lemma ClosedLex(rest: string)
    requires Lex(rest, false).Some?
    ensures Lex(")" + rest, false) == Put(RParen, Lex(rest, false)) == Lex(")" + rest, true)
    ensures Ended(")" + rest)
  {
    var s := ")" + rest;
    assert s[0] == ')' && s[1..] == rest && !("NOT " <= s);
    hide Joint;
  }

  lemma JointLex(joiner: Token, rest: string)
    requires joiner.AndWord? || joiner.OrWord?
    ensures Lex(Word(joiner) + rest, false) == Put(joiner, Lex(rest, true))
    ensures Ended(Word(joiner) + rest)
  {
    var s := Word(joiner) + rest;
    assert s[0] == Word(joiner)[0] && s[1] == Word(joiner)[1];
    assert s[|Word(joiner)|..] == rest;
  }

  lemma OperandLex(a: string, rest: string)
    requires Operand(a) && Ended(rest)
    ensures Lex(a + rest, true) == Put(Text(a), Lex(rest, false))
  {
    OperandRuns(a, rest);
    assert (a + rest)[..|a|] == a && (a + rest)[|a|..] == rest && a + rest != [];
    hide Scan, Groups, Ended, Keeps;
  }

  lemma NotLex(rest: string)
    ensures Lex("NOT " + rest, true) == Put(NotWord, Lex(rest, true))
  {
    assert ("NOT " + rest)[4..] == rest;
  }

  lemma Regroup(a: seq<Token>, b: seq<Token>, c: seq<Token>, d: seq<Token>)
    ensures a + (b + (c + d)) == a + b + c + d
    ensures c == [] ==> a + (b + d) == a + b + d
    ensures a + (b + c + d) == a + b + c + d
  {
  }

  lemma RegroupNot(a: seq<Token>, b: seq<Token>)
    ensures [NotWord] + ([LParen] + (a + ([RParen] + b))) == [NotWord, LParen] + a + [RParen] + b
  {
  }

  lemma {:induction false} LexTree(t: Tree, rest: string)
    requires Operands(t) && Ended(rest) && Lex(rest, false).Some?
    ensures Lex(TreeText(t) + rest, true) == Some(Printed(Merged(t)) + Lex(rest, false).value)
    decreases t, 0
  {
    hide Lex, Ended, Operand, Spelled;
    match t
    case Leaf(c) => OperandLex(Spelled(c.tokens), rest);
    case Lacks(c) =>
      OperandLex(Spelled(c.tokens), rest);
      NotLex(Spelled(c.tokens) + rest);
      assert "NOT " + Spelled(c.tokens) + rest == "NOT " + (Spelled(c.tokens) + rest);
      Regroup([NotWord], [Text(Spelled(c.tokens))], [], Lex(rest, false).value);
    case Not(u) =>
      var body := TreeText(u);
      TextKeeps(u);
      Grouped(body, rest);
      ClosedLex(rest);
      LexTree(u, ")" + rest);
      NotLex("(" + body + ")" + rest);
      assert "NOT (" + body + ")" + rest == "NOT " + ("(" + body + ")" + rest) by { assert "NOT (" == "NOT " + "("; }
      assert Lex(body + (")" + rest), true) == Some(Printed(Merged(u)) + ([RParen] + Lex(rest, false).value));
      RegroupNot(Printed(Merged(u)), Lex(rest, false).value);
    case And(parts) => LexJoint(parts, AndWord, rest);
    case Or(parts) => LexJoint(parts, OrWord, rest);
  }

  lemma {:induction false} LexJoint(parts: seq<Tree>, joiner: Token, rest: string)
    requires AllOperands(parts) && Ended(rest) && Lex(rest, false).Some? && (joiner.AndWord? || joiner.OrWord?)
    ensures Lex("(" + JoinText(parts, Word(joiner)) + ")" + rest, true) ==
            Some([LParen] + Filter.Joined(PrintedAll(MergedAll(parts)), joiner) + [RParen] + Lex(rest, false).value)
    decreases parts, 1
  {
    hide Lex, Ended;
    var body := JoinText(parts, Word(joiner));
    JoinKeeps(parts, Word(joiner));
    Grouped(body, rest);
    ClosedLex(rest);
    var joined, last := Filter.Joined(PrintedAll(MergedAll(parts)), joiner), Lex(rest, false).value;
    assert "(" + body + ")" + rest == ("(" + body + ")") + rest;
    if parts != [] {
      LexJoin(parts, joiner, ")" + rest);
    } else {
      assert body + (")" + rest) == ")" + rest && joined == [];
      assert [] + ([RParen] + last) == [RParen] + last;
    }
    assert Lex(body + (")" + rest), true) == Some(joined + ([RParen] + last));
    Regroup([LParen], joined, [RParen], last);
  }

  lemma {:induction false} LexJoin(parts: seq<Tree>, joiner: Token, rest: string)
    requires AllOperands(parts) && parts != [] && Ended(rest) && Lex(rest, false).Some?
    requires joiner.AndWord? || joiner.OrWord?
    ensures Lex(JoinText(parts, Word(joiner)) + rest, true) ==
            Some(Filter.Joined(PrintedAll(MergedAll(parts)), joiner) + Lex(rest, false).value)
    decreases parts, 0
  {
    hide Lex, Ended, TreeText, Printed, Merged, Operands, Word;
    if |parts| == 1 {
      LexTree(parts[0], rest);
    } else {
      var tail := JoinText(parts[1..], Word(joiner));
      LexJoin(parts[1..], joiner, rest);
      JointLex(joiner, tail + rest);
      LexTree(parts[0], Word(joiner) + (tail + rest));
      assert TreeText(parts[0]) + Word(joiner) + tail + rest == TreeText(parts[0]) + (Word(joiner) + (tail + rest));
      assert PrintedAll(MergedAll(parts))[1..] == PrintedAll(MergedAll(parts[1..]));
      var head, more := Printed(Merged(parts[0])), Filter.Joined(PrintedAll(MergedAll(parts[1..])), joiner);
      assert Filter.Joined(PrintedAll(MergedAll(parts)), joiner) == head + [joiner] + more;
      Regroup(head, [joiner], more, Lex(rest, false).value);
    }
  }

  /** The compiled text, character by character, reads as the tree it was compiled to, NOT over AND
      over OR, with each leaf's text as one operand, exactly when no $not is over an empty document; otherwise
      it does not read at all. */
  lemma CompiledTextReads(column: string, filter: seq<Field>)
    requires DocumentTree(column, filter).Ok? && ColumnName(column) && QuoteFreeFields(filter)
    ensures var t := DocumentTree(column, filter).value;
            ReadText(Spelled(Printed(t))) == if FullFields(filter) then Some(Meaning(Merged(t))) else None
  {
    var t := DocumentTree(column, filter).value;
    assert Lex("", false) == Some([]) && Ended("");
    hide Lex, Ended, DocumentTree, ReadSql, Printed, TreeText, Merged;
    DocumentOperands(column, filter);
    PrintedSpells(t);
    LexTree(t, "");
    assert TreeText(t) + "" == TreeText(t) && Printed(Merged(t)) + [] == Printed(Merged(t));
    MergedShape(t);
    PrintedReadsBack(Merged(t));
  }
}
