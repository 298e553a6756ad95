/** The reader of shell statements: db.collection.verb(arguments). */
module Mongosh {
  import opened Optional
  import opened Bson

  datatype Refusal = FailedToParse | BadValue | NotImplemented

  datatype Result<+T> = Ok(value: T) | Err(refusal: Refusal)

  /** A value read, and the text behind it. */
  type Read<T> = Result<(T, string)>

  // ---------------------------------------------------------------- characters

  predicate IsSpace(c: char) {
    c == ' ' || 9 as char <= c <= 13 as char
  }

  predicate IsDigit(c: char) {
    '0' <= c <= '9'
  }

  predicate IsNameChar(c: char) {
    IsDigit(c) || 'a' <= c <= 'z' || 'A' <= c <= 'Z' || c == '_' || c == '$'
  }

  predicate IsQuote(c: char) {
    c == '"' || c == '\''
  }

  function Skip(s: string): (r: string)
    ensures |r| <= |s|
    ensures r == [] || !IsSpace(r[0])
  {
    if s != [] && IsSpace(s[0]) then Skip(s[1..]) else s
  }

  function Unescaped(c: char): char {
    if c == 'n' then '\n' else if c == 't' then '\t' else if c == 'r' then '\r' else c
  }

  // ---------------------------------------------------------------- the grammar, on the text left

  function Expect(c: char, s: string): (r: Result<string>)
    ensures r.Ok? ==> |r.value| < |s|
    ensures r.Err? ==> r == Err(FailedToParse)
  {
    var t := Skip(s);
    if t == [] || t[0] != c then Err(FailedToParse) else Ok(t[1..])
  }

  function NameLength(s: string): (n: nat)
    ensures n <= |s|
  {
    if s == [] || !IsNameChar(s[0]) then 0 else 1 + NameLength(s[1..])
  }

  function ReadName(s: string): (r: Read<string>)
    ensures r.Ok? ==> |r.value.1| < |s|
  {
    var t := Skip(s);
    var n := NameLength(t);
    if n == 0 then Err(FailedToParse) else Ok((t[..n], t[n..]))
  }

  function ReadChars(s: string, quote: char): (r: Read<string>)
    ensures r.Ok? ==> |r.value.1| < |s|
  {
    if s == [] then Err(FailedToParse)
    else if s[0] == quote then Ok(([], s[1..]))
    else if s[0] != '\\' then
      match ReadChars(s[1..], quote)
      case Err(e) => Err(e)
      case Ok((out, rest)) => Ok(([s[0]] + out, rest))
    else if |s| < 2 then Err(FailedToParse)
    else
      match ReadChars(s[2..], quote)
      case Err(e) => Err(e)
      case Ok((out, rest)) => Ok(([Unescaped(s[1])] + out, rest))
  }

  function ReadQuoted(s: string): (r: Read<string>)
    ensures r.Ok? ==> |r.value.1| < |s|
  {
    var t := Skip(s);
    if t == [] || !IsQuote(t[0]) then Err(FailedToParse) else ReadChars(t[1..], t[0])
  }

  predicate IsReal(c: char) {
    c == '.' || c == 'e' || c == 'E'
  }

  function NumberLength(s: string): (n: nat)
    ensures n <= |s|
  {
    if s != [] && (IsDigit(s[0]) || IsReal(s[0]) || s[0] == '+' || s[0] == '-') then 1 + NumberLength(s[1..]) else 0
  }

  /** The text of a number: a sign, then digits, points, exponents and further signs. */
  function LiteralLength(s: string): (n: nat)
    ensures n <= |s|
  {
    if s != [] && (s[0] == '-' || s[0] == '+') then 1 + NumberLength(s[1..]) else NumberLength(s)
  }

  function DigitsValue(s: string, so: nat): nat {
    if s == [] || !IsDigit(s[0]) then so else DigitsValue(s[1..], 10 * so + (s[0] as int - '0' as int))
  }

  const TWO_63: nat := 0x8000_0000_0000_0000

  /** strtoll: the leading sign and digits, held at the ends of int64. */
  function ToInt64(literal: string): int {
    var negative := literal != [] && literal[0] == '-';
    var digits := if literal != [] && (literal[0] == '-' || literal[0] == '+') then literal[1..] else literal;
    var n: int := DigitsValue(digits, 0);
    if negative then (if n > TWO_63 then -(TWO_63 as int) else -n) else if n >= TWO_63 then TWO_63 - 1 else n
  }

  /** The text-to-double conversion is the C library's; it is a parameter here. */
  type Strtod = string -> Double

  function ReadNumber(s: string, strtod: Strtod): (r: Read<Value>)
    ensures r.Ok? && s != [] && !IsSpace(s[0]) && (IsDigit(s[0]) || s[0] == '-') ==> |r.value.1| < |s|
  {
    var t := Skip(s);
    var n := LiteralLength(t);
    Ok((NumberOf(t[..n], HasReal(t, n), strtod), t[n..]))
  }

  predicate HasReal(t: string, n: nat)
    requires n <= |t|
  {
    exists k :: 0 <= k < n && IsReal(t[k])
  }

  /** A point or an exponent makes a double, anything else a 64-bit integer. */
  function NumberOf(literal: string, real_: bool, strtod: Strtod): Value {
    if real_ then Dbl(strtod(literal)) else Int64(ToInt64(literal))
  }

  predicate IsHex(c: char) {
    IsDigit(c) || 'a' <= c <= 'f' || 'A' <= c <= 'F'
  }

  function HexValue(c: char): (n: nat)
    requires IsHex(c)
    ensures n < 16
  {
    if IsDigit(c) then c as int - '0' as int
    else if c >= 'a' then c as int - 'a' as int + 10
    else c as int - 'A' as int + 10
  }

  predicate ValidOid(hex: string) {
    |hex| == 24 && forall k :: 0 <= k < |hex| ==> IsHex(hex[k])
  }

  function Unhex(hex: string): (r: string)
    requires |hex| % 2 == 0 && forall k :: 0 <= k < |hex| ==> IsHex(hex[k])
  {
    if hex == [] then [] else [(16 * HexValue(hex[0]) + HexValue(hex[1])) as char] + Unhex(hex[2..])
  }

  function ReadWord(s: string): (r: Read<Value>)
    ensures r.Ok? ==> |r.value.1| < |s|
  {
    match ReadName(s)
    case Err(e) => Err(e)
    case Ok((name, rest)) =>
      if name == "true" || name == "false" then Ok((Bool(name == "true"), rest))
      else if name == "null" then Ok((Null, rest))
      else if name != "ObjectId" then Err(NotImplemented)
      else
        match Expect('(', rest)
        case Err(e) => Err(e)
        case Ok(inside) =>
          match ReadQuoted(inside)
          case Err(e) => Err(e)
          case Ok((hex, after)) =>
            match Expect(')', after)
            case Err(e) => Err(e)
            case Ok(last) => if ValidOid(hex) then Ok((ObjectId(Unhex(hex)), last)) else Err(BadValue)
  }

  function ReadValue(s: string, strtod: Strtod): (r: Read<Value>)
    ensures r.Ok? ==> |r.value.1| < |s|
    decreases |s|, 2
  {
    var t := Skip(s);
    if t == [] then Err(FailedToParse)
    else if t[0] == '{' then ReadObject(t[1..], strtod)
    else if t[0] == '[' then ReadArray(t[1..], strtod)
    else if IsQuote(t[0]) then
      match ReadQuoted(t)
      case Err(e) => Err(e)
      case Ok((text, rest)) => Ok((Utf8(text), rest))
    else if t[0] == '-' || IsDigit(t[0]) then ReadNumber(t, strtod)
    else ReadWord(t)
  }

  /** An object behind its brace. */
  function ReadObject(s: string, strtod: Strtod): (r: Read<Value>)
    ensures r.Ok? ==> |r.value.1| <= |s|
    decreases |s|, 4
  {
    if Expect('}', s).Ok? then Ok((Document([]), Expect('}', s).value))
    else
      match ReadMembers(Skip(s), strtod)
      case Err(e) => Err(e)
      case Ok((members, rest)) => Ok((Document(members), rest))
  }

  function ReadKey(s: string): (r: Read<string>)
    ensures r.Ok? ==> |r.value.1| < |s|
  {
    var t := Skip(s);
    if t == [] then Err(FailedToParse) else if IsQuote(t[0]) then ReadQuoted(t) else ReadName(t)
  }

  function ReadMembers(s: string, strtod: Strtod): (r: Read<seq<Field>>)
    ensures r.Ok? ==> |r.value.1| < |s|
    decreases |s|, 3
  {
    match ReadKey(s)
    case Err(e) => Err(e)
    case Ok((key, afterKey)) =>
      match Expect(':', afterKey)
      case Err(e) => Err(e)
      case Ok(before) =>
        match ReadValue(before, strtod)
        case Err(e) => Err(e)
        case Ok((v, after)) =>
          match Expect(',', after)
          case Ok(next) =>
            (match ReadMembers(next, strtod)
             case Err(e) => Err(e)
             case Ok((more, rest)) => Ok(([Field(key, v)] + more, rest)))
          case Err(_) =>
            match Expect('}', after)
            case Err(e) => Err(e)
            case Ok(rest) => Ok(([Field(key, v)], rest))
  }

  /** An array behind its bracket. */
  function ReadArray(s: string, strtod: Strtod): (r: Read<Value>)
    ensures r.Ok? ==> |r.value.1| <= |s|
    decreases |s|, 4
  {
    if Expect(']', s).Ok? then Ok((Array([]), Expect(']', s).value))
    else
      match ReadElements(Skip(s), ']', strtod)
      case Err(e) => Err(e)
      case Ok((values, rest)) => Ok((Array(Elements(values)), rest))
  }

  /** Values with commas between, up to the closing character. */
  function ReadElements(s: string, close: char, strtod: Strtod): (r: Read<seq<Value>>)
    ensures r.Ok? ==> |r.value.1| < |s|
    decreases |s|, 3
  {
    match ReadValue(s, strtod)
    case Err(e) => Err(e)
    case Ok((v, after)) =>
      match Expect(',', after)
      case Ok(next) =>
        (match ReadElements(next, close, strtod)
         case Err(e) => Err(e)
         case Ok((more, rest)) => Ok(([v] + more, rest)))
      case Err(_) =>
        match Expect(close, after)
        case Err(e) => Err(e)
        case Ok(rest) => Ok(([v], rest))
  }

  datatype ShellCall = ShellCall(collection: string, verb: string, args: seq<Value>)

  function ReadCall(s: string, strtod: Strtod): Result<ShellCall> {
    match ReadName(s)
    case Err(e) => Err(e)
    case Ok((db, a)) =>
      if db != "db" then Err(FailedToParse)
      else
        match Expect('.', a)
        case Err(e) => Err(e)
        case Ok(b) =>
          match ReadName(b)
          case Err(e) => Err(e)
          case Ok((collection, c)) =>
            match Expect('.', c)
            case Err(e) => Err(e)
            case Ok(d) =>
              match ReadName(d)
              case Err(e) => Err(e)
              case Ok((verb, f)) =>
                match ReadArguments(f, strtod)
                case Err(e) => Err(e)
                case Ok((args, g)) => if AtEnd(g) then Ok(ShellCall(collection, verb, args)) else Err(FailedToParse)
  }

  function ReadArguments(s: string, strtod: Strtod): Read<seq<Value>> {
    match Expect('(', s)
    case Err(e) => Err(e)
    case Ok(t) => if Expect(')', t).Ok? then Ok(([], Expect(')', t).value)) else ReadElements(t, ')', strtod)
  }

  /** Nothing but an optional semicolon is left. */
  predicate AtEnd(s: string) {
    Skip(match Expect(';', s) case Ok(rest) => rest case Err(_) => s) == []
  }

  // ---------------------------------------------------------------- what can be written

  /** A character of a string literal, as it stands or behind a backslash. */
  datatype Char = Plain(c: char) | Escape(c: char)

  datatype Quoted = Quoted(space: string, quote: char, chars: seq<Char>)

  datatype Name = Name(space: string, name: string) | QuotedName(text: Quoted)

  /** A value as it may be written: the spaces before it, and every choice the syntax leaves.
      after is the space between a value and the comma or bracket behind it. */
  datatype Tree =
    | TNull(space: string)
    | TBool(space: string, b: bool)
    | TInt(space: string, minus: bool, digits: string)
    | TString(text: Quoted)
    | TOid(space: string, paren: string, text: Quoted, close: string)
    | TArray(space: string, elements: seq<Item>, inside: string)
    | TObject(space: string, members: seq<Member>, inside: string)

  datatype Item = Item(tree: Tree, after: string)

  datatype Member = Member(name: Name, colon: string, item: Item)

  predicate Spaces(s: string) {
    forall k :: 0 <= k < |s| ==> IsSpace(s[k])
  }

  predicate GoodQuoted(q: Quoted) {
    Spaces(q.space) && IsQuote(q.quote) &&
    forall k :: 0 <= k < |q.chars| && q.chars[k].Plain? ==> q.chars[k].c != q.quote && q.chars[k].c != '\\'
  }

  predicate IsName(s: string) {
    s != [] && forall k :: 0 <= k < |s| ==> IsNameChar(s[k])
  }

  predicate GoodName(n: Name) {
    match n
    case Name(space, name) => Spaces(space) && IsName(name)
    case QuotedName(text) => GoodQuoted(text)
  }

  predicate Good(t: Tree)
    decreases t
  {
    match t
    case TNull(space) => Spaces(space)
    case TBool(space, _) => Spaces(space)
    case TInt(space, _, digits) => Spaces(space) && digits != [] && forall k :: 0 <= k < |digits| ==> IsDigit(digits[k])
    case TString(text) => GoodQuoted(text)
    case TOid(space, paren, text, close) =>
      Spaces(space) && Spaces(paren) && GoodQuoted(text) && Spaces(close) && ValidOid(CharsText(text.chars))
    case TArray(space, elements, inside) => Spaces(space) && Spaces(inside) && GoodItems(elements)
    case TObject(space, members, inside) => Spaces(space) && Spaces(inside) && GoodMembers(members)
  }

  predicate GoodItems(items: seq<Item>)
    decreases items
  {
    items == [] || (Good(items[0].tree) && Spaces(items[0].after) && GoodItems(items[1..]))
  }

  predicate GoodMembers(members: seq<Member>)
    decreases members
  {
    members == [] ||
    (GoodName(members[0].name) && Spaces(members[0].colon) && Good(members[0].item.tree) &&
     Spaces(members[0].item.after) && GoodMembers(members[1..]))
  }

  /** The characters a literal stands for. */
  function CharsText(chars: seq<Char>): string {
    if chars == [] then []
    else [if chars[0].Plain? then chars[0].c else Unescaped(chars[0].c)] + CharsText(chars[1..])
  }

  function CharsWritten(chars: seq<Char>): string {
    if chars == [] then []
    else (if chars[0].Plain? then [chars[0].c] else ['\\', chars[0].c]) + CharsWritten(chars[1..])
  }

  function QuotedWritten(q: Quoted): string {
    q.space + QuotedCore(q)
  }

  function QuotedCore(q: Quoted): string {
    [q.quote] + (CharsWritten(q.chars) + [q.quote])
  }

  function NameText(n: Name): string {
    if n.Name? then n.name else CharsText(n.text.chars)
  }

  function NameWritten(n: Name): string {
    if n.Name? then n.space + n.name else QuotedWritten(n.text)
  }

  function Literal(minus: bool, digits: string): string {
    (if minus then "-" else []) + digits
  }

  /** The value a tree stands for. */
  function ValueOf(t: Tree): Value
    requires Good(t)
    decreases t
  {
    match t
    case TNull(_) => Null
    case TBool(_, b) => Bool(b)
    case TInt(_, minus, digits) => Int64(ToInt64(Literal(minus, digits)))
    case TString(text) => Utf8(CharsText(text.chars))
    case TOid(_, _, text, _) => ObjectId(Unhex(CharsText(text.chars)))
    case TArray(_, elements, _) => Array(Elements(ValuesOf(elements)))
    case TObject(_, members, _) => Document(FieldsOf(members))
  }

  function ValuesOf(items: seq<Item>): seq<Value>
    requires GoodItems(items)
    decreases items
  {
    if items == [] then [] else [ValueOf(items[0].tree)] + ValuesOf(items[1..])
  }

  function FieldsOf(members: seq<Member>): seq<Field>
    requires GoodMembers(members)
    decreases members
  {
    if members == [] then []
    else [Field(NameText(members[0].name), ValueOf(members[0].item.tree))] + FieldsOf(members[1..])
  }

  /** The text of a tree: its spaces, then the rest of it. */
  function Written(t: Tree): string
    decreases t, 1
  {
    SpaceOf(t) + Core(t)
  }

  function SpaceOf(t: Tree): string {
    if t.TString? then t.text.space else t.space
  }

  function Core(t: Tree): string
    decreases t, 0
  {
    match t
    case TNull(_) => "null"
    case TBool(_, b) => if b then "true" else "false"
    case TInt(_, minus, digits) => Literal(minus, digits)
    case TString(text) => QuotedCore(text)
    case TOid(_, paren, text, close) => "ObjectId" + (paren + "(" + (QuotedWritten(text) + (close + ")")))
    case TArray(_, elements, inside) => "[" + ((if elements == [] then inside else ItemsWritten(elements)) + "]")
    case TObject(_, members, inside) => "{" + ((if members == [] then inside else MembersWritten(members)) + "}")
  }

  function ItemsWritten(items: seq<Item>): string
    decreases items
  {
    if items == [] then []
    else Written(items[0].tree) + items[0].after + if |items| == 1 then [] else "," + ItemsWritten(items[1..])
  }

  function MembersWritten(members: seq<Member>): string
    decreases members
  {
    if members == [] then []
    else
      NameWritten(members[0].name) + members[0].colon + ":" + Written(members[0].item.tree) + members[0].item.after +
      if |members| == 1 then [] else "," + MembersWritten(members[1..])
  }

  // ---------------------------------------------------------------- reading what was written

  lemma {:induction false} SkipSpaces(space: string, s: string)
    requires Spaces(space)
    ensures Skip(space + s) == Skip(s)
  {
    if space == [] {
      assert space + s == s;
    } else {
      assert (space + s)[1..] == space[1..] + s;
      SkipSpaces(space[1..], s);
    }
  }

  /** Spaces before a character that is not one are all that is skipped. */
  lemma SkipTo(space: string, s: string)
    requires Spaces(space) && s != [] && !IsSpace(s[0])
    ensures Skip(space + s) == s && Skip(s) == s
  {
    SkipSpaces(space, s);
  }

  lemma ExpectFound(space: string, c: char, rest: string)
    requires Spaces(space) && !IsSpace(c)
    ensures Expect(c, space + [c] + rest) == Ok(rest)
  {
    assert space + [c] + rest == space + ([c] + rest) && ([c] + rest)[1..] == rest;
    SkipTo(space, [c] + rest);
  }

  lemma ExpectOther(space: string, c: char, d: char, rest: string)
    requires Spaces(space) && !IsSpace(d) && c != d
    ensures Expect(c, space + [d] + rest).Err?
  {
    assert space + [d] + rest == space + ([d] + rest);
    SkipTo(space, [d] + rest);
  }

  lemma {:induction false} CharsRead(chars: seq<Char>, quote: char, rest: string)
    requires IsQuote(quote)
    requires forall k :: 0 <= k < |chars| && chars[k].Plain? ==> chars[k].c != quote && chars[k].c != '\\'
    ensures ReadChars(CharsWritten(chars) + [quote] + rest, quote) == Ok((CharsText(chars), rest))
  {
    var s := CharsWritten(chars) + [quote] + rest;
    if chars == [] {
      assert s == [quote] + rest && s[1..] == rest;
    } else {
      CharsRead(chars[1..], quote, rest);
      var tail := CharsWritten(chars[1..]) + [quote] + rest;
      if chars[0].Plain? {
        assert s == [chars[0].c] + tail && s[1..] == tail;
      } else {
        assert s == ['\\', chars[0].c] + tail && s[2..] == tail;
      }
    }
  }

  lemma QuotedRead(q: Quoted, rest: string)
    requires GoodQuoted(q)
    ensures ReadQuoted(QuotedWritten(q) + rest) == Ok((CharsText(q.chars), rest))
    ensures Skip(QuotedWritten(q) + rest) != [] && IsQuote(Skip(QuotedWritten(q) + rest)[0])
    ensures ReadQuoted(Skip(QuotedWritten(q) + rest)) == Ok((CharsText(q.chars), rest))
  {
    var body := QuotedCore(q) + rest;
    assert QuotedWritten(q) + rest == q.space + body;
    assert body[0] == q.quote && body[1..] == CharsWritten(q.chars) + [q.quote] + rest;
    CharsRead(q.chars, q.quote, rest);
    hide CharsWritten, CharsText, ReadChars, QuotedWritten, QuotedCore;
    SkipTo(q.space, body);
    SkipTo([], body);
    assert [] + body == body;
    hide Skip;
  }

  /** What ends a name or a number: the end, a space, or punctuation. */
  predicate Ends(rest: string) {
    rest == [] || IsSpace(rest[0]) || rest[0] in {',', ']', '}', ')', '(', ':'}
  }

  lemma {:induction false} NameEnds(name: string, rest: string)
    requires forall k :: 0 <= k < |name| ==> IsNameChar(name[k])
    requires rest == [] || !IsNameChar(rest[0])
    ensures NameLength(name + rest) == |name|
  {
    if name == [] {
      assert name + rest == rest;
    } else {
      assert (name + rest)[1..] == name[1..] + rest;
      NameEnds(name[1..], rest);
    }
  }

  lemma NameRead(space: string, name: string, rest: string)
    requires Spaces(space) && IsName(name) && (rest == [] || !IsNameChar(rest[0]))
    ensures ReadName(space + name + rest) == Ok((name, rest))
    ensures Skip(space + name + rest) == name + rest && ReadName(name + rest) == Ok((name, rest))
  {
    assert space + name + rest == space + (name + rest);
    assert (name + rest)[0] == name[0];
    SkipTo(space, name + rest);
    NameEnds(name, rest);
    assert (name + rest)[..|name|] == name && (name + rest)[|name|..] == rest;
  }

  lemma {:induction false} DigitsEnd(digits: string, rest: string)
    requires forall k :: 0 <= k < |digits| ==> IsDigit(digits[k])
    requires Ends(rest)
    ensures NumberLength(digits + rest) == |digits|
  {
    assert NumberLength(rest) == 0;
    if digits == [] {
      assert digits + rest == rest;
    } else {
      assert (digits + rest)[1..] == digits[1..] + rest;
      DigitsEnd(digits[1..], rest);
    }
  }

  lemma LiteralEnds(minus: bool, digits: string, rest: string)
    requires digits != [] && (forall k :: 0 <= k < |digits| ==> IsDigit(digits[k])) && Ends(rest)
    ensures LiteralLength(Literal(minus, digits) + rest) == |Literal(minus, digits)|
  {
    var s := Literal(minus, digits) + rest;
    assert minus ==> s[1..] == digits + rest;
    assert !minus ==> s == digits + rest;
    DigitsEnd(digits, rest);
    hide NumberLength;
  }

  lemma IntRead(minus: bool, digits: string, rest: string, strtod: Strtod)
    requires digits != [] && (forall k :: 0 <= k < |digits| ==> IsDigit(digits[k])) && Ends(rest)
    ensures var literal := Literal(minus, digits);
            ReadNumber(literal + rest, strtod) == Ok((Int64(ToInt64(literal)), rest))
  {
    hide ToInt64, LiteralLength, NumberLength, Skip;
    var literal := Literal(minus, digits);
    var s := literal + rest;
    LiteralEnds(minus, digits, rest);
    assert s[0] == literal[0] && !IsSpace(s[0]);
    SkipTo([], s);
    assert s[..|literal|] == literal && s[|literal|..] == rest;
    assert forall k :: 0 <= k < |literal| ==> s[k] == literal[k] && !IsReal(s[k]);
  }

  lemma SkipAgain(s: string)
    ensures Skip(Skip(s)) == Skip(s)
  {
  }

  lemma ValueAfterSkip(s: string, strtod: Strtod)
    ensures ReadValue(Skip(s), strtod) == ReadValue(s, strtod)
    ensures ReadKey(Skip(s)) == ReadKey(s)
  {
    SkipAgain(s);
    hide Skip, ReadObject, ReadArray, ReadQuoted, ReadNumber, ReadWord, ReadName;
  }

  lemma ElementsAfterSkip(s: string, close: char, strtod: Strtod)
    ensures ReadElements(Skip(s), close, strtod) == ReadElements(s, close, strtod)
    ensures ReadMembers(Skip(s), strtod) == ReadMembers(s, strtod)
  {
    ValueAfterSkip(s, strtod);
    hide Skip, ReadValue, ReadKey, Expect;
  }

  lemma CoreFirst(t: Tree)
    requires Good(t)
    ensures Core(t) != [] && !IsSpace(Core(t)[0]) && Core(t)[0] !in {',', ']', '}', ')', ':'}
  {
  }

  /** A value starts with a character of its own, behind its spaces. */
  lemma FirstOf(t: Tree, rest: string)
    requires Good(t)
    ensures Written(t) + rest == SpaceOf(t) + (Core(t) + rest)
    ensures Skip(Written(t) + rest) == Core(t) + rest && Skip(Core(t) + rest) == Core(t) + rest
    ensures Core(t) != [] && (Core(t) + rest)[0] == Core(t)[0] && Core(t)[0] !in {',', ']', '}', ')', ':'}
  {
    CoreFirst(t);
    assert Spaces(SpaceOf(t));
    hide Core, Good;
    assert Written(t) + rest == SpaceOf(t) + (Core(t) + rest);
    SkipTo(SpaceOf(t), Core(t) + rest);
  }

  lemma WordRead(t: Tree, word: string, tail: string, rest: string, strtod: Strtod)
    requires Good(t) && IsName(word) && !IsDigit(word[0]) && (tail == [] || !IsNameChar(tail[0]))
    requires Core(t) + rest == word + tail
    ensures ReadValue(Written(t) + rest, strtod) == ReadWord(word + tail)
    ensures ReadName(word + tail) == Ok((word, tail))
  {
    hide Core, Written, Good, Skip;
    FirstOf(t, rest);
    NameRead([], word, tail);
    assert [] + word + tail == word + tail && (word + tail)[0] == word[0];
    assert Skip(Written(t) + rest) == word + tail;
    hide ReadName, ReadWord, NameLength, ReadObject, ReadArray, ReadQuoted, ReadNumber;
  }

  lemma SimpleRead(t: Tree, rest: string, strtod: Strtod)
    requires Good(t) && Ends(rest) && (t.TNull? || t.TBool?)
    ensures ReadValue(Written(t) + rest, strtod) == Ok((ValueOf(t), rest))
  {
    WordRead(t, Core(t), rest, rest, strtod);
    hide ReadValue, ReadName, Written;
  }

  lemma OidRead(t: Tree, rest: string, strtod: Strtod)
    requires Good(t) && t.TOid?
    ensures ReadValue(Written(t) + rest, strtod) == Ok((ValueOf(t), rest))
  {
    var text, hex := t.text, CharsText(t.text.chars);
    var inside := QuotedWritten(text) + (t.close + ")" + rest);
    var tail := t.paren + "(" + inside;
    assert ValueOf(t) == ObjectId(Unhex(hex)) && ValidOid(hex);
    assert Core(t) == "ObjectId" + (t.paren + "(" + (QuotedWritten(text) + (t.close + ")")));
    assert tail[0] == '(' || IsSpace(tail[0]);
    assert Spaces(t.paren) && Spaces(t.close) && GoodQuoted(text);
    hide Core, Written, Good, ValueOf, QuotedWritten, CharsText, Unhex, ValidOid, Expect, ReadQuoted, ReadName, ReadValue;
    OidText(t.paren, QuotedWritten(text), t.close, rest);
    WordRead(t, "ObjectId", tail, rest, strtod);
    ExpectFound(t.paren, '(', inside);
    QuotedRead(text, t.close + ")" + rest);
    ExpectFound(t.close, ')', rest);
  }

  lemma OidText(paren: string, text: string, close: string, rest: string)
    ensures "ObjectId" + (paren + "(" + (text + (close + ")"))) + rest ==
            "ObjectId" + (paren + "(" + (text + (close + ")" + rest)))
  {
  }

  lemma IntegerRead(t: Tree, rest: string, strtod: Strtod)
    requires Good(t) && Ends(rest) && t.TInt?
    ensures ReadValue(Written(t) + rest, strtod) == Ok((ValueOf(t), rest))
  {
    assert Core(t) == Literal(t.minus, t.digits);
    assert Core(t)[0] == '-' || IsDigit(Core(t)[0]);
    IntRead(t.minus, t.digits, rest, strtod);
    hide Core, Written, Good, Literal, Skip, ReadNumber, ToInt64, ReadObject, ReadArray, ReadQuoted, ReadWord;
    FirstOf(t, rest);
  }

  lemma StringRead(t: Tree, rest: string, strtod: Strtod)
    requires Good(t) && t.TString?
    ensures ReadValue(Written(t) + rest, strtod) == Ok((ValueOf(t), rest))
  {
    QuotedRead(t.text, rest);
    FirstOf(t, rest);
    hide ReadQuoted, Skip, QuotedCore, CharsText;
  }

  /** Whatever its spelling and whatever ends it, a written value reads back as itself and no further. */
  lemma {:induction false} ValueRead(t: Tree, rest: string, strtod: Strtod)
    requires Good(t) && Ends(rest)
    ensures ReadValue(Written(t) + rest, strtod) == Ok((ValueOf(t), rest))
    decreases t, 0
  {
    hide ReadValue, Written, ValueOf;
    match t
    case TNull(_) => SimpleRead(t, rest, strtod);
    case TBool(_, _) => SimpleRead(t, rest, strtod);
    case TInt(_, _, _) => IntegerRead(t, rest, strtod);
    case TString(_) => StringRead(t, rest, strtod);
    case TOid(_, _, _, _) => OidRead(t, rest, strtod);
    case TArray(_, elements, _) => ArrayRead(t, elements, rest, strtod);
    case TObject(_, members, _) => ObjectRead(t, members, rest, strtod);
  }

  /** A bracket opens an array, a brace an object. */
  lemma OpensWith(t: Tree, body: string, rest: string, strtod: Strtod)
    requires Good(t) && (t.TArray? || t.TObject?)
    requires Core(t) + rest == (if t.TArray? then "[" else "{") + body
    ensures ReadValue(Written(t) + rest, strtod) == if t.TArray? then ReadArray(body, strtod) else ReadObject(body, strtod)
  {
    FirstOf(t, rest);
    assert (Core(t) + rest)[1..] == body;
    hide Skip, Written, Core, Good, ReadArray, ReadObject;
  }

  lemma {:induction false} ArrayRead(t: Tree, elements: seq<Item>, rest: string, strtod: Strtod)
    requires Good(t) && t.TArray? && t.elements == elements
    ensures ReadValue(Written(t) + rest, strtod) == Ok((ValueOf(t), rest))
    decreases elements, 1
  {
    var inner := if elements == [] then t.inside else ItemsWritten(elements);
    var body := inner + ("]" + rest);
    assert Core(t) == "[" + (inner + "]");
    assert GoodItems(elements) && Spaces(t.inside);
    assert ValueOf(t) == Array(Elements(ValuesOf(elements)));
    hide Core, ReadValue, ReadArray, ReadElements, Written, ValueOf, ItemsWritten, Good, Skip;
    Bracketed("[", inner, "]", rest);
    OpensWith(t, body, rest, strtod);
    if elements == [] {
      EmptyArray(t.inside, rest, strtod);
    } else {
      ItemsRead(elements, ']', rest, strtod);
      FirstItem(elements, "]" + rest);
      ToRest(inner, "]", rest);
      FullArray(body, ValuesOf(elements), rest, strtod);
    }
  }

  lemma Bracketed(open_: string, inner: string, close: string, rest: string)
    ensures open_ + (inner + close) + rest == open_ + (inner + (close + rest))
  {
  }

  lemma EmptyArray(inside: string, rest: string, strtod: Strtod)
    requires Spaces(inside)
    ensures ReadArray(inside + ("]" + rest), strtod) == Ok((Array(Elements([])), rest))
    ensures ReadObject(inside + ("}" + rest), strtod) == Ok((Document([]), rest))
    ensures ValuesOf([]) == [] && FieldsOf([]) == []
  {
    SkipTo(inside, "]" + rest);
    SkipTo(inside, "}" + rest);
    assert ("]" + rest)[1..] == rest && ("}" + rest)[1..] == rest && Elements([]) == [];
    hide Skip;
  }

  lemma FullArray(body: string, values: seq<Value>, rest: string, strtod: Strtod)
    requires Skip(body) != [] && Skip(body)[0] != ']' && ReadElements(body, ']', strtod) == Ok((values, rest))
    ensures ReadArray(body, strtod) == Ok((Array(Elements(values)), rest))
  {
    ElementsAfterSkip(body, ']', strtod);
    hide Skip, ReadElements;
  }

  lemma FullObject(body: string, fields: seq<Field>, rest: string, strtod: Strtod)
    requires Skip(body) != [] && Skip(body)[0] != '}' && ReadMembers(body, strtod) == Ok((fields, rest))
    ensures ReadObject(body, strtod) == Ok((Document(fields), rest))
  {
    ElementsAfterSkip(body, '}', strtod);
    hide Skip, ReadMembers;
  }

  lemma FirstItem(items: seq<Item>, rest: string)
    requires items != [] && GoodItems(items)
    ensures var s := Skip(ItemsWritten(items) + rest);
            s != [] && s[0] !in {']', ')'}
  {
    var tail := items[0].after + (if |items| == 1 then [] else "," + ItemsWritten(items[1..]));
    assert ItemsWritten(items) + rest == Written(items[0].tree) + (tail + rest) by { hide Written; }
    FirstOf(items[0].tree, tail + rest);
    hide Skip, Written, Core, ItemsWritten;
  }

  lemma {:induction false} ItemsRead(items: seq<Item>, close: char, rest: string, strtod: Strtod)
    requires items != [] && GoodItems(items) && close in {']', ')'}
    ensures ReadElements(ItemsWritten(items) + [close] + rest, close, strtod) == Ok((ValuesOf(items), rest))
    decreases items, 0
  {
    hide ReadValue, Expect, Written, ValueOf;
    var first, after := items[0].tree, items[0].after;
    var comma, others := if |items| == 1 then "" else ",", if |items| == 1 then [] else ItemsWritten(items[1..]);
    var more := others + [close] + rest;
    var tail := after + comma + more;
    assert ItemsWritten(items) == Written(first) + after + (comma + others);
    RegroupItem(Written(first), after, comma, others, [close], rest);
    assert |items| == 1 ==> more[0] == close;
    assert tail[0] in {',', close} || IsSpace(tail[0]);
    ValueRead(first, tail, strtod);
    if |items| == 1 {
      assert tail == after + [close] + rest;
      ExpectOther(after, ',', close, rest);
      ExpectFound(after, close, rest);
      assert ValuesOf(items) == [ValueOf(first)];
      hide ItemsWritten;
    } else {
      ExpectFound(after, ',', more);
      ItemsRead(items[1..], close, rest, strtod);
      hide ItemsWritten;
    }
  }

  lemma RegroupItem(w: string, a: string, comma: string, others: string, close: string, rest: string)
    ensures w + a + (comma + others) + close + rest == w + (a + comma + (others + close + rest))
  {
  }

  lemma KeyRead(n: Name, rest: string)
    requires GoodName(n) && rest != [] && (IsSpace(rest[0]) || rest[0] == ':')
    ensures ReadKey(NameWritten(n) + rest) == Ok((NameText(n), rest))
    ensures var s := Skip(NameWritten(n) + rest);
            s != [] && s[0] != '}'
  {
    match n
    case Name(space, name) =>
      NameRead(space, name, rest);
      assert (name + rest)[0] == name[0];
      hide ReadName, Skip;
    case QuotedName(text) =>
      QuotedRead(text, rest);
      hide ReadQuoted, Skip;
  }

  lemma {:induction false} ObjectRead(t: Tree, members: seq<Member>, rest: string, strtod: Strtod)
    requires Good(t) && t.TObject? && t.members == members
    ensures ReadValue(Written(t) + rest, strtod) == Ok((ValueOf(t), rest))
    decreases members, 1
  {
    var inner := if members == [] then t.inside else MembersWritten(members);
    var body := inner + ("}" + rest);
    assert Core(t) == "{" + (inner + "}");
    assert GoodMembers(members) && Spaces(t.inside);
    assert ValueOf(t) == Document(FieldsOf(members));
    hide Core, ReadValue, ReadObject, ReadMembers, Written, ValueOf, MembersWritten, Good, Skip;
    Bracketed("{", inner, "}", rest);
    OpensWith(t, body, rest, strtod);
    if members == [] {
      EmptyArray(t.inside, rest, strtod);
      assert ReadObject(body, strtod) == Ok((Document([]), rest));
    } else {
      MembersRead(members, rest, strtod);
      FirstMember(members, "}" + rest);
      ToRest(inner, "}", rest);
      FullObject(body, FieldsOf(members), rest, strtod);
    }
  }

  lemma ToRest(a: string, b: string, c: string)
    ensures a + b + c == a + (b + c)
  {
  }

  lemma FirstMember(members: seq<Member>, rest: string)
    requires members != [] && GoodMembers(members)
    ensures var s := Skip(MembersWritten(members) + rest);
            s != [] && s[0] != '}'
  {
    var m := members[0];
    var tail := m.colon + ":" + (Written(m.item.tree) + m.item.after +
                                 (if |members| == 1 then [] else "," + MembersWritten(members[1..])) + rest);
    assert MembersWritten(members) + rest == NameWritten(m.name) + tail;
    KeyRead(m.name, tail);
  }

  lemma {:induction false} MembersRead(members: seq<Member>, rest: string, strtod: Strtod)
    requires members != [] && GoodMembers(members)
    ensures ReadMembers(MembersWritten(members) + "}" + rest, strtod) == Ok((FieldsOf(members), rest))
    decreases members, 0
  {
    hide ReadKey, ReadValue, Expect, Written, ValueOf, NameText, NameWritten;
    var m := members[0];
    var after, more := m.item.after, (if |members| == 1 then [] else MembersWritten(members[1..])) + "}" + rest;
    var tail := after + (if |members| == 1 then "" else ",") + more;
    MemberText(members, rest);
    assert more[0] == '}' || |members| > 1;
    assert tail[0] in {'}', ','} || IsSpace(tail[0]);
    MemberRead(m, tail, strtod);
    hide MembersWritten;
    if |members| == 1 {
      assert tail == after + "}" + rest;
      ExpectOther(after, ',', '}', rest);
      ExpectFound(after, '}', rest);
      assert FieldsOf(members) == [Field(NameText(m.name), ValueOf(m.item.tree))];
    } else {
      ExpectFound(after, ',', more);
      MembersRead(members[1..], rest, strtod);
    }
  }

  lemma MemberText(members: seq<Member>, rest: string)
    requires members != []
    ensures var m := members[0];
            var more := (if |members| == 1 then [] else MembersWritten(members[1..])) + "}" + rest;
            var tail := m.item.after + (if |members| == 1 then "" else ",") + more;
            MembersWritten(members) + "}" + rest ==
            NameWritten(m.name) + (m.colon + ":" + (Written(m.item.tree) + tail))
  {
    var m := members[0];
    var comma, others := if |members| == 1 then "" else ",", if |members| == 1 then [] else MembersWritten(members[1..]);
    Regroup(NameWritten(m.name), m.colon, Written(m.item.tree), m.item.after, comma, others, rest);
    assert MembersWritten(members) ==
           NameWritten(m.name) + m.colon + ":" + Written(m.item.tree) + m.item.after + (comma + others) by {
      hide Written, NameWritten;
    }
    hide MembersWritten, Written, NameWritten;
  }

  lemma Regroup(n: string, c: string, w: string, a: string, comma: string, others: string, rest: string)
    ensures n + c + ":" + w + a + (comma + others) + "}" + rest ==
            n + (c + ":" + (w + (a + comma + (others + "}" + rest))))
  {
  }

  /** A name, its colon and its value, one after another. */
  lemma {:induction false} MemberRead(m: Member, tail: string, strtod: Strtod)
    requires GoodName(m.name) && Spaces(m.colon) && Good(m.item.tree) && Ends(tail)
    ensures var behindColon := Written(m.item.tree) + tail;
            var behindName := m.colon + ":" + behindColon;
            ReadKey(NameWritten(m.name) + behindName) == Ok((NameText(m.name), behindName)) &&
            Expect(':', behindName) == Ok(behindColon) &&
            ReadValue(behindColon, strtod) == Ok((ValueOf(m.item.tree), tail))
    decreases m.item.tree, 2
  {
    var behindColon := Written(m.item.tree) + tail;
    var behindName := m.colon + ":" + behindColon;
    assert behindName[0] == ':' || IsSpace(behindName[0]);
    KeyRead(m.name, behindName);
    ExpectFound(m.colon, ':', behindColon);
    ValueRead(m.item.tree, tail, strtod);
    hide ReadKey, ReadValue, Expect, Written, ValueOf, NameText, NameWritten;
  }

  // ---------------------------------------------------------------- statements

  /** A whole statement, with the spaces at each of its joints. */
  datatype Statement =
    Statement(beforeDb: string, afterDb: string, collection: Name, afterCollection: string, verb: Name,
              afterVerb: string, args: seq<Item>, inside: string, beforeEnd: string, semicolon: bool, atEnd: string)

  predicate GoodStatement(s: Statement) {
    s.collection.Name? && s.verb.Name? && GoodName(s.collection) && GoodName(s.verb) && GoodItems(s.args) &&
    Spaces(s.beforeDb) && Spaces(s.afterDb) && Spaces(s.afterCollection) && Spaces(s.afterVerb) &&
    Spaces(s.inside) && Spaces(s.beforeEnd) && Spaces(s.atEnd)
  }

  function EndWritten(s: Statement): string {
    s.beforeEnd + if s.semicolon then ";" + s.atEnd else []
  }

  function ArgumentsWritten(s: Statement): string {
    s.afterVerb + "(" + ((if s.args == [] then s.inside else ItemsWritten(s.args)) + ")" + EndWritten(s))
  }

  function StatementWritten(s: Statement): string {
    s.beforeDb + "db" + (s.afterDb + "." + (NameWritten(s.collection) + (s.afterCollection + "." + (
      NameWritten(s.verb) + ArgumentsWritten(s)))))
  }

  lemma NamedRead(n: Name, rest: string)
    requires n.Name? && GoodName(n) && rest != [] && !IsNameChar(rest[0])
    ensures ReadName(NameWritten(n) + rest) == Ok((n.name, rest))
  {
    NameRead(n.space, n.name, rest);
  }

  lemma {:induction false} AllSpaces(s: string)
    requires Spaces(s)
    ensures Skip(s) == []
  {
    if s != [] { AllSpaces(s[1..]); }
  }

  lemma EndRead(s: Statement)
    requires GoodStatement(s)
    ensures AtEnd(EndWritten(s))
  {
    AllSpaces(s.atEnd);
    AllSpaces(s.beforeEnd);
    if s.semicolon {
      ExpectFound(s.beforeEnd, ';', s.atEnd);
      assert s.beforeEnd + ";" + s.atEnd == EndWritten(s);
    } else {
      assert EndWritten(s) == s.beforeEnd;
    }
    hide Skip;
  }

  lemma ArgumentsRead(s: Statement, strtod: Strtod)
    requires GoodStatement(s)
    ensures ReadArguments(ArgumentsWritten(s), strtod) == Ok((ValuesOf(s.args), EndWritten(s)))
  {
    var rest := EndWritten(s);
    var inner := if s.args == [] then s.inside else ItemsWritten(s.args);
    ExpectFound(s.afterVerb, '(', inner + ")" + rest);
    if s.args == [] {
      ExpectFound(s.inside, ')', rest);
    } else {
      FirstItem(s.args, ")" + rest);
      ToRest(inner, ")", rest);
      assert Expect(')', inner + ")" + rest).Err?;
      ItemsRead(s.args, ')', rest, strtod);
    }
    hide Expect, ReadElements, ItemsWritten, ValuesOf, EndWritten;
  }

  /** Every way of writing a statement parses back to its collection, verb and arguments, and the
      parse takes the whole of it. */
  lemma StatementRead(s: Statement, strtod: Strtod)
    requires GoodStatement(s)
    ensures ReadCall(StatementWritten(s), strtod) == Ok(ShellCall(s.collection.name, s.verb.name, ValuesOf(s.args)))
  {
    var afterVerb := ArgumentsWritten(s);
    var afterDot := NameWritten(s.verb) + afterVerb;
    var afterCollection := s.afterCollection + "." + afterDot;
    var collection := NameWritten(s.collection) + afterCollection;
    var afterDb := s.afterDb + "." + collection;
    FirstIs(s.afterVerb, '(', afterVerb);
    FirstIs(s.afterCollection, '.', afterCollection);
    FirstIs(s.afterDb, '.', afterDb);
    NameRead(s.beforeDb, "db", afterDb);
    ExpectFound(s.afterDb, '.', collection);
    NamedRead(s.collection, afterCollection);
    ExpectFound(s.afterCollection, '.', afterDot);
    NamedRead(s.verb, afterVerb);
    ArgumentsRead(s, strtod);
    EndRead(s);
    hide ReadName, Expect, ReadArguments, AtEnd, NameWritten, ArgumentsWritten, ValuesOf;
  }

  lemma FirstIs(space: string, c: char, s: string)
    requires Spaces(space) && !IsSpace(c) && !IsNameChar(c) && space + [c] <= s
    ensures s != [] && !IsNameChar(s[0])
  {
    assert s[..|space| + 1] == space + [c];
    assert s[0] == (space + [c])[0];
  }

  // ---------------------------------------------------------------- every value can be written

  /** Null, booleans, 64-bit integers, strings, ObjectIds, and arrays and objects of them. */
  predicate InShell(v: Value)
    decreases v
  {
    match v
    case Null => true
    case Bool(_) => true
    case Int64(n) => -(TWO_63 as int) <= n < TWO_63
    case Utf8(_) => true
    case ObjectId(data) => |data| == 12 && forall k :: 0 <= k < |data| ==> data[k] < 256 as char
    case Document(fields) => FieldsInShell(fields)
    case Array(fields) => FieldsInShell(fields) && fields == Elements(Values(fields))
    case _ => false
  }

  predicate FieldsInShell(fields: seq<Field>)
    decreases fields
  {
    fields == [] || (InShell(fields[0].value) && FieldsInShell(fields[1..]))
  }

  function HexDigit(n: nat): (c: char)
    requires n < 16
    ensures IsHex(c) && HexValue(c) == n
  {
    if n < 10 then ('0' as int + n) as char else ('a' as int + n - 10) as char
  }

  function HexText(bytes: string): (hex: string)
    requires forall k :: 0 <= k < |bytes| ==> bytes[k] < 256 as char
    ensures |hex| == 2 * |bytes| && forall k :: 0 <= k < |hex| ==> IsHex(hex[k])
    ensures Unhex(hex) == bytes
  {
    if bytes == [] then []
    else
      var n := bytes[0] as int;
      var two := [HexDigit(n / 16), HexDigit(n % 16)];
      var rest := HexText(bytes[1..]);
      assert (two + rest)[2..] == rest && bytes == [bytes[0]] + bytes[1..];
      two + rest
  }

  function Spelled(s: string): (q: Quoted)
    ensures GoodQuoted(q) && CharsText(q.chars) == s
  {
    Quoted([], '"', Chars(s))
  }

  function Chars(s: string): (chars: seq<Char>)
    ensures CharsText(chars) == s
    ensures forall k :: 0 <= k < |chars| && chars[k].Plain? ==> chars[k].c != '"' && chars[k].c != '\\'
  {
    if s == [] then [] else [if s[0] == '"' || s[0] == '\\' then Escape(s[0]) else Plain(s[0])] + Chars(s[1..])
  }

  lemma {:induction false} DecimalDigits(n: nat)
    ensures Decimal(n) != [] && forall k :: 0 <= k < |Decimal(n)| ==> IsDigit(Decimal(n)[k])
    ensures DigitsValue(Decimal(n), 0) == n
  {
    if n >= 10 {
      DecimalDigits(n / 10);
      DigitsAppend(Decimal(n / 10), Decimal(n % 10), 0);
      assert Decimal(n) == Decimal(n / 10) + Decimal(n % 10);
    }
    LastDigit(n % 10, 0);
    LastDigit(n % 10, n / 10);
  }

  lemma LastDigit(n: nat, so: nat)
    requires n < 10
    ensures DigitsValue(Decimal(n), so) == 10 * so + n && IsDigit(Decimal(n)[0])
  {
    assert Decimal(n) == ["0123456789"[n]] && "0123456789"[n] as int - '0' as int == n;
    assert Decimal(n)[1..] == [];
  }

  lemma {:induction false} DigitsAppend(a: string, b: string, so: nat)
    requires forall k :: 0 <= k < |a| ==> IsDigit(a[k])
    ensures DigitsValue(a + b, so) == DigitsValue(b, DigitsValue(a, so))
  {
    if a == [] {
      assert a + b == b;
    } else {
      assert (a + b)[1..] == a[1..] + b;
      DigitsAppend(a[1..], b, 10 * so + (a[0] as int - '0' as int));
    }
  }

  function IntTree(n: int): (t: Tree)
    requires -(TWO_63 as int) <= n < TWO_63
    ensures Good(t) && ValueOf(t) == Int64(n)
  {
    var m: nat := if n < 0 then -n else n;
    DecimalDigits(m);
    assert n < 0 ==> ("-" + Decimal(m))[1..] == Decimal(m);
    assert [] + Decimal(m) == Decimal(m);
    TInt([], n < 0, Decimal(m))
  }

  /** One way to write a value. */
  function TreeOf(v: Value): (t: Tree)
    requires InShell(v)
    ensures Good(t) && ValueOf(t) == v
    decreases v
  {
    match v
    case Null => TNull([])
    case Bool(b) => TBool([], b)
    case Int64(n) => IntTree(n)
    case Utf8(text) => TString(Spelled(text))
    case ObjectId(data) => TOid([], [], Spelled(HexText(data)), [])
    case Document(fields) => TObject([], MembersOf(fields), [])
    case Array(fields) =>
      var items := ItemsOf(fields);
      TArray([], items, [])
  }

  function ItemsOf(fields: seq<Field>): (items: seq<Item>)
    requires FieldsInShell(fields)
    ensures GoodItems(items) && ValuesOf(items) == Values(fields)
    decreases fields
  {
    if fields == [] then [] else [Item(TreeOf(fields[0].value), [])] + ItemsOf(fields[1..])
  }

  function MembersOf(fields: seq<Field>): (members: seq<Member>)
    requires FieldsInShell(fields)
    ensures GoodMembers(members) && FieldsOf(members) == fields
    decreases fields
  {
    if fields == [] then []
    else [Member(QuotedName(Spelled(fields[0].key)), [], Item(TreeOf(fields[0].value), []))] + MembersOf(fields[1..])
  }

  /** Every value of the shell's kinds can be written, and what is written reads back as the value. */
  lemma WritesReadBack(v: Value, rest: string, strtod: Strtod)
    requires InShell(v) && Ends(rest)
    ensures ReadValue(Written(TreeOf(v)) + rest, strtod) == Ok((v, rest))
  {
    ValueRead(TreeOf(v), rest, strtod);
  }

  // ---------------------------------------------------------------- the reader

  /** A step of the reader did what the grammar says: the same value or refusal, the same text left. */
  predicate Reads<T(==)>(spec: Read<T>, r: Result<T>, left: string) {
    match spec
    case Err(e) => r == Err(e)
    case Ok((v, rest)) => r == Ok(v) && left == rest
  }

  /** The elements read so far, and what the grammar says of the rest. */
  predicate Goes<T(==)>(whole: Read<seq<T>>, done: seq<T>, rest: Read<seq<T>>) {
    match rest
    case Err(e) => whole == Err(e)
    case Ok((more, last)) => whole == Ok((done + more, last))
  }

  lemma GoesOn<T>(whole: Read<seq<T>>, done: seq<T>, one: T, rest: Read<seq<T>>, next: Read<seq<T>>)
    requires Goes(whole, done, rest)
    requires match next case Err(e) => rest == Err(e) case Ok((more, last)) => rest == Ok(([one] + more, last))
    ensures Goes(whole, done + [one], next)
  {
    if next.Ok? { assert done + ([one] + next.value.0) == done + [one] + next.value.0; }
  }

  lemma DidRead<T>(spec: Read<T>, r: Result<T>, left: string)
    requires spec.Ok? && r == Ok(spec.value.0) && left == spec.value.1
    ensures Reads(spec, r, left)
  {
  }

  lemma SliceOf(s: string, start: nat, n: nat)
    requires start + n <= |s|
    ensures s[start..][..n] == s[start..start + n] && s[start..][n..] == s[start + n..]
  {
  }

  lemma NumberRead(s: string, t: string, strtod: Strtod)
    requires t == Skip(s)
    ensures var n := LiteralLength(t);
            ReadNumber(s, strtod) == Ok((NumberOf(t[..n], HasReal(t, n), strtod), t[n..]))
  {
    hide NumberOf, HasReal, Skip, LiteralLength;
  }

  lemma RealStart(t: string)
    ensures !HasReal(t, 0)
    ensures t != [] && !IsReal(t[0]) ==> !HasReal(t, 1)
  {
  }

  lemma RealGrows(t: string, n: nat)
    requires n < |t|
    ensures HasReal(t, n + 1) <==> HasReal(t, n) || IsReal(t[n])
  {
  }

  class Reader {
    const text: string
    const strtod: Strtod
    var pos: nat

    ghost predicate Valid()
      reads this
    {
      pos <= |text|
    }

    function Left(): string
      requires Valid()
      reads this
    {
      text[pos..]
    }

    constructor (text: string, strtod: Strtod)
      ensures Valid() && Left() == text && this.strtod == strtod
    {
      this.text, this.strtod, pos := text, strtod, 0;
    }

    method SkipSpace()
      requires Valid()
      modifies this
      ensures Valid() && Left() == Skip(old(Left())) && pos >= old(pos)
    {
      while pos < |text| && IsSpace(text[pos])
        invariant Valid() && Skip(Left()) == Skip(old(Left())) && pos >= old(pos)
      {
        assert Left()[1..] == text[pos + 1..];
        pos := pos + 1;
      }
    }

    method ExpectChar(c: char) returns (ok: bool)
      requires Valid()
      modifies this
      ensures Valid() && pos >= old(pos)
      ensures ok == Expect(c, old(Left())).Ok?
      ensures Left() == if ok then Expect(c, old(Left())).value else Skip(old(Left()))
    {
      SkipSpace();
      if pos >= |text| || text[pos] != c { return false; }
      assert Left()[1..] == text[pos + 1..];
      pos := pos + 1;
      return true;
    }

    method Identifier() returns (r: Result<string>)
      requires Valid()
      modifies this
      ensures Valid() && pos >= old(pos) && Reads(ReadName(old(Left())), r, Left())
    {
      hide Skip;
      SkipSpace();
      var start := pos;
      ghost var t := Left();
      while pos < |text| && IsNameChar(text[pos])
        invariant start <= pos <= |text| && NameLength(t) == pos - start + NameLength(Left())
      {
        assert Left()[1..] == text[pos + 1..];
        pos := pos + 1;
      }
      if pos == start { return Err(FailedToParse); }
      assert text[start..pos] == t[..pos - start] && Left() == t[pos - start..];
      return Ok(text[start..pos]);
    }

    method QuotedString() returns (r: Result<string>)
      requires Valid()
      modifies this
      ensures Valid() && pos >= old(pos) && Reads(ReadQuoted(old(Left())), r, Left())
    {
      hide Skip;
      SkipSpace();
      if pos >= |text| || !IsQuote(text[pos]) { return Err(FailedToParse); }
      var quote := text[pos];
      assert Left()[1..] == text[pos + 1..];
      pos := pos + 1;
      hide ReadChars;
      r := Chars(quote);
    }

    /** The text up to the closing quote. */
    method Chars(quote: char) returns (r: Result<string>)
      requires Valid()
      modifies this
      ensures Valid() && pos >= old(pos) && Reads(ReadChars(old(Left()), quote), r, Left())
    {
      hide Unescaped;
      ghost var t := Left();
      var out: string := [];
      assert forall more: string :: out + more == more;
      while true
        invariant Valid() && pos >= old(pos)
        invariant Goes(ReadChars(t, quote), out, ReadChars(Left(), quote))
        decreases |text| - pos
      {
        if pos >= |text| { return Err(FailedToParse); }
        var c := text[pos];
        ghost var here := ReadChars(Left(), quote);
        assert Left()[1..] == text[pos + 1..];
        pos := pos + 1;
        if c == quote {
          assert out + [] == out;
          return Ok(out);
        }
        if c != '\\' {
          GoesOn(ReadChars(t, quote), out, c, here, ReadChars(Left(), quote));
          out := out + [c];
          continue;
        }
        if pos >= |text| { return Err(FailedToParse); }
        var escaped := Unescaped(text[pos]);
        assert text[pos - 1..][2..] == text[pos + 1..] && text[pos - 1..][1] == text[pos];
        pos := pos + 1;
        GoesOn(ReadChars(t, quote), out, escaped, here, ReadChars(Left(), quote));
        out := out + [escaped];
      }
    }

    method Number() returns (r: Result<Value>)
      requires Valid()
      modifies this
      ensures Valid() && pos >= old(pos) && Reads(ReadNumber(old(Left()), strtod), r, Left())
    {
      hide NumberOf, HasReal, Skip, NumberLength, LiteralLength, ReadNumber, Reads;
      SkipSpace();
      var start := pos;
      ghost var t := Left();
      assert t == text[start..];
      var real_ := ScanNumber();
      SliceOf(text, start, pos - start);
      var literal := text[start..pos];
      NumberRead(old(Left()), t, strtod);
      r := Ok(NumberOf(literal, real_, strtod));
      DidRead(Ok((NumberOf(literal, real_, strtod), text[pos..])), r, Left());
    }

    /** Moves over a number's text and tells whether it has a point or an exponent. */
    method ScanNumber() returns (real_: bool)
      requires Valid()
      modifies this
      ensures Valid() && pos == old(pos) + LiteralLength(old(Left()))
      ensures real_ == HasReal(old(Left()), LiteralLength(old(Left())))
    {
      hide HasReal;
      ghost var t, start := Left(), pos;
      RealStart(t);
      if pos < |text| && (text[pos] == '-' || text[pos] == '+') {
        assert Left()[1..] == text[pos + 1..];
        pos := pos + 1;
      }
      ghost var body, signed := Left(), pos;
      real_ := false;
      while pos < |text| && (IsDigit(text[pos]) || IsReal(text[pos]) || text[pos] == '+' || text[pos] == '-')
        invariant signed <= pos <= |text|
        invariant NumberLength(body) == pos - signed + NumberLength(Left())
        invariant real_ == HasReal(t, pos - start)
      {
        assert Left()[1..] == text[pos + 1..] && text[pos] == t[pos - start];
        RealGrows(t, pos - start);
        real_ := real_ || IsReal(text[pos]);
        pos := pos + 1;
      }
    }

    method Word() returns (r: Result<Value>)
      requires Valid()
      modifies this
      ensures Valid() && pos >= old(pos) && Reads(ReadWord(old(Left())), r, Left())
    {
      hide Unhex;
      var name := Identifier();
      if name.Err? { return Err(name.refusal); }
      if name.value == "true" || name.value == "false" { return Ok(Bool(name.value == "true")); }
      if name.value == "null" { return Ok(Null); }
      if name.value != "ObjectId" { return Err(NotImplemented); }
      var ok := ExpectChar('(');
      if !ok { return Err(FailedToParse); }
      var hex := QuotedString();
      if hex.Err? { return Err(hex.refusal); }
      ok := ExpectChar(')');
      if !ok { return Err(FailedToParse); }
      if !ValidOid(hex.value) { return Err(BadValue); }
      return Ok(ObjectId(Unhex(hex.value)));
    }

    method ReadAny() returns (r: Result<Value>)
      requires Valid()
      modifies this
      ensures Valid() && pos >= old(pos) && Reads(ReadValue(old(Left()), strtod), r, Left())
      decreases |text| - pos, 1
    {
      hide ReadObject, ReadArray, ReadQuoted, ReadNumber, ReadWord;
      ghost var s := Left();
      SkipSpace();
      ghost var t := Left();
      SkipAgain(s);
      if pos >= |text| { return Err(FailedToParse); }
      var c := text[pos];
      if c == '{' {
        assert Left()[1..] == text[pos + 1..];
        pos := pos + 1;
        r := ReadObjectBody();
      } else if c == '[' {
        assert Left()[1..] == text[pos + 1..];
        pos := pos + 1;
        r := ReadArrayBody();
      } else if IsQuote(c) {
        var text := QuotedString();
        r := if text.Err? then Err(text.refusal) else Ok(Utf8(text.value));
      } else if c == '-' || IsDigit(c) {
        r := Number();
      } else {
        r := Word();
      }
    }

    /** The members of an object, after its brace. */
    method ReadObjectBody() returns (r: Result<Value>)
      requires Valid()
      modifies this
      ensures Valid() && pos >= old(pos) && Reads(ReadObject(old(Left()), strtod), r, Left())
      decreases |text| - pos, 5
    {
      hide ReadKey, ReadValue, Skip, Expect;
      var empty := ExpectChar('}');
      if empty { return Ok(Document([])); }
      ghost var t := Left();
      var members: seq<Field> := [];
      ghost var whole := ReadMembers(t, strtod);
      if whole.Ok? { assert members + whole.value.0 == whole.value.0; }
      while true
        invariant Valid() && pos >= old(pos) && Goes(whole, members, ReadMembers(Left(), strtod))
        decreases |text| - pos
      {
        ghost var here := Left();
        var key := Key();
        if key.Err? { return Err(key.refusal); }
        var ok := ExpectChar(':');
        if !ok { return Err(FailedToParse); }
        var v := ReadAny();
        if v.Err? { return Err(v.refusal); }
        ghost var after := Left();
        ok := ExpectChar(',');
        if !ok {
          EndOfList(after);
          ok := ExpectChar('}');
          if !ok { return Err(FailedToParse); }
          return Ok(Document(members + [Field(key.value, v.value)]));
        }
        GoesOn(whole, members, Field(key.value, v.value), ReadMembers(here, strtod), ReadMembers(Left(), strtod));
        members := members + [Field(key.value, v.value)];
      }
    }

    method Key() returns (r: Result<string>)
      requires Valid()
      modifies this
      ensures Valid() && pos >= old(pos) && Reads(ReadKey(old(Left())), r, Left())
      ensures r.Ok? ==> pos > old(pos)
    {
      SkipSpace();
      if pos >= |text| { return Err(FailedToParse); }
      if IsQuote(text[pos]) {
        r := QuotedString();
      } else {
        r := Identifier();
      }
    }

    /** The values of an array or an argument list, up to and with the closing character. */
    method ReadUntil(close: char) returns (r: Result<seq<Value>>)
      requires Valid()
      modifies this
      ensures Valid() && pos >= old(pos) && Reads(ReadElements(old(Left()), close, strtod), r, Left())
      decreases |text| - pos, 2
    {
      hide ReadValue, Skip, Expect;
      var values: seq<Value> := [];
      ghost var whole := ReadElements(Left(), close, strtod);
      if whole.Ok? { assert values + whole.value.0 == whole.value.0; }
      while true
        invariant Valid() && pos >= old(pos) && Goes(whole, values, ReadElements(Left(), close, strtod))
        decreases |text| - pos
      {
        ghost var here := Left();
        var v := ReadAny();
        if v.Err? { return Err(v.refusal); }
        ghost var after := Left();
        var ok := ExpectChar(',');
        if !ok {
          EndOfList(after);
          ok := ExpectChar(close);
          if !ok { return Err(FailedToParse); }
          return Ok(values + [v.value]);
        }
        GoesOn(whole, values, v.value, ReadElements(here, close, strtod), ReadElements(Left(), close, strtod));
        values := values + [v.value];
      }
    }

    /** The elements of an array, after its bracket. */
    method ReadArrayBody() returns (r: Result<Value>)
      requires Valid()
      modifies this
      ensures Valid() && pos >= old(pos) && Reads(ReadArray(old(Left()), strtod), r, Left())
      decreases |text| - pos, 3
    {
      hide ReadElements, Skip;
      var empty := ExpectChar(']');
      if empty { return Ok(Array([])); }
      var values := ReadUntil(']');
      r := if values.Err? then Err(values.refusal) else Ok(Array(Elements(values.value)));
    }

    /** parse_shell_call. */
    method ParseShellCall() returns (r: Result<ShellCall>)
      requires Valid() && pos == 0
      modifies this
      ensures r == ReadCall(text, strtod)
    {
      hide ReadName, ReadElements, Skip;
      assert Left() == text;
      var db := Identifier();
      if db.Err? { return Err(db.refusal); }
      if db.value != "db" { return Err(FailedToParse); }
      var ok := ExpectChar('.');
      if !ok { return Err(FailedToParse); }
      var collection := Identifier();
      if collection.Err? { return Err(collection.refusal); }
      ok := ExpectChar('.');
      if !ok { return Err(FailedToParse); }
      var verb := Identifier();
      if verb.Err? { return Err(verb.refusal); }
      var args := Arguments();
      if args.Err? { return Err(args.refusal); }
      ghost var last := Left();
      ok := ExpectChar(';');
      SkipAgain(last);
      SkipSpace();
      return if pos >= |text| then Ok(ShellCall(collection.value, verb.value, args.value)) else Err(FailedToParse);
    }

    method Arguments() returns (r: Result<seq<Value>>)
      requires Valid()
      modifies this
      ensures Valid() && pos >= old(pos) && Reads(ReadArguments(old(Left()), strtod), r, Left())
    {
      hide ReadElements, Skip;
      var ok := ExpectChar('(');
      if !ok { return Err(FailedToParse); }
      ghost var inside := Left();
      ok := ExpectChar(')');
      if ok { return Ok([]); }
      ElementsAfterSkip(inside, ')', strtod);
      r := ReadUntil(')');
    }
  }

  lemma EndOfList(s: string)
    ensures forall c :: Expect(c, Skip(s)) == Expect(c, s)
  {
    SkipAgain(s);
  }
}
